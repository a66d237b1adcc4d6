/** `exec_more_info` (src/db_connection.py): turns the reply of an
    `sp_BlitzIndex` "more info" command into per-index details and
    missing-index findings for one sp_BlitzIndex record. */
module MoreInfo {
  import opened Wrappers
  import opened Text
  import opened Values
  import opened Cursor
  import PrettyJson

  /** The column of the first result set that is coerced to 0/1. */
  const FkColumn: string := "Referenced by FK?"
  const FkField: string := "is_referenced_by_foreign_key"

  /** From sp_BlitzIndex column to index-detail field, in the source's order. */
  const IndexColumnMapping: seq<(string, string)> := [
    ("Details: db_schema.table.index(indexid)", "db_schema_object_indexid"),
    ("Definition: [Property] ColumnName {datatype maxbytes}", "index_definition"),
    ("Secret Columns", "secret_columns"),
    ("Fillfactor", "fill_factor"),
    ("Usage Stats", "index_usage_summary"),
    ("Op Stats", "index_op_stats"),
    ("Size", "index_size_summary"),
    ("Compression Type", "partition_compression_detail"),
    ("Lock Waits", "index_lock_wait_summary"),
    (FkColumn, FkField),
    ("FK Covered by Index?", "fks_covered_by_index"),
    ("Last User Seek", "last_user_seek"),
    ("Last User Scan", "last_user_scan"),
    ("Last User Lookup", "last_user_lookup"),
    ("Last User Write", "last_user_update"),
    ("Created", "create_date"),
    ("Last Modified", "modify_date"),
    ("Page Latch Wait Count", "page_latch_wait_count"),
    ("Page Latch Wait Time (D:H:M:S)", "page_latch_wait_time"),
    ("Page IO Latch Wait Count", "page_io_latch_wait_count"),
    ("Page IO Latch Wait Time (D:H:M:S)", "page_io_latch_wait_time"),
    ("Create TSQL", "create_tsql"),
    ("Drop TSQL", "drop_tsql")
  ]

  /** One index detail: the owning record's `pbi_id` and the mapped fields. */
  datatype IndexDetail = IndexDetail(pbiId: Option<int>, fields: map<string, Value>)

  /** One missing-index finding of the second result set. */
  datatype FindingDetail = FindingDetail(
    pbiId: Option<int>,
    finding: Value,
    url: Value,
    estimatedBenefit: Value,
    missingIndexRequest: Value,
    estimatedImpact: Value,
    createTsql: Value,
    sampleQueryPlan: Value)

  /** No target field is named twice. */
  predicate DistinctTargets(pairs: seq<(string, string)>) {
    forall i, j :: 0 <= i < j < |pairs| ==> pairs[i].1 != pairs[j].1
  }

  /** A cheap witness of difference: length, first and last character. */
  function Signature(t: string): (int, char, char) {
    if t == [] then (0, ' ', ' ') else (|t|, t[0], t[|t| - 1])
  }

  /** The signatures of the mapping's targets, in order. */
  const TargetSignatures: seq<(int, char, char)> := [
    (24, 'd', 'd'), (16, 'i', 'n'), (14, 's', 's'), (11, 'f', 'r'), (19, 'i', 'y'), (14, 'i', 's'),
    (18, 'i', 'y'), (28, 'p', 'l'), (23, 'i', 'y'), (28, 'i', 'y'), (20, 'f', 'x'), (14, 'l', 'k'),
    (14, 'l', 'n'), (16, 'l', 'p'), (16, 'l', 'e'), (11, 'c', 'e'), (11, 'm', 'e'), (21, 'p', 't'),
    (20, 'p', 'e'), (24, 'p', 't'), (23, 'p', 'e'), (11, 'c', 'l'), (9, 'd', 'l')]

  lemma TargetSignaturesMatch()
    ensures |TargetSignatures| == |IndexColumnMapping|
    ensures forall j :: 0 <= j < |IndexColumnMapping| ==> Signature(IndexColumnMapping[j].1) == TargetSignatures[j]
  {
    SignaturesMatchBetween(0, 8);
    SignaturesMatchBetween(8, 16);
    SignaturesMatchBetween(16, 23);
  }

  lemma SignaturesMatchBetween(lo: int, hi: int)
    requires (lo, hi) == (0, 8) || (lo, hi) == (8, 16) || (lo, hi) == (16, 23)
    ensures |TargetSignatures| == |IndexColumnMapping| == 23
    ensures forall j :: lo <= j < hi ==> Signature(IndexColumnMapping[j].1) == TargetSignatures[j]
  {
    if lo == 0 {
      assert forall j :: 0 <= j < 8 ==> Signature(IndexColumnMapping[j].1) == TargetSignatures[j];
    } else if lo == 8 {
      assert forall j :: 8 <= j < 16 ==> Signature(IndexColumnMapping[j].1) == TargetSignatures[j];
    } else {
      assert forall j :: 16 <= j < 23 ==> Signature(IndexColumnMapping[j].1) == TargetSignatures[j];
    }
  }

  lemma TargetSignaturesDistinct()
    ensures forall i, j :: 0 <= i < j < |TargetSignatures| ==> TargetSignatures[i] != TargetSignatures[j]
  {
  }

  /** Each index-detail field is fed by exactly one sp_BlitzIndex column. */
  lemma IndexMappingTargetsDistinct()
    ensures DistinctTargets(IndexColumnMapping)
  {
    TargetSignaturesMatch();
    TargetSignaturesDistinct();
  }

  /** The stored value of a mapped field: a textual `Referenced by FK?` becomes
      1 when it reads `true` in any letter case, and 0 otherwise. */
  function Coerce(field: string, v: Value): (r: Value)
    ensures field == FkField && v.Str? ==> r == Int(if Lower(v.s) == "true" then 1 else 0)
    ensures field != FkField || !v.Str? ==> r == v
  {
    if field == FkField && v.Str? then Int(if Lower(v.s) == "true" then 1 else 0) else v
  }

  /** The fields mapped from `row`, walking `pairs` in order: a field is set
      exactly when its source column is present, to that column's value. */
  function MapColumns(pairs: seq<(string, string)>, row: Row): (m: map<string, Value>)
    requires DistinctTargets(pairs)
    ensures forall j :: 0 <= j < |pairs| ==> (pairs[j].1 in m <==> pairs[j].0 in row)
    ensures forall j :: 0 <= j < |pairs| && pairs[j].0 in row ==> m[pairs[j].1] == Coerce(pairs[j].1, row[pairs[j].0])
    ensures forall t :: t in m ==> exists j :: 0 <= j < |pairs| && pairs[j].1 == t
    decreases |pairs|
  {
    if pairs == [] then map[]
    else
      var last := pairs[|pairs| - 1];
      var init := pairs[..|pairs| - 1];
      assert forall j :: 0 <= j < |init| ==> init[j] == pairs[j];
      var m := MapColumns(init, row);
      assert forall j :: 0 <= j < |init| ==> init[j].1 != last.1;
      if last.0 in row then m[last.1 := Coerce(last.1, row[last.0])] else m
  }

  /** One index detail from one row of the first described set; `None` when
      converting the row raises. */
  function IndexDetailOf(pbiId: Option<int>, columns: seq<string>, row: seq<Value>, formatSql: Value -> Option<Value>): (r: Option<IndexDetail>)
    ensures r.None? <==> PrettyJson.SafePrettyJson(ZipRow(columns, row), formatSql).None?
    ensures r.Some? ==> r.value.pbiId == pbiId
  {
    IndexMappingTargetsDistinct();
    match PrettyJson.SafePrettyJson(ZipRow(columns, row), formatSql)
    case None => None
    case Some(src) => Some(IndexDetail(pbiId, MapColumns(IndexColumnMapping, src)))
  }

  /** One finding from one row of the second set; absent columns read as `None`. */
  function FindingOf(pbiId: Option<int>, columns: seq<string>, row: seq<Value>): FindingDetail {
    var d := ZipRow(columns, row);
    FindingDetail(pbiId, Get(d, "Finding"), Get(d, "URL"), Get(d, "Estimated Benefit"),
      Get(d, "Missing Index Request"), Get(d, "Estimated Impact"), Get(d, "Create TSQL"),
      Get(d, "Sample Query Plan"))
  }

  /** The index details: every row but the first of the first set with a
      non-empty description, after skipping sets without one. The loop
      appends one detail per row until a row raises; the flag says whether
      one did, and then the details are those of the rows before it. */
  function IndexDetails(pbiId: Option<int>, sets: seq<ResultSet>, formatSql: Value -> Option<Value>): (r: (seq<IndexDetail>, bool))
    ensures var p := SkipUndescribed(sets, 0);
      && (!Described(sets, p) ==> r == ([], false))
      && (Described(sets, p) ==>
            var rows := sets[p].rows;
            var columns := sets[p].columns.value;
            && (r.1 <==> exists k :: 1 <= k < |rows| && IndexDetailOf(pbiId, columns, rows[k], formatSql).None?)
            && |r.0| <= (if |rows| == 0 then 0 else |rows| - 1)
            && (!r.1 ==> |r.0| == (if |rows| == 0 then 0 else |rows| - 1))
            && (forall k :: 0 <= k < |r.0| ==> IndexDetailOf(pbiId, columns, rows[k + 1], formatSql) == Some(r.0[k]))
            && (r.1 ==> |r.0| + 1 < |rows| && IndexDetailOf(pbiId, columns, rows[|r.0| + 1], formatSql).None?))
    ensures forall k :: 0 <= k < |r.0| ==> r.0[k].pbiId == pbiId
  {
    var p := SkipUndescribed(sets, 0);
    if !Described(sets, p) || sets[p].rows == [] then ([], false)
    else
      var rows := sets[p].rows;
      var columns := sets[p].columns.value;
      var step := row => IndexDetailOf(pbiId, columns, row, formatSql);
      MapUntilFailureSkipFirst(rows, step);
      MapUntilFailure(rows[1..], step)
  }

  /** The findings: every row of the set after that one, when it exists and
      has a non-empty description. */
  function Findings(pbiId: Option<int>, sets: seq<ResultSet>): (r: seq<FindingDetail>)
    ensures var q := SkipUndescribed(sets, 0) + 1;
      && (q < |sets| && Described(sets, q) ==>
            && |r| == |sets[q].rows|
            && forall k :: 0 <= k < |r| ==> r[k] == FindingOf(pbiId, sets[q].columns.value, sets[q].rows[k]))
      && (!(q < |sets| && Described(sets, q)) ==> r == [])
    ensures forall k :: 0 <= k < |r| ==> r[k].pbiId == pbiId
  {
    var q := SkipUndescribed(sets, 0) + 1;
    if q < |sets| && Described(sets, q) then
      var columns := sets[q].columns.value;
      seq(|sets[q].rows|, k requires 0 <= k < |sets[q].rows| => FindingOf(pbiId, columns, sets[q].rows[k]))
    else []
  }

  /** `exec_more_info`: the index details and findings it appends, and
      whether the call raised. A row that raises stops the call before the
      second result set is read, so no finding is appended. */
  function ExecMoreInfo(pbiId: Option<int>, sets: seq<ResultSet>, formatSql: Value -> Option<Value>): (r: (seq<IndexDetail>, seq<FindingDetail>, bool))
    ensures (r.0, r.2) == IndexDetails(pbiId, sets, formatSql)
    ensures r.1 == if r.2 then [] else Findings(pbiId, sets)
  {
    var (details, raised) := IndexDetails(pbiId, sets, formatSql);
    (details, if raised then [] else Findings(pbiId, sets), raised)
  }

  /** With no described set there is nothing to report and nothing raises. */
  lemma NoDescriptionNoOutput(pbiId: Option<int>, sets: seq<ResultSet>, formatSql: Value -> Option<Value>)
    requires forall j :: 0 <= j < |sets| ==> sets[j].columns.None?
    ensures ExecMoreInfo(pbiId, sets, formatSql) == ([], [], false)
  {
  }

  /** The coerced foreign-key flag of every index detail is 0 or 1 whenever
      the server sent it as text, and is the server's value otherwise. */
  lemma ForeignKeyFlag(pbiId: Option<int>, columns: seq<string>, row: seq<Value>, formatSql: Value -> Option<Value>)
    ensures var d := IndexDetailOf(pbiId, columns, row, formatSql);
      var src := PrettyJson.SafePrettyJson(ZipRow(columns, row), formatSql);
      && (d.Some? <==> src.Some?)
      && (d.Some? ==> (FkField in d.value.fields <==> FkColumn in src.value))
      && (d.Some? && FkColumn in src.value && src.value[FkColumn].Str? ==>
            d.value.fields[FkField] == Int(0) || d.value.fields[FkField] == Int(1))
      && (d.Some? && FkColumn in src.value && !src.value[FkColumn].Str? ==>
            d.value.fields[FkField] == src.value[FkColumn])
  {
    IndexMappingTargetsDistinct();
    FkPairPosition();
    var src := PrettyJson.SafePrettyJson(ZipRow(columns, row), formatSql);
    if src.Some? {
      FlagOfPair(IndexColumnMapping, src.value, 9);
    }
  }

  lemma FkPairPosition()
    ensures |IndexColumnMapping| > 9 && IndexColumnMapping[9] == (FkColumn, FkField)
  {
  }

  /** The flag a mapping produces through its foreign-key pair at `j`. */
  lemma FlagOfPair(pairs: seq<(string, string)>, src: Row, j: int)
    requires DistinctTargets(pairs) && 0 <= j < |pairs| && pairs[j] == (FkColumn, FkField)
    ensures var m := MapColumns(pairs, src);
      && (FkField in m <==> FkColumn in src)
      && (FkColumn in src && src[FkColumn].Str? ==> m[FkField] == Int(0) || m[FkField] == Int(1))
      && (FkColumn in src && !src[FkColumn].Str? ==> m[FkField] == src[FkColumn])
  {
  }
}
