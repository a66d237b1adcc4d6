/** The static schema catalog: the three supported diagnostic procedures,
    the record shape each one produces, and the lookup tables keyed by the
    procedure's canonical name (src/models.py). */
module Catalog {
  import opened Wrappers
  import opened Values

  datatype Procedure = Blitz | BlitzIndex | BlitzCache

  /** The canonical (stored-procedure) name of each kind. */
  function Name(p: Procedure): string {
    match p
    case Blitz => "sp_Blitz"
    case BlitzIndex => "sp_BlitzIndex"
    case BlitzCache => "sp_BlitzCache"
  }

  const ProcedureNames: set<string> := {"sp_Blitz", "sp_BlitzIndex", "sp_BlitzCache"}

  /** The kind a canonical name denotes; `None` for any other string. */
  function FromName(name: string): (r: Option<Procedure>)
    ensures r.Some? <==> name in ProcedureNames
    ensures r.Some? ==> Name(r.value) == name
  {
    if name == "sp_Blitz" then Some(Blitz)
    else if name == "sp_BlitzIndex" then Some(BlitzIndex)
    else if name == "sp_BlitzCache" then Some(BlitzCache)
    else None
  }

  lemma NameRoundTrip(p: Procedure)
    ensures Name(p) in ProcedureNames
    ensures FromName(Name(p)) == Some(p)
  {
  }

  // ---------------------------------------------------------------------------
  // Record shapes
  // ---------------------------------------------------------------------------

  /** The fields of each record model, in declaration order. */
  function FieldNames(p: Procedure): seq<string> {
    match p
    case Blitz => ["pb_id", "finding", "details", "priority", "procedure_order", "pc_id"]
    case BlitzIndex => ["pbi_id", "finding", "details_schema_table_index_indexid", "priority",
                        "procedure_order", "pc_id"]
    case BlitzCache => ["pbc_id", "query_text", "avg_cpu_ms", "total_cpu_ms", "warnings",
                        "procedure_order", "pc_id"]
  }

  /** The two fields every model declares without a default. */
  const RequiredFields: seq<string> := ["procedure_order", "pc_id"]

  /** A record of one of the three kinds. `analyzed` is the private
      `_analyzed` attribute, which defaults to false. */
  datatype Record =
    | BlitzRecord(pbId: Option<int>, finding: Option<string>, details: Option<string>,
                  priority: Option<int>, procedureOrder: int, pcId: int, analyzed: bool)
    | BlitzIndexRecord(pbiId: Option<int>, finding: Option<string>,
                       detailsSchemaTableIndexIndexid: Option<string>,
                       priority: Option<int>, procedureOrder: int, pcId: int, analyzed: bool)
    | BlitzCacheRecord(pbcId: Option<int>, queryText: Option<string>, avgCpuMs: Option<real>,
                       totalCpuMs: Option<real>, warnings: Option<string>,
                       procedureOrder: int, pcId: int, analyzed: bool)
  {
    /** The `_rec_id` property kept for compatibility. */
    function RecId(): int {
      procedureOrder
    }

    function Kind(): Procedure {
      match this
      case BlitzRecord(_, _, _, _, _, _, _) => Blitz
      case BlitzIndexRecord(_, _, _, _, _, _, _) => BlitzIndex
      case BlitzCacheRecord(_, _, _, _, _, _, _, _) => BlitzCache
    }
  }

  /** A record built from its two required fields only: every optional field
      takes its default `None` and `_analyzed` is false. */
  function NewRecord(p: Procedure, procedureOrder: int, pcId: int): (r: Record)
    ensures r.Kind() == p
    ensures r.RecId() == procedureOrder && r.pcId == pcId
    ensures !r.analyzed
    ensures forall f :: f in FieldNames(p) && f !in RequiredFields ==> FieldValue(r, f) == Some(Null)
  {
    match p
    case Blitz => BlitzRecord(None, None, None, None, procedureOrder, pcId, false)
    case BlitzIndex => BlitzIndexRecord(None, None, None, None, procedureOrder, pcId, false)
    case BlitzCache => BlitzCacheRecord(None, None, None, None, None, procedureOrder, pcId, false)
  }

  function OptInt(o: Option<int>): Value {
    match o
    case None => Null
    case Some(i) => Int(i)
  }

  function OptStr(o: Option<string>): Value {
    match o
    case None => Null
    case Some(s) => Str(s)
  }

  function OptReal(o: Option<real>): Value {
    match o
    case None => Null
    case Some(x) => Float(x)
  }

  /** `getattr(record, name)`: the field's value when the record's model
      declares the field. The outer `None` stands for the `AttributeError`
      that `getattr` without a default raises otherwise. */
  function FieldValue(r: Record, name: string): (v: Option<Value>)
    ensures v.Some? <==> name in FieldNames(r.Kind())
  {
    match r
    case BlitzRecord(pbId, finding, details, priority, order, pcId, _) =>
      BlitzField(pbId, finding, details, priority, order, pcId, name)
    case BlitzIndexRecord(pbiId, finding, details, priority, order, pcId, _) =>
      BlitzIndexField(pbiId, finding, details, priority, order, pcId, name)
    case BlitzCacheRecord(pbcId, queryText, avgCpu, totalCpu, warnings, order, pcId, _) =>
      BlitzCacheField(pbcId, queryText, avgCpu, totalCpu, warnings, order, pcId, name)
  }

  function BlitzField(pbId: Option<int>, finding: Option<string>, details: Option<string>,
                      priority: Option<int>, order: int, pcId: int, name: string): (v: Option<Value>)
    ensures v.Some? <==> name in FieldNames(Blitz)
  {
    if name == "pb_id" then Some(OptInt(pbId))
    else if name == "finding" then Some(OptStr(finding))
    else if name == "details" then Some(OptStr(details))
    else if name == "priority" then Some(OptInt(priority))
    else if name == "procedure_order" then Some(Int(order))
    else if name == "pc_id" then Some(Int(pcId))
    else None
  }

  function BlitzIndexField(pbiId: Option<int>, finding: Option<string>, details: Option<string>,
                           priority: Option<int>, order: int, pcId: int, name: string): (v: Option<Value>)
    ensures v.Some? <==> name in FieldNames(BlitzIndex)
  {
    if name == "pbi_id" then Some(OptInt(pbiId))
    else if name == "finding" then Some(OptStr(finding))
    else if name == "details_schema_table_index_indexid" then Some(OptStr(details))
    else if name == "priority" then Some(OptInt(priority))
    else if name == "procedure_order" then Some(Int(order))
    else if name == "pc_id" then Some(Int(pcId))
    else None
  }

  function BlitzCacheField(pbcId: Option<int>, queryText: Option<string>, avgCpu: Option<real>,
                           totalCpu: Option<real>, warnings: Option<string>, order: int, pcId: int,
                           name: string): (v: Option<Value>)
    ensures v.Some? <==> name in FieldNames(BlitzCache)
  {
    if name == "pbc_id" then Some(OptInt(pbcId))
    else if name == "query_text" then Some(OptStr(queryText))
    else if name == "avg_cpu_ms" then Some(OptReal(avgCpu))
    else if name == "total_cpu_ms" then Some(OptReal(totalCpu))
    else if name == "warnings" then Some(OptStr(warnings))
    else if name == "procedure_order" then Some(Int(order))
    else if name == "pc_id" then Some(Int(pcId))
    else None
  }

  /** Every model declares both required fields. */
  lemma RequiredFieldsInEveryModel(p: Procedure)
    ensures forall f :: f in RequiredFields ==> f in FieldNames(p)
  {
  }

  // ---------------------------------------------------------------------------
  // Lookup tables keyed by canonical procedure name
  // ---------------------------------------------------------------------------

  const ProcedureModels: map<string, Procedure> :=
    map["sp_Blitz" := Blitz, "sp_BlitzIndex" := BlitzIndex, "sp_BlitzCache" := BlitzCache]

  const DisplayKeys: map<string, seq<string>> := map[
    "sp_Blitz" := ["finding", "details", "priority"],
    "sp_BlitzIndex" := ["finding", "details_schema_table_index_indexid", "priority"],
    "sp_BlitzCache" := ["query_text", "avg_cpu_ms", "total_cpu_ms", "warnings"]]

  const TableNames: map<string, string> := map[
    "sp_Blitz" := "Procedure_blitz",
    "sp_BlitzIndex" := "Procedure_blitzindex",
    "sp_BlitzCache" := "Procedure_blitzcache"]

  const ChatTableNames: map<string, string> := map[
    "sp_Blitz" := "Chat_blitz",
    "sp_BlitzIndex" := "Chat_blitzindex",
    "sp_BlitzCache" := "Chat_blitzcache"]

  const IdFields: map<string, string> := map[
    "sp_Blitz" := "pb_id",
    "sp_BlitzIndex" := "pbi_id",
    "sp_BlitzCache" := "pbc_id"]

  /** Raw output column -> model field, per procedure, in declaration order. */
  const ColumnMapping: map<string, seq<(string, string)>> := map[
    "sp_Blitz" := [("Finding", "finding"), ("Details", "details"), ("Priority", "priority")],
    "sp_BlitzIndex" := [
      ("Finding", "finding"),
      ("Details: schema.table.index(indexid)", "details_schema_table_index_indexid"),
      ("Priority", "priority")],
    "sp_BlitzCache" := [
      ("Query Text", "query_text"), ("Avg CPU (ms)", "avg_cpu_ms"),
      ("Total CPU (ms)", "total_cpu_ms"), ("Warnings", "warnings")]]

  /** Every table is keyed by exactly the three canonical names, and the model
      table agrees with `Name`. */
  lemma TablesShareKeys()
    ensures ProcedureModels.Keys == ProcedureNames
    ensures DisplayKeys.Keys == ProcedureNames
    ensures TableNames.Keys == ProcedureNames
    ensures ChatTableNames.Keys == ProcedureNames
    ensures IdFields.Keys == ProcedureNames
    ensures ColumnMapping.Keys == ProcedureNames
    ensures forall p :: ProcedureModels[Name(p)] == p
  {
    ModelTablesShareKeys();
    StoreTablesShareKeys();
  }

  lemma ModelTablesShareKeys()
    ensures ProcedureModels.Keys == ProcedureNames
    ensures DisplayKeys.Keys == ProcedureNames
    ensures IdFields.Keys == ProcedureNames
    ensures forall p :: ProcedureModels[Name(p)] == p
  {
  }

  lemma StoreTablesShareKeys()
    ensures TableNames.Keys == ProcedureNames
    ensures ChatTableNames.Keys == ProcedureNames
    ensures ColumnMapping.Keys == ProcedureNames
  {
  }

  /** Each mapping target is a field of that procedure's model, and the
      mapping is one-to-one in both directions. */
  lemma ColumnMappingTargetsAreFields(p: Procedure)
    ensures var m := ColumnMapping[Name(p)];
      && (forall k :: 0 <= k < |m| ==> m[k].1 in FieldNames(p))
      && (forall j, k :: 0 <= j < k < |m| ==> m[j].1 != m[k].1 && m[j].0 != m[k].0)
  {
  }

  /** Display keys and the id field of each procedure name a field of its
      model; the id field is the optional first field. */
  lemma DisplayKeysAndIdFieldsAreFields(p: Procedure)
    ensures forall k :: k in DisplayKeys[Name(p)] ==> k in FieldNames(p)
    ensures IdFields[Name(p)] in FieldNames(p)
    ensures FieldNames(p)[0] == IdFields[Name(p)] && IdFields[Name(p)] !in RequiredFields
  {
  }
}
