/** `safe_pretty_json` (src/db_connection.py): rewrites a result row so that
    every value can be serialised for display and storage. */
module PrettyJson {
  import opened Wrappers
  import opened Values

  /** The one column whose value is re-formatted as SQL. */
  const QueryText: string := "Query Text"

  /** Values that need no conversion before serialisation. */
  predicate DisplaySafe(v: Value) {
    !v.Bytes? && !v.Temporal?
  }

  /** The converted value for one key, or `None` when the conversion raises.
      `formatSql` stands for
      `sqlparse.format(v, keyword_case='upper', reindent=True)`; it is `None`
      for the values sqlparse rejects with a `TypeError` (a `NULL`, a number).
      Only `Query Text` can fail. */
  function SafeValue(key: string, v: Value, formatSql: Value -> Option<Value>): (r: Option<Value>)
    ensures r.None? <==> key == QueryText && formatSql(v).None?
    ensures key == QueryText ==> r == formatSql(v)
    ensures key != QueryText ==> DisplaySafe(r.value)
    ensures key != QueryText && DisplaySafe(v) ==> r == Some(v)
    ensures key != QueryText && v.Temporal? ==> r == Some(Str(v.iso))
    ensures key != QueryText && v.Bytes? ==>
              && r.value.Str? && |r.value.s| == 2 * |v.data|
              && (forall j :: 0 <= j < |r.value.s| ==> IsHexDigit(r.value.s[j]))
              && UnHex(r.value.s) == v.data
  {
    if key == QueryText then formatSql(v)
    else match v
      case Temporal(iso) => Some(Str(iso))
      case Bytes(data) =>
        HexRoundTrip(data);
        Some(Str(if data == [] then "" else Hex(data)))
      case _ => Some(v)
  }

  /** `None` exactly when the row has a `Query Text` that sqlparse rejects,
      so that the call raises. Otherwise: same keys; `Query Text`
      re-formatted; dates and times become their ISO text; bytes become
      lower-case hex that decodes back to the same bytes (empty bytes become
      the empty string); every other value is kept. */
  function SafePrettyJson(record: Row, formatSql: Value -> Option<Value>): (r: Option<Row>)
    ensures r.None? <==> QueryText in record && formatSql(record[QueryText]).None?
    ensures r.Some? ==> r.value.Keys == record.Keys
    ensures r.Some? && QueryText in record ==> Some(r.value[QueryText]) == formatSql(record[QueryText])
    ensures r.Some? ==> forall k :: k in r.value && k != QueryText ==> DisplaySafe(r.value[k])
    ensures r.Some? ==> forall k :: k in record && k != QueryText && DisplaySafe(record[k]) ==> r.value[k] == record[k]
    ensures r.Some? ==> forall k :: k in record && k != QueryText && record[k].Temporal? ==> r.value[k] == Str(record[k].iso)
    ensures r.Some? ==> forall k :: k in record && k != QueryText && record[k].Bytes? ==>
              && r.value[k].Str? && |r.value[k].s| == 2 * |record[k].data|
              && (forall j :: 0 <= j < |r.value[k].s| ==> IsHexDigit(r.value[k].s[j]))
              && UnHex(r.value[k].s) == record[k].data
  {
    if QueryText in record && formatSql(record[QueryText]).None? then None
    else Some(map k | k in record :: SafeValue(k, record[k], formatSql).value)
  }

  /** Converting an already converted row again changes nothing but
      `Query Text`, whenever the second conversion does not raise. */
  lemma SafePrettyJsonIdempotent(record: Row, formatSql: Value -> Option<Value>)
    ensures var once := SafePrettyJson(record, formatSql);
      once.Some? ==>
        var twice := SafePrettyJson(once.value, formatSql);
        twice.Some? ==>
          twice.value.Keys == once.value.Keys
          && forall k :: k in once.value && k != QueryText ==> twice.value[k] == once.value[k]
  {
  }
}
