/** `exec_blitz` (src/db_connection.py): the `EXEC` command it sends for a
    procedure and the rows it keeps from the reply. */
module ExecCommand {
  import opened Wrappers
  import opened Text
  import opened Values
  import opened Cursor
  import PrettyJson

  /** `name.replace("'", "''")`. */
  function DoubleQuotes(s: string): (r: string)
    ensures |r| >= |s|
    ensures '\'' !in s ==> r == s
  {
    if s == [] then []
    else (if s[0] == '\'' then "''" else [s[0]]) + DoubleQuotes(s[1..])
  }

  /** How SQL Server reads a string literal: from just after the opening
      quote, `''` stands for one quote and a lone quote closes it. Returns the
      literal's value and the text after the closing quote. */
  function ReadLiteralBody(t: string): Option<(string, string)>
    decreases |t|
  {
    if t == [] then None
    else if t[0] == '\'' then
      if |t| >= 2 && t[1] == '\'' then
        match ReadLiteralBody(t[2..])
        case None => None
        case Some(vr) => Some(("'" + vr.0, vr.1))
      else Some(("", t[1..]))
    else
      match ReadLiteralBody(t[1..])
      case None => None
      case Some(vr) => Some(([t[0]] + vr.0, vr.1))
  }

  /** Doubling quotes escapes them: the literal built from any name reads
      back as exactly that name and ends at the intended closing quote. */
  lemma {:induction false} QuoteRoundTrip(s: string, rest: string)
    requires rest == [] || rest[0] != '\''
    ensures ReadLiteralBody(DoubleQuotes(s) + "'" + rest) == Some((s, rest))
    decreases |s|
  {
    if s == [] {
      assert DoubleQuotes(s) + "'" + rest == "'" + rest;
    } else {
      QuoteRoundTrip(s[1..], rest);
      QuoteStep(s, rest);
    }
  }

  /** One character of the name: reading it back extends the tail's value. */
  lemma QuoteStep(s: string, rest: string)
    requires s != []
    requires ReadLiteralBody(DoubleQuotes(s[1..]) + "'" + rest) == Some((s[1..], rest))
    ensures ReadLiteralBody(DoubleQuotes(s) + "'" + rest) == Some((s, rest))
  {
    var head := if s[0] == '\'' then "''" else [s[0]];
    assert DoubleQuotes(s) == head + DoubleQuotes(s[1..]);
    Regroup(head, DoubleQuotes(s[1..]), "'", rest);
    HeadTail(s);
    if s[0] == '\'' {
      EscapedQuoteStep(DoubleQuotes(s[1..]) + "'" + rest, s[1..], rest);
    } else {
      PlainCharStep(s[0], DoubleQuotes(s[1..]) + "'" + rest, s[1..], rest);
    }
  }

  lemma HeadTail(s: string)
    requires s != []
    ensures s == [s[0]] + s[1..]
  {
  }

  lemma Regroup(a: string, b: string, c: string, d: string)
    ensures a + b + c + d == a + (b + c + d)
  {
  }

  lemma EscapedQuoteStep(tail: string, value: string, after: string)
    requires ReadLiteralBody(tail) == Some((value, after))
    ensures ReadLiteralBody("''" + tail) == Some(("'" + value, after))
  {
    var t := "''" + tail;
    assert t[0] == '\'' && t[1] == '\'' && t[2..] == tail;
  }

  lemma PlainCharStep(c: char, tail: string, value: string, after: string)
    requires c != '\''
    requires ReadLiteralBody(tail) == Some((value, after))
    ensures ReadLiteralBody([c] + tail) == Some(([c] + value, after))
  {
    var t := [c] + tail;
    assert t[0] == c && t[1..] == tail;
  }

  /** Whether `exec_blitz` passes `@DatabaseName`: only for `sp_BlitzCache`
      and `sp_BlitzIndex`, and only when a non-empty name is known. */
  predicate PassesDatabaseName(procedure: string, databaseName: Option<string>) {
    (procedure == "sp_BlitzCache" || procedure == "sp_BlitzIndex") && databaseName.Some? && databaseName.value != []
  }

  /** The parameters written before the database name. */
  function ParameterText(procedure: string): string {
    if procedure == "sp_BlitzIndex" then " @IncludeInactiveIndexes=1, @Mode=4, @DatabaseName = "
    else " @DatabaseName = "
  }

  /** The text before the quoted database name. */
  function ParameterPrefix(procedure: string): string {
    "EXEC " + procedure + ParameterText(procedure)
  }

  /** The command `exec_blitz` executes for `procedure`. */
  function ExecBlitzCommand(procedure: string, databaseName: Option<string>): (r: string)
    ensures StartsWith(r, "EXEC " + procedure)
    ensures r == "EXEC " + procedure <==> !PassesDatabaseName(procedure, databaseName)
  {
    if PassesDatabaseName(procedure, databaseName) then
      var literal := "'" + (DoubleQuotes(databaseName.value) + "'");
      PrefixOfAppend("EXEC " + procedure, ParameterText(procedure), literal);
      ParameterPrefix(procedure) + literal
    else
      "EXEC " + procedure
  }

  /** When the name is passed, the command is the parameter prefix followed by
      one string literal whose value is exactly the database name. */
  lemma DatabaseNameLiteral(procedure: string, name: string)
    requires PassesDatabaseName(procedure, Some(name))
    ensures var cmd := ExecBlitzCommand(procedure, Some(name));
      var n := |ParameterPrefix(procedure)|;
      && n < |cmd| && cmd[..n] == ParameterPrefix(procedure) && cmd[n] == '\''
      && ReadLiteralBody(cmd[n + 1..]) == Some((name, ""))
  {
    QuotedAfter(ParameterPrefix(procedure), name);
  }

  /** Any text followed by the quoted name: the literal starts right after the
      text and reads back as the name. */
  lemma QuotedAfter(prefix: string, name: string)
    ensures var cmd := prefix + ("'" + (DoubleQuotes(name) + "'"));
      && |prefix| < |cmd| && cmd[..|prefix|] == prefix && cmd[|prefix|] == '\''
      && ReadLiteralBody(cmd[|prefix| + 1..]) == Some((name, ""))
  {
    var body := DoubleQuotes(name) + "'";
    SplitAtQuote(prefix, body);
    assert body == DoubleQuotes(name) + "'" + "";
    QuoteRoundTrip(name, "");
  }

  /** Text followed by a quote and a body: both read back by position. */
  lemma SplitAtQuote(prefix: string, body: string)
    ensures var cmd := prefix + ("'" + body);
      && |prefix| < |cmd| && cmd[..|prefix|] == prefix && cmd[|prefix|] == '\''
      && cmd[|prefix| + 1..] == body
  {
  }

  /** A non-empty extension starts with, and is longer than, what it extends. */
  lemma PrefixOfAppend(head: string, middle: string, tail: string)
    requires tail != []
    ensures StartsWith(head + middle + tail, head) && head + middle + tail != head
  {
    assert (head + middle + tail)[..|head|] == head;
  }

  /** The rows of one described result set, each zipped with the column
      names and made display-safe; `None` when some row raises. */
  function ConvertRows(columns: seq<string>, rows: seq<seq<Value>>, formatSql: Value -> Option<Value>): (r: Option<seq<Row>>)
    ensures r.None? <==>
              exists k :: 0 <= k < |rows| && PrettyJson.SafePrettyJson(ZipRow(columns, rows[k]), formatSql).None?
    ensures r.Some? ==> |r.value| == |rows|
    ensures r.Some? ==> forall k :: 0 <= k < |rows| ==>
              Some(r.value[k]) == PrettyJson.SafePrettyJson(ZipRow(columns, rows[k]), formatSql)
  {
    var (kept, raised) := MapUntilFailure(rows, row => PrettyJson.SafePrettyJson(ZipRow(columns, row), formatSql));
    if raised then None else Some(kept)
  }

  /** `exec_blitz`'s reply handling: skip result sets without a description;
      when none has one, report failure with no rows; otherwise keep every
      row of the first described set, zipped with its column names and made
      display-safe. `None` stands for the `TypeError` that escapes the call
      when some row's `Query Text` cannot be formatted. */
  function ExecBlitzRows(sets: seq<ResultSet>, formatSql: Value -> Option<Value>): (r: Option<(bool, seq<Row>)>)
    ensures var p := SkipUndescribed(sets, 0);
      r.None? <==>
        && Description(sets, p).Some?
        && (exists k :: 0 <= k < |sets[p].rows| &&
              PrettyJson.SafePrettyJson(ZipRow(sets[p].columns.value, sets[p].rows[k]), formatSql).None?)
    ensures r.Some? ==> (r.value.0 <==> exists j :: 0 <= j < |sets| && sets[j].columns.Some?)
    ensures r.Some? && !r.value.0 ==> r.value.1 == []
    ensures r.Some? && r.value.0 ==> var p := SkipUndescribed(sets, 0);
      && |r.value.1| == |sets[p].rows|
      && forall k :: 0 <= k < |r.value.1| ==>
           Some(r.value.1[k]) == PrettyJson.SafePrettyJson(ZipRow(sets[p].columns.value, sets[p].rows[k]), formatSql)
  {
    var p := SkipUndescribed(sets, 0);
    match Description(sets, p)
    case None => Some((false, []))
    case Some(columns) =>
      match ConvertRows(columns, sets[p].rows, formatSql)
      case None => None
      case Some(rows) => Some((true, rows))
  }
}
