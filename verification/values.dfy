/** The scalar values a database driver hands back in a result row, and the
    dictionaries (`dict(zip(columns, row))`) built from them. */
module Values {
  import opened Wrappers

  newtype byte = x: int | 0 <= x < 256

  /** One cell of a result row. `Temporal` stands for a `datetime`, `date` or
      `time` value and carries what its `isoformat()` returns. */
  datatype Value =
    | Null
    | Bool(b: bool)
    | Int(i: int)
    | Float(r: real)
    | Str(s: string)
    | Bytes(data: seq<byte>)
    | Temporal(iso: string)

  /** A row as a Python dict from column name to value. */
  type Row = map<string, Value>

  /** `row.get(column)`: the value, or `None` when the column is absent. */
  function Get(row: Row, column: string): (v: Value)
    ensures column !in row ==> v == Null
    ensures column in row ==> v == row[column]
  {
    if column in row then row[column] else Null
  }

  /** `dict(zip(columns, values))`: pairs up to the shorter sequence; a repeated
      column name keeps the value of its last occurrence. */
  function ZipRow(columns: seq<string>, values: seq<Value>): (r: Row)
    ensures forall c :: c in r <==> exists k :: 0 <= k < |columns| && k < |values| && columns[k] == c
    ensures forall k :: 0 <= k < |columns| && k < |values| && columns[k] !in columns[k + 1..] ==>
              r[columns[k]] == values[k]
  {
    if columns == [] || values == [] then map[]
    else
      var rest := ZipRow(columns[1..], values[1..]);
      var r := map[columns[0] := values[0]] + rest;
      ZipRowStep(columns, values, rest, r);
      r
  }

  lemma ZipRowStep(columns: seq<string>, values: seq<Value>, rest: Row, r: Row)
    requires columns != [] && values != []
    requires forall c :: c in rest <==> exists k :: 0 <= k < |columns| - 1 && k < |values| - 1 && columns[1..][k] == c
    requires forall k :: 0 <= k < |columns| - 1 && k < |values| - 1 && columns[1..][k] !in columns[1..][k + 1..] ==>
               rest[columns[1..][k]] == values[1..][k]
    requires r == map[columns[0] := values[0]] + rest
    ensures forall c :: c in r <==> exists k :: 0 <= k < |columns| && k < |values| && columns[k] == c
    ensures forall k :: 0 <= k < |columns| && k < |values| && columns[k] !in columns[k + 1..] ==>
              r[columns[k]] == values[k]
  {
    forall c
      ensures c in r <==> exists k :: 0 <= k < |columns| && k < |values| && columns[k] == c
    {
      if c in rest {
        var k :| 0 <= k < |columns| - 1 && k < |values| - 1 && columns[1..][k] == c;
        assert columns[k + 1] == c;
      }
    }
    forall k | 0 <= k < |columns| && k < |values| && columns[k] !in columns[k + 1..]
      ensures r[columns[k]] == values[k]
    {
      if k != 0 {
        assert columns[k + 1..] == columns[1..][k..];
        assert columns[1..][k - 1] == columns[k];
      }
    }
  }

  // ---------------------------------------------------------------------------
  // bytes.hex()
  // ---------------------------------------------------------------------------

  predicate IsHexDigit(c: char) {
    '0' <= c <= '9' || 'a' <= c <= 'f'
  }

  function HexDigit(d: nat): (c: char)
    requires d < 16
    ensures IsHexDigit(c)
  {
    if d < 10 then (d + '0' as int) as char else (d - 10 + 'a' as int) as char
  }

  function HexDigitValue(c: char): (d: nat)
    requires IsHexDigit(c)
    ensures d < 16 && HexDigit(d) == c
  {
    if '0' <= c <= '9' then c as int - '0' as int else c as int - 'a' as int + 10
  }

  /** `bytes.hex()`: two lower-case hex digits per byte. */
  function Hex(data: seq<byte>): (s: string)
    ensures |s| == 2 * |data|
    ensures forall k :: 0 <= k < |s| ==> IsHexDigit(s[k])
  {
    if data == [] then ""
    else
      var b := data[0] as int;
      [HexDigit(b / 16), HexDigit(b % 16)] + Hex(data[1..])
  }

  /** `bytes.fromhex(s)` for an even-length string of lower-case hex digits. */
  function UnHex(s: string): seq<byte>
    requires |s| % 2 == 0
    requires forall k :: 0 <= k < |s| ==> IsHexDigit(s[k])
  {
    if s == [] then []
    else [(HexDigitValue(s[0]) * 16 + HexDigitValue(s[1])) as byte] + UnHex(s[2..])
  }

  lemma {:induction false} HexRoundTrip(data: seq<byte>)
    ensures UnHex(Hex(data)) == data
  {
    if data != [] {
      var b := data[0] as int;
      var s := Hex(data);
      assert s[2..] == Hex(data[1..]);
      assert HexDigitValue(HexDigit(b / 16)) == b / 16;
      assert HexDigitValue(HexDigit(b % 16)) == b % 16;
      HexRoundTrip(data[1..]);
      assert data == [data[0]] + data[1..];
    }
  }
}
