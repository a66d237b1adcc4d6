/** The SQL Server ODBC connection string (src/db_connection.py,
    `build_connection_string`). */
module ConnectionString {
  import opened Text

  const Driver: string := "DRIVER={ODBC Driver 18 for SQL Server}"

  /** The fixed-layout connection string: ten `KEY=value` segments separated
      by `;`, the caller's values inserted verbatim. */
  function BuildConnectionString(host: string, port: int, database: string, user: string, password: string): string
  {
    Driver + ";" + (
    "SERVER=" + host + "," + IntToString(port) + ";" + (
    "DATABASE=" + database + ";" + (
    "UID=" + user + ";" + (
    "PWD=" + password + ";" + (
    "TrustServerCertificate=yes" + ";" + (
    "Encrypt=yes" + ";" + (
    "Connection Timeout=60" + ";" + (
    "Command Timeout=120" + ";" + (
    "Authentication=SqlPassword")))))))))
  }

  /** The segments a driver reads back, in order. */
  function Segments(host: string, port: int, database: string, user: string, password: string): seq<string>
  {
    [ Driver,
      "SERVER=" + host + "," + IntToString(port),
      "DATABASE=" + database,
      "UID=" + user,
      "PWD=" + password,
      "TrustServerCertificate=yes",
      "Encrypt=yes",
      "Connection Timeout=60",
      "Command Timeout=120",
      "Authentication=SqlPassword" ]
  }

  /** When no caller-supplied value contains `;`, splitting the string on `;`
      yields exactly the ten segments: `SERVER=host,port`, then the database,
      user and password, then the six fixed options. */
  lemma ConnectionStringSegments(host: string, port: int, database: string, user: string, password: string)
    requires ';' !in host && ';' !in database && ';' !in user && ';' !in password
    ensures Split(BuildConnectionString(host, port, database, user, password), ';')
         == Segments(host, port, database, user, password)
  {
    var segs := Segments(host, port, database, user, password);
    SegmentsHaveNoSeparator(host, port, database, user, password);
    BuildIsJoin(host, port, database, user, password);
    SplitJoin(segs, ';');
  }

  lemma SegmentsHaveNoSeparator(host: string, port: int, database: string, user: string, password: string)
    requires ';' !in host && ';' !in database && ';' !in user && ';' !in password
    ensures forall k :: 0 <= k < 10 ==> ';' !in Segments(host, port, database, user, password)[k]
  {
    ServerHasNoSeparator(host, port);
    FieldsHaveNoSeparator(database, user, password);
    DriverHasNoSeparator();
    OptionsHaveNoSeparator();
  }

  lemma ServerHasNoSeparator(host: string, port: int)
    requires ';' !in host
    ensures ';' !in "SERVER=" + host + "," + IntToString(port)
  {
    IntToStringAlphabet(port);
    assert ';' !in IntToString(port);
  }

  lemma FieldsHaveNoSeparator(database: string, user: string, password: string)
    requires ';' !in database && ';' !in user && ';' !in password
    ensures ';' !in "DATABASE=" + database && ';' !in "UID=" + user && ';' !in "PWD=" + password
  {
  }

  lemma DriverHasNoSeparator()
    ensures ';' !in Driver
  {
    NoSeparatorIn(Driver);
  }

  lemma OptionsHaveNoSeparator()
    ensures ';' !in "TrustServerCertificate=yes"
    ensures ';' !in "Encrypt=yes"
    ensures ';' !in "Connection Timeout=60"
    ensures ';' !in "Command Timeout=120"
    ensures ';' !in "Authentication=SqlPassword"
  {
    NoSeparatorIn("TrustServerCertificate=yes");
    NoSeparatorIn("Encrypt=yes");
    NoSeparatorIn("Connection Timeout=60");
    NoSeparatorIn("Command Timeout=120");
    NoSeparatorIn("Authentication=SqlPassword");
  }

  /** Letters, digits, spaces, braces and `=` are not the separator. */
  predicate PlainChar(c: char) {
    ('a' <= c <= 'z') || ('A' <= c <= 'Z') || ('0' <= c <= '9') || c == ' ' || c == '=' || c == '{' || c == '}'
  }

  lemma NoSeparatorIn(s: string)
    requires forall i :: 0 <= i < |s| ==> PlainChar(s[i])
    ensures ';' !in s
  {
  }

  lemma BuildIsJoin(host: string, port: int, database: string, user: string, password: string)
    ensures BuildConnectionString(host, port, database, user, password)
         == Join(Segments(host, port, database, user, password), ';')
  {
    JoinUnfold(Segments(host, port, database, user, password), ';');
  }

  lemma JoinCons(segs: seq<string>, k: nat, sep: char)
    requires k + 1 < |segs|
    ensures Join(segs[k..], sep) == segs[k] + [sep] + Join(segs[k + 1..], sep)
  {
    assert segs[k..][1..] == segs[k + 1..];
  }

  lemma JoinUnfold(segs: seq<string>, sep: char)
    requires |segs| == 10
    ensures Join(segs, sep) == segs[0] + [sep] + (segs[1] + [sep] + (segs[2] + [sep] + (segs[3] + [sep] + (
      segs[4] + [sep] + (segs[5] + [sep] + (segs[6] + [sep] + (segs[7] + [sep] + (segs[8] + [sep] + segs[9]))))))))
  {
    assert Join(segs[9..], sep) == segs[9];
    JoinCons(segs, 8, sep);
    JoinCons(segs, 7, sep);
    JoinCons(segs, 6, sep);
    JoinCons(segs, 5, sep);
    JoinCons(segs, 4, sep);
    JoinCons(segs, 3, sep);
    JoinCons(segs, 2, sep);
    JoinCons(segs, 1, sep);
    JoinCons(segs, 0, sep);
    assert segs[0..] == segs;
  }
}
