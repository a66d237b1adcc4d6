/** `install_blitz_procedures` (src/db_connection.py): how the downloaded
    First Responder Kit script is cut into batches, and which batches are
    sent to the server. */
module InstallScript {
  import opened Text

  /** What the splitter does with one stripped line. */
  datatype LineKind = Skipped | BatchEnd | Content

  /** Empty lines and lines opening a line comment or a block comment are skipped; a line
      that upper-cases to `GO` ends the current batch; anything else is kept. */
  function Classify(line: string): LineKind {
    if line == [] || StartsWith(line, "--") || StartsWith(line, "/*") then Skipped
    else if Upper(line) == "GO" then BatchEnd
    else Content
  }

  /** One line of the script after `line.strip()`, with its classification. */
  datatype Line = Line(text: string, kind: LineKind)

  /** `line.strip()` and its classification. */
  function ScanLine(raw: string): Line {
    var text := Strip(raw);
    Line(text, Classify(text))
  }

  /** The script's lines, stripped and classified. */
  function Scan(raw: seq<string>): (r: seq<Line>)
    ensures |r| == |raw|
    ensures forall j :: 0 <= j < |r| ==> r[j] == ScanLine(raw[j])
  {
    seq(|raw|, j requires 0 <= j < |raw| => ScanLine(raw[j]))
  }

  lemma ScanAppend(raw: seq<string>, x: string)
    ensures Scan(raw + [x]) == Scan(raw) + [ScanLine(x)]
  {
    assert forall j :: 0 <= j < |raw| ==> (raw + [x])[j] == raw[j];
  }

  /** Text with no whitespace at either end and at least one character. */
  predicate Unpadded(t: string) {
    t != [] && !IsSpace(t[0]) && !IsSpace(t[|t| - 1])
  }

  /** Every kept line of a scan is non-empty and stripped. */
  lemma ScanKeptLines(raw: seq<string>)
    ensures forall j :: 0 <= j < |Scan(raw)| && Scan(raw)[j].kind == Content ==> Unpadded(Scan(raw)[j].text)
  {
  }

  /** The batches made from the remaining `lines`, with `current` the texts
      gathered since the last batch end. */
  function Batches(lines: seq<Line>, current: seq<string>): seq<seq<string>>
    decreases |lines|
  {
    if lines == [] then (if current == [] then [] else [current])
    else
      match lines[0].kind
      case Skipped => Batches(lines[1..], current)
      case BatchEnd => (if current == [] then [] else [current]) + Batches(lines[1..], [])
      case Content => Batches(lines[1..], current + [lines[0].text])
  }

  /** A batch that can be sent: at least one line, none of them padded. */
  predicate IsBatch(b: seq<string>) {
    b != [] && forall k :: 0 <= k < |b| ==> Unpadded(b[k])
  }

  /** Every batch is non-empty, and holds only kept lines. */
  lemma {:induction false} BatchesAreBatches(lines: seq<Line>, current: seq<string>)
    requires forall j :: 0 <= j < |lines| && lines[j].kind == Content ==> Unpadded(lines[j].text)
    requires forall k :: 0 <= k < |current| ==> Unpadded(current[k])
    ensures forall j :: 0 <= j < |Batches(lines, current)| ==> IsBatch(Batches(lines, current)[j])
    decreases |lines|
  {
    if lines != [] {
      match lines[0].kind
      case Skipped =>
        BatchesAreBatches(lines[1..], current);
      case BatchEnd =>
        BatchesAreBatches(lines[1..], []);
      case Content =>
        BatchesAreBatches(lines[1..], current + [lines[0].text]);
    }
  }

  /** The kept texts of `lines`, in order: an independent account of what the
      batches contain. */
  function ContentLines(lines: seq<Line>): seq<string>
    decreases |lines|
  {
    if lines == [] then []
    else if lines[0].kind == Content then [lines[0].text] + ContentLines(lines[1..])
    else ContentLines(lines[1..])
  }

  /** The number of lines that end a batch. */
  function BatchEnds(lines: seq<Line>): nat
    decreases |lines|
  {
    if lines == [] then 0
    else (if lines[0].kind == BatchEnd then 1 else 0) + BatchEnds(lines[1..])
  }

  function Flatten(bs: seq<seq<string>>): seq<string>
  {
    if bs == [] then [] else bs[0] + Flatten(bs[1..])
  }

  lemma {:induction false} FlattenAppend(a: seq<seq<string>>, b: seq<seq<string>>)
    ensures Flatten(a + b) == Flatten(a) + Flatten(b)
    decreases |a|
  {
    if a == [] {
      assert a + b == b;
    } else {
      FlattenAppend(a[1..], b);
      assert (a + b)[1..] == a[1..] + b;
      assert Flatten(a + b) == a[0] + Flatten(a[1..] + b);
    }
  }

  /** Splitting loses and invents no line: the batches, concatenated, are the
      pending texts followed by the kept texts, in order. */
  lemma {:induction false} BatchesKeepContent(lines: seq<Line>, current: seq<string>)
    ensures Flatten(Batches(lines, current)) == current + ContentLines(lines)
    decreases |lines|
  {
    if lines != [] {
      var rest := lines[1..];
      match lines[0].kind
      case Skipped =>
        assert Batches(lines, current) == Batches(rest, current);
        assert ContentLines(lines) == ContentLines(rest);
        BatchesKeepContent(rest, current);
      case BatchEnd =>
        var closed: seq<seq<string>> := if current == [] then [] else [current];
        assert Batches(lines, current) == closed + Batches(rest, []);
        assert ContentLines(lines) == ContentLines(rest);
        BatchesKeepContent(rest, []);
        FlattenAppend(closed, Batches(rest, []));
        assert Flatten(closed) == current by {
          if current != [] {
            assert Flatten(closed) == current + Flatten([]);
          }
        }
      case Content =>
        var t := lines[0].text;
        assert Batches(lines, current) == Batches(rest, current + [t]);
        assert ContentLines(lines) == [t] + ContentLines(rest);
        BatchesKeepContent(rest, current + [t]);
        LinesAssoc(current, [t], ContentLines(rest));
    }
  }

  /** A `GO` line ends a batch: the lines before it are batched on their own,
      and batching starts afresh after it, so no batch spans a `GO`. */
  lemma {:induction false} GoEndsBatch(a: seq<Line>, go: Line, b: seq<Line>, current: seq<string>)
    requires go.kind == BatchEnd
    ensures Batches(a + [go] + b, current) == Batches(a, current) + Batches(b, [])
    decreases |a|
  {
    var lines := a + [go] + b;
    if a == [] {
      assert lines == [go] + b && lines[1..] == b;
    } else {
      var rest := a[1..];
      assert lines[0] == a[0] && lines[1..] == rest + [go] + b;
      match a[0].kind
      case Skipped =>
        GoEndsBatch(rest, go, b, current);
      case BatchEnd =>
        var closed: seq<seq<string>> := if current == [] then [] else [current];
        GoEndsBatch(rest, go, b, []);
        BatchesAssoc(closed, Batches(rest, []), Batches(b, []));
      case Content =>
        GoEndsBatch(rest, go, b, current + [a[0].text]);
    }
  }

  lemma BatchesAssoc(a: seq<seq<string>>, b: seq<seq<string>>, c: seq<seq<string>>)
    ensures a + b + c == a + (b + c)
  {
  }

  lemma LinesAssoc(a: seq<string>, b: seq<string>, c: seq<string>)
    ensures a + b + c == a + (b + c)
  {
  }

  /** There is at most one batch more than there are `GO` lines, and none
      more when nothing is kept after the last one. */
  lemma {:induction false} BatchCount(lines: seq<Line>, current: seq<string>)
    ensures |Batches(lines, current)| <= BatchEnds(lines) + 1
    ensures current == [] && ContentLines(lines) == [] ==> |Batches(lines, current)| <= BatchEnds(lines)
    decreases |lines|
  {
    if lines != [] {
      match lines[0].kind
      case Skipped =>
        BatchCount(lines[1..], current);
      case BatchEnd =>
        BatchCount(lines[1..], []);
      case Content =>
        BatchCount(lines[1..], current + [lines[0].text]);
    }
  }

  function JoinLines(b: seq<string>): string {
    Join(b, '\n')
  }

  function JoinAll(bs: seq<seq<string>>): (r: seq<string>)
    ensures |r| == |bs|
    ensures forall j :: 0 <= j < |bs| ==> r[j] == JoinLines(bs[j])
  {
    seq(|bs|, j requires 0 <= j < |bs| => JoinLines(bs[j]))
  }

  lemma JoinAllAppend(a: seq<seq<string>>, b: seq<seq<string>>)
    ensures JoinAll(a + b) == JoinAll(a) + JoinAll(b)
  {
  }

  /** The statements of a script: each batch's lines joined by newlines. */
  function Statements(script: string): seq<string> {
    JoinAll(Batches(Scan(Split(script, '\n')), []))
  }

  /** One line of the pass: the batches of `lines` in terms of the batches
      of the lines after the first. */
  lemma BatchesStep(lines: seq<Line>, current: seq<string>)
    requires lines != []
    ensures match lines[0].kind
      case Skipped => Batches(lines, current) == Batches(lines[1..], current)
      case BatchEnd => Batches(lines, current) == (if current == [] then [] else [current]) + Batches(lines[1..], [])
      case Content => Batches(lines, current) == Batches(lines[1..], current + [lines[0].text])
  {
  }

  /** `statements`, built the way the source builds it: the script split at
      newlines, then one pass over the lines. */
  method SplitStatements(script: string) returns (statements: seq<string>)
    ensures statements == Statements(script)
  {
    var scanned := ScanLines(Split(script, '\n'));
    statements := BatchLines(scanned);
  }

  /** The per-line half of the pass: strip each line and classify it with
      the source's tests, in the source's order. */
  method ScanLines(lines: seq<string>) returns (scanned: seq<Line>)
    ensures scanned == Scan(lines)
  {
    scanned := [];
    var i := 0;
    while i < |lines|
      invariant 0 <= i <= |lines|
      invariant scanned == Scan(lines[..i])
    {
      var line := Strip(lines[i]);
      var kind: LineKind;
      if line == [] || StartsWith(line, "--") || StartsWith(line, "/*") {
        kind := Skipped;
      } else if Upper(line) == "GO" {
        kind := BatchEnd;
      } else {
        kind := Content;
      }
      assert Line(line, kind) == ScanLine(lines[i]);
      assert lines[..i + 1] == lines[..i] + [lines[i]];
      ScanAppend(lines[..i], lines[i]);
      scanned := scanned + [Line(line, kind)];
      i := i + 1;
    }
    assert lines[..i] == lines;
  }

  /** The batching half of the pass, keeping a list of pending lines. */
  method BatchLines(scanned: seq<Line>) returns (statements: seq<string>)
    ensures statements == JoinAll(Batches(scanned, []))
  {
    ghost var done: seq<seq<string>> := [];
    statements := [];
    var current: seq<string> := [];
    var i := 0;
    while i < |scanned|
      invariant 0 <= i <= |scanned|
      invariant statements == JoinAll(done)
      invariant done + Batches(scanned[i..], current) == Batches(scanned, [])
    {
      BatchesStep(scanned[i..], current);
      assert scanned[i..][1..] == scanned[i + 1..];
      match scanned[i].kind {
        case Skipped =>
        case BatchEnd =>
          if current != [] {
            JoinAllAppend(done, [current]);
            assert (done + [current]) + Batches(scanned[i + 1..], []) == done + ([current] + Batches(scanned[i + 1..], []));
            statements := statements + [JoinLines(current)];
            done := done + [current];
            current := [];
          }
        case Content =>
          current := current + [scanned[i].text];
      }
      i := i + 1;
    }
    assert scanned[i..] == [];
    if current != [] {
      JoinAllAppend(done, [current]);
      statements := statements + [JoinLines(current)];
      done := done + [current];
    }
  }

  lemma {:induction false} JoinEnds(parts: seq<string>, sep: char)
    requires parts != [] && forall k :: 0 <= k < |parts| ==> parts[k] != []
    ensures var j := Join(parts, sep);
      j != [] && j[0] == parts[0][0] && j[|j| - 1] == parts[|parts| - 1][|parts[|parts| - 1]| - 1]
    decreases |parts|
  {
    if |parts| > 1 {
      JoinEnds(parts[1..], sep);
    }
  }

  /** Every statement is non-empty and already stripped, so the
      `statement.strip()` / `if statement` step before executing keeps every
      statement, unchanged. */
  lemma StatementsAreStripped(script: string)
    ensures AllStripped(Statements(script))
  {
    BatchesAreStripped(Split(script, '\n'));
  }

  /** Non-empty texts that `strip()` leaves unchanged. */
  predicate AllStripped(statements: seq<string>) {
    forall j :: 0 <= j < |statements| ==> statements[j] != [] && Strip(statements[j]) == statements[j]
  }

  lemma BatchesAreStripped(lines: seq<string>)
    ensures AllStripped(JoinAll(Batches(Scan(lines), [])))
  {
    var scanned := Scan(lines);
    var bs := Batches(scanned, []);
    ScanKeptLines(lines);
    BatchesAreBatches(scanned, []);
    forall j | 0 <= j < |bs|
      ensures JoinLines(bs[j]) != [] && Strip(JoinLines(bs[j])) == JoinLines(bs[j])
    {
      var b := bs[j];
      assert IsBatch(b);
      JoinEnds(b, '\n');
      StripOfUnpadded(JoinLines(b));
    }
  }

  /** The statements the install loop executes successfully, given which of
      them the server accepts. */
  function Executed(statements: seq<string>, accepts: string -> bool): (r: seq<string>)
    ensures |r| <= |statements|
    ensures forall j :: 0 <= j < |r| ==> r[j] != [] && accepts(r[j])
    decreases |statements|
  {
    if statements == [] then []
    else
      var s := Strip(statements[0]);
      (if s != [] && accepts(s) then [s] else []) + Executed(statements[1..], accepts)
  }

  /** The accepted statements, in order. */
  function Accepted(statements: seq<string>, accepts: string -> bool): seq<string>
    decreases |statements|
  {
    if statements == [] then []
    else (if accepts(statements[0]) then [statements[0]] else []) + Accepted(statements[1..], accepts)
  }

  /** The count the success message reports is the number of statements the
      server accepted: the strip-and-skip guard never drops or alters one. */
  lemma ExecutedCount(script: string, accepts: string -> bool)
    ensures Executed(Statements(script), accepts) == Accepted(Statements(script), accepts)
  {
    StatementsAreStripped(script);
    ExecutedOfStripped(Statements(script), accepts);
  }

  lemma {:induction false} ExecutedOfStripped(statements: seq<string>, accepts: string -> bool)
    requires AllStripped(statements)
    ensures Executed(statements, accepts) == Accepted(statements, accepts)
    decreases |statements|
  {
    if statements != [] {
      ExecutedOfStripped(statements[1..], accepts);
    }
  }
}
