/** What a read returns, told from the lines and elements the file is made of. */
module ReadContents {
  import opened Prelude
  import opened Values
  import opened Transforms
  import In = Read

  // ----- the vocabulary

  /** Lines, each followed by the line end `eol`. */
  function TextOf(lines: seq<string>, eol: string): string {
    if lines == [] then "" else lines[0] + eol + TextOf(lines[1..], eol)
  }

  /** A text of lines, and a last line without a line end if `tail` is not empty. */
  function AllLines(lines: seq<string>, tail: string): seq<string> {
    if tail == "" then lines else lines + [tail]
  }

  ghost predicate PlainLine(line: string) {
    '\n' !in line && (line != "" ==> line[|line| - 1] != '\r')
  }

  ghost predicate PlainLines(lines: seq<string>, eol: string, tail: string) {
    (eol == "\n" || eol == "\r\n") && '\n' !in tail && forall l :: l in lines ==> PlainLine(l)
  }

  /** The lines that are not blank, in order. */
  function NonBlank(tx: TextFns, lines: seq<string>): seq<string> {
    if lines == [] then []
    else
      var init, last := lines[..|lines| - 1], lines[|lines| - 1];
      if tx.blank(last) then NonBlank(tx, init) else NonBlank(tx, init) + [last]
  }

  /** Position p + k * n. */
  function Position(k: nat, n: nat, p: nat): nat {
    if k == 0 then p else Position(k - 1, n, p) + n
  }

  /** `mine` lists the elements at positions p, p + n, p + 2n and so on, up to the end. */
  ghost predicate EveryNth<A>(all: seq<A>, n: nat, p: nat, mine: seq<A>) {
    && (forall k :: 0 <= k < |mine| ==> StandsAt(all, Position(k, n, p), mine[k]))
    && Position(|mine|, n, p) >= |all|
  }

  ghost predicate StandsAt<A>(all: seq<A>, i: nat, x: A) {
    i < |all| && all[i] == x
  }

  /** Objects are records as they are; other JSON values become a record with the one field "value". */
  function AsRecord(v: Value): Value {
    if v.Object? then v else Object(map["value" := v])
  }

  // ----- text

  lemma FirstPlainLine(line: string, eol: string, rest: string)
    requires PlainLine(line) && (eol == "\n" || eol == "\r\n")
    ensures In.Lines(line + eol + rest, '\n', '\r') == [line] + In.Lines(rest, '\n', '\r')
  {
    if eol == "\n" {
      assert In.StripLast(line, '\r') == line;
      In.FirstLine(line, rest, '\n', '\r');
    } else {
      var body, s := line + ['\r'], line + eol + rest;
      assert s == body + ['\n'] + rest;
      var at := FirstOf(s, '\n');
      assert s[|body|] == '\n';
      assert forall i :: 0 <= i < |body| ==> s[i] == body[i] && body[i] != '\n';
      assert at == |body|;
      assert s[..at] == body && s[at + 1..] == rest;
      assert In.StripLast(body, '\r') == line;
    }
  }

  lemma TextStep(lines: seq<string>, eol: string, tail: string)
    requires lines != []
    ensures TextOf(lines, eol) + tail == lines[0] + eol + (TextOf(lines[1..], eol) + tail)
    ensures AllLines(lines, tail) == [lines[0]] + AllLines(lines[1..], tail)
  {
    assert lines == [lines[0]] + lines[1..];
  }

  lemma LinesOfTail(tail: string)
    requires '\n' !in tail
    ensures In.Lines(tail, '\n', '\r') == AllLines([], tail)
  {
    if tail != "" {
      In.LastLine(tail, '\n', '\r');
    }
  }

  lemma {:induction false} LinesOfText(lines: seq<string>, eol: string, tail: string)
    requires PlainLines(lines, eol, tail)
    ensures In.Lines(TextOf(lines, eol) + tail, '\n', '\r') == AllLines(lines, tail)
  {
    if lines == [] {
      assert TextOf(lines, eol) + tail == tail;
      LinesOfTail(tail);
    } else {
      assert lines[0] in lines;
      TextStep(lines, eol, tail);
      var rest := TextOf(lines[1..], eol) + tail;
      FirstPlainLine(lines[0], eol, rest);
      assert In.Lines(rest, '\n', '\r') == AllLines(lines[1..], tail) by {
        LinesOfText(lines[1..], eol, tail);
      }
    }
  }

  lemma {:induction false} NonBlankIs(tx: TextFns, lines: seq<string>)
    ensures In.DataLines(tx, lines) == NonBlank(tx, lines)
  {
    if lines != [] {
      NonBlankIs(tx, lines[..|lines| - 1]);
    }
  }

  lemma HeaderOf(header: string, rest: string)
    requires '\n' !in header
    ensures In.Header(header + "\n" + rest) == header && In.AfterHeader(header + "\n" + rest) == rest
  {
    var s := header + "\n" + rest;
    var at := FirstOf(s, '\n');
    assert s[|header|] == '\n';
    assert forall i :: 0 <= i < |header| ==> s[i] == header[i];
    assert at == |header|;
    assert s[..at] == header && s[at + 1..] == rest;
  }

  // ----- positions

  lemma {:induction false} Residue(k: nat, n: nat, p: nat)
    requires p < n
    ensures Position(k, n, p) % n == p
  {
    if k > 0 {
      Residue(k - 1, n, p);
      AddModulus(Position(k - 1, n, p), n);
    }
  }

  lemma {:induction false} Apart(x: nat, y: nat, n: nat)
    ensures x < y ==> x * n + n <= y * n
    decreases y
  {
    if x < y {
      assert y * n == (y - 1) * n + n;
      if x < y - 1 {
        Apart(x, y - 1, n);
      }
    }
  }

  /** Quotient and remainder are unique. */
  lemma Division(q: nat, r: nat, x: nat, y: nat, n: nat)
    requires r < n && y < n && q * n + r == x * n + y
    ensures q == x && r == y
  {
    Apart(q, x, n);
    Apart(x, q, n);
  }

  lemma AddModulus(a: nat, n: nat)
    requires n > 0
    ensures (a + n) % n == a % n
  {
    var q := a / n;
    assert (q + 1) * n == q * n + n;
    Division(q + 1, a % n, (a + n) / n, (a + n) % n, n);
  }

  lemma Near(x: nat, y: nat, r: nat, n: nat)
    requires x * n + r <= y * n + r < x * n + r + n
    ensures x == y
  {
    Apart(x, y, n);
    Apart(y, x, n);
  }

  /** Numbers with one residue are equal if less than the modulus apart. */
  lemma SameResidue(a: nat, b: nat, n: nat)
    requires n > 0 && a % n == b % n && a <= b < a + n
    ensures a == b
  {
    Near(a / n, b / n, a % n, n);
  }

  /** The first position that is not taken is `last` exactly when `last` belongs to `p`. */
  lemma NextPosition(m: nat, last: nat, n: nat, p: nat)
    requires p < n && last <= Position(m, n, p) && (m > 0 ==> Position(m - 1, n, p) < last)
    ensures Position(m, n, p) == last <==> last % n == p
  {
    Residue(m, n, p);
    if last % n == p {
      SameResidue(last, Position(m, n, p), n);
    }
  }

  lemma StillStands<A>(all: seq<A>, x: A, i: nat, y: A)
    requires StandsAt(all, i, y)
    ensures StandsAt(all + [x], i, y)
  {
  }

  /** One more element is listed exactly when it stands at the next position. */
  lemma AppendNth<A>(all: seq<A>, x: A, n: nat, p: nat, mine: seq<A>)
    requires n > 0 && EveryNth(all, n, p, mine)
    ensures EveryNth(all + [x], n, p, if Position(|mine|, n, p) == |all| then mine + [x] else mine)
  {
    var m := |mine|;
    var more := if Position(m, n, p) == |all| then mine + [x] else mine;
    forall k | 0 <= k < |more| ensures StandsAt(all + [x], Position(k, n, p), more[k]) {
      if k < m {
        assert more[k] == mine[k];
        StillStands(all, x, Position(k, n, p), mine[k]);
      }
    }
    assert Position(m + 1, n, p) == Position(m, n, p) + n;
  }

  lemma LastPosition<A>(all: seq<A>, n: nat, p: nat, mine: seq<A>)
    requires EveryNth(all, n, p, mine) && |mine| > 0
    ensures Position(|mine| - 1, n, p) < |all|
  {
    assert StandsAt(all, Position(|mine| - 1, n, p), mine[|mine| - 1]);
  }

  lemma {:induction false} PickIsEveryNth<A>(s: seq<A>, n: nat, p: nat)
    requires p < n
    ensures EveryNth(s, n, p, In.Pick(s, n, p))
  {
    if s != [] {
      var init, x := s[..|s| - 1], s[|s| - 1];
      var mine := In.Pick(init, n, p);
      assert s == init + [x];
      PickIsEveryNth(init, n, p);
      AppendNth(init, x, n, p, mine);
      In.PickAppend(init, x, n, p);
      if |mine| > 0 {
        LastPosition(init, n, p, mine);
      }
      NextPosition(|mine|, |init|, n, p);
      assert mine + [] == mine;
    }
  }

  // ----- CSV

  /** `out` is `f` of the elements at positions p, p + n, p + 2n and so on, up to the end. */
  ghost predicate ReadsEveryNth<A>(all: seq<A>, n: nat, p: nat, f: A -> Value, out: seq<Value>) {
    && (forall k :: 0 <= k < |out| ==> Position(k, n, p) < |all| && out[k] == f(all[Position(k, n, p)]))
    && Position(|out|, n, p) >= |all|
  }

  lemma {:induction false} TraverseSingles<A>(s: seq<A>, f: A -> Result<seq<Value>, string>, g: A -> Value)
    requires forall x :: x in s ==> f(x) == Ok([g(x)])
    ensures Traverse(s, f).Ok? && |Traverse(s, f).value| == |s|
    ensures forall i :: 0 <= i < |s| ==> Traverse(s, f).value[i] == g(s[i])
  {
    if s != [] {
      assert s == s[..|s| - 1] + [s[|s| - 1]];
      TraverseSingles(s[..|s| - 1], f, g);
    }
  }

  /** Reading every item as one record. */
  lemma ReadSingles<A>(all: seq<A>, n: nat, p: nat, f: A -> Result<seq<Value>, string>, g: A -> Value)
    requires p < n && forall x :: x in all ==> f(x) == Ok([g(x)])
    ensures Traverse(In.Pick(all, n, p), f).Ok?
    ensures ReadsEveryNth(all, n, p, g, Traverse(In.Pick(all, n, p), f).value)
  {
    var mine := In.Pick(all, n, p);
    PickIsEveryNth(all, n, p);
    forall x | x in mine ensures x in all {
      In.InPick(all, n, p, x);
    }
    TraverseSingles(mine, f, g);
    var out := Traverse(mine, f).value;
    forall k | 0 <= k < |out| ensures Position(k, n, p) < |all| && out[k] == g(all[Position(k, n, p)]) {
      assert StandsAt(all, Position(k, n, p), mine[k]);
    }
  }

  function RowOf(tx: TextFns, header: string): string -> Value {
    (line: string) => tx.csvRow(header, line)
  }

  function RowOfItem(tx: TextFns, header: string): In.Item -> Value {
    (x: In.Item) => if x.Line? then tx.csvRow(header, x.text) else Null
  }

  /** The header of a CSV file is not a record: task `p` of `n` reads every n-th of the other non-blank lines. */
  lemma CsvContents(tx: TextFns, header: string, lines: seq<string>, eol: string, tail: string, n: nat, p: nat)
    requires '\n' !in header && !tx.blank(header) && PlainLines(lines, eol, tail) && p < n
    ensures var r := In.ReadPartition(tx, "csv", Some(header + "\n" + (TextOf(lines, eol) + tail)), n, p);
            r.Ok? && ReadsEveryNth(NonBlank(tx, AllLines(lines, tail)), n, p, RowOf(tx, header), r.value)
  {
    var data := NonBlank(tx, AllLines(lines, tail));
    var items := In.AsLines(data);
    HeaderOf(header, TextOf(lines, eol) + tail);
    LinesOfText(lines, eol, tail);
    NonBlankIs(tx, AllLines(lines, tail));
    ReadSingles(items, n, p, In.ReadItem(tx, In.Csv(header)), RowOfItem(tx, header));
    var out := Traverse(In.Pick(items, n, p), In.ReadItem(tx, In.Csv(header))).value;
    forall k | 0 <= k < |out|
      ensures Position(k, n, p) < |data| && out[k] == RowOf(tx, header)(data[Position(k, n, p)])
    {
      assert out[k] == RowOfItem(tx, header)(items[Position(k, n, p)]);
    }
  }

  // ----- JSON

  ghost predicate Readable(tx: TextFns, lines: seq<string>) {
    forall l :: l in lines ==> tx.parseJson(l).Some?
  }

  /** One record for each line. */
  ghost predicate ParsedLines(tx: TextFns, lines: seq<string>, out: seq<Value>) {
    && |out| == |lines|
    && forall k :: 0 <= k < |out| ==> tx.parseJson(lines[k]).Some? && out[k] == AsRecord(tx.parseJson(lines[k]).value)
  }

  lemma {:induction false} TraverseLines(tx: TextFns, lines: seq<string>)
    ensures var r := Traverse(In.AsLines(lines), In.ReadItem(tx, In.JsonLines));
            && (r.Ok? <==> Readable(tx, NonBlank(tx, lines)))
            && (r.Ok? ==> ParsedLines(tx, NonBlank(tx, lines), r.value))
  {
    if lines != [] {
      var init, last := lines[..|lines| - 1], lines[|lines| - 1];
      TraverseLines(tx, init);
      assert In.AsLines(lines)[..|init|] == In.AsLines(init);
      assert In.AsLines(lines)[|init|] == In.Line(last);
    }
  }

  lemma {:induction false} PickLines(lines: seq<string>, n: nat, p: nat)
    requires n > 0
    ensures In.Pick(In.AsLines(lines), n, p) == In.AsLines(In.Pick(lines, n, p))
  {
    if lines != [] {
      var init := lines[..|lines| - 1];
      PickLines(init, n, p);
      assert In.AsLines(lines)[..|init|] == In.AsLines(init);
    }
  }

  /**
   Task `p` of `n` reads every n-th line of a JSON-lines file, blank ones included in the count; it fails exactly when
   one of its own non-blank lines does not parse, and otherwise outputs a record for each of them, in order.
   */
  ghost predicate ReadsJsonLines(tx: TextFns, lines: seq<string>, n: nat, p: nat, r: Result<seq<Value>, string>) {
    exists mine: seq<string> ::
      && EveryNth(lines, n, p, mine)
      && (r.Ok? <==> Readable(tx, NonBlank(tx, mine)))
      && (r.Ok? ==> ParsedLines(tx, NonBlank(tx, mine), r.value))
  }

  lemma JsonLinesContents(tx: TextFns, format: string, lines: seq<string>, eol: string, tail: string, n: nat, p: nat)
    requires PlainLines(lines, eol, tail) && p < n
    requires format == "jsonl" || format == "ndjson" || (format == "json" && !tx.startsArray(TextOf(lines, eol) + tail))
    ensures ReadsJsonLines(tx, AllLines(lines, tail), n, p,
                           In.ReadPartition(tx, format, Some(TextOf(lines, eol) + tail), n, p))
  {
    var all := AllLines(lines, tail);
    LinesOfText(lines, eol, tail);
    PickLines(all, n, p);
    PickIsEveryNth(all, n, p);
    TraverseLines(tx, In.Pick(all, n, p));
    FormatsDiffer();
  }

  lemma FormatsDiffer()
    ensures "jsonl" != "csv" && "ndjson" != "csv" && "json" != "csv" && "json" != "jsonl" && "json" != "ndjson"
  {
    assert |"csv"| == 3 && |"json"| == 4 && |"jsonl"| == 5 && |"ndjson"| == 6;
  }

  function RecordOf(): Value -> Value {
    (v: Value) => AsRecord(v)
  }

  function RecordOfItem(): In.Item -> Value {
    (x: In.Item) => if x.Element? then AsRecord(x.value) else Null
  }

  /** Task `p` of `n` reads every n-th element of a JSON array; a file that only looks like one fails. */
  lemma JsonArrayContents(tx: TextFns, text: string, n: nat, p: nat)
    requires tx.startsArray(text) && p < n
    ensures var r := In.ReadPartition(tx, "json", Some(text), n, p);
            && (r.Ok? <==> tx.parseArray(text).Some?)
            && (r.Ok? ==> ReadsEveryNth(tx.parseArray(text).value, n, p, RecordOf(), r.value))
  {
    FormatsDiffer();
    if tx.parseArray(text).Some? {
      var vs := tx.parseArray(text).value;
      var items := In.AsElements(vs);
      forall x | x in items ensures In.ReadItem(tx, In.JsonArray)(x) == Ok([RecordOfItem()(x)]) {
        assert x.Element? && In.NormalizeJson(x.value) == AsRecord(x.value);
      }
      ReadSingles(items, n, p, In.ReadItem(tx, In.JsonArray), RecordOfItem());
      var out := Traverse(In.Pick(items, n, p), In.ReadItem(tx, In.JsonArray)).value;
      forall k | 0 <= k < |out| ensures Position(k, n, p) < |vs| && out[k] == RecordOf()(vs[Position(k, n, p)]) {
        assert out[k] == RecordOfItem()(items[Position(k, n, p)]);
      }
    }
  }

  /** Missing files, blank CSV headers and unknown formats fail. */
  lemma ReadFails(tx: TextFns, format: string, header: string, rest: string, n: nat, p: nat)
    requires n > 0 && '\n' !in header
    ensures In.ReadPartition(tx, format, None, n, p).Err?
    ensures tx.blank(header) ==> In.ReadPartition(tx, "csv", Some(header + "\n" + rest), n, p).Err?
    ensures format !in ["csv", "jsonl", "ndjson", "json"] ==> In.ReadPartition(tx, format, Some(rest), n, p).Err?
  {
    HeaderOf(header, rest);
  }
}
