/** The streaming line decoder of the send handler
    (components/ChatLayout.tsx:169-221): text chunks are appended to a buffer,
    every newline-terminated line is cut off, trimmed, skipped when blank,
    parsed, validated and handed on; what follows the last newline waits in
    the buffer for the next chunk, and at the end of the stream a non-blank
    remainder is only reported. */
module LineDecoder {
  import opened Wrappers
  import opened Types
  import opened Json
  import opened JsString
  import opened PartValidator

  // ----- Framing: the lines of a text and what follows the last newline -----

  /** The newline-terminated lines of `s`, without their newlines, in order. */
  function Lines(s: string): (ls: seq<string>)
    ensures forall i :: 0 <= i < |ls| ==> '\n' !in ls[i]
    decreases |s|
  {
    var i := IndexOf(s, '\n');
    if i < 0 then [] else [s[..i]] + Lines(s[i + 1..])
  }

  /** The text after the last newline of `s` (all of `s` when it has none). */
  function Rest(s: string): (r: string)
    ensures '\n' !in r
    decreases |s|
  {
    var i := IndexOf(s, '\n');
    if i < 0 then s else Rest(s[i + 1..])
  }

  /** Each line followed by a newline: the inverse of framing. */
  function Unlines(ls: seq<string>): string
  {
    if ls == [] then "" else ls[0] + "\n" + Unlines(ls[1..])
  }

  /** A text is its lines, each re-terminated, followed by its remainder. */
  lemma {:induction false} Reassemble(s: string)
    ensures s == Unlines(Lines(s)) + Rest(s)
    decreases |s|
  {
    var i := IndexOf(s, '\n');
    if i >= 0 {
      var t := s[i + 1..];
      Reassemble(t);
      CutAt(s, i);
      Regroup(s[..i], Unlines(Lines(t)), Rest(t));
    }
  }

  /** A text without a newline has no line and is its own remainder. */
  lemma NoLine(s: string)
    requires '\n' !in s
    ensures Lines(s) == [] && Rest(s) == s
  {
  }

  lemma Shift(done: seq<string>, raw: string, more: seq<string>)
    ensures done + ([raw] + more) == (done + [raw]) + more
  {
  }

  /** Cutting off the first line of a text that has one. */
  lemma CutLine(s: string)
    requires '\n' in s
    ensures var i := IndexOf(s, '\n');
      Lines(s) == [s[..i]] + Lines(s[i + 1..]) && Rest(s) == Rest(s[i + 1..])
  {
  }

  lemma CutAt(s: string, i: nat)
    requires i < |s| && s[i] == '\n'
    ensures s == s[..i] + "\n" + s[i + 1..]
  {
  }

  lemma Regroup(a: string, u: string, r: string)
    ensures a + "\n" + (u + r) == (a + "\n" + u) + r
  {
  }

  /** The first newline of `l + "\n" + x` ends `l` when `l` has none. */
  lemma FirstNewline(l: string, x: string)
    requires '\n' !in l
    ensures IndexOf(l + "\n" + x, '\n') == |l|
  {
    var s := l + "\n" + x;
    var k := IndexOf(s, '\n');
    assert s[|l|] == '\n';
  }

  /** Framing is unique: a text written as newline-free lines, each followed by
      a newline, and a newline-free remainder has exactly those lines and that
      remainder. */
  lemma {:induction false} Unique(ls: seq<string>, r: string)
    requires forall i :: 0 <= i < |ls| ==> '\n' !in ls[i]
    requires '\n' !in r
    ensures Lines(Unlines(ls) + r) == ls
    ensures Rest(Unlines(ls) + r) == r
  {
    if ls == [] {
      assert Unlines(ls) + r == r;
    } else {
      var s := Unlines(ls) + r;
      var x := Unlines(ls[1..]) + r;
      assert s == ls[0] + "\n" + x;
      FirstNewline(ls[0], x);
      assert s[..|ls[0]|] == ls[0];
      assert s[|ls[0]| + 1..] == x;
      Unique(ls[1..], r);
    }
  }

  lemma {:induction false} UnlinesAppend(a: seq<string>, b: seq<string>)
    ensures Unlines(a + b) == Unlines(a) + Unlines(b)
  {
    if a != [] {
      assert (a + b)[0] == a[0];
      assert (a + b)[1..] == a[1..] + b;
      UnlinesAppend(a[1..], b);
      Regroup(a[0], Unlines(a[1..]), Unlines(b));
    } else {
      assert a + b == b;
    }
  }

  /** Framing `s + t` is framing `s`, then framing its remainder together with `t`. */
  lemma LinesAppend(s: string, t: string)
    ensures Lines(s + t) == Lines(s) + Lines(Rest(s) + t)
    ensures Rest(s + t) == Rest(Rest(s) + t)
  {
    var l1, r1 := Lines(s), Rest(s);
    var l2, r2 := Lines(r1 + t), Rest(r1 + t);
    Reassemble(s);
    Reassemble(r1 + t);
    UnlinesAppend(l1, l2);
    Chain(s, Unlines(l1), r1, t, Unlines(l2), r2);
    NoNewlineInLines(l1, l2);
    Unique(l1 + l2, r2);
  }

  lemma Chain(s: string, u1: string, r1: string, t: string, u2: string, r2: string)
    requires s == u1 + r1 && r1 + t == u2 + r2
    ensures s + t == (u1 + u2) + r2
  {
    assert (u1 + r1) + t == u1 + (r1 + t);
    assert u1 + (u2 + r2) == (u1 + u2) + r2;
  }

  lemma NoNewlineInLines(a: seq<string>, b: seq<string>)
    requires forall i :: 0 <= i < |a| ==> '\n' !in a[i]
    requires forall i :: 0 <= i < |b| ==> '\n' !in b[i]
    ensures forall i :: 0 <= i < |a + b| ==> '\n' !in (a + b)[i]
  {
  }

  /** A fragment without a newline adds no line: it only lengthens the remainder. */
  lemma TrailingFragmentAddsNoLine(s: string, t: string)
    requires '\n' !in t
    ensures Lines(s + t) == Lines(s)
    ensures Rest(s + t) == Rest(s) + t
  {
    LinesAppend(s, t);
    Unique([], Rest(s) + t);
  }

  // ----- What becomes of one line -----

  /** The fate of one cut-off line: blank (skipped before parsing), malformed
      (the parse threw; warned about), dropped (the validator gave null) or a
      record. */
  datatype LineResult = Blank | Malformed(line: string) | Dropped(value: Json) | Record(part: ContentPart)

  function ClassifyLine(parse: string -> Option<Json>, raw: string): LineResult
  {
    var line := Trim(raw);
    if line == "" then Blank
    else match parse(line)
      case None => Malformed(line)
      case Some(v) =>
        match ToContentPart(v)
        case None => Dropped(v)
        case Some(p) => Record(p)
  }

  /** `ClassifyLine` for one fixed `JSON.parse`. */
  function Classifier(parse: string -> Option<Json>): string -> LineResult
  {
    raw => ClassifyLine(parse, raw)
  }

  /** The fate of each line, in order. */
  function Fates(classify: string -> LineResult, lines: seq<string>): seq<LineResult>
  {
    if lines == [] then []
    else Fates(classify, lines[..|lines| - 1]) + [classify(lines[|lines| - 1])]
  }

  /** The records among the results, in order. */
  function RecordsIn(rs: seq<LineResult>): seq<ContentPart>
  {
    if rs == [] then []
    else RecordsIn(rs[..|rs| - 1]) + if rs[|rs| - 1].Record? then [rs[|rs| - 1].part] else []
  }

  /** The warnings among the results (the trimmed lines that failed to parse), in order. */
  function WarningsIn(rs: seq<LineResult>): seq<string>
  {
    if rs == [] then []
    else WarningsIn(rs[..|rs| - 1]) + if rs[|rs| - 1].Malformed? then [rs[|rs| - 1].line] else []
  }

  /** The records the lines yield, in order. */
  function RecordsOf(parse: string -> Option<Json>, lines: seq<string>): seq<ContentPart>
  {
    RecordsIn(Fates(Classifier(parse), lines))
  }

  /** The warnings the lines yield, in order. */
  function WarningsOf(parse: string -> Option<Json>, lines: seq<string>): seq<string>
  {
    WarningsIn(Fates(Classifier(parse), lines))
  }

  lemma {:induction false} FatesAppend(classify: string -> LineResult, a: seq<string>, b: seq<string>)
    ensures Fates(classify, a + b) == Fates(classify, a) + Fates(classify, b)
    decreases |b|
  {
    if b != [] {
      var b' := b[..|b| - 1];
      assert (a + b)[..|a + b| - 1] == a + b';
      assert (a + b)[|a + b| - 1] == b[|b| - 1];
      FatesAppend(classify, a, b');
    } else {
      assert a + b == a;
    }
  }

  lemma {:induction false} ResultsAppend(a: seq<LineResult>, b: seq<LineResult>)
    ensures RecordsIn(a + b) == RecordsIn(a) + RecordsIn(b)
    ensures WarningsIn(a + b) == WarningsIn(a) + WarningsIn(b)
    decreases |b|
  {
    if b != [] {
      var b' := b[..|b| - 1];
      assert (a + b)[..|a + b| - 1] == a + b';
      assert (a + b)[|a + b| - 1] == b[|b| - 1];
      ResultsAppend(a, b');
    } else {
      assert a + b == a;
    }
  }

  /** Records and warnings of consecutive lines are those of each part, in order. */
  lemma RecordsOfAppend(parse: string -> Option<Json>, a: seq<string>, b: seq<string>)
    ensures RecordsOf(parse, a + b) == RecordsOf(parse, a) + RecordsOf(parse, b)
    ensures WarningsOf(parse, a + b) == WarningsOf(parse, a) + WarningsOf(parse, b)
  {
    FatesAppend(Classifier(parse), a, b);
    ResultsAppend(Fates(Classifier(parse), a), Fates(Classifier(parse), b));
  }

  /** One line yields its record, if it is one, and its warning, if it is malformed. */
  lemma SingleLine(parse: string -> Option<Json>, raw: string)
    ensures var c := ClassifyLine(parse, raw);
      && RecordsOf(parse, [raw]) == (if c.Record? then [c.part] else [])
      && WarningsOf(parse, [raw]) == (if c.Malformed? then [c.line] else [])
  {
    var c := ClassifyLine(parse, raw);
    var rs := Fates(Classifier(parse), [raw]);
    assert [raw][..0] == [];
    assert rs == Fates(Classifier(parse), []) + [Classifier(parse)(raw)];
    assert Classifier(parse)(raw) == c;
    assert rs[..0] == [];
    assert RecordsIn(rs) == RecordsIn([]) + (if c.Record? then [c.part] else []);
    assert WarningsIn(rs) == WarningsIn([]) + (if c.Malformed? then [c.line] else []);
  }

  /** A blank line is never handed to the parser: its fate is the same whatever
      `JSON.parse` would do, and it yields neither a record nor a warning. */
  lemma BlankLineNeverParsed(p1: string -> Option<Json>, p2: string -> Option<Json>, raw: string)
    requires JsString.Blank(raw)
    ensures ClassifyLine(p1, raw) == ClassifyLine(p2, raw) == Blank
    ensures RecordsOf(p1, [raw]) == [] && WarningsOf(p1, [raw]) == []
  {
    SingleLine(p1, raw);
  }

  /** The records and warnings around one line. */
  lemma Around(parse: string -> Option<Json>, before: seq<string>, x: string, after: seq<string>)
    ensures RecordsOf(parse, before + [x] + after)
      == RecordsOf(parse, before) + RecordsOf(parse, [x]) + RecordsOf(parse, after)
    ensures WarningsOf(parse, before + [x] + after)
      == WarningsOf(parse, before) + WarningsOf(parse, [x]) + WarningsOf(parse, after)
  {
    RecordsOfAppend(parse, before, [x]);
    RecordsOfAppend(parse, before + [x], after);
  }

  lemma NoRecordAround(parse: string -> Option<Json>, before: seq<string>, x: string, after: seq<string>)
    requires RecordsOf(parse, [x]) == []
    ensures RecordsOf(parse, before + [x] + after) == RecordsOf(parse, before) + RecordsOf(parse, after)
  {
    Around(parse, before, x, after);
  }

  lemma WarningsAround(parse: string -> Option<Json>, before: seq<string>, x: string, after: seq<string>, w: seq<string>)
    requires WarningsOf(parse, [x]) == w
    ensures WarningsOf(parse, before + [x] + after) == WarningsOf(parse, before) + w + WarningsOf(parse, after)
  {
    Around(parse, before, x, after);
  }

  lemma MalformedAlone(parse: string -> Option<Json>, bad: string)
    requires ClassifyLine(parse, bad).Malformed?
    ensures RecordsOf(parse, [bad]) == [] && WarningsOf(parse, [bad]) == [Trim(bad)]
  {
    SingleLine(parse, bad);
  }

  lemma RecordAlone(parse: string -> Option<Json>, l: string, p: ContentPart)
    requires ClassifyLine(parse, l) == Record(p)
    ensures RecordsOf(parse, [l]) == [p] && WarningsOf(parse, [l]) == []
  {
    SingleLine(parse, l);
  }

  lemma DroppedAlone(parse: string -> Option<Json>, bad: string)
    requires ClassifyLine(parse, bad).Dropped?
    ensures RecordsOf(parse, [bad]) == [] && WarningsOf(parse, [bad]) == []
  {
    SingleLine(parse, bad);
  }

  /** One bad line does not stop the stream: the lines before and after it
      still yield their records, and the bad line adds exactly one warning. */
  lemma MalformedLineSkipped(parse: string -> Option<Json>, before: seq<string>, bad: string, after: seq<string>)
    requires ClassifyLine(parse, bad).Malformed?
    ensures RecordsOf(parse, before + [bad] + after) == RecordsOf(parse, before) + RecordsOf(parse, after)
    ensures WarningsOf(parse, before + [bad] + after)
      == WarningsOf(parse, before) + [Trim(bad)] + WarningsOf(parse, after)
  {
    MalformedAlone(parse, bad);
    NoRecordAround(parse, before, bad, after);
    WarningsAround(parse, before, bad, after, [Trim(bad)]);
  }

  /** A line the validator rejects changes nothing either, and is not warned about. */
  lemma RejectedLineSkipped(parse: string -> Option<Json>, before: seq<string>, bad: string, after: seq<string>)
    requires ClassifyLine(parse, bad).Dropped?
    ensures RecordsOf(parse, before + [bad] + after) == RecordsOf(parse, before) + RecordsOf(parse, after)
    ensures WarningsOf(parse, before + [bad] + after) == WarningsOf(parse, before) + WarningsOf(parse, after)
  {
    DroppedAlone(parse, bad);
    NoRecordAround(parse, before, bad, after);
    WarningsAround(parse, before, bad, after, []);
  }

  // ----- The remainder at the end of the stream -----

  /** The warning due at stream end: the trimmed remainder, when it is not blank. */
  function DanglingOf(buffer: string): (d: Option<string>)
    ensures d.Some? <==> !JsString.Blank(buffer)
    ensures d.Some? ==> d.value == Trim(buffer) && d.value != ""
  {
    var t := Trim(buffer);
    if t != "" then Some(t) else None
  }

  // ----- The decoder object -----

  /** The decoding state of one stream: `jsonBuffer` and the `JSON.parse` in use. */
  class Decoder {
    var buffer: string
    const parse: string -> Option<Json>

    constructor (parse: string -> Option<Json>)
      ensures buffer == "" && this.parse == parse
    {
      buffer := "";
      this.parse := parse;
    }

    /** The chunk callback: appends the chunk and cuts off every complete line.
        Afterwards the buffer holds no newline, it is the text after the last
        newline of old buffer + chunk, and the records and warnings are exactly
        those of that text's complete lines, in order. */
    method Feed(chunk: string) returns (records: seq<ContentPart>, warnings: seq<string>)
      modifies this
      ensures '\n' !in buffer
      ensures buffer == Rest(old(buffer) + chunk)
      ensures records == RecordsOf(parse, Lines(old(buffer) + chunk))
      ensures warnings == WarningsOf(parse, Lines(old(buffer) + chunk))
    {
      buffer := buffer + chunk;
      ghost var text := buffer;
      ghost var done: seq<string> := [];
      records, warnings := [], [];
      var newlineIndex := IndexOf(buffer, '\n');
      while newlineIndex != -1
        invariant newlineIndex == IndexOf(buffer, '\n')
        invariant Lines(text) == done + Lines(buffer)
        invariant Rest(text) == Rest(buffer)
        invariant records == RecordsOf(parse, done)
        invariant warnings == WarningsOf(parse, done)
        decreases |buffer|
      {
        CutLine(buffer);
        var raw := buffer[..newlineIndex];
        buffer := buffer[newlineIndex + 1..];
        var record, warning := HandleLine(raw);
        records := records + record;
        warnings := warnings + warning;
        RecordsOfAppend(parse, done, [raw]);
        Shift(done, raw, Lines(buffer));
        done := done + [raw];
        newlineIndex := IndexOf(buffer, '\n');
      }
      NoLine(buffer);
      assert Lines(text) == done;
    }

    /** The body of the line loop for one cut-off line: trim, skip when blank,
        parse (a failure is warned about), validate, and hand on a valid record. */
    method HandleLine(raw: string) returns (record: seq<ContentPart>, warning: seq<string>)
      ensures record == RecordsOf(parse, [raw])
      ensures warning == WarningsOf(parse, [raw])
    {
      SingleLine(parse, raw);
      record, warning := [], [];
      var line := Trim(raw);
      if line != "" {
        match parse(line)
        case None =>
          warning := [line];
        case Some(v) =>
          var part := ToContentPart(v);
          if part.Some? {
            record := [part.value];
          }
      }
    }

    /** The end-of-stream check: a non-blank remainder is reported, never emitted. */
    method Finish() returns (dangling: Option<string>)
      ensures dangling == DanglingOf(buffer)
    {
      var rest := Trim(buffer);
      if rest != "" {
        dangling := Some(rest);
      } else {
        dangling := None;
      }
    }
  }

  /** The concatenation of the chunks. */
  function Concat(chunks: seq<string>): string
  {
    if chunks == [] then "" else Concat(chunks[..|chunks| - 1]) + chunks[|chunks| - 1]
  }

  /** A whole normal-ending stream: the callback once per chunk, then the
      end-of-stream check. What comes out depends only on the concatenation
      of the chunks, however the text was split. */
  method DecodeStream(parse: string -> Option<Json>, chunks: seq<string>)
    returns (records: seq<ContentPart>, warnings: seq<string>, dangling: Option<string>)
    ensures records == RecordsOf(parse, Lines(Concat(chunks)))
    ensures warnings == WarningsOf(parse, Lines(Concat(chunks)))
    ensures dangling == DanglingOf(Rest(Concat(chunks)))
  {
    var decoder := new Decoder(parse);
    records, warnings := [], [];
    var k := 0;
    while k < |chunks|
      invariant 0 <= k <= |chunks|
      invariant decoder.parse == parse
      invariant decoder.buffer == Rest(Concat(chunks[..k]))
      invariant records == RecordsOf(parse, Lines(Concat(chunks[..k])))
      invariant warnings == WarningsOf(parse, Lines(Concat(chunks[..k])))
    {
      ghost var before := Concat(chunks[..k]);
      var rs, ws := decoder.Feed(chunks[k]);
      assert chunks[..k + 1][..k] == chunks[..k];
      assert Concat(chunks[..k + 1]) == before + chunks[k];
      LinesAppend(before, chunks[k]);
      RecordsOfAppend(parse, Lines(before), Lines(Rest(before) + chunks[k]));
      records := records + rs;
      warnings := warnings + ws;
      k := k + 1;
    }
    assert chunks[..k] == chunks;
    dangling := decoder.Finish();
  }

  // ----- Two streams worked through -----

  /** Three records, the middle one rejected by the validator (the shape
      `{"bad":1}` has, BadIsDropped): the stream yields the other two in
      order, and no warning. With `{"type":"visual","html":"x"}` and
      `{"type":"explanation","text":"y"}` around it, these are a visual that is
      not a summary and an explanation (SummaryDefaultsToFalse,
      ExplanationAccepted). */
  lemma MixedStream(parse: string -> Option<Json>, l1: string, l2: string, l3: string, p1: ContentPart, p3: ContentPart)
    requires '\n' !in l1 && '\n' !in l2 && '\n' !in l3
    requires ClassifyLine(parse, l1) == Record(p1)
    requires ClassifyLine(parse, l2).Dropped?
    requires ClassifyLine(parse, l3) == Record(p3)
    ensures var text := l1 + "\n" + l2 + "\n" + l3 + "\n";
      && RecordsOf(parse, Lines(text)) == [p1, p3]
      && WarningsOf(parse, Lines(text)) == []
      && Rest(text) == ""
  {
    ThreeLines(l1, l2, l3);
    MixedLines(parse, l1, l2, l3, p1, p3);
  }

  /** The lines of MixedStream, already cut off. */
  lemma MixedLines(parse: string -> Option<Json>, l1: string, l2: string, l3: string, p1: ContentPart, p3: ContentPart)
    requires ClassifyLine(parse, l1) == Record(p1)
    requires ClassifyLine(parse, l2).Dropped?
    requires ClassifyLine(parse, l3) == Record(p3)
    ensures RecordsOf(parse, [l1, l2, l3]) == [p1, p3]
    ensures WarningsOf(parse, [l1, l2, l3]) == []
  {
    RecordAlone(parse, l1, p1);
    DroppedAlone(parse, l2);
    RecordAlone(parse, l3, p3);
    Stitch(parse, l1, l2, l3, [p1], [], [p3]);
    assert [p1] + [] + [p3] == [p1, p3];
  }

  /** Three lines yield, in order, what each yields alone. */
  lemma Stitch(parse: string -> Option<Json>, l1: string, l2: string, l3: string,
               r1: seq<ContentPart>, r2: seq<ContentPart>, r3: seq<ContentPart>)
    requires RecordsOf(parse, [l1]) == r1 && RecordsOf(parse, [l2]) == r2 && RecordsOf(parse, [l3]) == r3
    requires WarningsOf(parse, [l1]) == WarningsOf(parse, [l2]) == WarningsOf(parse, [l3]) == []
    ensures RecordsOf(parse, [l1, l2, l3]) == r1 + r2 + r3
    ensures WarningsOf(parse, [l1, l2, l3]) == []
  {
    Around(parse, [l1], l2, [l3]);
    assert [l1] + [l2] + [l3] == [l1, l2, l3];
  }

  /** A non-blank line that parses yields what the validator makes of the
      value, and no warning. */
  lemma ParsedLine(parse: string -> Option<Json>, l: string, v: Json)
    requires !JsString.Blank(l) && parse(Trim(l)) == Some(v)
    ensures ToContentPart(v).Some? ==> RecordsOf(parse, [l]) == [ToContentPart(v).value]
    ensures ToContentPart(v).None? ==> RecordsOf(parse, [l]) == []
    ensures WarningsOf(parse, [l]) == []
  {
    assert Trim(l) != "";
    SingleLine(parse, l);
  }

  lemma ExplanationAccepted()
    ensures ToContentPart(JObject(map["type" := JString("explanation"), "text" := JString("y")]))
      == Some(ExplanationPart("y"))
  {
    var v := JObject(map["type" := JString("explanation"), "text" := JString("y")]);
    assert Get(v, "type") == Some(JString("explanation"));
  }

  lemma ThreeLines(l1: string, l2: string, l3: string)
    requires '\n' !in l1 && '\n' !in l2 && '\n' !in l3
    ensures var text := l1 + "\n" + l2 + "\n" + l3 + "\n";
      Lines(text) == [l1, l2, l3] && Rest(text) == ""
  {
    var ls := [l1, l2, l3];
    UnlinesCons(l3, []);
    UnlinesCons(l2, [l3]);
    UnlinesCons(l1, [l2, l3]);
    assert [l1] + [l2, l3] == ls;
    Regroup(l1, l2 + "\n" + l3 + "\n", "");
    assert Unlines(ls) + "" == l1 + "\n" + l2 + "\n" + l3 + "\n";
    Unique(ls, "");
  }

  lemma UnlinesCons(l: string, ls: seq<string>)
    ensures Unlines([l] + ls) == l + "\n" + Unlines(ls)
  {
    assert ([l] + ls)[1..] == ls;
  }

  lemma BadIsDropped()
    ensures ToContentPart(JObject(map["bad" := JNumber(1.0)])) == None
  {
    assert Get(JObject(map["bad" := JNumber(1.0)]), "type") == None;
  }

  /** A record cut off before its newline yields no record and no warning from
      the line loop, whatever the parser would make of it; it is reported once,
      trimmed, at stream end. */
  lemma TruncatedStream(parse: string -> Option<Json>, t: string)
    requires '\n' !in t && !JsString.Blank(t)
    ensures RecordsOf(parse, Lines(t)) == [] && WarningsOf(parse, Lines(t)) == []
    ensures DanglingOf(Rest(t)) == Some(Trim(t))
  {
    NoLine(t);
  }
}
