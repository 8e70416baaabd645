/** What the send handler hands to the chat API besides the abort signal
    (components/ChatLayout.tsx:13-35, 142-167): the earlier messages of the
    session as request turns, and the new message as request parts. */
module History {
  import opened Wrappers
  import opened Types
  import opened JsString

  /** A request part: text, or inline data with its media type. The data is
      the second comma-separated field of a data URL, `undefined` when the
      URL has no comma. */
  datatype Part = TextPart(text: string) | InlineData(mimeType: string, data: Option<string>)

  /** A request turn. */
  datatype Content = Content(role: string, parts: seq<Part>)

  // ----- Earlier messages as turns (lines 142-158) -----

  /** `m.content` is truthy: present and not empty. */
  predicate HasContent(m: Message)
  {
    m.content.Some? && m.content.value != ""
  }

  /** The first filter (line 143): user messages need content. */
  predicate Kept(m: Message)
  {
    m.role != User || HasContent(m)
  }

  function KeptMessages(ms: seq<Message>): seq<Message>
  {
    if ms == [] then [] else (if Kept(ms[0]) then [ms[0]] else []) + KeptMessages(ms[1..])
  }

  /** The texts of the explanation parts, in order (lines 150-152). */
  function Explanations(ps: seq<ContentPart>): (r: seq<string>)
    ensures |r| <= |ps|
    ensures forall t :: t in r <==> ExplanationPart(t) in ps
  {
    if ps == [] then []
    else (if ps[0].ExplanationPart? then [ps[0].text] else []) + Explanations(ps[1..])
  }

  /** The filter works part by part: the explanations of two runs of parts
      are those of the first run followed by those of the second. */
  lemma {:induction false} ExplanationsAppend(a: seq<ContentPart>, b: seq<ContentPart>)
    ensures Explanations(a + b) == Explanations(a) + Explanations(b)
  {
    if a == [] {
      assert a + b == b;
    } else {
      assert (a + b)[0] == a[0];
      assert (a + b)[1..] == a[1..] + b;
      ExplanationsAppend(a[1..], b);
    }
  }

  /** The map (lines 144-157): a user message with content gives its text, a
      model message with parts gives its explanations joined by newlines,
      anything else gives no part. */
  function Turn(m: Message): Content
  {
    Content(
      m.role.Name(),
      if m.role == User && HasContent(m) then [TextPart(m.content.value)]
      else if m.role == Model && m.parts.Some? then [TextPart(Join(Explanations(m.parts.value), "\n"))]
      else [])
  }

  function Turns(ms: seq<Message>): seq<Content>
  {
    if ms == [] then [] else [Turn(ms[0])] + Turns(ms[1..])
  }

  /** The last filter (line 158): turns without parts are left out. */
  function NonEmptyTurns(cs: seq<Content>): seq<Content>
  {
    if cs == [] then [] else (if |cs[0].parts| > 0 then [cs[0]] else []) + NonEmptyTurns(cs[1..])
  }

  /** The request history for a session snapshot. */
  function ToHistory(ms: seq<Message>): seq<Content>
  {
    NonEmptyTurns(Turns(KeptMessages(ms)))
  }

  lemma {:induction false} KeptAppend(a: seq<Message>, b: seq<Message>)
    ensures KeptMessages(a + b) == KeptMessages(a) + KeptMessages(b)
  {
    if a == [] {
      assert a + b == b;
    } else {
      assert (a + b)[0] == a[0];
      assert (a + b)[1..] == a[1..] + b;
      KeptAppend(a[1..], b);
    }
  }

  lemma {:induction false} TurnsAppend(a: seq<Message>, b: seq<Message>)
    ensures Turns(a + b) == Turns(a) + Turns(b)
  {
    if a == [] {
      assert a + b == b;
    } else {
      assert (a + b)[0] == a[0];
      assert (a + b)[1..] == a[1..] + b;
      TurnsAppend(a[1..], b);
    }
  }

  lemma {:induction false} NonEmptyAppend(a: seq<Content>, b: seq<Content>)
    ensures NonEmptyTurns(a + b) == NonEmptyTurns(a) + NonEmptyTurns(b)
  {
    if a == [] {
      assert a + b == b;
    } else {
      assert (a + b)[0] == a[0];
      assert (a + b)[1..] == a[1..] + b;
      NonEmptyAppend(a[1..], b);
    }
  }

  /** The conversion goes message by message and keeps the order: the history
      of a concatenation is the concatenation of the histories. */
  lemma HistoryAppend(a: seq<Message>, b: seq<Message>)
    ensures ToHistory(a + b) == ToHistory(a) + ToHistory(b)
  {
    KeptAppend(a, b);
    TurnsAppend(KeptMessages(a), KeptMessages(b));
    NonEmptyAppend(Turns(KeptMessages(a)), Turns(KeptMessages(b)));
  }

  /** What one message contributes: a user message with non-empty content one
      user turn with its text; a model message with parts one model turn with
      the explanation texts joined by newlines; any other message (a user
      message without content, the greeting, a cancel or error notice) nothing. */
  lemma HistoryOfOne(m: Message)
    ensures ToHistory([m]) ==
      if m.role == User && HasContent(m) then [Content("user", [TextPart(m.content.value)])]
      else if m.role == Model && m.parts.Some? then [Content("model", [TextPart(Join(Explanations(m.parts.value), "\n"))])]
      else []
  {
    assert [m][1..] == [];
    if Kept(m) {
      assert KeptMessages([m]) == [m];
      assert Turns([m]) == [Turn(m)] + Turns([]);
      assert NonEmptyTurns([Turn(m)]) == (if |Turn(m).parts| > 0 then [Turn(m)] else []) + NonEmptyTurns([]);
    } else {
      assert KeptMessages([m]) == [] + KeptMessages([]);
    }
  }

  /** Every turn of the history has exactly one part and the role `user` or
      `model`, and no message gives more than one turn. */
  lemma {:induction false} HistoryTurnsHaveOnePart(ms: seq<Message>)
    ensures forall c :: c in ToHistory(ms) ==> |c.parts| == 1 && (c.role == "user" || c.role == "model")
    ensures |ToHistory(ms)| <= |ms|
  {
    if ms != [] {
      HistoryTurnsHaveOnePart(ms[1..]);
      HistoryOfOne(ms[0]);
      assert ms == [ms[0]] + ms[1..];
      HistoryAppend([ms[0]], ms[1..]);
    }
  }

  /** A model message whose parts hold no explanation still gives a turn, with
      the empty text. */
  lemma ModelWithoutExplanations(m: Message)
    requires m.role == Model && m.parts.Some?
    requires forall i :: 0 <= i < |m.parts.value| ==> m.parts.value[i].VisualPart?
    ensures ToHistory([m]) == [Content("model", [TextPart("")])]
  {
    HistoryOfOne(m);
    NoExplanationTexts(m.parts.value);
  }

  lemma {:induction false} NoExplanationTexts(ps: seq<ContentPart>)
    requires forall i :: 0 <= i < |ps| ==> ps[i].VisualPart?
    ensures Explanations(ps) == []
  {
    if ps != [] {
      NoExplanationTexts(ps[1..]);
    }
  }

  // ----- The new message as request parts (lines 13-35, 160-167) -----

  /** A chosen file: its name, media type and what the two `FileReader`
      reads give for it, the text and the data URL. */
  datatype UploadedFile = UploadedFile(name: string, mediaType: string, text: string, dataUrl: string)

  /** `file.type.startsWith('image/')` (line 162). */
  predicate IsImage(mediaType: string)
  {
    StartsWith(mediaType, "image/")
  }

  function UploadHeader(name: string): string
  {
    "\n\n--- Start of Uploaded File: " + name + " ---\n\n"
  }

  const UploadFooter: string := "\n\n--- End of Uploaded File ---"

  /** The text a non-image file is sent as (line 34). */
  function WrapUpload(name: string, text: string): string
  {
    UploadHeader(name) + text + UploadFooter
  }

  /** Reading a wrapped file back: the text between the header for that name
      and the footer, None when they are not there. */
  function UnwrapUpload(name: string, w: string): (r: Option<string>)
    ensures r.Some? ==> WrapUpload(name, r.value) == w
  {
    var h := UploadHeader(name);
    if |h| + |UploadFooter| <= |w| && StartsWith(w, h) && EndsWith(w, UploadFooter) then
      var t := w[|h|..|w| - |UploadFooter|];
      assert w == w[..|h|] + t + w[|w| - |UploadFooter|..];
      Some(t)
    else None
  }

  /** The wrapper keeps the file text intact: unwrapping gives it back. */
  lemma UnwrapWrap(name: string, text: string)
    ensures UnwrapUpload(name, WrapUpload(name, text)) == Some(text)
  {
    var h, w := UploadHeader(name), WrapUpload(name, text);
    assert w[..|h|] == h;
    assert w[|w| - |UploadFooter|..] == UploadFooter;
    assert w[|h|..|w| - |UploadFooter|] == text;
  }

  /** `dataUrl.split(',')[1]` (line 16): the field after the first comma, up to
      the next comma, or `undefined` (None) when there is no comma. */
  function DataUrlPayload(url: string): (r: Option<string>)
    ensures r.None? <==> ',' !in url
    ensures r.Some? ==> ',' !in r.value
    ensures r.Some? ==> var i := IndexOf(url, ',');
      && StartsWith(url[i + 1..], r.value)
      && (|url| == i + 1 + |r.value| || url[i + 1 + |r.value|] == ',')
  {
    var i := IndexOf(url, ',');
    if i < 0 then None
    else
      var rest := url[i + 1..];
      var j := IndexOf(rest, ',');
      if j < 0 then Some(rest) else Some(rest[..j])
  }

  /** For a base64 data URL the payload is the base64 text. */
  lemma PayloadOfBase64(mediaType: string, base64: string)
    requires ',' !in mediaType && ',' !in base64
    ensures DataUrlPayload("data:" + mediaType + ";base64," + base64) == Some(base64)
  {
    var p := "data:" + mediaType + ";base64";
    assert ',' !in "data:" && ',' !in ";base64";
    assert ',' !in p by {
      forall i | 0 <= i < |p| ensures p[i] != ',' {
        if i < 5 {
          assert p[i] == "data:"[i];
        } else if i < 5 + |mediaType| {
          assert p[i] == mediaType[i - 5];
        } else {
          assert p[i] == ";base64"[i - 5 - |mediaType|];
        }
      }
    }
    var url := p + [','] + base64;
    assert url == "data:" + mediaType + ";base64," + base64;
    FirstAfter(p, ',', base64);
    assert url[|p| + 1..] == base64;
  }

  /** The attachment part for a file (lines 161-166). */
  function Attachment(f: UploadedFile): Part
  {
    if IsImage(f.mediaType) then InlineData(f.mediaType, DataUrlPayload(f.dataUrl))
    else TextPart(WrapUpload(f.name, f.text))
  }

  /** `messageParts`: the text first, then the attachment when there is a file. */
  function MessageParts(text: string, file: Option<UploadedFile>): (r: seq<Part>)
    ensures |r| == if file.Some? then 2 else 1
    ensures r[0] == TextPart(text)
    ensures file.Some? ==> r[1] == Attachment(file.value)
  {
    [TextPart(text)] + if file.Some? then [Attachment(file.value)] else []
  }

  /** An image is sent as inline data of its media type; any other file as a
      text part from which its text can be read back. */
  lemma AttachmentKinds(f: UploadedFile)
    ensures IsImage(f.mediaType) ==> Attachment(f) == InlineData(f.mediaType, DataUrlPayload(f.dataUrl))
    ensures !IsImage(f.mediaType) ==>
      Attachment(f).TextPart? && UnwrapUpload(f.name, Attachment(f).text) == Some(f.text)
  {
    UnwrapWrap(f.name, f.text);
  }
}
