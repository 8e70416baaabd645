/** The inline record validator of the stream handler
    (components/ChatLayout.tsx:186-195) and, as its partner, the wire encoding
    of a content part that the backend is asked to emit. */
module PartValidator {
  import opened Wrappers
  import opened Types
  import opened Json

  /** Turns a parsed line into a content part, or None (`null`) when the value
      is not an object with a truthy `type`, the type is neither discriminator,
      or the required string field is missing or not a string. `isSummary` is
      the truthiness of the member, so it is always present in the result. */
  function ToContentPart(v: Json): (r: Option<ContentPart>)
    // an explanation exactly for an object typed "explanation" with a string text, carrying that text
    ensures (r.Some? && r.value.ExplanationPart?) <==>
      v.JObject? && Get(v, "type") == Some(JString("explanation")) && IsString(Get(v, "text"))
    ensures r.Some? && r.value.ExplanationPart? ==> Get(v, "text") == Some(JString(r.value.text))
    // a visual exactly for an object typed "visual" with a string html; the flag is the truthiness of isSummary
    ensures (r.Some? && r.value.VisualPart?) <==>
      v.JObject? && Get(v, "type") == Some(JString("visual")) && IsString(Get(v, "html"))
    ensures r.Some? && r.value.VisualPart? ==>
      Get(v, "html") == Some(JString(r.value.html)) && r.value.isSummary == Some(Truthy(Get(v, "isSummary")))
  {
    var ty := Get(v, "type");
    if !Truthy(Some(v)) || !IsObjectType(v) || !Truthy(ty) then None
    else if ty == Some(JString(Explanation.Tag())) && IsString(Get(v, "text")) then
      Some(ExplanationPart(Get(v, "text").value.s))
    else if ty == Some(JString(Visual.Tag())) && IsString(Get(v, "html")) then
      Some(VisualPart(Get(v, "html").value.s, Some(Truthy(Get(v, "isSummary")))))
    else None
  }

  /** Everything else is rejected, and nothing is appended for it: non-objects
      (arrays included), a missing or falsy `type`, another discriminator, or a
      required field that is not a string. */
  lemma Rejected(v: Json)
    ensures ToContentPart(v) == None <==>
      || !v.JObject?
      || (Get(v, "type") != Some(JString("explanation")) && Get(v, "type") != Some(JString("visual")))
      || (Get(v, "type") == Some(JString("explanation")) && !IsString(Get(v, "text")))
      || (Get(v, "type") == Some(JString("visual")) && !IsString(Get(v, "html")))
  {
  }

  /** An accepted part's `type` is the discriminator the value carried, and
      the encoding writes its part's discriminator. */
  lemma TypeKept(v: Json, p: ContentPart)
    ensures ToContentPart(v).Some? ==> Get(v, "type") == Some(JString(ToContentPart(v).value.Type().Tag()))
    ensures Get(Encode(p), "type") == Some(JString(p.Type().Tag()))
  {
  }

  /** The record a well-behaved backend writes for a part:
      `{"type":"explanation","text":…}` or `{"type":"visual","html":…}` with
      an `isSummary` member only when the part has one. */
  function Encode(p: ContentPart): Json
  {
    match p
    case ExplanationPart(t) =>
      JObject(map["type" := JString(Explanation.Tag()), "text" := JString(t)])
    case VisualPart(h, None) =>
      JObject(map["type" := JString(Visual.Tag()), "html" := JString(h)])
    case VisualPart(h, Some(b)) =>
      JObject(map["type" := JString(Visual.Tag()), "html" := JString(h), "isSummary" := JBool(b)])
  }

  /** What the validator makes of an encoded part: the same part with the
      summary flag decided (an absent flag becomes false). */
  function Canonical(p: ContentPart): ContentPart
  {
    match p
    case ExplanationPart(t) => p
    case VisualPart(h, s) => VisualPart(h, Some(s == Some(true)))
  }

  /** Round trip: validating an encoded part gives back the part, with an
      absent summary flag read as false. */
  lemma {:induction false} DecodeEncode(p: ContentPart)
    ensures ToContentPart(Encode(p)) == Some(Canonical(p))
  {
    match p
    case ExplanationPart(t) =>
      assert Get(Encode(p), "type") == Some(JString("explanation"));
      assert Get(Encode(p), "text") == Some(JString(t));
    case VisualPart(h, s) =>
      var e := Encode(p);
      assert Get(e, "type") == Some(JString("visual"));
      assert Get(e, "html") == Some(JString(h));
      assert Get(e, "isSummary") == if s.Some? then Some(JBool(s.value)) else None;
  }

  /** Every part the validator accepts is already canonical, and encoding it
      and validating again reproduces it. */
  lemma {:induction false} AcceptedIsFixedPoint(v: Json)
    requires ToContentPart(v).Some?
    ensures Canonical(ToContentPart(v).value) == ToContentPart(v).value
    ensures ToContentPart(Encode(ToContentPart(v).value)) == ToContentPart(v)
  {
    DecodeEncode(ToContentPart(v).value);
  }

  /** `{"type":"visual","html":"x"}` yields a visual "x" that is not a summary. */
  lemma SummaryDefaultsToFalse()
    ensures ToContentPart(JObject(map["type" := JString("visual"), "html" := JString("x")]))
      == Some(VisualPart("x", Some(false)))
  {
    var v := JObject(map["type" := JString("visual"), "html" := JString("x")]);
    assert Get(v, "isSummary") == None;
  }

  /** Truthiness, not a boolean test: `"isSummary": 1` marks a summary. */
  lemma SummaryIsTruthiness()
    ensures ToContentPart(JObject(map["type" := JString("visual"), "html" := JString("x"), "isSummary" := JNumber(1.0)]))
      == Some(VisualPart("x", Some(true)))
  {
    var v := JObject(map["type" := JString("visual"), "html" := JString("x"), "isSummary" := JNumber(1.0)]);
    assert Get(v, "isSummary") == Some(JNumber(1.0));
  }
}
