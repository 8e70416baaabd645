/** The data model of types.ts: roles, part discriminators, content parts,
    messages and chat sessions. */
module Types {
  import opened Wrappers

  /** `MessageRole` (types.ts:1-4): exactly two roles. */
  datatype MessageRole = User | Model {
    /** The enum's string value. */
    function Name(): (s: string)
      ensures s == "user" || s == "model"
    {
      match this
      case User => "user"
      case Model => "model"
    }
  }

  /** `PartType` (types.ts:6-9): the two discriminator strings of a content part. */
  datatype PartType = Explanation | Visual {
    function Tag(): (s: string)
      ensures s == "explanation" || s == "visual"
    {
      match this
      case Explanation => "explanation"
      case Visual => "visual"
    }
  }

  /** `ContentPart` (types.ts:11-22): an explanation carries only its text, a
      visual carries its html and an optional summary flag. */
  datatype ContentPart =
    | ExplanationPart(text: string)
    | VisualPart(html: string, isSummary: Option<bool>)
  {
    /** The `type` field of the TypeScript union. */
    function Type(): PartType
    {
      match this
      case ExplanationPart(_) => Explanation
      case VisualPart(_, _) => Visual
    }
  }

  /** The `file` metadata of a user message (types.ts:30-33). */
  datatype FileInfo = FileInfo(name: string, mediaType: string)

  /** `Message` (types.ts:24-34): every field except `id` and `role` is optional. */
  datatype Message = Message(
    id: string,
    role: MessageRole,
    content: Option<string>,
    parts: Option<seq<ContentPart>>,
    isError: Option<bool>,
    file: Option<FileInfo>)

  /** `ChatSession` (types.ts:36-40). */
  datatype ChatSession = ChatSession(id: string, title: string, messages: seq<Message>)

  /** The `type` of a part is the discriminator of its variant. */
  lemma TypeOfVariant(p: ContentPart)
    ensures p.ExplanationPart? <==> p.Type().Tag() == "explanation"
    ensures p.VisualPart? <==> p.Type().Tag() == "visual"
  {
  }

  /** The two discriminators are distinct, so a `type` string names at most one variant. */
  lemma TagsDistinct(a: PartType, b: PartType)
    ensures a.Tag() == b.Tag() ==> a == b
  {
  }
}
