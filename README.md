# Teacher AI chat core in Dafny

This project models the chat-session logic of the Teacher AI web client. That logic lives in `components/ChatLayout.tsx`, with its data types in `types.ts`. The model has five parts:

- **Data model** (`types.dfy`). This covers message roles, part discriminators, explanation and visual parts, messages and chat sessions.
- **Record validator** (`validator.dfy`, with `json.dfy`). This is the inline function the stream handler applies to every parsed line. Its partner is the wire encoding a well-behaved backend writes.
- **Streaming line decoder** (`linedecoder.dfy`). A `Decoder` class holds `jsonBuffer` as its `buffer` field, and its `Feed` method is the chunk callback's `while` loop. It is specified by the pure framing functions `Lines`/`Rest` and by the per-line fates `RecordsOf`/`WarningsOf`.
- **Session-list updates** (`sessions.dfy`). These are the `map`/`filter` updates behind every `setChats`, plus the identifiers stamped from the clock.
- **History conversion and request parts** (`history.dfy`), and **the component's state** (`chatstore.dfy`). The state is a `Store` class with `chats`, `activeChatId`, `isLoading` and a clock. Its methods are `createNewChat`, `deleteChat`, session selection, the mount-time load and `handleSendMessage`. A send is split into its stages: the updates before the request, the stream, and the outcome.

Some external behaviour enters as parameters:

- `JSON.parse` is a parameter `parse: string -> Option<Json>`, where `None` means it throws.
- The API call is the sequence of text chunks it delivers, plus how it ends: `Completed`, `Aborted`, or `Failed` carrying an `Error`'s message or nothing.
- `Date.now()` is a counter `clock`. Each reading of it takes the next number.

The store's invariant `Valid()` says that no message carries a model id from a reading not yet taken. That is what makes the placeholder of a send the only message with its id, so the stream's appends and the outcome's removal touch nothing else.

## Model

| member | source | states |
|---|---|---|
| Types.MessageRole.Name | types.ts:1-4 | a role's string value is exactly `user` or `model` |
| Types.PartType.Tag | types.ts:6-9 | a discriminator's string value is exactly `explanation` or `visual` |
| Types.TagsDistinct | types.ts:6-9 | the two part discriminators are different strings, so a `type` names at most one variant |
| Types.ContentPart.Type | types.ts:11-22 | no contract of its own; TypeOfVariant states that a part's `type` names its own variant, and PartValidator.TypeKept that it is the discriminator of the value the part was read from |
| Types.TypeOfVariant | types.ts:11-22 | a part is an explanation exactly when its `type` is `explanation`, and a visual exactly when it is `visual` |
| Json.Get | components/ChatLayout.tsx:187-192 | property access yields a value exactly when the value is an object with that member, and then it is that member |
| Json.Truthy | components/ChatLayout.tsx:192 | no contract of its own; SummaryDefaultsToFalse and SummaryIsTruthiness state how `!!part.isSummary` reads an absent and a non-boolean member, and ToContentPart that the flag is its truthiness |
| PartValidator.ToContentPart | components/ChatLayout.tsx:186-195 | an explanation exactly for an object typed `explanation` with a string `text`, carrying that text; a visual exactly for an object typed `visual` with a string `html`, carrying it, with `isSummary` the truthiness of the member |
| PartValidator.Rejected | components/ChatLayout.tsx:187-194 | `null` exactly for non-objects, a `type` that is neither discriminator, or a missing or non-string required field |
| PartValidator.TypeKept | components/ChatLayout.tsx:188-193 | an accepted part's `type` is the discriminator the parsed value carried, and the encoding writes each part's own discriminator |
| PartValidator.DecodeEncode | components/ChatLayout.tsx:186-195 | validating the encoding of any part gives that part back, with an absent summary flag read as false |
| PartValidator.AcceptedIsFixedPoint | components/ChatLayout.tsx:186-195 | every accepted part is canonical, and encoding it and validating again reproduces it |
| PartValidator.SummaryDefaultsToFalse | components/ChatLayout.tsx:192 | a visual without `isSummary` is not a summary |
| PartValidator.SummaryIsTruthiness | components/ChatLayout.tsx:192 | `"isSummary": 1` marks a summary: the flag is truthiness, not a boolean test |
| JsString.Trim | components/ChatLayout.tsx:179 | the trimmed line is empty exactly when the line is blank, and otherwise neither starts nor ends with whitespace |
| JsString.TrimIsSlice | components/ChatLayout.tsx:179 | the trimmed line is the slice of the line that starts after its blank prefix, the longest one (TrimStart), and is followed by a blank suffix; with Trim's own contract this fixes it as the line without its leading and trailing whitespace |
| JsString.TrimEmptyIffBlank | components/ChatLayout.tsx:182 | trimming empties exactly the blank strings |
| JsString.IndexOf | components/ChatLayout.tsx:178 | -1 exactly when the character is absent; otherwise the position of its first occurrence |
| JsString.Prefix | components/ChatLayout.tsx:126 | `substring(0, n)` is the first `n` characters, or the whole string when it is shorter |
| JsString.StartsWith | components/ChatLayout.tsx:162 | no contract of its own; StartsWithAppend states that a string starts with `p` exactly when it is `p` followed by the rest |
| JsString.StartsWithAppend | components/ChatLayout.tsx:162 | `p + t` starts with `p`, and a string that starts with `p` is `p` followed by what comes after it |
| JsString.Join | components/ChatLayout.tsx:153 | joining nothing gives `""`, and joining one element gives that element |
| JsString.JoinSnoc | components/ChatLayout.tsx:153 | one more element adds one separator and that element at the end |
| LineDecoder.Lines | components/ChatLayout.tsx:178-180 | no line handed on contains a newline |
| LineDecoder.Rest | components/ChatLayout.tsx:178-180 | the buffer left over contains no newline |
| LineDecoder.Reassemble | components/ChatLayout.tsx:178-180 | a text is its lines, each followed by a newline, and then its remainder: framing loses nothing |
| LineDecoder.Unique | components/ChatLayout.tsx:178-180 | framing is unique: newline-free lines, each terminated, plus a newline-free remainder, frame back to exactly those lines and that remainder |
| LineDecoder.LinesAppend | components/ChatLayout.tsx:175-180 | framing `s + t` is framing `s`, then framing its remainder followed by `t`; this is why any split of a text yields the same lines |
| LineDecoder.TrailingFragmentAddsNoLine | components/ChatLayout.tsx:175-180 | a chunk without a newline adds no line and only lengthens the buffer |
| LineDecoder.CutLine | components/ChatLayout.tsx:178-180 | one loop iteration cuts off exactly the first line and keeps the remainder |
| LineDecoder.ClassifyLine | components/ChatLayout.tsx:179-213 | no contract of its own; SingleLine, BlankLineNeverParsed, MalformedAlone, RecordAlone, DroppedAlone and ParsedLine state each fate a line can have: blank and skipped, failing to parse and warned about, rejected by the validator, or a record |
| LineDecoder.RecordsOfAppend | components/ChatLayout.tsx:178-214 | the records and warnings of consecutive lines are those of each part, in order |
| LineDecoder.RecordsOf | components/ChatLayout.tsx:178-209 | no contract of its own; RecordsOfAppend states that it goes line by line in order, and SingleLine, RecordAlone, DroppedAlone, MalformedAlone and BlankLineNeverParsed what each line adds; Decoder.Feed and DecodeStream state that the decoder hands on exactly these records |
| LineDecoder.WarningsOf | components/ChatLayout.tsx:210-213 | no contract of its own; RecordsOfAppend states that it goes line by line in order, and SingleLine and MalformedAlone that exactly the lines failing to parse add their trimmed text; Decoder.Feed states that the decoder warns about exactly these |
| LineDecoder.SingleLine | components/ChatLayout.tsx:179-214 | one line yields its record if it is one, and its trimmed text as a warning if it fails to parse |
| LineDecoder.BlankLineNeverParsed | components/ChatLayout.tsx:182 | a blank line has the same fate whatever the parser would do, and yields neither record nor warning |
| LineDecoder.Around | components/ChatLayout.tsx:178-214 | the records and warnings around one line are those before it, its own, and those after it |
| LineDecoder.MalformedAlone | components/ChatLayout.tsx:211-213 | a line that fails to parse yields no record and exactly its trimmed text as a warning |
| LineDecoder.RecordAlone | components/ChatLayout.tsx:197-209 | a line that is a valid record yields exactly that record and no warning |
| LineDecoder.DroppedAlone | components/ChatLayout.tsx:195-197 | a line the validator rejects yields neither record nor warning |
| LineDecoder.MalformedLineSkipped | components/ChatLayout.tsx:183-213 | a line that fails to parse does not stop the stream: the lines before and after it keep their records, and it adds one warning |
| LineDecoder.RejectedLineSkipped | components/ChatLayout.tsx:185-197 | a rejected line changes neither the records nor the warnings of the lines around it |
| LineDecoder.DanglingOf | components/ChatLayout.tsx:219-221 | a warning at stream end exactly when the remainder is not blank, and it is the trimmed, non-empty remainder |
| LineDecoder.Decoder.constructor | components/ChatLayout.tsx:169 | the buffer starts empty |
| LineDecoder.Decoder.Feed | components/ChatLayout.tsx:174-216 | after a chunk the buffer holds no newline and is the text after the last newline of old buffer + chunk; the records and warnings are exactly those of that text's complete lines, in order |
| LineDecoder.Decoder.HandleLine | components/ChatLayout.tsx:179-214 | the loop body handles a line as its fate says: skipped when blank, warned about when it fails to parse, handed on when valid |
| LineDecoder.Decoder.Finish | components/ChatLayout.tsx:219-221 | the end-of-stream check reports the non-blank remainder and emits no record |
| LineDecoder.DecodeStream | components/ChatLayout.tsx:169-221 | a whole stream yields the records, warnings and dangling report of the concatenated chunks, however the text was split |
| LineDecoder.MixedStream | components/ChatLayout.tsx:178-214 | a text of three newline-terminated records, the middle one rejected, yields the other two, in order, with no warning and an empty buffer |
| LineDecoder.MixedLines | components/ChatLayout.tsx:178-214 | the three cut-off lines of MixedStream yield the two records, in order, and no warning |
| LineDecoder.Stitch | components/ChatLayout.tsx:178-214 | three lines yield, in order, what each yields alone |
| LineDecoder.ParsedLine | components/ChatLayout.tsx:182-197 | a non-blank line that parses yields what the validator makes of the value, and no warning |
| LineDecoder.ExplanationAccepted | components/ChatLayout.tsx:188-189 | `{"type":"explanation","text":"y"}` becomes the explanation `y` |
| LineDecoder.BadIsDropped | components/ChatLayout.tsx:187 | an object without `type` is rejected |
| LineDecoder.TruncatedStream | components/ChatLayout.tsx:219-221 | a record cut off before its newline yields nothing from the loop and is reported once, trimmed, at stream end |
| Sessions.Decimal | components/ChatLayout.tsx:78 | the numeral of a clock reading is non-empty and all digits, and one digit exactly below ten |
| Sessions.DecimalInjective | components/ChatLayout.tsx:78 | different readings have different numerals |
| Sessions.ModelIdInjective | components/ChatLayout.tsx:133 | model ids stamped at different readings differ |
| Sessions.NotModelIds | components/ChatLayout.tsx:225 | no user id, cancel id or greeting id equals any model id |
| Sessions.ChatId | components/ChatLayout.tsx:78 | no contract of its own; its numeral is Decimal's, whose contract and DecimalInjective make different readings give different all-digit numerals |
| Sessions.UserId | components/ChatLayout.tsx:117 | no contract of its own; NotModelIds states that no user id is a model id |
| Sessions.ModelId | components/ChatLayout.tsx:133 | no contract of its own; ModelIdInjective states that model ids of different readings differ, and NotModelIds that no other id is one |
| Sessions.CancelId | components/ChatLayout.tsx:225 | no contract of its own; NotModelIds states that no cancel id is a model id |
| Sessions.Greeting | components/ChatLayout.tsx:82-86 | no contract of its own; NotModelIds states that its id is no model id, and Store.CreateNewChat that a new session holds exactly it |
| Sessions.NewChat | components/ChatLayout.tsx:79-87 | no contract of its own; Store.CreateNewChat states that the new session goes in front with the id of the current reading and keeps the invariant |
| Sessions.UpdateMessages | components/ChatLayout.tsx:71-75 | every session with the id has its messages replaced by the update of them; every other session and the order stay |
| Sessions.UpdateTwice | components/ChatLayout.tsx:130-139 | two message updates of one session in a row are one update by their composition |
| Sessions.RenameChat | components/ChatLayout.tsx:125-127 | every session with the id gets the title; nothing else changes |
| Sessions.RemoveChat | components/ChatLayout.tsx:93 | a session remains exactly when it was there and has another id |
| Sessions.RemoveChatAppend | components/ChatLayout.tsx:93 | the filter works piecewise, so the remaining sessions keep their order |
| Sessions.RemoveChatAbsent | components/ChatLayout.tsx:93 | deleting an id no session has changes nothing |
| Sessions.FindChat | components/ChatLayout.tsx:123 | None exactly when no session has the id; otherwise a session of the list with that id |
| Sessions.FindChatFirst | components/ChatLayout.tsx:123 | the session found is the first one with the id |
| Sessions.AppendPart | components/ChatLayout.tsx:198-209 | every message with the id gets the part after its parts (an absent list read as empty); every other message stays |
| Sessions.PartsOf | components/ChatLayout.tsx:202 | no contract of its own; AppendPart and AppendPartsEffect state that an absent `parts` list is read as empty before the records go after it |
| Sessions.AppendParts | components/ChatLayout.tsx:198-209 | no contract of its own; AppendPartsEffect states that the messages with the id end with exactly the records, in order, and every other message is unchanged; AppendPartsAbsent that an absent id changes nothing |
| Sessions.AppendPartsEffect | components/ChatLayout.tsx:197-209 | after a run of records, the messages with the id end with exactly those records, in arrival order, after their old parts; every other message is unchanged |
| Sessions.AppendPartsAbsent | components/ChatLayout.tsx:200-205 | when no message has the id, the records change nothing |
| Sessions.RemoveMessage | components/ChatLayout.tsx:230 | a message remains exactly when it was there and has another id |
| Sessions.RemoveMessageAppend | components/ChatLayout.tsx:230 | the filter works piecewise and keeps the order |
| Sessions.RemoveMessageAbsent | components/ChatLayout.tsx:244 | removing an id no message has changes nothing |
| Sessions.AppendMessage | components/ChatLayout.tsx:130 | no contract of its own; an UpdateMessages whose contract applies: every session with the id gains the message at the end of its messages, and nothing else changes; PreparedAt and ConcludedMessages state the sends' appends |
| Sessions.AppendPartIn | components/ChatLayout.tsx:198-209 | no contract of its own; an UpdateMessages of AppendPart, whose contracts apply; StreamedStep states that it extends the records streamed so far by one |
| Sessions.Streamed | components/ChatLayout.tsx:197-209 | no contract of its own; an UpdateMessages of AppendParts, so that AppendPartsEffect applies; StreamedStep and StreamedMessages state its effect on a send's placeholder |
| Sessions.RemoveFrom | components/ChatLayout.tsx:229-231 | no contract of its own; an UpdateMessages of RemoveMessage, whose contracts apply; RemoveLast and ConcludedMessages state that it removes only a send's placeholder |
| Sessions.StreamedStep | components/ChatLayout.tsx:198-209 | appending one more record to the session list is streaming the run extended by that record |
| History.Explanations | components/ChatLayout.tsx:150-152 | the texts collected are exactly those of the explanation parts, and there are no more of them than parts |
| History.ExplanationsAppend | components/ChatLayout.tsx:150-152 | the filter works part by part and keeps the order: the texts of two runs of parts are those of the first, then those of the second |
| History.KeptMessages | components/ChatLayout.tsx:143 | no contract of its own; KeptAppend states that it filters message by message and keeps the order, and HistoryOfOne what it keeps of one message |
| History.Kept | components/ChatLayout.tsx:143 | no contract of its own; KeptAppend states that the filter goes message by message in order, and HistoryOfOne that a user message without content gives no turn |
| History.HasContent | components/ChatLayout.tsx:147 | no contract of its own; HistoryOfOne states that a user message gives its turn exactly when its content is present and not empty |
| History.Turns | components/ChatLayout.tsx:144-157 | no contract of its own; TurnsAppend states that it maps message by message in order, and HistoryOfOne what each message maps to |
| History.Turn | components/ChatLayout.tsx:144-157 | no contract of its own; HistoryOfOne states the turn of each kind of message, and HistoryTurnsHaveOnePart its role and single part |
| History.NonEmptyTurns | components/ChatLayout.tsx:158 | no contract of its own; NonEmptyAppend states that it filters turn by turn and keeps the order, and HistoryOfOne that it drops the turns without parts |
| History.ToHistory | components/ChatLayout.tsx:142-158 | no contract of its own; HistoryAppend, HistoryOfOne and HistoryTurnsHaveOnePart state it message by message |
| History.KeptAppend | components/ChatLayout.tsx:143 | the first filter works piecewise and keeps the order |
| History.TurnsAppend | components/ChatLayout.tsx:144-157 | the map works piecewise and keeps the order |
| History.NonEmptyAppend | components/ChatLayout.tsx:158 | the last filter works piecewise and keeps the order |
| History.HistoryAppend | components/ChatLayout.tsx:142-158 | the history of two runs of messages is the history of each, in order |
| History.HistoryOfOne | components/ChatLayout.tsx:142-158 | a user message with content gives one user turn of its text; a model message with parts gives one model turn of its explanations joined by newlines; anything else gives no turn |
| History.HistoryTurnsHaveOnePart | components/ChatLayout.tsx:144-158 | every turn has exactly one part and the role `user` or `model`, and there are no more turns than messages |
| History.ModelWithoutExplanations | components/ChatLayout.tsx:149-154 | a model message whose parts are all visuals still gives a turn, of the empty text |
| History.NoExplanationTexts | components/ChatLayout.tsx:150-152 | parts that are all visuals contribute no text |
| History.UnwrapUpload | components/ChatLayout.tsx:34 | a text read back from a wrapper wraps to that wrapper |
| History.UnwrapWrap | components/ChatLayout.tsx:34 | the wrapper keeps the file text intact: unwrapping gives it back |
| History.WrapUpload | components/ChatLayout.tsx:34 | no contract of its own; UnwrapWrap and UnwrapUpload make UnwrapUpload its inverse, so the file text is kept intact |
| History.DataUrlPayload | components/ChatLayout.tsx:16 | `undefined` exactly when the URL has no comma; otherwise the text right after the first comma, up to the next comma or the end of the URL |
| History.PayloadOfBase64 | components/ChatLayout.tsx:16 | for a base64 data URL the payload is the base64 text |
| History.MessageParts | components/ChatLayout.tsx:160-167 | the text comes first, and there is a second part, the attachment, exactly when there is a file |
| History.Attachment | components/ChatLayout.tsx:161-166 | no contract of its own; AttachmentKinds states the part for an image and for any other file |
| History.AttachmentKinds | components/ChatLayout.tsx:161-166 | an image goes as inline data of its media type; any other file goes as a text from which its text can be read back |
| History.IsImage | components/ChatLayout.tsx:162 | no contract of its own; StartsWithAppend states what `startsWith('image/')` accepts, and AttachmentKinds which part each answer gives |
| ChatStore.ErrorText | components/ChatLayout.tsx:235-241 | the notice starts with the apology; for an `Error` it is then exactly `API Error: ` followed by the error's message (prefix, suffix and length fix it), and otherwise the fixed sentence |
| ChatStore.UserMessage | components/ChatLayout.tsx:116-121 | no contract of its own; PreparedAt and SendEffectAt state where the user message goes, and NewIdsFresh that its id is no model id |
| ChatStore.Placeholder | components/ChatLayout.tsx:134-138 | no contract of its own; PreparedAt states that it goes in after the user message, and StreamedMessages that it receives the records |
| ChatStore.CancelMessage | components/ChatLayout.tsx:225 | no contract of its own; ConcludedMessages and SendEffectAt state where the cancel notice goes on an abort |
| ChatStore.ErrorMessage | components/ChatLayout.tsx:239-243 | no contract of its own; ErrorText states its text, and ConcludedMessages and SendEffectAt where it goes on a failure |
| ChatStore.Snapshot | components/ChatLayout.tsx:142 | no contract of its own; FindChat and FindChatFirst state that it is the messages of the first session with the id, and Store.Send that the history is read from it |
| ChatStore.Renames | components/ChatLayout.tsx:123 | no contract of its own; RenameOnlyOnce states that it no longer holds after a send to the session, and Store.RenameOnFirst when it renames |
| ChatStore.Renamed | components/ChatLayout.tsx:123-127 | no contract of its own; RenameChat's contract applies when Renames holds, and PreparedAt states the title a session ends with |
| ChatStore.Prepared | components/ChatLayout.tsx:123-139 | no contract of its own; PreparedAt states what it does to every session |
| ChatStore.Concluded | components/ChatLayout.tsx:223-245 | no contract of its own; ConcludedMessages states what each outcome leaves |
| ChatStore.AfterSend | components/ChatLayout.tsx:111-245 | no contract of its own; SendEffectAt and SendEffect state what a send does to every session, SendKeepsFresh and RenameOnlyOnce what it preserves |
| ChatStore.Reply | components/ChatLayout.tsx:197-245 | no contract of its own; SendEffectAt states that it is what a send leaves after the user message |
| ChatStore.StreamedMessages | components/ChatLayout.tsx:197-209 | after the stream the placeholder, the only message with its id, holds exactly the records; nothing before it changes |
| ChatStore.ConcludedMessages | components/ChatLayout.tsx:223-245 | whether the notice goes in before the placeholder is removed (abort) or after (failure), the result is the earlier messages and the user message, then the notice |
| ChatStore.RemoveLast | components/ChatLayout.tsx:229-231 | removing the placeholder at the end leaves what came before it |
| ChatStore.PreparedAt | components/ChatLayout.tsx:123-139 | before the request, a session with the id has its new title and gains the user message and then the empty placeholder; other sessions are untouched |
| ChatStore.SendEffectAt | components/ChatLayout.tsx:111-245 | after a send, a session with another id is untouched; a session with the id has its new title and its messages followed by the user message and the reply (the filled placeholder, the cancel notice or the error notice) |
| ChatStore.SendEffect | components/ChatLayout.tsx:111-245 | SendEffectAt for every session, with the list's length unchanged |
| ChatStore.NewIdsFresh | components/ChatLayout.tsx:117-240 | the ids a send creates are not model ids of any later reading |
| ChatStore.SessionFreshAfterSend | components/ChatLayout.tsx:111-245 | after a send, every message of a session has an id fresh at the new clock |
| ChatStore.FreshExtended | components/ChatLayout.tsx:130-139 | messages fresh at a reading stay fresh later, also with two fresh messages appended |
| ChatStore.FreshLater | components/ChatLayout.tsx:50-63 | a list fresh at one reading stays fresh at every later reading |
| ChatStore.LongNumeral | components/ChatLayout.tsx:133 | the numeral of a reading of at least `10^n` has more than `n` digits |
| ChatStore.FreshFromLength | components/ChatLayout.tsx:133 | any id is fresh from the reading `10^|id|` on, since every later model id is longer |
| ChatStore.MessagesHorizon | components/ChatLayout.tsx:50-63 | every list of messages has a reading from which all its ids are fresh |
| ChatStore.Horizon | components/ChatLayout.tsx:50-63 | every session list has a reading from which all its ids are fresh |
| ChatStore.EverySavedListLoads | components/ChatLayout.tsx:50-63 | any saved list meets Load's precondition at every reading from its horizon on |
| ChatStore.ReturningUserLoads | components/ChatLayout.tsx:50-63 | a saved session holding the greeting and the reply of an earlier send loads at any reading after that send |
| ChatStore.SendKeepsFresh | components/ChatLayout.tsx:111-251 | a send keeps the clock ahead of every model id in the list |
| ChatStore.RenameOnlyOnce | components/ChatLayout.tsx:123-128 | after a send, no session with the id has at most one message, so the next send keeps the title |
| ChatStore.AppendPartsNone | components/ChatLayout.tsx:197-209 | with no records yet, the stream has changed nothing |
| ChatStore.Store.constructor | components/ChatLayout.tsx:38-40 | no sessions, none active, not loading |
| ChatStore.Store.CreateNewChat | components/ChatLayout.tsx:77-90 | one greeting session titled `New Chat` with a fresh id goes in front, and it becomes active; the invariant holds |
| ChatStore.Store.DeleteChat | components/ChatLayout.tsx:92-102 | exactly the sessions with the id go and the rest keep their order; if the active one went, the first remaining becomes active (`null` for an empty id); if none remain, a single new session is created and made active; otherwise the active id stays |
| ChatStore.Store.SelectChat | components/ChatLayout.tsx:262 | the chosen id becomes active and nothing else changes |
| ChatStore.Store.Load | components/ChatLayout.tsx:50-63 | at the mount-time reading `now`: a saved non-empty list replaces the sessions, its first session becomes active and the clock is `now`; a saved empty list gives exactly one new session stamped `now`; nothing saved puts a new session stamped `now` in front; the invariant holds |
| ChatStore.Store.RenameOnFirst | components/ChatLayout.tsx:123-128 | the snapshot is the first session with the id, and the title becomes the first 40 characters only when that session had at most one message |
| ChatStore.Store.Begin | components/ChatLayout.tsx:112-139 | the list becomes the prepared list, two readings are taken, and loading begins |
| ChatStore.Store.Stream | components/ChatLayout.tsx:169-217 | the placeholder receives the records of the concatenated chunks' complete lines, in order; the buffer is their remainder |
| ChatStore.Store.Receive | components/ChatLayout.tsx:174-216 | one chunk's records are appended to the placeholder, in order, after those before |
| ChatStore.Store.Conclude | components/ChatLayout.tsx:223-245 | completion changes nothing; an abort adds the cancel notice and removes the placeholder; a failure removes the placeholder and adds the error notice |
| ChatStore.Store.Respond | components/ChatLayout.tsx:169-245 | the stream, then the end-of-stream check on completion only, then the outcome |
| ChatStore.Store.Send | components/ChatLayout.tsx:111-251 | the list after a send is AfterSend of the records of the whole stream; the request is the history of the snapshot taken before the send plus the message parts; loading ends |
| ChatStore.Store.SendMessage | components/ChatLayout.tsx:111-251 | without an active session (`null` or empty) nothing changes and no request is made; otherwise the send runs as Send says; the invariant holds either way |

## Left out

- Saving to and loading from `localStorage` (lines 50-69) is browser I/O, and so is the JSON round trip of the list. `Load` takes the parsed saved list, or None, as a parameter. The rule that an empty list is never written (line 66) is not modelled.
- ChatStore.Store.Load: takes the mount-time reading of `Date.now()` as `now`, and requires that no saved id is a model id of a reading from `now` on. The source needs no such condition, because the clock at mount is later than every stamp in a list saved earlier. EverySavedListLoads shows that every list meets it from some reading on.
- `fileToGenerativePart` and `textFileToGenerativePart` (lines 13-35) read the file asynchronously with `FileReader`. The two results they read, the data URL and the text, are fields of `UploadedFile`. The wrapper format, the `split(',')[1]` and the `image/` branch are modelled.
- `handleCancelGeneration` (lines 104-109) and the abort controller are not modelled. How a request ends is the `Outcome` parameter. The abort path in the API wrapper may return normally instead of throwing, so an abort may arrive as `Completed`. That file, `utils/api.ts`, is not part of this model.
- React state batching, effects and `useRef` are not modelled. Each `setChats` is a sequential update of the list, applied in the order the handler issues them. Interleaving with other events while a response streams is not modelled.
- `Date.now()` is a counter that advances at each reading, so two readings never collide. The source can give two ids the same number within one millisecond; that is not modelled.
- `JSON.parse` is a parameter, and JSON numbers are `real`. The model does not check what the parser accepts.
- Strings are sequences of `char`. `trim` uses the ECMAScript whitespace set, and `substring(0, 40)` counts characters as UTF-16 code units would only for text without surrogate pairs.
- `console.warn` output is returned as the warnings and the dangling report instead of being logged.
- The submit guard of the input (components/ChatInput.tsx:18) becomes the precondition `!isLoading` of `SendMessage`. Its other condition, non-empty text or a file, is not modelled.
- The sidebar-open state (lines 41-48) and every presentation component are not modelled.
