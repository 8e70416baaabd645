/** The state of the chat component (components/ChatLayout.tsx:37-251): the
    session list, the active session id and the loading flag, with the
    operations that change them — creating, deleting and selecting a session,
    the mount-time load, and sending a message with the stream that answers it. */
module ChatStore {
  import opened Wrappers
  import opened Types
  import opened Json
  import opened JsString
  import opened LineDecoder
  import opened Sessions
  import opened History

  // ----- What a send produces -----

  const CancelText: string := "Your request was cancelled."
  const ErrorPrefix: string := "Sorry, something went wrong. "
  const DefaultError: string := "An error occurred while fetching the response."
  const ApiErrorPrefix: string := "API Error: "

  /** How the request ends: the stream finishes, it is aborted, or it fails
      with an `Error` (its message) or with some other thrown value (None). */
  datatype Outcome = Completed | Aborted | Failed(error: Option<string>)

  /** The arguments of the chat API call besides the abort signal. */
  datatype Request = Request(history: seq<Content>, message: seq<Part>)

  /** The text of the error notice (lines 235-241): the apology, then the
      error's own message when it is an `Error`, a fixed sentence otherwise. */
  function ErrorText(error: Option<string>): (s: string)
    ensures StartsWith(s, ErrorPrefix)
    ensures error.Some? ==> StartsWith(s[|ErrorPrefix|..], ApiErrorPrefix) && EndsWith(s, error.value)
    ensures error.Some? ==> |s| == |ErrorPrefix| + |ApiErrorPrefix| + |error.value|
    ensures error.None? ==> s[|ErrorPrefix|..] == DefaultError
  {
    var s := ErrorPrefix + match error { case None => DefaultError case Some(msg) => ApiErrorPrefix + msg };
    assert s[..|ErrorPrefix|] == ErrorPrefix;
    s
  }

  /** The user's message (lines 116-121): its text as content, and the file's
      name and media type when there is a file. */
  function UserMessage(id: string, text: string, file: Option<UploadedFile>): Message
  {
    Message(id, User, Some(text), None, None,
      if file.Some? then Some(FileInfo(file.value.name, file.value.mediaType)) else None)
  }

  /** The streaming placeholder: a model message with no parts yet (lines 134-138). */
  function Placeholder(id: string): Message
  {
    Message(id, Model, None, Some([]), None, None)
  }

  /** The cancel notice (line 225). */
  function CancelMessage(id: string): Message
  {
    Message(id, Model, Some(CancelText), None, None, None)
  }

  /** The error notice (lines 239-243). */
  function ErrorMessage(id: string, error: Option<string>): Message
  {
    Message(id, Model, Some(ErrorText(error)), None, Some(true), None)
  }

  /** `activeChat?.messages || []`: the messages of the first session with the id. */
  function Snapshot(chats: seq<ChatSession>, chatId: string): seq<Message>
  {
    var found := FindChat(chats, chatId);
    if found.Some? then found.value.messages else []
  }

  /** The first-message rule (line 124): the title is replaced only when the
      (first) session with the id had at most one message. */
  predicate Renames(chats: seq<ChatSession>, chatId: string)
  {
    var found := FindChat(chats, chatId);
    found.Some? && |found.value.messages| <= 1
  }

  /** How many clock readings a send takes: user id and placeholder id, and
      one more for the notice of an abort or a failure. */
  function Readings(outcome: Outcome): nat
  {
    if outcome.Completed? then 2 else 3
  }

  /** The list after the first-message rule (lines 123-127): the session
      titled with the first 40 characters of the text when it renames. */
  function Renamed(chats: seq<ChatSession>, chatId: string, text: string): seq<ChatSession>
  {
    if Renames(chats, chatId) then RenameChat(chats, chatId, Prefix(text, 40)) else chats
  }

  /** The list after the updates before the request (lines 123-139); `stamp`
      is the first clock reading of the send. */
  function Prepared(chats: seq<ChatSession>, chatId: string, text: string, file: Option<UploadedFile>, stamp: nat): seq<ChatSession>
  {
    var renamed := Renamed(chats, chatId, text);
    var withUser := AppendMessage(renamed, chatId, UserMessage(UserId(stamp), text, file));
    AppendMessage(withUser, chatId, Placeholder(ModelId(stamp + 1)))
  }

  /** The list after the outcome (lines 223-245): nothing on completion; on an
      abort the notice then the removal of the placeholder; on a failure the
      removal then the notice. */
  function Concluded(chats: seq<ChatSession>, chatId: string, stamp: nat, outcome: Outcome): seq<ChatSession>
  {
    var placeholderId := ModelId(stamp + 1);
    match outcome
    case Completed => chats
    case Aborted =>
      RemoveFrom(AppendMessage(chats, chatId, CancelMessage(CancelId(stamp + 2))), chatId, placeholderId)
    case Failed(error) =>
      AppendMessage(RemoveFrom(chats, chatId, placeholderId), chatId, ErrorMessage(ModelId(stamp + 2), error))
  }

  /** The list after a whole send whose stream yields `records`. */
  function AfterSend(chats: seq<ChatSession>, chatId: string, text: string, file: Option<UploadedFile>,
                     stamp: nat, records: seq<ContentPart>, outcome: Outcome): seq<ChatSession>
  {
    var placeholderId := ModelId(stamp + 1);
    Concluded(Streamed(Prepared(chats, chatId, text, file, stamp), chatId, placeholderId, records), chatId, stamp, outcome)
  }

  /** What a send leaves after the user's message: the placeholder holding
      every record on completion, the cancel notice on an abort, the error
      notice on a failure. */
  function Reply(stamp: nat, records: seq<ContentPart>, outcome: Outcome): Message
  {
    match outcome
    case Completed => Placeholder(ModelId(stamp + 1)).(parts := Some(records))
    case Aborted => CancelMessage(CancelId(stamp + 2))
    case Failed(error) => ErrorMessage(ModelId(stamp + 2), error)
  }

  // ----- Fresh clock readings -----

  /** No clock reading from `clock` on has been used for this id. */
  ghost predicate FreshId(id: string, clock: nat)
  {
    forall k: nat :: clock <= k ==> id != ModelId(k)
  }

  ghost predicate FreshMessages(ms: seq<Message>, clock: nat)
  {
    forall m :: m in ms ==> FreshId(m.id, clock)
  }

  /** No message of any session carries a model id from a reading not yet
      taken: so the placeholder of a send is the only message with its id. */
  ghost predicate FreshChats(chats: seq<ChatSession>, clock: nat)
  {
    forall c :: c in chats ==> FreshMessages(c.messages, clock)
  }

  /** Freshness survives a later clock. */
  lemma FreshLater(chats: seq<ChatSession>, a: nat, b: nat)
    requires FreshChats(chats, a) && a <= b
    ensures FreshChats(chats, b)
  {
    forall c, m | c in chats && m in c.messages ensures FreshId(m.id, b) {
      assert FreshMessages(c.messages, a);
    }
  }

  /** `10` to the power `n`. */
  function Pow10(n: nat): (r: nat)
    ensures r >= 1
  {
    if n == 0 then 1 else 10 * Pow10(n - 1)
  }

  /** The numerals of readings from `10^n` on have more than `n` digits. */
  lemma {:induction false} LongNumeral(k: nat, n: nat)
    requires k >= Pow10(n)
    ensures |Decimal(k)| > n
  {
    if n > 0 {
      assert k / 10 >= Pow10(n - 1);
      LongNumeral(k / 10, n - 1);
    }
  }

  /** Every id is fresh from the reading `10^|id|` on: later model ids are longer. */
  lemma FreshFromLength(id: string)
    ensures FreshId(id, Pow10(|id|))
  {
    forall k: nat | Pow10(|id|) <= k ensures id != ModelId(k) {
      LongNumeral(k, |id|);
    }
  }

  /** A reading from which every id of the messages is fresh. */
  ghost function MessagesHorizon(ms: seq<Message>): (h: nat)
    ensures FreshMessages(ms, h)
  {
    if ms == [] then 0
    else
      var rest := MessagesHorizon(ms[1..]);
      var own := Pow10(|ms[0].id|);
      FreshFromLength(ms[0].id);
      var h := if own < rest then rest else own;
      assert FreshId(ms[0].id, h);
      assert forall m :: m in ms ==> m == ms[0] || m in ms[1..];
      h
  }

  /** A reading from which every id of every session is fresh. */
  ghost function Horizon(chats: seq<ChatSession>): (h: nat)
    ensures FreshChats(chats, h)
  {
    if chats == [] then 0
    else
      var rest := Horizon(chats[1..]);
      var own := MessagesHorizon(chats[0].messages);
      var h := if own < rest then rest else own;
      FreshLater(chats[1..], rest, h);
      FreshLater([chats[0]], own, h);
      assert forall c :: c in chats ==> c in [chats[0]] || c in chats[1..];
      h
  }

  /** Any saved list can be loaded: its ids are all fresh from some reading on,
      and every later reading works too. */
  lemma EverySavedListLoads(saved: seq<ChatSession>, now: nat)
    requires Horizon(saved) <= now
    ensures FreshChats(saved, now)
  {
    FreshLater(saved, Horizon(saved), now);
  }

  /** A returning user's list, with the greeting and the reply of a send
      stamped `t`, loads at any reading after that send's two. */
  lemma ReturningUserLoads(t: nat, now: nat)
    requires t + 2 <= now
    ensures FreshChats([ChatSession(ChatId(t), "q", [Greeting(), Placeholder(ModelId(t + 1))])], now)
  {
    forall k: nat | now <= k ensures GreetingId != ModelId(k) && ModelId(t + 1) != ModelId(k) {
      NotModelIds(0, k);
      ModelIdInjective(t + 1, k);
    }
  }

  // ----- What a send does to each session -----

  /** The messages of the session after the stream: the placeholder, the only
      message with its id, holds the records; nothing before it changes. */
  lemma StreamedMessages(ms: seq<Message>, u: Message, placeholderId: string, records: seq<ContentPart>)
    requires forall m :: m in ms ==> m.id != placeholderId
    requires u.id != placeholderId
    ensures AppendParts(ms + [u, Placeholder(placeholderId)], placeholderId, records)
      == ms + [u, Placeholder(placeholderId).(parts := Some(records))]
  {
    var before := ms + [u, Placeholder(placeholderId)];
    var after := ms + [u, Placeholder(placeholderId).(parts := Some(records))];
    AppendPartsEffect(before, placeholderId, records);
    var r := AppendParts(before, placeholderId, records);
    forall i | 0 <= i < |before| ensures r[i] == after[i] {
      if i < |ms| {
        assert before[i] == ms[i] && ms[i] in ms;
      } else if i == |ms| {
        assert before[i] == u;
      } else {
        assert before[i] == Placeholder(placeholderId);
        assert PartsOf(Placeholder(placeholderId)) + records == records;
      }
    }
  }

  /** The messages of the session after the outcome: whether the notice is
      appended before the placeholder is removed (abort) or after (failure),
      the placeholder is gone and the notice follows the user's message. */
  lemma ConcludedMessages(ms: seq<Message>, u: Message, streamed: Message, notice: Message)
    requires forall m :: m in ms ==> m.id != streamed.id
    requires u.id != streamed.id && notice.id != streamed.id
    ensures RemoveMessage(ms + [u, streamed] + [notice], streamed.id) == ms + [u, notice]
    ensures RemoveMessage(ms + [u, streamed], streamed.id) + [notice] == ms + [u, notice]
  {
    var pid := streamed.id;
    RemoveLast(ms, u, streamed);
    RemoveMessageAppend(ms + [u, streamed], [notice], pid);
    RemoveMessageAbsent([notice], pid);
    PairAfter(ms, u, notice);
  }

  /** Removing the placeholder at the end leaves what came before it. */
  lemma RemoveLast(ms: seq<Message>, u: Message, streamed: Message)
    requires forall m :: m in ms ==> m.id != streamed.id
    requires u.id != streamed.id
    ensures RemoveMessage(ms + [u, streamed], streamed.id) == ms + [u]
  {
    var pid := streamed.id;
    var kept := ms + [u];
    assert forall i :: 0 <= i < |kept| ==> kept[i].id != pid by {
      forall i | 0 <= i < |kept| ensures kept[i].id != pid {
        if i < |ms| { assert kept[i] in ms; }
      }
    }
    RemoveMessageAbsent(kept, pid);
    assert RemoveMessage([streamed], pid) == [];
    PairAfter(ms, u, streamed);
    RemoveMessageAppend(kept, [streamed], pid);
  }

  lemma PairAfter<T>(a: seq<T>, x: T, y: T)
    ensures a + [x] + [y] == a + [x, y]
  {
  }

  /** The title a send gives a session with the id. */
  function NewTitle(chats: seq<ChatSession>, chatId: string, text: string, title: string): string
  {
    if Renames(chats, chatId) then Prefix(text, 40) else title
  }

  /** Session `i` just before the request: renamed by the first-message
      rule, with the user's message and the placeholder appended. */
  lemma PreparedAt(chats: seq<ChatSession>, chatId: string, text: string, file: Option<UploadedFile>, stamp: nat, i: nat)
    requires i < |chats|
    ensures var r := Prepared(chats, chatId, text, file, stamp);
      && |r| == |chats|
      && r[i] == if chats[i].id != chatId then chats[i] else
           chats[i].(title := NewTitle(chats, chatId, text, chats[i].title),
                     messages := chats[i].messages + [UserMessage(UserId(stamp), text, file), Placeholder(ModelId(stamp + 1))])
  {
    var c := chats[i];
    var u, p := UserMessage(UserId(stamp), text, file), Placeholder(ModelId(stamp + 1));
    var renamed := Renamed(chats, chatId, text);
    assert renamed[i] == if c.id == chatId then c.(title := NewTitle(chats, chatId, text, c.title)) else c;
    var withUser := AppendMessage(renamed, chatId, u);
    assert withUser[i] == if c.id == chatId then renamed[i].(messages := c.messages + [u]) else c;
    var prepared := AppendMessage(withUser, chatId, p);
    assert prepared[i] == if c.id == chatId then withUser[i].(messages := c.messages + [u] + [p]) else c;
    PairAfter(c.messages, u, p);
  }

  /** Session `i` after a whole send: a session with another id is untouched;
      one with the id gets its new title, and its messages become the old ones
      followed by the user's message and the reply, the placeholder being the
      only message that the records and the removal touch. */
  lemma SendEffectAt(chats: seq<ChatSession>, chatId: string, text: string, file: Option<UploadedFile>,
                     stamp: nat, records: seq<ContentPart>, outcome: Outcome, i: nat)
    requires FreshChats(chats, stamp) && i < |chats|
    ensures var r := AfterSend(chats, chatId, text, file, stamp, records, outcome);
      && |r| == |chats|
      && r[i] == if chats[i].id != chatId then chats[i] else
           chats[i].(title := NewTitle(chats, chatId, text, chats[i].title),
                     messages := chats[i].messages + [UserMessage(UserId(stamp), text, file), Reply(stamp, records, outcome)])
  {
    var c := chats[i];
    var pid := ModelId(stamp + 1);
    var u, p := UserMessage(UserId(stamp), text, file), Placeholder(pid);
    var prepared := Prepared(chats, chatId, text, file, stamp);
    PreparedAt(chats, chatId, text, file, stamp, i);
    var streamed := Streamed(prepared, chatId, pid, records);
    var filled := p.(parts := Some(records));
    if c.id == chatId {
      var ms := c.messages;
      assert c in chats;
      forall m | m in ms ensures m.id != pid {
        assert FreshId(m.id, stamp);
      }
      NotModelIds(stamp, stamp + 1);
      StreamedMessages(ms, u, pid, records);
      assert streamed[i].messages == ms + [u, filled];
      var r := AfterSend(chats, chatId, text, file, stamp, records, outcome);
      match outcome
      case Completed =>
      case Aborted =>
        var notice := CancelMessage(CancelId(stamp + 2));
        NotModelIds(stamp + 2, stamp + 1);
        ConcludedMessages(ms, u, filled, notice);
        var withNotice := AppendMessage(streamed, chatId, notice);
        assert withNotice[i].messages == ms + [u, filled] + [notice];
      case Failed(error) =>
        var notice := ErrorMessage(ModelId(stamp + 2), error);
        ModelIdInjective(stamp + 2, stamp + 1);
        ConcludedMessages(ms, u, filled, notice);
        var removed := RemoveFrom(streamed, chatId, pid);
        assert removed[i].messages == RemoveMessage(ms + [u, filled], pid);
    }
  }

  /** The ids a send creates are fresh once its readings are taken. */
  lemma NewIdsFresh(stamp: nat, records: seq<ContentPart>, outcome: Outcome)
    ensures FreshId(UserId(stamp), stamp + Readings(outcome))
    ensures FreshId(Reply(stamp, records, outcome).id, stamp + Readings(outcome))
  {
    var clock := stamp + Readings(outcome);
    forall k: nat | clock <= k ensures UserId(stamp) != ModelId(k) && Reply(stamp, records, outcome).id != ModelId(k) {
      NotModelIds(stamp, k);
      NotModelIds(stamp + 2, k);
      ModelIdInjective(stamp + 1, k);
      ModelIdInjective(stamp + 2, k);
    }
  }

  /** After a send, the messages of session `i` all have ids fresh at the
      clock the send leaves. */
  lemma SessionFreshAfterSend(chats: seq<ChatSession>, chatId: string, text: string, file: Option<UploadedFile>,
                              stamp: nat, records: seq<ContentPart>, outcome: Outcome, i: nat)
    requires FreshChats(chats, stamp) && i < |chats|
    ensures i < |AfterSend(chats, chatId, text, file, stamp, records, outcome)|
    ensures FreshMessages(AfterSend(chats, chatId, text, file, stamp, records, outcome)[i].messages, stamp + Readings(outcome))
  {
    SendEffectAt(chats, chatId, text, file, stamp, records, outcome, i);
    assert chats[i] in chats;
    NewIdsFresh(stamp, records, outcome);
    FreshExtended(chats[i].messages, UserMessage(UserId(stamp), text, file), Reply(stamp, records, outcome),
                  stamp, stamp + Readings(outcome));
  }

  /** Messages fresh at `stamp` stay fresh at a later clock, and so does the
      list with two messages fresh at that clock added. */
  lemma FreshExtended(ms: seq<Message>, u: Message, reply: Message, stamp: nat, clock: nat)
    requires FreshMessages(ms, stamp) && stamp <= clock
    requires FreshId(u.id, clock) && FreshId(reply.id, clock)
    ensures FreshMessages(ms, clock) && FreshMessages(ms + [u, reply], clock)
  {
    forall m | m in ms + [u, reply] ensures FreshId(m.id, clock) {
      if m in ms {
        assert FreshId(m.id, stamp);
      }
    }
  }

  /** A send keeps the clock ahead of every model id. */
  lemma SendKeepsFresh(chats: seq<ChatSession>, chatId: string, text: string, file: Option<UploadedFile>,
                       stamp: nat, records: seq<ContentPart>, outcome: Outcome)
    requires FreshChats(chats, stamp)
    ensures FreshChats(AfterSend(chats, chatId, text, file, stamp, records, outcome), stamp + Readings(outcome))
  {
    var r := AfterSend(chats, chatId, text, file, stamp, records, outcome);
    SendEffect(chats, chatId, text, file, stamp, records, outcome);
    forall c | c in r ensures FreshMessages(c.messages, stamp + Readings(outcome)) {
      var i :| 0 <= i < |r| && r[i] == c;
      SessionFreshAfterSend(chats, chatId, text, file, stamp, records, outcome, i);
    }
  }

  /** After a send every session with the id has at least two messages (the
      user's message and the reply), so the next send to it keeps its title. */
  lemma RenameOnlyOnce(chats: seq<ChatSession>, chatId: string, text: string, file: Option<UploadedFile>,
                       stamp: nat, records: seq<ContentPart>, outcome: Outcome)
    requires FreshChats(chats, stamp)
    ensures !Renames(AfterSend(chats, chatId, text, file, stamp, records, outcome), chatId)
  {
    var r := AfterSend(chats, chatId, text, file, stamp, records, outcome);
    var found := FindChat(r, chatId);
    if found.Some? {
      var i :| 0 <= i < |r| && r[i] == found.value;
      SendEffectAt(chats, chatId, text, file, stamp, records, outcome, i);
    }
  }

  lemma TakeOneMore<T>(a: seq<T>, b: seq<T>, j: nat)
    requires j < |b|
    ensures (a + b[..j]) + [b[j]] == a + b[..j + 1]
  {
    assert b[..j + 1] == b[..j] + [b[j]];
  }

  /** With no records yet, the stream has changed nothing. */
  lemma AppendPartsNone(chats: seq<ChatSession>, chatId: string, msgId: string)
    ensures Streamed(chats, chatId, msgId, []) == chats
  {
    var r := Streamed(chats, chatId, msgId, []);
    assert forall i :: 0 <= i < |r| ==> r[i] == chats[i];
  }

  /** A whole send, session by session (SendEffectAt for every index). */
  lemma SendEffect(chats: seq<ChatSession>, chatId: string, text: string, file: Option<UploadedFile>,
                   stamp: nat, records: seq<ContentPart>, outcome: Outcome)
    requires FreshChats(chats, stamp)
    ensures var r := AfterSend(chats, chatId, text, file, stamp, records, outcome);
      && |r| == |chats|
      && forall i :: 0 <= i < |chats| ==>
        r[i] == if chats[i].id != chatId then chats[i] else
          chats[i].(title := NewTitle(chats, chatId, text, chats[i].title),
                    messages := chats[i].messages + [UserMessage(UserId(stamp), text, file), Reply(stamp, records, outcome)])
  {
    var r := AfterSend(chats, chatId, text, file, stamp, records, outcome);
    forall i | 0 <= i < |chats|
      ensures r[i] == if chats[i].id != chatId then chats[i] else
          chats[i].(title := NewTitle(chats, chatId, text, chats[i].title),
                    messages := chats[i].messages + [UserMessage(UserId(stamp), text, file), Reply(stamp, records, outcome)])
    {
      SendEffectAt(chats, chatId, text, file, stamp, records, outcome, i);
    }
    if chats != [] {
      SendEffectAt(chats, chatId, text, file, stamp, records, outcome, 0);
    } else {
      assert |r| == 0;
    }
  }

  // ----- The component's state -----

  /** The component's state: `chats`, `activeChatId` (None for `null`),
      `isLoading`, and the clock, as the number of readings taken so far. */
  class Store {
    var chats: seq<ChatSession>
    var activeChatId: Option<string>
    var isLoading: bool
    var clock: nat

    /** Every model id in the list comes from a reading already taken. */
    ghost predicate Valid()
      reads this
    {
      FreshChats(chats, clock)
    }

    /** The initial state (lines 38-40): no sessions, none active, not loading. */
    constructor ()
      ensures Valid()
      ensures chats == [] && activeChatId == None && !isLoading && clock == 0
    {
      chats := [];
      activeChatId := None;
      isLoading := false;
      clock := 0;
    }

    /** `createNewChat` (lines 77-90): a greeting session with a fresh id goes
        in front of the list and becomes the active one. */
    method CreateNewChat()
      requires Valid()
      modifies this
      ensures Valid()
      ensures chats == [NewChat(ChatId(old(clock)))] + old(chats)
      ensures activeChatId == Some(ChatId(old(clock)))
      ensures clock == old(clock) + 1 && isLoading == old(isLoading)
    {
      var id := ChatId(clock);
      clock := clock + 1;
      chats := [NewChat(id)] + chats;
      activeChatId := Some(id);
      forall k: nat | clock <= k ensures GreetingId != ModelId(k) {
        NotModelIds(0, k);
      }
    }

    /** `deleteChat` (lines 92-102): exactly the sessions with the id go, the
        others keep their order. If the active session went, the first one
        left becomes active (none when its id is empty); if none is left, a
        new session is created, which is then the only one and active. */
    method DeleteChat(chatId: string)
      requires Valid()
      modifies this
      ensures Valid() && isLoading == old(isLoading)
      ensures var remaining := RemoveChat(old(chats), chatId);
        if old(activeChatId) != Some(chatId) then
          chats == remaining && activeChatId == old(activeChatId) && clock == old(clock)
        else if |remaining| > 0 then
          && chats == remaining && clock == old(clock)
          && activeChatId == (if remaining[0].id == "" then None else Some(remaining[0].id))
        else
          chats == [NewChat(ChatId(old(clock)))] && activeChatId == Some(ChatId(old(clock)))
          && clock == old(clock) + 1
    {
      var remaining := RemoveChat(chats, chatId);
      chats := remaining;
      if activeChatId == Some(chatId) {
        if |remaining| > 0 {
          activeChatId := if remaining[0].id == "" then None else Some(remaining[0].id);
        } else {
          CreateNewChat();
        }
      }
    }

    /** Choosing a session in the sidebar (`onSelectChat`, line 262). */
    method SelectChat(chatId: string)
      requires Valid()
      modifies this
      ensures Valid()
      ensures activeChatId == Some(chatId)
      ensures chats == old(chats) && isLoading == old(isLoading) && clock == old(clock)
    {
      activeChatId := Some(chatId);
    }

    /** The mount-time load (lines 50-63) at the clock reading `now`: a saved
        non-empty list replaces the sessions and its first session becomes
        active; a saved empty list, or nothing saved, leads to a new session
        stamped `now`. The saved sessions were written at earlier readings, so
        their ids are fresh at `now` (EverySavedListLoads: any list is, from
        some reading on). */
    method Load(saved: Option<seq<ChatSession>>, now: nat)
      requires Valid() && clock <= now
      requires saved.Some? ==> FreshChats(saved.value, now)
      modifies this
      ensures Valid() && isLoading == old(isLoading)
      ensures saved.Some? && |saved.value| > 0 ==>
        chats == saved.value && activeChatId == Some(saved.value[0].id) && clock == now
      ensures saved.Some? && |saved.value| == 0 ==>
        chats == [NewChat(ChatId(now))] && activeChatId == Some(ChatId(now)) && clock == now + 1
      ensures saved.None? ==>
        chats == [NewChat(ChatId(now))] + old(chats) && activeChatId == Some(ChatId(now)) && clock == now + 1
    {
      FreshLater(chats, clock, now);
      clock := now;
      if saved.Some? {
        chats := saved.value;
        if |saved.value| > 0 {
          activeChatId := Some(saved.value[0].id);
        } else {
          CreateNewChat();
        }
      } else {
        CreateNewChat();
      }
    }

    /** The snapshot and the first-message rename (lines 123-128). */
    method RenameOnFirst(chatId: string, text: string) returns (snapshot: Option<ChatSession>)
      modifies this
      ensures snapshot == FindChat(old(chats), chatId)
      ensures chats == Renamed(old(chats), chatId, text)
      ensures clock == old(clock) && isLoading == old(isLoading) && activeChatId == old(activeChatId)
    {
      snapshot := FindChat(chats, chatId);
      if snapshot.Some? && |snapshot.value.messages| <= 1 {
        chats := RenameChat(chats, chatId, Prefix(text, 40));
      }
    }

    /** The updates before the request (lines 112-139): the user id is read,
        the snapshot taken, the first-message rename done, the user's message
        appended, loading begun, the placeholder id read and the placeholder
        appended. */
    method Begin(chatId: string, text: string, file: Option<UploadedFile>) returns (snapshot: Option<ChatSession>)
      modifies this
      ensures chats == Prepared(old(chats), chatId, text, file, old(clock))
      ensures snapshot == FindChat(old(chats), chatId)
      ensures clock == old(clock) + 2 && isLoading && activeChatId == old(activeChatId)
    {
      var user := UserMessage(UserId(clock), text, file);
      clock := clock + 1;
      snapshot := RenameOnFirst(chatId, text);
      chats := AppendMessage(chats, chatId, user);
      isLoading := true;
      var placeholderId := ModelId(clock);
      clock := clock + 1;
      chats := AppendMessage(chats, chatId, Placeholder(placeholderId));
    }

    /** The API call's stream (lines 169-217): a new decoder, the chunk
        callback once per chunk. The records appended depend only on the
        concatenated text, however it was split. */
    method Stream(parse: string -> Option<Json>, chunks: seq<string>, chatId: string, placeholderId: string)
      returns (decoder: Decoder, warnings: seq<string>)
      modifies this
      ensures fresh(decoder) && decoder.parse == parse
      ensures decoder.buffer == Rest(Concat(chunks))
      ensures chats == Streamed(old(chats), chatId, placeholderId, RecordsOf(parse, Lines(Concat(chunks))))
      ensures warnings == WarningsOf(parse, Lines(Concat(chunks)))
      ensures activeChatId == old(activeChatId) && isLoading == old(isLoading) && clock == old(clock)
    {
      ghost var base := chats;
      ghost var records: seq<ContentPart> := [];
      decoder := new Decoder(parse);
      warnings := [];
      assert chats == Streamed(base, chatId, placeholderId, []) by {
        AppendPartsNone(base, chatId, placeholderId);
      }
      var k := 0;
      while k < |chunks|
        invariant 0 <= k <= |chunks|
        invariant fresh(decoder) && decoder.parse == parse
        invariant decoder.buffer == Rest(Concat(chunks[..k]))
        invariant records == RecordsOf(parse, Lines(Concat(chunks[..k])))
        invariant warnings == WarningsOf(parse, Lines(Concat(chunks[..k])))
        invariant chats == Streamed(base, chatId, placeholderId, records)
        invariant activeChatId == old(activeChatId) && isLoading == old(isLoading) && clock == old(clock)
      {
        ghost var seen := Concat(chunks[..k]);
        var ws := Receive(decoder, chunks[k], chatId, placeholderId, base, records);
        assert chunks[..k + 1][..k] == chunks[..k];
        assert Concat(chunks[..k + 1]) == seen + chunks[k];
        LinesAppend(seen, chunks[k]);
        RecordsOfAppend(parse, Lines(seen), Lines(Rest(seen) + chunks[k]));
        records := records + RecordsOf(parse, Lines(Rest(seen) + chunks[k]));
        warnings := warnings + ws;
        k := k + 1;
      }
      assert chunks[..k] == chunks;
    }

    /** The chunk callback (lines 174-216): the decoder takes the chunk and
        every record it yields is appended to the placeholder, in order. */
    method Receive(decoder: Decoder, chunk: string, chatId: string, placeholderId: string,
                   ghost base: seq<ChatSession>, ghost done: seq<ContentPart>)
      returns (warnings: seq<string>)
      requires chats == Streamed(base, chatId, placeholderId, done)
      modifies this, decoder
      ensures decoder.buffer == Rest(old(decoder.buffer) + chunk)
      ensures chats == Streamed(base, chatId, placeholderId,
                                done + RecordsOf(decoder.parse, Lines(old(decoder.buffer) + chunk)))
      ensures warnings == WarningsOf(decoder.parse, Lines(old(decoder.buffer) + chunk))
      ensures activeChatId == old(activeChatId) && isLoading == old(isLoading) && clock == old(clock)
    {
      var records;
      records, warnings := decoder.Feed(chunk);
      var j := 0;
      assert done + records[..0] == done;
      while j < |records|
        modifies this
        invariant 0 <= j <= |records|
        invariant chats == Streamed(base, chatId, placeholderId, done + records[..j])
        invariant activeChatId == old(activeChatId) && isLoading == old(isLoading) && clock == old(clock)
      {
        StreamedStep(base, chatId, placeholderId, done + records[..j], records[j]);
        TakeOneMore(done, records, j);
        chats := AppendPartIn(chats, chatId, placeholderId, records[j]);
        j := j + 1;
      }
      assert records[..j] == records;
    }

    /** The end of the request (lines 223-245): nothing more on completion; on
        an abort the cancel notice goes in and the placeholder goes; on a
        failure the placeholder goes and the error notice goes in. */
    method Conclude(chatId: string, outcome: Outcome, ghost stamp: nat)
      requires clock == stamp + 2
      modifies this
      ensures chats == Concluded(old(chats), chatId, stamp, outcome)
      ensures clock == stamp + Readings(outcome)
      ensures activeChatId == old(activeChatId) && isLoading == old(isLoading)
    {
      var placeholderId := ModelId(clock - 1);
      match outcome
      case Completed =>
      case Aborted =>
        var cancelId := CancelId(clock);
        clock := clock + 1;
        chats := AppendMessage(chats, chatId, CancelMessage(cancelId));
        chats := RemoveFrom(chats, chatId, placeholderId);
      case Failed(error) =>
        var errorId := ModelId(clock);
        clock := clock + 1;
        chats := RemoveFrom(chats, chatId, placeholderId);
        chats := AppendMessage(chats, chatId, ErrorMessage(errorId, error));
    }

    /** `handleSendMessage` (lines 111-251), given the chunks the API delivers
        and how the request ends. Without an active session (`null` or the
        empty id) nothing happens; otherwise the send runs, and every model id
        stays behind the clock. SendEffect says what a send does to each
        session. The loading flag must be off: the input refuses to submit
        while a response is loading. */
    method SendMessage(parse: string -> Option<Json>, text: string, file: Option<UploadedFile>,
                       chunks: seq<string>, outcome: Outcome)
      returns (request: Option<Request>, warnings: seq<string>, dangling: Option<string>)
      requires Valid() && !isLoading
      modifies this
      ensures Valid() && !isLoading && activeChatId == old(activeChatId)
      ensures old(activeChatId).None? || old(activeChatId).value == "" ==>
        chats == old(chats) && clock == old(clock) && request.None? && warnings == [] && dangling.None?
      ensures old(activeChatId).Some? && old(activeChatId).value != "" ==>
        var chatId := old(activeChatId).value;
        var records := RecordsOf(parse, Lines(Concat(chunks)));
        && chats == AfterSend(old(chats), chatId, text, file, old(clock), records, outcome)
        && clock == old(clock) + Readings(outcome)
        && request == Some(Request(ToHistory(Snapshot(old(chats), chatId)), MessageParts(text, file)))
        && warnings == WarningsOf(parse, Lines(Concat(chunks)))
        && dangling == (if outcome.Completed? then DanglingOf(Rest(Concat(chunks))) else None)
    {
      if activeChatId.None? || activeChatId.value == "" {
        request, warnings, dangling := None, [], None;
      } else {
        ghost var before, stamp := chats, clock;
        var r;
        r, warnings, dangling := Send(activeChatId.value, parse, text, file, chunks, outcome);
        request := Some(r);
        SendKeepsFresh(before, activeChatId.value, text, file, stamp, RecordsOf(parse, Lines(Concat(chunks))), outcome);
      }
    }

    /** A send to session `chatId`: the updates before the request, the
        request (the snapshot's history and the message parts), the response,
        and the end of loading (line 248). */
    method Send(chatId: string, parse: string -> Option<Json>, text: string, file: Option<UploadedFile>,
                chunks: seq<string>, outcome: Outcome)
      returns (request: Request, warnings: seq<string>, dangling: Option<string>)
      modifies this
      ensures !isLoading && activeChatId == old(activeChatId)
      ensures chats == AfterSend(old(chats), chatId, text, file, old(clock), RecordsOf(parse, Lines(Concat(chunks))), outcome)
      ensures clock == old(clock) + Readings(outcome)
      ensures request == Request(ToHistory(Snapshot(old(chats), chatId)), MessageParts(text, file))
      ensures warnings == WarningsOf(parse, Lines(Concat(chunks)))
      ensures dangling == (if outcome.Completed? then DanglingOf(Rest(Concat(chunks))) else None)
    {
      var stamp := clock;
      var snapshot := Begin(chatId, text, file);
      request := Request(ToHistory(if snapshot.Some? then snapshot.value.messages else []), MessageParts(text, file));
      warnings, dangling := Respond(parse, chunks, chatId, outcome, stamp);
      isLoading := false;
    }

    /** The response (lines 169-245): the stream, the end-of-stream check
        when it completes, then the outcome. */
    method Respond(parse: string -> Option<Json>, chunks: seq<string>, chatId: string, outcome: Outcome, ghost stamp: nat)
      returns (warnings: seq<string>, dangling: Option<string>)
      requires clock == stamp + 2
      modifies this
      ensures chats == Concluded(Streamed(old(chats), chatId, ModelId(stamp + 1), RecordsOf(parse, Lines(Concat(chunks)))), chatId, stamp, outcome)
      ensures clock == stamp + Readings(outcome)
      ensures warnings == WarningsOf(parse, Lines(Concat(chunks)))
      ensures dangling == (if outcome.Completed? then DanglingOf(Rest(Concat(chunks))) else None)
      ensures activeChatId == old(activeChatId) && isLoading == old(isLoading)
    {
      var decoder;
      decoder, warnings := Stream(parse, chunks, chatId, ModelId(clock - 1));
      dangling := None;
      if outcome.Completed? {
        dangling := decoder.Finish();
      }
      Conclude(chatId, outcome, stamp);
    }
  }
}
