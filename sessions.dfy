/** The pure updates of the session list in components/ChatLayout.tsx: every
    `setChats(prev => ...)` there maps or filters the list, and the message
    updates map or filter one session's messages. Also the identifiers the
    component stamps from the clock, with the clock reading as a number. */
module Sessions {
  import opened Wrappers
  import opened Types

  // ----- Identifiers -----

  /** The decimal digit for `d`. */
  function Digit(d: nat): (c: char)
    requires d < 10
    ensures '0' <= c <= '9'
  {
    (('0' as int) + d) as char
  }

  /** `String(n)`: the decimal numeral of `n`, digits only, one digit exactly
      for the numbers below ten. */
  function Decimal(n: nat): (r: string)
    ensures |r| > 0 && (|r| == 1 <==> n < 10)
    ensures forall i :: 0 <= i < |r| ==> '0' <= r[i] <= '9'
  {
    if n < 10 then [Digit(n)] else Decimal(n / 10) + [Digit(n % 10)]
  }

  /** Different numbers have different numerals. */
  lemma {:induction false} DecimalInjective(a: nat, b: nat)
    requires Decimal(a) == Decimal(b)
    ensures a == b
  {
    if a >= 10 && b >= 10 {
      var da, db := Decimal(a), Decimal(b);
      assert da[..|da| - 1] == Decimal(a / 10);
      assert db[..|db| - 1] == Decimal(b / 10);
      DecimalInjective(a / 10, b / 10);
      assert Digit(a % 10) == da[|da| - 1] == db[|db| - 1] == Digit(b % 10);
    }
  }

  /** `chat-${Date.now()}` (line 78). */
  function ChatId(stamp: nat): string
  {
    "chat-" + Decimal(stamp)
  }

  /** `user-${Date.now()}` (line 117). */
  function UserId(stamp: nat): string
  {
    "user-" + Decimal(stamp)
  }

  /** `model-${Date.now()}` (lines 133 and 240). */
  function ModelId(stamp: nat): string
  {
    "model-" + Decimal(stamp)
  }

  /** `model-${Date.now()}-cancel` (line 225). */
  function CancelId(stamp: nat): string
  {
    ModelId(stamp) + "-cancel"
  }

  /** The id of every session's greeting (line 83). */
  const GreetingId: string := "initial-ai-message"

  /** Model ids made at different stamps differ. */
  lemma ModelIdInjective(a: nat, b: nat)
    ensures ModelId(a) == ModelId(b) ==> a == b
  {
    if ModelId(a) == ModelId(b) {
      assert Decimal(a) == ModelId(a)[6..];
      assert Decimal(b) == ModelId(b)[6..];
      DecimalInjective(a, b);
    }
  }

  /** No user id, cancel id or greeting id is a model id. */
  lemma NotModelIds(a: nat, b: nat)
    ensures UserId(a) != ModelId(b)
    ensures CancelId(a) != ModelId(b)
    ensures GreetingId != ModelId(b)
  {
    assert UserId(a)[0] == 'u' && ModelId(b)[0] == 'm' && GreetingId[0] == 'i';
    var da, db := Decimal(a), Decimal(b);
    if |db| > |da| {
      assert CancelId(a)[6 + |da|] == '-';
      assert ModelId(b)[6 + |da|] == db[|da|];
    } else {
      assert |CancelId(a)| > |ModelId(b)|;
    }
  }

  // ----- The greeting session -----

  const GreetingText: string :=
    "Hello! I'm your Teacher AI. Ask me a question, and I'll break it down for you with text and visuals for each step!"

  const NewChatTitle: string := "New Chat"

  /** The model's greeting, the only message of a new session (lines 82-86). */
  function Greeting(): Message
  {
    Message(GreetingId, Model, Some(GreetingText), None, None, None)
  }

  /** The session `createNewChat` builds (lines 79-87). */
  function NewChat(id: string): ChatSession
  {
    ChatSession(id, NewChatTitle, [Greeting()])
  }

  // ----- Whole-list updates -----

  /** `updateMessages(chatId, f)`: every session with that id has its messages
      replaced by `f` of them; every other session, and the order, stay. */
  function UpdateMessages(chats: seq<ChatSession>, chatId: string, f: seq<Message> -> seq<Message>): (r: seq<ChatSession>)
    ensures |r| == |chats|
    ensures forall i :: 0 <= i < |r| ==>
      r[i] == if chats[i].id == chatId then chats[i].(messages := f(chats[i].messages)) else chats[i]
  {
    if chats == [] then []
    else
      var c := chats[0];
      [if c.id == chatId then c.(messages := f(c.messages)) else c] + UpdateMessages(chats[1..], chatId, f)
  }

  /** Two updates of the same session are one update by their composition. */
  lemma UpdateTwice(chats: seq<ChatSession>, chatId: string, f: seq<Message> -> seq<Message>,
                    g: seq<Message> -> seq<Message>, h: seq<Message> -> seq<Message>)
    requires forall ms :: h(ms) == g(f(ms))
    ensures UpdateMessages(UpdateMessages(chats, chatId, f), chatId, g) == UpdateMessages(chats, chatId, h)
  {
  }

  /** The first-message rename (lines 125-127): every session with that id
      gets the title; nothing else changes. */
  function RenameChat(chats: seq<ChatSession>, chatId: string, title: string): (r: seq<ChatSession>)
    ensures |r| == |chats|
    ensures forall i :: 0 <= i < |r| ==>
      r[i] == if chats[i].id == chatId then chats[i].(title := title) else chats[i]
  {
    if chats == [] then []
    else
      var c := chats[0];
      [if c.id == chatId then c.(title := title) else c] + RenameChat(chats[1..], chatId, title)
  }

  /** `chats.filter(c => c.id !== chatId)` (line 93): the sessions kept are
      exactly those with another id. */
  function RemoveChat(chats: seq<ChatSession>, chatId: string): (r: seq<ChatSession>)
    ensures forall c :: c in r <==> c in chats && c.id != chatId
  {
    if chats == [] then []
    else (if chats[0].id != chatId then [chats[0]] else []) + RemoveChat(chats[1..], chatId)
  }

  /** Removing from a concatenation removes from each part, so the kept
      sessions stay in their original order. */
  lemma {:induction false} RemoveChatAppend(a: seq<ChatSession>, b: seq<ChatSession>, chatId: string)
    ensures RemoveChat(a + b, chatId) == RemoveChat(a, chatId) + RemoveChat(b, chatId)
  {
    if a == [] {
      assert a + b == b;
    } else {
      assert (a + b)[0] == a[0];
      assert (a + b)[1..] == a[1..] + b;
      RemoveChatAppend(a[1..], b, chatId);
    }
  }

  /** With no session of that id, the filter changes nothing. */
  lemma {:induction false} RemoveChatAbsent(chats: seq<ChatSession>, chatId: string)
    requires forall i :: 0 <= i < |chats| ==> chats[i].id != chatId
    ensures RemoveChat(chats, chatId) == chats
  {
    if chats != [] {
      RemoveChatAbsent(chats[1..], chatId);
    }
  }

  /** `chats.find(c => c.id === chatId)`: some session with that id, None
      exactly when there is none (FindChatFirst says which one). */
  function FindChat(chats: seq<ChatSession>, chatId: string): (r: Option<ChatSession>)
    ensures r.None? <==> forall i :: 0 <= i < |chats| ==> chats[i].id != chatId
    ensures r.Some? ==> r.value in chats && r.value.id == chatId
  {
    if chats == [] then None
    else if chats[0].id == chatId then Some(chats[0])
    else
      var r := FindChat(chats[1..], chatId);
      assert forall i :: 1 <= i < |chats| ==> chats[i] == chats[1..][i - 1];
      r
  }

  /** `find` returns the first session with that id. */
  lemma {:induction false} FindChatFirst(chats: seq<ChatSession>, chatId: string, i: nat)
    requires i < |chats| && chats[i].id == chatId
    requires forall j :: 0 <= j < i ==> chats[j].id != chatId
    ensures FindChat(chats, chatId) == Some(chats[i])
  {
    if i > 0 {
      assert chats[i] == chats[1..][i - 1];
      FindChatFirst(chats[1..], chatId, i - 1);
    }
  }

  // ----- Updates of one session's messages -----

  /** `msg.parts || []`. */
  function PartsOf(m: Message): seq<ContentPart>
  {
    if m.parts.Some? then m.parts.value else []
  }

  /** The per-record update (lines 200-205): the message with that id gets the
      part at the end of its parts; every other message stays. */
  function AppendPart(ms: seq<Message>, msgId: string, p: ContentPart): (r: seq<Message>)
    ensures |r| == |ms|
    ensures forall i :: 0 <= i < |r| ==>
      r[i] == if ms[i].id == msgId then ms[i].(parts := Some(PartsOf(ms[i]) + [p])) else ms[i]
  {
    if ms == [] then []
    else
      var m := ms[0];
      [if m.id == msgId then m.(parts := Some(PartsOf(m) + [p])) else m] + AppendPart(ms[1..], msgId, p)
  }

  /** The per-record update applied for each record in arrival order. */
  function AppendParts(ms: seq<Message>, msgId: string, ps: seq<ContentPart>): seq<Message>
  {
    if ps == [] then ms
    else AppendPart(AppendParts(ms, msgId, ps[..|ps| - 1]), msgId, ps[|ps| - 1])
  }

  /** After a run of records, the messages with that id end with exactly those
      records, in arrival order, after the parts they had; every other message
      is unchanged; a message with no parts and no records stays as it was. */
  lemma {:induction false} AppendPartsEffect(ms: seq<Message>, msgId: string, ps: seq<ContentPart>)
    ensures var r := AppendParts(ms, msgId, ps);
      && |r| == |ms|
      && forall i :: 0 <= i < |r| ==>
        r[i] == if ms[i].id == msgId && ps != [] then ms[i].(parts := Some(PartsOf(ms[i]) + ps)) else ms[i]
  {
    if ps != [] {
      var init, last := ps[..|ps| - 1], ps[|ps| - 1];
      AppendPartsEffect(ms, msgId, init);
      assert init + [last] == ps;
      var before := AppendParts(ms, msgId, init);
      var r := AppendPart(before, msgId, last);
      forall i | 0 <= i < |ms| && ms[i].id == msgId
        ensures r[i] == ms[i].(parts := Some(PartsOf(ms[i]) + ps))
      {
        OneMorePart(ms[i], init, last);
      }
    }
  }

  /** One more record after a run of them lands after the run. */
  lemma OneMorePart(m: Message, init: seq<ContentPart>, last: ContentPart)
    ensures var b := if init == [] then m else m.(parts := Some(PartsOf(m) + init));
      b.(parts := Some(PartsOf(b) + [last])) == m.(parts := Some(PartsOf(m) + (init + [last])))
  {
    if init == [] {
      assert init + [last] == [last];
    } else {
      assert PartsOf(m) + init + [last] == PartsOf(m) + (init + [last]);
    }
  }

  /** With no message of that id, the records change nothing. */
  lemma AppendPartsAbsent(ms: seq<Message>, msgId: string, ps: seq<ContentPart>)
    requires forall i :: 0 <= i < |ms| ==> ms[i].id != msgId
    ensures AppendParts(ms, msgId, ps) == ms
  {
    AppendPartsEffect(ms, msgId, ps);
  }

  /** `messages.filter(m => m.id !== msgId)` (lines 230 and 244): the messages
      kept are exactly those with another id. */
  function RemoveMessage(ms: seq<Message>, msgId: string): (r: seq<Message>)
    ensures forall m :: m in r <==> m in ms && m.id != msgId
  {
    if ms == [] then []
    else (if ms[0].id != msgId then [ms[0]] else []) + RemoveMessage(ms[1..], msgId)
  }

  /** Removing from a concatenation removes from each part, keeping order. */
  lemma {:induction false} RemoveMessageAppend(a: seq<Message>, b: seq<Message>, msgId: string)
    ensures RemoveMessage(a + b, msgId) == RemoveMessage(a, msgId) + RemoveMessage(b, msgId)
  {
    if a == [] {
      assert a + b == b;
    } else {
      assert (a + b)[0] == a[0];
      assert (a + b)[1..] == a[1..] + b;
      RemoveMessageAppend(a[1..], b, msgId);
    }
  }

  /** With no message of that id, the filter changes nothing. */
  lemma {:induction false} RemoveMessageAbsent(ms: seq<Message>, msgId: string)
    requires forall i :: 0 <= i < |ms| ==> ms[i].id != msgId
    ensures RemoveMessage(ms, msgId) == ms
  {
    if ms != [] {
      RemoveMessageAbsent(ms[1..], msgId);
    }
  }

  // ----- The send handler's updates, each an `updateMessages` or the same map -----

  /** `updateMessages(chatId, prev => [...prev, m])` (lines 130, 139, 226, 245). */
  function AppendMessage(chats: seq<ChatSession>, chatId: string, m: Message): seq<ChatSession>
  {
    UpdateMessages(chats, chatId, ms => ms + [m])
  }

  /** The per-record `setChats` (lines 198-209). */
  function AppendPartIn(chats: seq<ChatSession>, chatId: string, msgId: string, p: ContentPart): seq<ChatSession>
  {
    UpdateMessages(chats, chatId, ms => AppendPart(ms, msgId, p))
  }

  /** All the per-record updates of a stream, in arrival order. */
  function Streamed(chats: seq<ChatSession>, chatId: string, msgId: string, ps: seq<ContentPart>): seq<ChatSession>
  {
    UpdateMessages(chats, chatId, ms => AppendParts(ms, msgId, ps))
  }

  /** The placeholder removals (lines 229-231 and 244). */
  function RemoveFrom(chats: seq<ChatSession>, chatId: string, msgId: string): seq<ChatSession>
  {
    UpdateMessages(chats, chatId, ms => RemoveMessage(ms, msgId))
  }

  /** One more record extends the run of records applied so far. */
  lemma StreamedStep(chats: seq<ChatSession>, chatId: string, msgId: string, ps: seq<ContentPart>, p: ContentPart)
    ensures AppendPartIn(Streamed(chats, chatId, msgId, ps), chatId, msgId, p) == Streamed(chats, chatId, msgId, ps + [p])
  {
    assert (ps + [p])[..|ps|] == ps;
    var a := AppendPartIn(Streamed(chats, chatId, msgId, ps), chatId, msgId, p);
    var b := Streamed(chats, chatId, msgId, ps + [p]);
    assert forall i :: 0 <= i < |a| ==> a[i] == b[i];
  }
}
