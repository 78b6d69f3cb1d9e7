/**
  Sending a message, in two steps. `SendStart` is the synchronous part of
  the click handler: the trimmed text is appended to the active thread as a
  user message, the title rule runs, the state is saved, and `callOpenAI`
  reads the key and the model and builds its request. `SendFinish` is what
  runs when the awaited call settles: exactly one assistant message is
  appended to the thread captured at send time, whichever thread is active
  by then. The network exchange itself is the `Response` parameter.
 */
module Send {
  import opened Wrappers
  import opened JsString
  import opened Threads
  import opened Repository

  /** A message as the completion API receives it: role and content only. */
  datatype WireMessage = WireMessage(role: Role, content: string)

  /** The request `callOpenAI` posts. */
  datatype Request = Request(apiKey: string, model: string, messages: seq<WireMessage>)

  /**
    How the exchange ended: a successful status with the first choice's
    message content (absent when the reply has none), an unsuccessful status
    with the response text, or a thrown error with its display text.
   */
  datatype Response = Ok(content: Option<string>) | NotOk(status: nat, body: string) | Thrown(message: string)

  /** A reply in flight: the captured thread's id and what `callOpenAI` decided before awaiting. */
  datatype Pending = Pending(threadId: string, request: Result<Request, string>)

  const NoKeyMessage: string := "No API key set. Add one in Settings."
  const NoContent: string := "(no content)"
  /** U+26A0 WARNING SIGN, U+FE0F VARIATION SELECTOR-16, and a space. */
  const WarningPrefix: string := "\U{26A0}\U{FE0F} "

  /** `messages.map(m => ({ role: m.role, content: m.content }))`. */
  function Project(msgs: seq<Message>): (r: seq<WireMessage>)
    ensures |r| == |msgs|
    ensures forall k :: 0 <= k < |msgs| ==> r[k].role == msgs[k].role && r[k].content == msgs[k].content
  {
    seq(|msgs|, k requires 0 <= k < |msgs| => WireMessage(msgs[k].role, msgs[k].content))
  }

  /**
    The part of `callOpenAI` before its first `await`: with no key it fails
    before any request exists; otherwise the request carries the key, the
    model (falling back to the default when empty) and every message.
   */
  function PrepareRequest(st: State, msgs: seq<Message>): (r: Result<Request, string>)
    ensures r.Failure? <==> st.apiKey == ""
    ensures r.Failure? ==> r.error == NoKeyMessage
    ensures r.Success? ==> r.value.apiKey == st.apiKey && r.value.messages == Project(msgs)
    ensures r.Success? ==> r.value.model == (if st.model == "" then DefaultModel else st.model)
    ensures r.Success? ==> r.value.model != ""
  {
    if st.apiKey == "" then Failure(NoKeyMessage)
    else Success(Request(st.apiKey, if st.model == "" then DefaultModel else st.model, Project(msgs)))
  }

  /** The start of the text an unsuccessful status turns into. */
  const ApiErrorLead: string := "API error "

  /**
    The text an unsuccessful status turns into: the lead, the status in
    decimal, a colon and a space, then the response body. Status and body
    can be read back from it.
   */
  function ApiError(status: nat, body: string): (r: string)
    ensures |r| >= |ApiErrorLead| + 3 + |body|
    ensures r[..|ApiErrorLead|] == ApiErrorLead
    ensures r[|r| - |body| - 2..|r| - |body|] == ": " && r[|r| - |body|..] == body
    ensures var d := r[|ApiErrorLead|..|r| - |body| - 2];
      IsDigits(d) && DecimalValue(d) == status
    ensures var d := r[|ApiErrorLead|..|r| - |body| - 2];
      d[0] == '0' ==> d == "0"
  {
    var d := NatToDecimal(status);
    DecimalRoundTrip(status);
    var r := ApiErrorLead + d + ": " + body;
    assert r[|ApiErrorLead|..|r| - |body| - 2] == d;
    r
  }

  /** The part of `callOpenAI` after the request: reply text, or the error it throws. */
  function Completion(resp: Response): (r: Result<string, string>)
    ensures r.Success? <==> resp.Ok?
    ensures resp.Ok? && resp.content.Some? ==> r.value == Trim(resp.content.value)
    ensures resp == Ok(None) ==> r == Success(NoContent)
    ensures resp.NotOk? ==> r.error == ApiError(resp.status, resp.body)
    ensures resp.Thrown? ==> r == Failure(resp.message)
  {
    match resp
    case Ok(None) => Success(NoContent)
    case Ok(Some(c)) => Success(Trim(c))
    case NotOk(status, body) => Failure(ApiError(status, body))
    case Thrown(message) => Failure(message)
  }

  /** What `await callOpenAI(...)` settles to: an early failure never consults the network. */
  function Outcome(request: Result<Request, string>, resp: Response): (r: Result<string, string>)
    ensures request.Failure? ==> r == Failure(request.error)
    ensures request.Success? ==> r == Completion(resp)
  {
    if request.Failure? then Failure(request.error) else Completion(resp)
  }

  /** The assistant message's content: the reply, or the warning sign followed by the error. */
  function AssistantText(o: Result<string, string>): (r: string)
    ensures o.Success? ==> r == o.value
    ensures o.Failure? ==>
      |r| == |WarningPrefix| + |o.error| && r[..|WarningPrefix|] == WarningPrefix && r[|WarningPrefix|..] == o.error
  {
    match o
    case Success(text) => text
    case Failure(e) => WarningPrefix + e
  }

  /**
    What the assistant message says, for every state and every response.
    Without a key it is the no-key warning whatever the network would have
    answered; with a key it is the trimmed reply, "(no content)" when the
    reply has none, or the warning sign followed by the status error or the
    thrown error's text.
   */
  lemma ReplyText(st: State, msgs: seq<Message>, resp: Response)
    ensures st.apiKey == "" ==> AssistantText(Outcome(PrepareRequest(st, msgs), resp)) == WarningPrefix + NoKeyMessage
    ensures st.apiKey != "" ==> Outcome(PrepareRequest(st, msgs), resp) == Completion(resp)
    ensures st.apiKey != "" && resp.Ok? && resp.content.Some? ==>
      AssistantText(Outcome(PrepareRequest(st, msgs), resp)) == Trim(resp.content.value)
    ensures st.apiKey != "" && resp == Ok(None) ==>
      AssistantText(Outcome(PrepareRequest(st, msgs), resp)) == NoContent
    ensures st.apiKey != "" && resp.NotOk? ==>
      AssistantText(Outcome(PrepareRequest(st, msgs), resp)) == WarningPrefix + ApiError(resp.status, resp.body)
    ensures st.apiKey != "" && resp.Thrown? ==>
      AssistantText(Outcome(PrepareRequest(st, msgs), resp)) == WarningPrefix + resp.message
  {
  }

  /** `t.messages.push(m)`. */
  function Push(t: Thread, m: Message): (r: Thread)
    ensures r.id == t.id && r.title == t.title && r.createdAt == t.createdAt
    ensures |r.messages| == |t.messages| + 1 && r.messages[..|t.messages|] == t.messages && r.messages[|t.messages|] == m
  {
    t.(messages := t.messages + [m])
  }

  /** The user message is pushed, then the title rule runs if the title is still "New chat". */
  function AddUserMessage(t: Thread, m: Message): (r: Thread)
    ensures r.id == t.id && r.createdAt == t.createdAt && r.messages == t.messages + [m]
    ensures t.title != NewChatTitle ==> r.title == t.title
    ensures t.title == NewChatTitle ==> r == TitleFromFirstUserMessage(Push(t, m))
  {
    var pushed := Push(t, m);
    assert pushed.messages == t.messages + [m];
    if t.title == NewChatTitle then TitleFromFirstUserMessage(pushed) else pushed
  }

  /**
    The click handler up to its `await`. Blank input does nothing. Without
    an active thread the handler throws before changing anything. Otherwise
    the active thread gains the user message, gets the title rule if its
    title is still "New chat", the state is saved, and the pending reply is
    tied to that thread's id.
   */
  function SendStart(p: Page, input: string, now: int): (r: (Page, Option<Pending>))
    ensures Trim(input) == "" || ActiveIndex(p.state).None? ==> r == (p, None)
    ensures |r.0.state.threads| == |p.state.threads|
    ensures Trim(input) != "" && ActiveIndex(p.state).Some? ==>
      var i := ActiveIndex(p.state).value;
      var t := p.state.threads[i];
      var t' := r.0.state.threads[i];
      && t'.id == t.id && t'.createdAt == t.createdAt
      && t'.messages == t.messages + [Message(User, Trim(input), now)]
      && (t.title != NewChatTitle ==> t'.title == t.title)
      && (t.title == NewChatTitle ==> t' == TitleFromFirstUserMessage(Push(t, Message(User, Trim(input), now))))
      && (forall j :: 0 <= j < |p.state.threads| && j != i ==> r.0.state.threads[j] == p.state.threads[j])
      && r.1 == Some(Pending(t.id, PrepareRequest(p.state, t'.messages)))
      && InSync(r.0)
    ensures r.0.state.activeThreadId == p.state.activeThreadId && ActiveIndex(r.0.state) == ActiveIndex(p.state)
    ensures r.0.state.apiKey == p.state.apiKey && r.0.state.model == p.state.model
    ensures GateUntouched(p, r.0)
    ensures UniqueIds(p.state.threads) ==> UniqueIds(r.0.state.threads)
  {
    var content := Trim(input);
    if content == "" then (p, None)
    else
      match ActiveIndex(p.state)
      case None => (p, None)
      case Some(i) =>
        var t := p.state.threads[i];
        var t' := AddUserMessage(t, Message(User, content, now));
        var st := p.state.(threads := Replace(p.state.threads, i, t'));
        ActiveIndexSameIds(st, p.state);
        (Commit(p, st), Some(Pending(t.id, PrepareRequest(p.state, t'.messages))))
  }

  /**
    The handler after its `await`: one assistant message is pushed onto the
    thread captured by `SendStart`, found by its id, and the state is saved.
    The active thread does not matter.
   */
  function SendFinish(p: Page, pending: Pending, resp: Response, now: int): (r: Page)
    ensures FindThread(p.state.threads, pending.threadId).None? ==> r.state == p.state
    ensures FindThread(p.state.threads, pending.threadId).Some? ==>
      var i := FindThread(p.state.threads, pending.threadId).value;
      && |r.state.threads| == |p.state.threads|
      && r.state.threads[i] == p.state.threads[i].(messages := p.state.threads[i].messages
           + [Message(Assistant, AssistantText(Outcome(pending.request, resp)), now)])
      && (forall j :: 0 <= j < |p.state.threads| && j != i ==> r.state.threads[j] == p.state.threads[j])
    ensures r.state.activeThreadId == p.state.activeThreadId && ActiveIndex(r.state) == ActiveIndex(p.state)
    ensures r.state.apiKey == p.state.apiKey && r.state.model == p.state.model
    ensures InSync(r) && GateUntouched(p, r)
    ensures UniqueIds(p.state.threads) ==> UniqueIds(r.state.threads)
  {
    var reply := Message(Assistant, AssistantText(Outcome(pending.request, resp)), now);
    match FindThread(p.state.threads, pending.threadId)
    case None => Commit(p, p.state)
    case Some(i) =>
      var st := p.state.(threads := Replace(p.state.threads, i, Push(p.state.threads[i], reply)));
      ActiveIndexSameIds(st, p.state);
      Commit(p, st)
  }

  /**
    A send that completes leaves the captured thread with the user message
    and then exactly one assistant message, and changes no other thread.
   */
  lemma {:induction false} SendThenReply(p: Page, input: string, now: int, resp: Response, now': int)
    requires ActiveResolves(p.state) && Trim(input) != ""
    ensures var (q, pending) := SendStart(p, input, now);
      && pending.Some?
      && var r := SendFinish(q, pending.value, resp, now');
      var i := ActiveIndex(p.state).value;
      && |r.state.threads| == |p.state.threads|
      && r.state.threads[i].messages == p.state.threads[i].messages
           + [Message(User, Trim(input), now), Message(Assistant, AssistantText(Outcome(pending.value.request, resp)), now')]
      && (forall j :: 0 <= j < |p.state.threads| && j != i ==> r.state.threads[j] == p.state.threads[j])
      && r.state.activeThreadId == p.state.activeThreadId
  {
    var (q, pending) := SendStart(p, input, now);
    var i := ActiveIndex(p.state).value;
    FindThreadSameIds(q.state.threads, p.state.threads, pending.value.threadId);
    assert FindThread(q.state.threads, pending.value.threadId) == Some(i);
    AppendTwo(p.state.threads[i].messages, Message(User, Trim(input), now),
      Message(Assistant, AssistantText(Outcome(pending.value.request, resp)), now'));
  }

  /** A reply for thread `i` still finds it after "New chat" has pushed it to `i + 1`. */
  lemma FinishAfterNewChat(q: Page, pending: Pending, i: nat, id: string, created: int, resp: Response, now: int)
    requires FreshId(q.state, id)
    requires FindThread(q.state.threads, pending.threadId) == Some(i)
    ensures var r := SendFinish(NewChat(q, id, created), pending, resp, now);
      && |r.state.threads| == |q.state.threads| + 1
      && r.state.threads[0] == EmptyThread(id, created)
      && ActiveIndex(r.state) == Some(0)
      && r.state.threads[i + 1].messages
         == q.state.threads[i].messages + [Message(Assistant, AssistantText(Outcome(pending.request, resp)), now)]
  {
    var m := NewChat(q, id, created);
    assert m.state.threads == [EmptyThread(id, created)] + q.state.threads;
    FindThreadPrepend(EmptyThread(id, created), q.state.threads, pending.threadId, i);
  }

  /**
    Opening a new chat while a reply is in flight does not redirect it: the
    reply lands in the thread the message was sent from, now one place
    further down, and the new active thread stays empty.
   */
  lemma {:induction false} ReplyFollowsCapturedThread(p: Page, input: string, now: int, q: Page, pending: Pending,
                                    id: string, created: int, resp: Response, now': int)
    requires ActiveResolves(p.state)
    requires SendStart(p, input, now) == (q, Some(pending))
    requires FreshId(q.state, id)
    ensures var r := SendFinish(NewChat(q, id, created), pending, resp, now');
      var i := ActiveIndex(p.state).value;
      && |r.state.threads| == |p.state.threads| + 1
      && r.state.threads[0] == EmptyThread(id, created)
      && ActiveIndex(r.state) == Some(0)
      && r.state.threads[i + 1].messages == p.state.threads[i].messages
           + [Message(User, Trim(input), now), Message(Assistant, AssistantText(Outcome(pending.request, resp)), now')]
  {
    var i := ActiveIndex(p.state).value;
    var user := Message(User, Trim(input), now);
    var reply := Message(Assistant, AssistantText(Outcome(pending.request, resp)), now');
    assert q.state.threads[i].messages == p.state.threads[i].messages + [user];
    FindThreadSameIds(q.state.threads, p.state.threads, pending.threadId);
    assert FindThread(q.state.threads, pending.threadId) == Some(i);
    FinishAfterNewChat(q, pending, i, id, created, resp, now');
    AppendTwo(p.state.threads[i].messages, user, reply);
  }

  lemma AppendTwo<T>(s: seq<T>, x: T, y: T)
    ensures (s + [x]) + [y] == s + [x, y]
  {
  }

  /** With no API key, sending "hi" to an empty thread yields the user message and the no-key warning. */
  lemma {:induction false} NoKeyScenario(p: Page, now: int, resp: Response, now': int)
    requires ActiveResolves(p.state)
    requires p.state.apiKey == "" && ActiveThread(p.state).value.messages == []
    ensures var (q, pending) := SendStart(p, "hi", now);
      && pending.Some? && pending.value.request.Failure?
      && var r := SendFinish(q, pending.value, resp, now');
      r.state.threads[ActiveIndex(p.state).value].messages
        == [Message(User, "hi", now), Message(Assistant, WarningPrefix + NoKeyMessage, now')]
  {
    assert LeadingSpaces("hi") == 0;
    assert TrailingSpaces("hi") == 0;
    assert Trim("hi") == "hi";
    SendThenReply(p, "hi", now, resp, now');
  }

  /** A 401 answer with body "invalid key" is shown with its status and its body. */
  lemma ApiErrorScenario()
    ensures AssistantText(Completion(NotOk(401, "invalid key"))) == WarningPrefix + "API error 401: invalid key"
  {
    Decimal401();
    assert ApiError(401, "invalid key") == ApiErrorLead + NatToDecimal(401) + ": " + "invalid key";
    assert ApiError(401, "invalid key") == "API error 401: invalid key";
  }

  lemma Decimal401()
    ensures NatToDecimal(401) == "401"
  {
    assert NatToDecimal(4) == "4";
    assert NatToDecimal(40) == "40";
  }

  /** The first message sent to a "New chat" thread names it after its first 60 characters. */
  lemma FirstSendNamesThread(p: Page, input: string, now: int)
    requires ActiveResolves(p.state) && Trim(input) != ""
    requires ActiveThread(p.state).value.title == NewChatTitle
    requires FirstUserMessage(ActiveThread(p.state).value.messages).None?
    ensures SendStart(p, input, now).0.state.threads[ActiveIndex(p.state).value].title == Prefix(Trim(input), TitleLength)
  {
    var i := ActiveIndex(p.state).value;
    var t := p.state.threads[i];
    var msgs := t.messages + [Message(User, Trim(input), now)];
    assert FirstUserMessage(msgs) == Some(|t.messages|) by {
      assert msgs[|t.messages|].role == User;
      forall k | 0 <= k < |t.messages|
        ensures msgs[k].role != User
      {
        assert msgs[k] == t.messages[k];
      }
    }
  }

  /** After a send, the next send leaves the thread's title as the first one left it. */
  lemma NextSendKeepsTitle(p: Page, input: string, now: int, input': string, now': int)
    requires ActiveResolves(p.state) && Trim(input) != ""
    ensures var q := SendStart(p, input, now).0;
      var i := ActiveIndex(p.state).value;
      SendStart(q, input', now').0.state.threads[i].title == q.state.threads[i].title
  {
    var q := SendStart(p, input, now).0;
    var i := ActiveIndex(p.state).value;
    var t := q.state.threads[i];
    if Trim(input') != "" && t.title == NewChatTitle {
      var t0 := p.state.threads[i];
      var m := Message(User, Trim(input), now);
      assert t0.title == NewChatTitle;
      assert t.messages == t0.messages + [m];
      assert FirstUserMessage(t.messages).Some? by {
        assert t.messages[|t0.messages|].role == User;
      }
      TitleRuleStable(t, Message(User, Trim(input'), now'));
      assert t == TitleFromFirstUserMessage(t0.(messages := t.messages));
      TitleRuleIdempotent(t0.(messages := t.messages));
    }
  }
}
