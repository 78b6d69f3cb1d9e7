/**
  The in-memory repository state: threads of messages, the settings, and
  the pointer to the active thread, with the read-only queries the
  handlers use (`activeThread`, the recent-three list).
 */
module Threads {
  import opened Wrappers

  datatype Role = User | Assistant

  /** One chat message; `ts` is the `Date.now()` value taken when it was added. */
  datatype Message = Message(role: Role, content: string, ts: int)

  datatype Thread = Thread(id: string, title: string, createdAt: int, messages: seq<Message>)

  /** The blob kept under the data key; `threads` is most-recent-first. */
  datatype State = State(apiKey: string, model: string, threads: seq<Thread>, activeThreadId: Option<string>)

  const NewChatTitle: string := "New chat"
  const DefaultModel: string := "gpt-4o-mini"
  /** How many threads the sidebar lists. */
  const RecentCount: nat := 3

  /** The state before anything is loaded: no key, the default model, no threads. */
  function InitialState(): State {
    State("", DefaultModel, [], None)
  }

  /** A thread just created by "new chat" or by `ensureThread`. */
  function EmptyThread(id: string, now: int): Thread {
    Thread(id, NewChatTitle, now, [])
  }

  /** JavaScript truthiness of `activeThreadId`: neither `null` nor the empty string. */
  predicate IsTruthy(id: Option<string>) {
    id.Some? && id.value != ""
  }

  predicate UniqueIds(threads: seq<Thread>) {
    forall i, j :: 0 <= i < j < |threads| ==> threads[i].id != threads[j].id
  }

  /** `id` is what `crypto.randomUUID()` yields: non-empty and not yet used. */
  predicate FreshId(st: State, id: string) {
    id != "" && forall i :: 0 <= i < |st.threads| ==> st.threads[i].id != id
  }

  /** Position of the first thread whose id is `id` (`threads.find(t => t.id === id)`). */
  function FindThread(threads: seq<Thread>, id: string): (r: Option<nat>)
    ensures r.Some? ==> r.value < |threads| && threads[r.value].id == id
    ensures r.Some? ==> forall k :: 0 <= k < r.value ==> threads[k].id != id
    ensures r.None? <==> forall k :: 0 <= k < |threads| ==> threads[k].id != id
  {
    FindFirst(threads, (t: Thread) => t.id == id)
  }

  /** With unique ids, the thread at position `k` is found at `k`. */
  lemma FindThreadUnique(threads: seq<Thread>, k: nat)
    requires UniqueIds(threads) && k < |threads|
    ensures FindThread(threads, threads[k].id) == Some(k)
  {
  }

  /** A thread put in front with another id moves the first match one place down. */
  lemma FindThreadPrepend(t: Thread, threads: seq<Thread>, id: string, i: nat)
    requires t.id != id && FindThread(threads, id) == Some(i)
    ensures FindThread([t] + threads, id) == Some(i + 1)
  {
    assert ([t] + threads)[i + 1] == threads[i];
    assert forall k :: 1 <= k < i + 1 ==> ([t] + threads)[k] == threads[k - 1];
  }

  /** Lookups by id see only the ids, in order. */
  lemma FindThreadSameIds(a: seq<Thread>, b: seq<Thread>, id: string)
    requires |a| == |b| && forall k :: 0 <= k < |a| ==> a[k].id == b[k].id
    ensures FindThread(a, id) == FindThread(b, id)
  {
  }

  /** `threads` with thread `i` replaced by `t`, which keeps its id. */
  function Replace(threads: seq<Thread>, i: nat, t: Thread): (r: seq<Thread>)
    requires i < |threads| && t.id == threads[i].id
    ensures |r| == |threads| && r[i] == t
    ensures forall j :: 0 <= j < |threads| && j != i ==> r[j] == threads[j]
    ensures forall j :: 0 <= j < |threads| ==> r[j].id == threads[j].id
    ensures UniqueIds(threads) ==> UniqueIds(r)
  {
    threads[i := t]
  }

  /** Position of the thread `activeThread()` returns, if any. */
  function ActiveIndex(st: State): (r: Option<nat>)
    ensures r.Some? ==> st.activeThreadId.Some? && r.value < |st.threads|
    ensures r.Some? ==> st.threads[r.value].id == st.activeThreadId.value
    ensures r.Some? ==> forall k :: 0 <= k < r.value ==> st.threads[k].id != st.activeThreadId.value
    ensures r.None? <==> st.activeThreadId.None? || forall k :: 0 <= k < |st.threads| ==> st.threads[k].id != st.activeThreadId.value
  {
    match st.activeThreadId
    case None => None
    case Some(id) => FindThread(st.threads, id)
  }

  /** `activeThread()`: the first thread whose id is the active id. */
  function ActiveThread(st: State): (r: Option<Thread>)
    ensures r.Some? <==> ActiveIndex(st).Some?
    ensures r.Some? ==> r.value in st.threads && Some(r.value.id) == st.activeThreadId
    ensures r.Some? ==> r.value == st.threads[ActiveIndex(st).value]
    ensures r.Some? ==> forall k :: 0 <= k < |st.threads| && st.threads[k].id == r.value.id ==>
      ActiveIndex(st).value <= k
  {
    match ActiveIndex(st)
    case None => None
    case Some(i) => Some(st.threads[i])
  }

  /** Changing messages or titles, but no id and no order, keeps the active position. */
  lemma ActiveIndexSameIds(a: State, b: State)
    requires a.activeThreadId == b.activeThreadId
    requires |a.threads| == |b.threads| && forall k :: 0 <= k < |a.threads| ==> a.threads[k].id == b.threads[k].id
    ensures ActiveIndex(a) == ActiveIndex(b)
  {
    if a.activeThreadId.Some? {
      FindThreadSameIds(a.threads, b.threads, a.activeThreadId.value);
    }
  }

  predicate ActiveResolves(st: State) {
    ActiveIndex(st).Some?
  }

  /** `state.threads.slice(0, 3)`: the sidebar's list. */
  function Recent(st: State): (r: seq<Thread>)
    ensures |r| <= RecentCount && |r| <= |st.threads|
    ensures r == st.threads[..|r|]
    ensures |r| == RecentCount || r == st.threads
  {
    Prefix(st.threads, RecentCount)
  }

  /** Longest a derived title may be (`slice(0, 60)`). */
  const TitleLength: nat := 60

  /** `s.slice(0, n)` on a string or an array. */
  function Prefix<T>(s: seq<T>, n: nat): (r: seq<T>)
    ensures |r| <= n && |r| <= |s| && r == s[..|r|]
    ensures |r| == n || r == s
  {
    if |s| <= n then s else s[..n]
  }

  /** Position of the thread's first user message (`messages.find(m => m.role === 'user')`). */
  function FirstUserMessage(msgs: seq<Message>): (r: Option<nat>)
    ensures r.Some? ==> r.value < |msgs| && msgs[r.value].role == User
    ensures r.Some? ==> forall k :: 0 <= k < r.value ==> msgs[k].role != User
    ensures r.None? <==> forall k :: 0 <= k < |msgs| ==> msgs[k].role != User
  {
    FindFirst(msgs, (m: Message) => m.role == User)
  }

  /**
    `setThreadTitleFromFirstUserMessage`: the title becomes the first 60
    characters of the first user message (or of "New chat" when that message
    is empty); a thread without user messages is left as it is.
   */
  function TitleFromFirstUserMessage(t: Thread): (r: Thread)
    ensures r.id == t.id && r.createdAt == t.createdAt && r.messages == t.messages
    ensures FirstUserMessage(t.messages).None? ==> r == t
    ensures FirstUserMessage(t.messages).Some? ==>
      var c := t.messages[FirstUserMessage(t.messages).value].content;
      var source := if c == "" then NewChatTitle else c;
      |r.title| <= TitleLength && |r.title| <= |source| && r.title == source[..|r.title|]
      && (|r.title| == TitleLength || r.title == source)
  {
    match FirstUserMessage(t.messages)
    case None => t
    case Some(i) =>
      var c := t.messages[i].content;
      t.(title := Prefix(if c == "" then NewChatTitle else c, TitleLength))
  }

  /** Appending a message never moves the first user message once there is one. */
  lemma FirstUserMessageStable(msgs: seq<Message>, m: Message)
    requires FirstUserMessage(msgs).Some?
    ensures FirstUserMessage(msgs + [m]) == FirstUserMessage(msgs)
  {
    var i := FirstUserMessage(msgs).value;
    var j := FirstUserMessage(msgs + [m]);
    assert (msgs + [m])[i] == msgs[i];
    assert j.Some?;
  }

  /** Once a thread has a user message, more messages do not change the title the rule derives. */
  lemma TitleRuleStable(t: Thread, m: Message)
    requires FirstUserMessage(t.messages).Some?
    ensures TitleFromFirstUserMessage(t.(messages := t.messages + [m])).title == TitleFromFirstUserMessage(t).title
  {
    FirstUserMessageStable(t.messages, m);
    var i := FirstUserMessage(t.messages).value;
    assert (t.messages + [m])[i] == t.messages[i];
  }

  /** The rule reads only the messages, so applying it twice changes nothing more. */
  lemma TitleRuleIdempotent(t: Thread)
    ensures TitleFromFirstUserMessage(TitleFromFirstUserMessage(t)) == TitleFromFirstUserMessage(t)
  {
  }
}
