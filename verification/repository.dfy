/**
  The page's thread handlers: `ensureThread`, "New chat", picking a thread
  from the recent list, saving the settings and clearing a thread. Each one
  changes the in-memory state and, when it changes anything, calls
  `saveData()`. Fresh ids (`crypto.randomUUID()`) and times (`Date.now()`)
  are parameters.
 */
module Repository {
  import opened Wrappers
  import opened JsString
  import opened Threads
  import opened Storage

  /** The running page: storage, the in-memory state and the gate's variables. */
  datatype Page = Page(storage: Store, state: State, unlocked: bool, gateShown: bool, hint: string)

  /**
    A freshly loaded page: the stored entries are there but not yet read,
    memory holds the defaults (no key, the default model, no threads, no
    active thread), and the gate is shown with no hint.
   */
  function Startup(storage: Store): (r: Page)
    ensures r.storage == storage
    ensures r.state.apiKey == "" && r.state.model == DefaultModel
    ensures r.state.threads == [] && ActiveThread(r.state).None?
    ensures !r.unlocked && r.gateShown && r.hint == ""
  {
    Page(storage, InitialState(), false, true, "")
  }

  /** The data key holds exactly the in-memory state. */
  predicate InSync(p: Page) {
    DataKey in p.storage && p.storage[DataKey] == Saved(p.state)
  }

  /** Between `a` and `b` only the state and the data key may differ. */
  predicate GateUntouched(a: Page, b: Page) {
    && SameExceptData(a.storage, b.storage)
    && a.unlocked == b.unlocked && a.gateShown == b.gateShown && a.hint == b.hint
  }

  /** Install a new in-memory state and call `saveData()`. */
  function Commit(p: Page, st: State): (r: Page)
    ensures r.state == st && InSync(r) && GateUntouched(p, r)
  {
    p.(state := st, storage := SaveData(p.storage, st))
  }

  /** "New chat": a new empty thread goes in front and becomes active. */
  function NewChat(p: Page, id: string, now: int): (r: Page)
    requires FreshId(p.state, id)
    ensures |r.state.threads| == |p.state.threads| + 1
    ensures r.state.threads[0] == EmptyThread(id, now) && r.state.threads[1..] == p.state.threads
    ensures ActiveIndex(r.state) == Some(0)
    ensures r.state.apiKey == p.state.apiKey && r.state.model == p.state.model
    ensures InSync(r) && GateUntouched(p, r)
    ensures UniqueIds(p.state.threads) ==> UniqueIds(r.state.threads)
  {
    Commit(p, p.state.(threads := [EmptyThread(id, now)] + p.state.threads, activeThreadId := Some(id)))
  }

  /**
    `ensureThread()`: nothing happens when the active id is truthy and names a
    thread; otherwise a new empty thread is put in front and made active.
   */
  function EnsureThread(p: Page, id: string, now: int): (r: Page)
    requires FreshId(p.state, id)
    ensures ActiveResolves(r.state) && IsTruthy(r.state.activeThreadId)
    ensures IsTruthy(p.state.activeThreadId) && ActiveResolves(p.state) ==> r == p
    ensures !(IsTruthy(p.state.activeThreadId) && ActiveResolves(p.state)) ==>
      && r.state.threads == [EmptyThread(id, now)] + p.state.threads
      && r.state.activeThreadId == Some(id)
      && InSync(r)
    ensures r.state.apiKey == p.state.apiKey && r.state.model == p.state.model
    ensures GateUntouched(p, r)
    ensures UniqueIds(p.state.threads) ==> UniqueIds(r.state.threads)
  {
    if IsTruthy(p.state.activeThreadId) && ActiveResolves(p.state) then p
    else NewChat(p, id, now)
  }

  /** A second `ensureThread()` never creates another thread. */
  lemma EnsureThreadIdempotent(p: Page, id: string, now: int, id': string, now': int)
    requires FreshId(p.state, id)
    requires FreshId(EnsureThread(p, id, now).state, id')
    ensures EnsureThread(EnsureThread(p, id, now), id', now') == EnsureThread(p, id, now)
  {
  }

  /** Clicking entry `k` of the recent list makes that thread active. */
  function SelectRecent(p: Page, k: nat): (r: Page)
    requires k < |Recent(p.state)|
    ensures r.state.threads == p.state.threads
    ensures r.state.apiKey == p.state.apiKey && r.state.model == p.state.model
    ensures ActiveThread(r.state).Some? && ActiveThread(r.state).value.id == p.state.threads[k].id
    ensures UniqueIds(p.state.threads) ==> ActiveIndex(r.state) == Some(k)
    ensures InSync(r) && GateUntouched(p, r)
  {
    var t := Recent(p.state)[k];
    Commit(p, p.state.(activeThreadId := Some(t.id)))
  }

  /** "Save": the trimmed key and the chosen model are stored; threads are untouched. */
  function SaveSettings(p: Page, keyInput: string, modelChoice: string): (r: Page)
    ensures r.state.apiKey == Trim(keyInput) && r.state.model == modelChoice
    ensures r.state.apiKey != "" ==> !IsJsSpace(r.state.apiKey[0]) && !IsJsSpace(r.state.apiKey[|r.state.apiKey| - 1])
    ensures r.state.threads == p.state.threads && r.state.activeThreadId == p.state.activeThreadId
    ensures InSync(r) && GateUntouched(p, r)
  {
    Commit(p, p.state.(apiKey := Trim(keyInput), model := modelChoice))
  }

  /**
    "Clear": with an active thread and the user's confirmation, that thread
    loses its messages and its title goes back to "New chat"; every other
    thread and the active pointer stay as they were.
   */
  function ClearActive(p: Page, confirmed: bool): (r: Page)
    ensures ActiveIndex(p.state).None? || !confirmed ==> r == p
    ensures ActiveIndex(p.state).Some? && confirmed ==>
      var i := ActiveIndex(p.state).value;
      && |r.state.threads| == |p.state.threads|
      && r.state.threads[i] == p.state.threads[i].(messages := [], title := NewChatTitle)
      && (forall j :: 0 <= j < |p.state.threads| && j != i ==> r.state.threads[j] == p.state.threads[j])
      && InSync(r)
    ensures r.state.activeThreadId == p.state.activeThreadId && ActiveIndex(r.state) == ActiveIndex(p.state)
    ensures r.state.apiKey == p.state.apiKey && r.state.model == p.state.model
    ensures GateUntouched(p, r)
    ensures UniqueIds(p.state.threads) ==> UniqueIds(r.state.threads)
  {
    match ActiveIndex(p.state)
    case None => p
    case Some(i) =>
      if !confirmed then p
      else
        var t := p.state.threads[i];
        var st := p.state.(threads := Replace(p.state.threads, i, t.(messages := [], title := NewChatTitle)));
        ActiveIndexSameIds(st, p.state);
        Commit(p, st)
  }

  /** After "New chat" the recent list starts with the new thread, followed by the previous first two. */
  lemma NewChatHeadsRecent(p: Page, id: string, now: int)
    requires FreshId(p.state, id)
    ensures var r := Recent(NewChat(p, id, now).state);
      && |r| == (if |p.state.threads| < RecentCount then |p.state.threads| + 1 else RecentCount)
      && r[0] == EmptyThread(id, now)
      && r[1..] == Prefix(Recent(p.state), RecentCount - 1)
  {
  }
}
