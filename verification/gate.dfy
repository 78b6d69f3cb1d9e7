/**
  The password gate: `tryUnlock` and `resetPassword`. The gate stores a
  flag and the digest of the trimmed password; unlocking compares digests,
  never passwords. `gateShown` is the overlay that keeps the app locked;
  `unlocked` is the page variable, which nothing ever sets back to false.
 */
module Gate {
  import opened Wrappers
  import opened JsString
  import opened Djb2
  import opened Threads
  import opened Storage
  import opened Repository

  const PasswordRequired: string := "Password required"
  const IncorrectPassword: string := "Incorrect password"

  /** `localStorage.getItem(PASSWORD_HASH) === hashString(pass)`. */
  predicate HashMatches(store: Store, pass: string) {
    PasswordHashKey in store && store[PasswordHashKey] == Text(HashString(pass))
  }

  /** The attempt with trimmed password `pass` gets past the gate. */
  predicate Admits(store: Store, pass: string) {
    pass != "" && (!IsPasswordSet(store) || HashMatches(store, pass))
  }

  /** Data key holds a saved state, or the in-memory state has no active thread. */
  predicate LoadSyncs(p: Page) {
    !ActiveResolves(p.state) || (DataKey in p.storage && p.storage[DataKey].Saved?)
  }

  /**
    The loaded state when its active id is truthy and names a thread, so the
    last thread used stays active; otherwise the loaded state with an empty
    "New chat" thread in front, made active.
   */
  predicate EnsuredFrom(loaded: State, st: State, id: string, now: int) {
    && (IsTruthy(loaded.activeThreadId) && ActiveResolves(loaded) ==> st == loaded)
    && (!(IsTruthy(loaded.activeThreadId) && ActiveResolves(loaded)) ==>
          st == loaded.(threads := [EmptyThread(id, now)] + loaded.threads, activeThreadId := Some(id)))
  }

  /** After a successful check: hint cleared, overlay hidden, data loaded, a thread ensured. */
  function Enter(p: Page, id: string, now: int): (r: Page)
    requires FreshId(LoadData(p.storage, p.state), id)
    ensures r.unlocked && !r.gateShown && r.hint == ""
    ensures ActiveResolves(r.state) && IsTruthy(r.state.activeThreadId)
    ensures EnsuredFrom(LoadData(p.storage, p.state), r.state, id, now)
    ensures LoadSyncs(p) ==> InSync(r)
    ensures SameExceptData(p.storage, r.storage)
  {
    EnsureThread(p.(unlocked := true, gateShown := false, hint := "", state := LoadData(p.storage, p.state)), id, now)
  }

  /** First-time set: store the digest and the flag, nothing else. */
  function RecordPassword(store: Store, pass: string): (r: Store)
    ensures IsPasswordSet(r) && HashMatches(r, pass)
    ensures r - {PasswordSetKey, PasswordHashKey} == store - {PasswordSetKey, PasswordHashKey}
  {
    store[PasswordHashKey := Text(HashString(pass))][PasswordSetKey := Text("1")]
  }

  /** Writing the data key after recording a password keeps the password and every other key. */
  lemma GateKeysSurviveSave(before: Store, recorded: Store, after: Store, pass: string)
    requires recorded == RecordPassword(before, pass)
    requires SameExceptData(recorded, after)
    ensures IsPasswordSet(after) && HashMatches(after, pass)
    ensures after - {DataKey, PasswordSetKey, PasswordHashKey} == before - {DataKey, PasswordSetKey, PasswordHashKey}
  {
    assert PasswordSetKey in recorded - {DataKey};
    assert PasswordHashKey in recorded - {DataKey};
    assert (recorded - {DataKey})[PasswordSetKey] == recorded[PasswordSetKey];
    assert (after - {DataKey})[PasswordHashKey] == after[PasswordHashKey];
    assert (recorded - {DataKey})[PasswordHashKey] == recorded[PasswordHashKey];
    assert (after - {DataKey})[PasswordSetKey] == after[PasswordSetKey];
    var keys := {DataKey, PasswordSetKey, PasswordHashKey};
    assert after - keys == (after - {DataKey}) - {PasswordSetKey, PasswordHashKey};
    assert recorded - keys == (recorded - {PasswordSetKey, PasswordHashKey}) - {DataKey};
    assert before - keys == (before - {PasswordSetKey, PasswordHashKey}) - {DataKey};
  }

  /**
    `tryUnlock()` with the raw text of the password field. An empty trimmed
    password only sets a hint. When no password is set, the digest and the
    flag are stored and the gate opens. Otherwise the gate opens exactly
    when the stored digest equals the digest of the attempt.
   */
  function TryUnlock(p: Page, input: string, id: string, now: int): (r: Page)
    requires FreshId(LoadData(p.storage, p.state), id)
    ensures Trim(input) == "" ==> r == p.(hint := PasswordRequired)
    ensures Trim(input) != "" && IsPasswordSet(p.storage) && !HashMatches(p.storage, Trim(input)) ==>
      r == p.(hint := IncorrectPassword)
    ensures Admits(p.storage, Trim(input)) <==> r.hint == ""
    ensures Admits(p.storage, Trim(input)) ==>
      && r.unlocked && !r.gateShown
      && ActiveResolves(r.state) && IsTruthy(r.state.activeThreadId)
      && EnsuredFrom(LoadData(p.storage, p.state), r.state, id, now)
    ensures Admits(p.storage, Trim(input)) && LoadSyncs(p) ==> InSync(r)
    ensures Trim(input) != "" && !IsPasswordSet(p.storage) ==>
      && IsPasswordSet(r.storage) && HashMatches(r.storage, Trim(input))
      && r.storage - {DataKey, PasswordSetKey, PasswordHashKey} == p.storage - {DataKey, PasswordSetKey, PasswordHashKey}
    ensures IsPasswordSet(p.storage) ==> SameExceptData(p.storage, r.storage)
  {
    var pass := Trim(input);
    if pass == "" then p.(hint := PasswordRequired)
    else if !IsPasswordSet(p.storage) then
      var store := RecordPassword(p.storage, pass);
      assert DataKey in store <==> DataKey in p.storage;
      assert DataKey in store ==> store[DataKey] == p.storage[DataKey];
      var r := Enter(p.(storage := store), id, now);
      GateKeysSurviveSave(p.storage, store, r.storage, pass);
      r
    else if !HashMatches(p.storage, pass) then p.(hint := IncorrectPassword)
    else Enter(p, id, now)
  }

  /**
    `resetPassword()`: once confirmed, the flag and the digest are removed and
    the gate is shown again; the data key, and so the chats and the API key,
    are untouched. Cancelling changes nothing.
   */
  function ResetPassword(p: Page, confirmed: bool): (r: Page)
    ensures !confirmed ==> r == p
    ensures confirmed ==> r.storage == p.storage - {PasswordSetKey, PasswordHashKey}
    ensures confirmed ==> !IsPasswordSet(r.storage) && r.gateShown
    ensures DataKey in r.storage <==> DataKey in p.storage
    ensures DataKey in p.storage ==> r.storage[DataKey] == p.storage[DataKey]
    ensures r.state == p.state && r.unlocked == p.unlocked && r.hint == p.hint
  {
    if !confirmed then p
    else p.(storage := p.storage - {PasswordSetKey, PasswordHashKey}, gateShown := true)
  }

  /**
    Choose a password on a fresh page, reload, and try again: the second
    attempt opens the gate exactly when its digest equals the first one's,
    and it then shows the same state the first session saved.
   */
  lemma UnlockAfterReload(store: Store, pass: string, id: string, now: int, attempt: string, id': string, now': int)
    requires !IsPasswordSet(store) && Trim(pass) != "" && Trim(attempt) != ""
    requires FreshId(LoadData(store, InitialState()), id)
    requires FreshId(TryUnlock(Startup(store), pass, id, now).state, id')
    ensures var first := TryUnlock(Startup(store), pass, id, now);
      var second := TryUnlock(Startup(first.storage), attempt, id', now');
      && (second.hint == "" <==> HashValue(Trim(attempt)) == HashValue(Trim(pass)))
      && (second.hint == "" ==> second.state == first.state && !second.gateShown)
  {
    var first := TryUnlock(Startup(store), pass, id, now);
    assert InSync(first);
    assert IsPasswordSet(first.storage);
    assert first.storage[PasswordHashKey] == Text(HashString(Trim(pass)));
    assert LoadData(first.storage, InitialState()) == first.state;
    assert IsTruthy(first.state.activeThreadId) && ActiveResolves(first.state);
    HashStringEqualIff(Trim(attempt), Trim(pass));
    DecimalInjective(HashValue(Trim(attempt)), HashValue(Trim(pass)));
  }

  /**
    A confirmed reset followed by choosing any new password keeps the chats,
    the key and the model: the reopened page shows the state it had.
   */
  lemma ResetKeepsData(p: Page, pass: string, id: string, now: int)
    requires InSync(p) && ActiveResolves(p.state) && IsTruthy(p.state.activeThreadId)
    requires Trim(pass) != ""
    requires FreshId(p.state, id)
    ensures var r := TryUnlock(ResetPassword(p, true), pass, id, now);
      && r.hint == "" && !r.gateShown
      && r.state == p.state
      && r.storage[PasswordHashKey] == Text(HashString(Trim(pass)))
  {
    var q := ResetPassword(p, true);
    assert !IsPasswordSet(q.storage);
    assert LoadData(q.storage, q.state) == p.state;
  }
}
