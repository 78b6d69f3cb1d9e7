/**
  `localStorage` as a map from key to stored entry. The three keys the
  page uses are the password flag, the password digest and the data blob.
  JSON is abstracted: saving the state stores the state value itself, and
  any stored text under the data key stands for a value `JSON.parse`
  rejects or that is empty, both of which `loadData` ignores.
 */
module Storage {
  import opened Threads

  datatype Entry = Text(text: string) | Saved(state: State)

  type Store = map<string, Entry>

  const PasswordSetKey: string := "chatapp.password.set"
  const PasswordHashKey: string := "chatapp.password.hash"
  const DataKey: string := "chatapp.data"

  /** `loadData()`: a saved state replaces the current one wholesale; anything else is ignored. */
  function LoadData(store: Store, current: State): (r: State)
    ensures DataKey in store && store[DataKey].Saved? ==> r == store[DataKey].state
    ensures DataKey !in store || store[DataKey].Text? ==> r == current
  {
    if DataKey !in store then current
    else
      match store[DataKey]
      case Text(_) => current
      case Saved(st) => st
  }

  /** `b` agrees with `a` on every key except the data key. */
  predicate SameExceptData(a: Store, b: Store) {
    a - {DataKey} == b - {DataKey}
  }

  /** `saveData()`: overwrite the data key with the state, leave every other key alone. */
  function SaveData(store: Store, st: State): (r: Store)
    ensures DataKey in r && r[DataKey] == Saved(st)
    ensures SameExceptData(store, r)
  {
    store[DataKey := Saved(st)]
  }

  /** Saving and then loading, from any in-memory state, gives back what was saved. */
  lemma SaveThenLoad(store: Store, st: State, current: State)
    ensures LoadData(SaveData(store, st), current) == st
  {
  }

  /** `localStorage.getItem(PASSWORD_SET) === '1'`. */
  predicate IsPasswordSet(store: Store) {
    PasswordSetKey in store && store[PasswordSetKey] == Text("1")
  }
}
