/** The credential store (`auth` slice): one field, `userInfo`, mirrored into
    the browser's `localStorage` under the key "userInfo". `null` is `JNull`. */
module AuthSlice {
  import opened Json

  const StorageKey := "userInfo"

  /** `localStorage`: keys to stored JSON text. */
  type Storage = map<string, JsonText>

  /** The initial `userInfo`: the parsed "userInfo" entry when there is one,
      else `null`. */
  function InitialUserInfo(storage: Storage): (u: Json)
    ensures StorageKey !in storage ==> u == JNull
    ensures StorageKey in storage ==> Stringify(u) == storage[StorageKey]
  {
    if StorageKey in storage then Parse(storage[StorageKey]) else JNull
  }

  /** Writing `p` and reading it back at the next start-up gives `p`. */
  lemma ReloadAfterSet(storage: Storage, p: Json)
    ensures InitialUserInfo(storage[StorageKey := Stringify(p)]) == p
  {
    ParseStringify(p);
  }

  /** Removing the entry makes the next start-up signed out. */
  lemma ReloadAfterClear(storage: Storage)
    ensures InitialUserInfo(storage - {StorageKey}) == JNull
  {
  }

  class Store {
    var userInfo: Json
    var storage: Storage

    /** The state agrees with what a reload from storage would produce. */
    ghost predicate Synced()
      reads this
    {
      userInfo == InitialUserInfo(storage)
    }

    /** Start-up: the slice's initial state read from storage. */
    constructor (storage: Storage)
      ensures this.storage == storage && userInfo == InitialUserInfo(storage)
      ensures Synced()
    {
      this.storage := storage;
      userInfo := InitialUserInfo(storage);
    }

    /** `setCredentials(p)`: `userInfo := p` and the serialised `p` is stored. */
    method SetCredentials(p: Json)
      modifies this
      ensures userInfo == p
      ensures storage == old(storage)[StorageKey := Stringify(p)]
      ensures Synced()
    {
      userInfo := p;
      storage := storage[StorageKey := Stringify(p)];
      ReloadAfterSet(old(storage), p);
    }

    /** `clearCredentials()`: `userInfo := null` and the entry is removed. */
    method ClearCredentials()
      modifies this
      ensures userInfo == JNull
      ensures storage == old(storage) - {StorageKey}
      ensures Synced()
    {
      userInfo := JNull;
      storage := storage - {StorageKey};
    }
  }

  /** While the store is in sync with storage, a reload starts in the very
      state the store is in. */
  method Reload(s: Store) returns (reloaded: Store)
    requires s.Synced()
    ensures reloaded.userInfo == s.userInfo && reloaded.storage == s.storage
  {
    reloaded := new Store(s.storage);
  }

  /** Clearing twice is clearing once. */
  method ClearTwice(s: Store)
    modifies s
    ensures s.userInfo == JNull && s.storage == old(s.storage) - {StorageKey}
  {
    s.ClearCredentials();
    s.ClearCredentials();
  }

  /** Of two `setCredentials` the last one wins, in the state and in storage. */
  method SetTwice(s: Store, p: Json, q: Json)
    modifies s
    ensures s.userInfo == q && s.storage == old(s.storage)[StorageKey := Stringify(q)]
  {
    s.SetCredentials(p);
    s.SetCredentials(q);
  }

  /** A reload after `setCredentials(p)` starts with `p`; after
      `clearCredentials()` it starts signed out. */
  method SetClearReload(s: Store, p: Json) returns (afterSet: Json, afterClear: Json)
    modifies s
    ensures afterSet == p && afterClear == JNull
  {
    s.SetCredentials(p);
    var reloaded := Reload(s);
    afterSet := reloaded.userInfo;
    s.ClearCredentials();
    reloaded := Reload(s);
    afterClear := reloaded.userInfo;
  }
}
