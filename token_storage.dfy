/**
 * The browser-side token cache: a module variable in front of the
 * `localStorage` entry `projetorh:token`. Reading fills the cache from storage
 * when the cache holds nothing usable; writing always replaces the cache and
 * writes or removes the storage entry.
 */
module TokenStorage {
  import opened Wrappers

  const TokenKey: string := "projetorh:token"

  /** A token value that JavaScript treats as present: not null, not empty. */
  predicate Filled(t: Option<string>) {
    t.Some? && t.value != ""
  }

  /** The cache, whether `window.localStorage` exists, and the storage
      entries. */
  datatype Store = Store(cache: Option<string>, hasWindow: bool, storage: map<string, string>)

  /** `localStorage.getItem(key)`: the entry, or null. */
  function GetItem(storage: map<string, string>, key: string): Option<string> {
    if key in storage then Some(storage[key]) else None
  }

  /** What `getStoredToken` returns. */
  function Read(s: Store): (r: Option<string>)
    ensures Filled(s.cache) ==> r == s.cache
    ensures !Filled(s.cache) && !s.hasWindow ==> r == None
    ensures !Filled(s.cache) && s.hasWindow ==> r == GetItem(s.storage, TokenKey)
  {
    if Filled(s.cache) then s.cache
    else if !s.hasWindow then None
    else GetItem(s.storage, TokenKey)
  }

  /** The store after `getStoredToken`: the cache takes what storage held
      when it was consulted. */
  function AfterRead(s: Store): (r: Store)
    ensures r.storage == s.storage && r.hasWindow == s.hasWindow
    ensures Filled(s.cache) || !s.hasWindow ==> r == s
    ensures s.hasWindow && !Filled(s.cache) ==> r.cache == Read(s)
  {
    if Filled(s.cache) || !s.hasWindow then s
    else s.(cache := GetItem(s.storage, TokenKey))
  }

  /** The store after `setStoredToken(token)`. */
  function AfterWrite(s: Store, token: Option<string>): (r: Store)
    ensures r.cache == token && r.hasWindow == s.hasWindow
    ensures !s.hasWindow ==> r.storage == s.storage
    ensures s.hasWindow && Filled(token) ==> r.storage == s.storage[TokenKey := token.value]
    ensures s.hasWindow && !Filled(token) ==> r.storage == s.storage - {TokenKey}
  {
    if !s.hasWindow then s.(cache := token)
    else if Filled(token) then Store(token, true, s.storage[TokenKey := token.value])
    else Store(token, true, s.storage - {TokenKey})
  }

  /** After storing a token, reading gives it back, with or without a window. */
  lemma ReadAfterWrite(s: Store, t: string)
    requires t != ""
    ensures Read(AfterWrite(s, Some(t))) == Some(t)
  {
  }

  /** After storing null or an empty string, reading gives null. */
  lemma ReadAfterClear(s: Store, token: Option<string>)
    requires !Filled(token)
    ensures Read(AfterWrite(s, token)) == None
  {
  }

  /** A cached token is returned whatever storage holds. */
  lemma CachedTokenIgnoresStorage(s: Store, storage: map<string, string>)
    requires Filled(s.cache)
    ensures Read(s) == Read(s.(storage := storage)) == s.cache
  {
  }

  /** Reading twice gives the same token as reading once. */
  lemma ReadIsStable(s: Store)
    ensures Read(AfterRead(s)) == Read(s)
    ensures AfterRead(AfterRead(s)).storage == s.storage
  {
  }

  /** Writing the token touches no other storage entry. */
  lemma WriteKeepsOtherEntries(s: Store, token: Option<string>, key: string)
    requires key != TokenKey
    ensures GetItem(AfterWrite(s, token).storage, key) == GetItem(s.storage, key)
  {
  }

  /** The module state of `tokenStorage.ts` together with the browser's
      storage. */
  class TokenStore {
    var inMemoryToken: Option<string>
    const hasWindow: bool
    var localStorage: map<string, string>

    function State(): Store
      reads this
    {
      Store(inMemoryToken, hasWindow, localStorage)
    }

    /** The module is loaded with an empty cache. */
    constructor (hasWindow: bool, localStorage: map<string, string>)
      ensures State() == Store(None, hasWindow, localStorage)
    {
      this.inMemoryToken := None;
      this.hasWindow := hasWindow;
      this.localStorage := localStorage;
    }

    /** `getStoredToken()`. */
    method GetStoredToken() returns (token: Option<string>)
      modifies this
      ensures token == Read(old(State()))
      ensures State() == AfterRead(old(State()))
    {
      if Filled(inMemoryToken) {
        return inMemoryToken;
      }
      if !hasWindow {
        return None;
      }
      token := GetItem(localStorage, TokenKey);
      inMemoryToken := token;
    }

    /** `setStoredToken(token)`. */
    method SetStoredToken(token: Option<string>)
      modifies this
      ensures State() == AfterWrite(old(State()), token)
    {
      inMemoryToken := token;
      if !hasWindow {
        return;
      }
      if Filled(token) {
        localStorage := localStorage[TokenKey := token.value];
      } else {
        localStorage := localStorage - {TokenKey};
      }
    }
  }
}
