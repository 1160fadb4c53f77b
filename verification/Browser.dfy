/**
 * The browser's `localStorage`, held as a plain map from key to value, and
 * the session that the pages keep in it under the keys `token` and `user`.
 */
module Browser {
  import opened Common

  type Storage = map<string, string>

  const TokenKey: string := "token"
  const UserKey: string := "user"

  /** `localStorage.getItem(key)`: the stored value, or null. */
  function GetItem(store: Storage, key: string): Option<string> {
    if key in store then Some(store[key]) else None
  }

  /** `if (!token)` fails exactly when the token is missing or the empty string. */
  predicate HasToken(store: Storage): (r: bool)
    ensures r <==> TokenKey in store && store[TokenKey] != ""
  {
    GetItem(store, TokenKey).Some? && GetItem(store, TokenKey).value != ""
  }

  /**
   * `localStorage.setItem('token', token); localStorage.setItem('user', userName)`,
   * done by both auth forms after a successful response.
   */
  function SaveSession(store: Storage, token: string, userName: string): (r: Storage)
    ensures GetItem(r, TokenKey) == Some(token) && GetItem(r, UserKey) == Some(userName)
    ensures forall key :: key != TokenKey && key != UserKey ==> GetItem(r, key) == GetItem(store, key)
    ensures HasToken(r) <==> token != ""
  {
    store[TokenKey := token][UserKey := userName]
  }

  /** `localStorage.removeItem('token'); localStorage.removeItem('user')` on logout. */
  function ClearSession(store: Storage): (r: Storage)
    ensures GetItem(r, TokenKey).None? && GetItem(r, UserKey).None? && !HasToken(r)
    ensures forall key :: key != TokenKey && key != UserKey ==> GetItem(r, key) == GetItem(store, key)
    ensures r.Keys == store.Keys - {TokenKey, UserKey}
  {
    store - {TokenKey, UserKey}
  }

  /** Logging out after a login leaves storage as logging out before it would have. */
  lemma ClearUndoesSave(store: Storage, token: string, userName: string)
    ensures ClearSession(SaveSession(store, token, userName)) == ClearSession(store)
  {
    var after := ClearSession(SaveSession(store, token, userName));
    var before := ClearSession(store);
    forall key | key in after.Keys
      ensures key in before.Keys && after[key] == before[key]
    {
      assert GetItem(after, key) == GetItem(before, key);
    }
    forall key | key in before.Keys
      ensures key in after.Keys
    {
      assert GetItem(after, key) == GetItem(before, key);
    }
  }
}
