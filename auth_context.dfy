/** The authentication state of the front end: the `authData` value the provider holds and the
    `medwell_auth` entry of `localStorage` it mirrors. */
module AuthContext {
  import opened JsValues

  /** The `medwell_auth` entry: absent, a string `JSON.parse` reads as a value, or a string it
      rejects (the empty string among them). */
  datatype StoredAuth = NoEntry | Parsed(v: Value) | Unparsable

  /** `{ user: null, isAuthenticated: false, token: null }` */
  function LoggedOut(): (r: Value)
    ensures r.Obj? && r.fields.Keys == {"user", "isAuthenticated", "token"}
    ensures Get(r, "user") == Null && Get(r, "isAuthenticated") == Bool(false) && Get(r, "token") == Null
  {
    Obj(map["user" := Null, "isAuthenticated" := Bool(false), "token" := Null])
  }

  /** `{ user, isAuthenticated: true, token }` */
  function SignedIn(user: Value, token: Value): (r: Value)
    ensures r.Obj? && r.fields.Keys == {"user", "isAuthenticated", "token"}
    ensures Get(r, "user") == user && Get(r, "isAuthenticated") == Bool(true) && Get(r, "token") == token
  {
    Obj(map["user" := user, "isAuthenticated" := Bool(true), "token" := token])
  }

  /** `getInitialState`: the parsed entry, or the logged-out state when there is none or it
      does not parse. */
  function InitialState(s: StoredAuth): (r: Value)
    ensures s.Parsed? ==> r == s.v
    ensures !s.Parsed? ==> r == LoggedOut()
  {
    if s.Parsed? then s.v else LoggedOut()
  }

  /** The `current` state `updateUser` starts from: the parsed entry `|| ` the logged-out
      state (`JSON.parse(null)` is `null`). */
  function Current(s: StoredAuth): (r: Value)
    requires !s.Unparsable?
    ensures s.NoEntry? ==> r == LoggedOut()
    ensures s.Parsed? && Truthy(s.v) ==> r == s.v
    ensures s.Parsed? && !Truthy(s.v) ==> r == LoggedOut()
  {
    if s.Parsed? then Or(s.v, LoggedOut()) else LoggedOut()
  }

  /** `{ ...(current.user || {}), ...(partialUser || {}) }` */
  function MergedUser(current: Value, partial: Value): (m: map<string, Value>)
    ensures m.Keys == Spread(Get(current, "user")).Keys + Spread(partial).Keys
    ensures forall k :: k in Spread(partial) ==> m[k] == Spread(partial)[k]
    ensures forall k :: k in Spread(Get(current, "user")) && k !in Spread(partial) ==> m[k] == Spread(Get(current, "user"))[k]
  {
    Spread(Or(Get(current, "user"), Obj(map[]))) + Spread(Or(partial, Obj(map[])))
  }

  /** The new state of `updateUser`: the merged user, with `isAuthenticated` and `token`
      taken from `current`. */
  function Updated(current: Value, partial: Value): (r: Value)
    ensures r.Obj? && r.fields.Keys == {"user", "isAuthenticated", "token"}
    ensures Get(r, "user") == Obj(MergedUser(current, partial))
    ensures Get(r, "isAuthenticated") == Get(current, "isAuthenticated") && Get(r, "token") == Get(current, "token")
  {
    Obj(map["user" := Obj(MergedUser(current, partial)),
            "isAuthenticated" := Get(current, "isAuthenticated"),
            "token" := Get(current, "token")])
  }

  /** An update after a login keeps the session: still authenticated, with the same token,
      and the user's fields are the logged-in ones overridden by the partial ones. */
  lemma {:induction false} UpdateAfterLogin(user: Value, token: Value, partial: Value)
    ensures var r := Updated(Current(Parsed(SignedIn(user, token))), partial);
      && Get(r, "isAuthenticated") == Bool(true) && Get(r, "token") == token
      && Get(r, "user") == Obj(MergedUser(SignedIn(user, token), partial))
  {
    assert Truthy(SignedIn(user, token));
  }

  /** An update while logged out stays logged out, whatever the partial user holds. */
  lemma {:induction false} UpdateWhileLoggedOut(partial: Value)
    ensures var r := Updated(Current(NoEntry), partial);
      && Get(r, "isAuthenticated") == Bool(false) && Get(r, "token") == Null
      && Get(r, "user") == Obj(Spread(partial))
  {
    assert Spread(Get(LoggedOut(), "user")) == map[];
    assert MergedUser(LoggedOut(), partial) == Spread(partial);
  }

  class AuthProvider {
    var authData: Value
    var storage: StoredAuth

    /** A reload would restore the state held: the stored entry reads back as `authData`. */
    predicate Synced()
      reads this
    {
      authData == InitialState(storage)
    }

    /** `useState(getInitialState)` over the entry found in storage. */
    constructor(stored: StoredAuth)
      ensures storage == stored && authData == InitialState(stored)
      ensures Synced()
    {
      storage := stored;
      authData := InitialState(stored);
    }

    /** `login`, given the response of the login request: a truthy `success` stores and
      holds the signed-in state and answers true; otherwise nothing changes. */
    method Login(res: Value) returns (ok: bool)
      modifies this
      ensures ok <==> Truthy(Get(res, "success"))
      ensures ok ==> authData == SignedIn(Get(res, "user"), Get(res, "token")) && storage == Parsed(authData)
      ensures !ok ==> authData == old(authData) && storage == old(storage)
      ensures old(Synced()) ==> Synced()
      ensures ok ==> Synced()
    {
      ok := Truthy(Get(res, "success"));
      if ok {
        var newAuthData := SignedIn(Get(res, "user"), Get(res, "token"));
        storage := Parsed(newAuthData);
        authData := newAuthData;
      }
    }

    /** `updateUser`: merges the partial user into the stored one; an entry that does not
      parse makes it do nothing. */
    method UpdateUser(partial: Value)
      modifies this
      ensures old(storage).Unparsable? ==> authData == old(authData) && storage == old(storage)
      ensures !old(storage).Unparsable? ==>
        && authData == Updated(Current(old(storage)), partial)
        && storage == Parsed(authData)
      ensures old(Synced()) ==> Synced()
    {
      if !storage.Unparsable? {
        var newAuthData := Updated(Current(storage), partial);
        storage := Parsed(newAuthData);
        authData := newAuthData;
      }
    }

    /** `logout`: removes the entry and holds the logged-out state. */
    method Logout()
      modifies this
      ensures authData == LoggedOut() && storage == NoEntry
      ensures Synced()
    {
      storage := NoEntry;
      authData := LoggedOut();
    }
  }
}
