/** The setup-style `auth` store of stores/Auth/auth.ts: a user ref and an
    authenticated flag, set together by two actions. */
module AuthRefs {
  import opened Common
  import opened Users

  class AuthRefStore {
    var user: Option<User>
    var isAuthenticated: bool

    /** Authenticated exactly when a user is held. */
    ghost predicate Valid()
      reads this`user, this`isAuthenticated
    {
      isAuthenticated <==> user.Some?
    }

    /** The initial state: no user, not authenticated. */
    constructor()
      ensures Valid()
      ensures user == None && !isAuthenticated
    {
      user := None;
      isAuthenticated := false;
    }

    /** `setUser(newUser)`: the argument is a user by its type. */
    method SetUser(newUser: User)
      modifies this`user, this`isAuthenticated
      ensures Valid()
      ensures user == Some(newUser) && isAuthenticated
    {
      user := Some(newUser);
      isAuthenticated := true;
    }

    /** `clearUser()` */
    method ClearUser()
      modifies this`user, this`isAuthenticated
      ensures Valid()
      ensures user == None && !isAuthenticated
    {
      user := None;
      isAuthenticated := false;
    }
  }

  /** From the initial state, any sequence of calls (`Some(u)` for
      `setUser(u)`, `None` for `clearUser()`) keeps the invariant, and the
      store ends holding the user of the last call. */
  method Replay(calls: seq<Option<User>>) returns (store: AuthRefStore)
    ensures store.Valid()
    ensures store.user == if calls == [] then None else calls[|calls| - 1]
  {
    store := new AuthRefStore();
    var i := 0;
    while i < |calls|
      invariant 0 <= i <= |calls|
      invariant store.Valid()
      invariant store.user == if i == 0 then None else calls[i - 1]
    {
      match calls[i] {
        case Some(u) => store.SetUser(u);
        case None => store.ClearUser();
      }
      i := i + 1;
    }
  }
}
