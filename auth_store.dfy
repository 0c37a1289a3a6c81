/** The options-style `auth` store of stores/Auth/useAuthStore.ts: the
    signed-in user, an authenticated flag kept in step with it, and a loading
    flag around the API calls. API outcomes are parameters. */
module AuthStore {
  import opened Common
  import opened Users

  class Auth {
    var user: Option<User>
    var isAuthenticated: bool
    var isLoading: bool

    /** The store's invariant: authenticated exactly when a user is held. */
    ghost predicate Valid()
      reads this`user, this`isAuthenticated
    {
      isAuthenticated <==> user.Some?
    }

    /** The initial state: no user, not authenticated, not loading. */
    constructor()
      ensures Valid()
      ensures user == None && !isAuthenticated && !isLoading
    {
      user := None;
      isAuthenticated := false;
      isLoading := false;
    }

    /** The `isLoggedIn` getter; under the invariant it is "a user is held". */
    function IsLoggedIn(): (loggedIn: bool)
      reads this`user, this`isAuthenticated
      ensures loggedIn ==> user.Some? && isAuthenticated
      ensures Valid() ==> (loggedIn <==> user.Some?)
    {
      isAuthenticated && user.Some?
    }

    /** `setUser(u)`: authenticated exactly when `u` is a user. */
    method SetUser(u: Option<User>)
      modifies this`user, this`isAuthenticated
      ensures Valid()
      ensures user == u && isAuthenticated == u.Some?
      ensures isLoading == old(isLoading)
    {
      user := u;
      isAuthenticated := u.Some?;
    }

    /** `clearUser()` */
    method ClearUser()
      modifies this`user, this`isAuthenticated
      ensures Valid()
      ensures user == None && !isAuthenticated
      ensures isLoading == old(isLoading)
    {
      user := None;
      isAuthenticated := false;
    }

    /** `fetchUser()`: a returned user signs in; no user or an exception signs
        out; loading is off afterwards. */
    method FetchUser(current: ApiCall<Option<User>>)
      modifies this`user, this`isAuthenticated, this`isLoading
      ensures Valid()
      ensures current.Returned? && current.value.Some? ==> user == current.value && isAuthenticated
      ensures !(current.Returned? && current.value.Some?) ==> user == None && !isAuthenticated
      ensures !isLoading
    {
      isLoading := true;
      match current {
        case Returned(Some(u)) =>
          user := Some(u);
          isAuthenticated := true;
        case Returned(None) =>
          user := None;
          isAuthenticated := false;
        case Threw =>
          user := None;
          isAuthenticated := false;
      }
      isLoading := false;
    }

    /** `logout()`: signs out only when the API reports success, and answers
        that report; an exception answers false and keeps the user. */
    method Logout(reply: ApiCall<bool>) returns (success: bool)
      requires Valid()
      modifies this`user, this`isAuthenticated, this`isLoading
      ensures Valid()
      ensures success <==> reply == Returned(true)
      ensures success ==> user == None && !isAuthenticated
      ensures !success ==> user == old(user) && isAuthenticated == old(isAuthenticated)
      ensures !isLoading
    {
      isLoading := true;
      match reply {
        case Returned(ok) =>
          if ok {
            user := None;
            isAuthenticated := false;
          }
          success := ok;
        case Threw =>
          success := false;
      }
      isLoading := false;
    }

    /** `initAuth()`: fetches the user and answers whether that signed in. */
    method InitAuth(current: ApiCall<Option<User>>) returns (authenticated: bool)
      modifies this`user, this`isAuthenticated, this`isLoading
      ensures Valid()
      ensures authenticated == isAuthenticated
      ensures authenticated <==> current.Returned? && current.value.Some?
      ensures !isLoading
    {
      isLoading := true;
      FetchUser(current);
      authenticated := isAuthenticated;
      isLoading := false;
    }
  }

  /** One call of a store action, with the API outcome it meets. */
  datatype Action =
    | SetUserTo(u: Option<User>)
    | Clear
    | Fetch(current: ApiCall<Option<User>>)
    | LogOut(reply: ApiCall<bool>)
    | Init(current: ApiCall<Option<User>>)

  /** From the initial state, any sequence of actions keeps the invariant and
      leaves the loading flag off. */
  method Replay(actions: seq<Action>) returns (store: Auth)
    ensures store.Valid() && !store.isLoading
    ensures store.IsLoggedIn() <==> store.user.Some?
  {
    store := new Auth();
    var i := 0;
    while i < |actions|
      invariant 0 <= i <= |actions|
      invariant store.Valid() && !store.isLoading
    {
      match actions[i] {
        case SetUserTo(u) => store.SetUser(u);
        case Clear => store.ClearUser();
        case Fetch(current) => store.FetchUser(current);
        case LogOut(reply) => var _ := store.Logout(reply);
        case Init(current) => var _ := store.InitAuth(current);
      }
      i := i + 1;
    }
  }
}
