/**
 * The web client's session store: who is signed in, whether someone is, and
 * whether the initial "who am I" request is still loading. The store holds
 * one state value; every update replaces it and is handed to subscribers.
 */
module UserStore {
  import opened Wrappers

  datatype User = User(id: int, name: string, email: string, role: string)

  datatype UserState = UserState(user: Option<User>, isLoggedIn: bool, isLoading: bool)

  /** No one signed in and nothing loading. */
  const InitialState := UserState(None, false, false)

  /** The store's invariant: someone is signed in exactly when a user is held. */
  predicate Consistent(s: UserState) {
    s.isLoggedIn <==> s.user.Some?
  }

  /** The update `setUser` applies: the given user, signed in, loading flag kept. */
  function WithUser(s: UserState, u: User): UserState {
    s.(user := Some(u), isLoggedIn := true)
  }

  /** The update that sets only the loading flag. */
  function WithLoading(s: UserState, loading: bool): UserState {
    s.(isLoading := loading)
  }

  function SelectUser(s: UserState): Option<User> { s.user }
  function SelectIsLoggedIn(s: UserState): bool { s.isLoggedIn }
  function SelectIsLoading(s: UserState): bool { s.isLoading }

  /**
   * What the selectors read after `setUser(u)`: the new user and signed in,
   * with the loading flag as it was; the invariant is kept.
   */
  lemma SetUserSelected(s: UserState, u: User)
    ensures SelectUser(WithUser(s, u)) == Some(u)
    ensures SelectIsLoggedIn(WithUser(s, u))
    ensures SelectIsLoading(WithUser(s, u)) == SelectIsLoading(s)
    ensures Consistent(WithUser(s, u))
  {
  }

  /** What the selectors read after `clearUser`: no user, signed out, not loading; the invariant holds. */
  lemma ClearedSelected()
    ensures SelectUser(InitialState) == None
    ensures !SelectIsLoggedIn(InitialState)
    ensures !SelectIsLoading(InitialState)
    ensures Consistent(InitialState)
  {
  }

  /** What the "who am I" request gave back. */
  datatype FetchResult =
    | Threw                                         // the request or its decoding failed
    | Responded(status: string, data: Option<Option<User>>)  // `data` absent, or present with or without a user

  /** `loadInitialState` installs a user exactly when the response says "success" and carries one. */
  predicate Accepts(r: FetchResult) {
    r.Responded? && r.status == "success" && r.data.Some? && r.data.value.Some?
  }

  class Store {
    var state: UserState
    /** Every state the store has published to its subscribers, oldest first. */
    ghost var published: seq<UserState>

    constructor ()
      ensures state == InitialState && published == []
    {
      state := InitialState;
      published := [];
    }

    /** `setState`: replace the state and publish the new one. */
    method SetState(next: UserState)
      modifies this
      ensures state == next && published == old(published) + [next]
    {
      state := next;
      published := published + [next];
    }

    /** `setUser(u)`. */
    method SetUser(u: User)
      modifies this
      ensures state == WithUser(old(state), u)
      ensures state.user == Some(u) && state.isLoggedIn && state.isLoading == old(state).isLoading
      ensures published == old(published) + [state]
    {
      SetState(WithUser(state, u));
    }

    /** `clearUser`: back to the initial state, the loading flag included. */
    method ClearUser()
      modifies this
      ensures state == InitialState
      ensures published == old(published) + [InitialState]
    {
      SetState(InitialState);
    }

    /**
     * `loadInitialState` with the request's result given as `fetched`: first
     * publish the state with the loading flag set, then install the user if
     * the response is accepted, and finally, whatever happened, publish the
     * state with the loading flag cleared.
     */
    method LoadInitialState(fetched: FetchResult)
      modifies this
      ensures var loading := WithLoading(old(state), true);
        published == old(published)
          + (if Accepts(fetched) then [loading, WithUser(loading, fetched.data.value.value)] else [loading])
          + [state]
      ensures !state.isLoading
      ensures Accepts(fetched) ==> state.user == fetched.data.value && state.isLoggedIn
      ensures !Accepts(fetched) ==> state.user == old(state).user && state.isLoggedIn == old(state).isLoggedIn
      ensures Consistent(old(state)) ==> Consistent(state)
    {
      SetState(WithLoading(state, true));
      if Accepts(fetched) {
        SetUser(fetched.data.value.value);
      }
      SetState(WithLoading(state, false));
    }
  }
}
