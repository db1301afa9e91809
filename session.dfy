/**
 * The process-wide session store: a reducer over `{userLogin, services}` and the
 * hydration step that replays the persisted session once at start-up.
 */
module SessionStore {
  import opened Wrappers
  import opened Accounts

  /** The reducer's state; `S` is the element type of `services`, which nothing here inspects. */
  datatype State<S> = State(userLogin: Option<Account>, services: seq<S>)

  /** A dispatched action: its `type` string and its optional `value` payload. */
  datatype Action = Action(kind: string, value: Option<Account>)

  const UserLoginKind: string := "USER_LOGIN"
  const LogoutKind: string := "LOGOUT"
  const ActionNotFound: string := "Action not found"

  function UserLogin(record: Account): (a: Action) {
    Action(UserLoginKind, Some(record))
  }

  function Logout(): (a: Action) {
    Action(LogoutKind, None)
  }

  /** The state the provider starts with: nobody logged in, no services. */
  function InitialState<S>(): (s: State<S>)
    ensures s.userLogin == None && s.services == []
  {
    State(None, [])
  }

  /**
   * The reducer. `USER_LOGIN` replaces `userLogin` by the payload, `LOGOUT` clears
   * it, both keep `services`; every other action type yields an error value
   * instead of a state.
   */
  function Reduce<S>(state: State<S>, action: Action): (r: Result<State<S>, string>)
    ensures r.Success? <==> action.kind == UserLoginKind || action.kind == LogoutKind
    ensures r.Failure? ==> r.error == ActionNotFound
    ensures r.Success? ==> r.value.services == state.services
    ensures action.kind == UserLoginKind ==> r.Success? && r.value.userLogin == action.value
    ensures action.kind == LogoutKind ==> r.Success? && r.value.userLogin == None
  {
    if action.kind == UserLoginKind then Success(state.(userLogin := action.value))
    else if action.kind == LogoutKind then Success(state.(userLogin := None))
    else Failure(ActionNotFound)
  }

  /** Logging out twice is the same as logging out once. */
  lemma LogoutIdempotent<S>(state: State<S>)
    ensures Reduce(Reduce(state, Logout()).value, Logout()) == Reduce(state, Logout())
  {
  }

  /** A later `USER_LOGIN` replaces the session of an earlier one. */
  lemma UserLoginOverrides<S>(state: State<S>, first: Account, second: Account)
    ensures Reduce(Reduce(state, UserLogin(first)).value, UserLogin(second)) == Reduce(state, UserLogin(second))
  {
  }

  /** A `LOGOUT` after a `USER_LOGIN` leaves the same state as the `LOGOUT` alone. */
  lemma UserLoginThenLogout<S>(state: State<S>, record: Account)
    ensures Reduce(Reduce(state, UserLogin(record)).value, Logout()) == Reduce(state, Logout())
  {
  }

  /**
   * The hydration step run once when the provider mounts: if the persisted
   * slot holds a session, it is dispatched as `USER_LOGIN`.
   */
  function Hydrate<S>(state: State<S>, stored: Option<Account>): (r: State<S>)
    ensures r.services == state.services
    ensures stored.Some? ==> r.userLogin == stored
    ensures stored.None? ==> r == state
  {
    match stored
    case Some(record) =>
      var next := Reduce(state, UserLogin(record));
      next.value
    case None => state
  }

  /**
   * Restarting from the persisted mirror: the freshly mounted store holds exactly
   * the session last written to storage, or nobody when storage was cleared.
   */
  lemma RestartRestoresMirror<S>(stored: Option<Account>)
    ensures Hydrate(InitialState<S>(), stored).userLogin == stored
    ensures Hydrate(InitialState<S>(), stored).services == []
  {
  }
}
