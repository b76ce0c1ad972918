/** The user context of the "context module functions" exercise: a reducer that
    updates a user record optimistically and rolls it back when the remote write
    fails, the provider that holds the reducer's state, and the `updateUser`
    helper that drives one update cycle. */
module UserContext {
  import opened Wrappers

  /** A user record: field name (`username`, `tagline`, `bio`, ...) to value. */
  type User = map<string, string>

  /** Whatever a failed write throws; the reducer stores it verbatim. */
  type ErrorValue = string

  /** The `status` values; `None` in a state stands for `null` (idle). */
  datatype Status = Pending | Resolved | Rejected

  /** The reducer's state record. `user` may be `null` too: FAIL_UPDATE copies
      `storedUser` into it, and `storedUser` is `null` after FINNISH_UPDATE. */
  datatype UserState = UserState(
    user: Option<User>,
    storedUser: Option<User>,
    status: Option<Status>,
    error: Option<ErrorValue>)

  /** The dispatched actions. `OtherAction` is an action whose `type` is none of
      START_UPDATE, FINNISH_UPDATE, FAIL_UPDATE and RESET; an `OtherAction`
      whose tag is one of those four names is outside this encoding (such an
      action is written with its own case). */
  datatype UserAction =
    | StartUpdate(updates: User)
    | FinishUpdate(updatedUser: User)
    | FailUpdate(error: ErrorValue)
    | Reset
    | OtherAction(actionType: string)

  /** The state the provider starts from: idle, no error, and the signed-in
      user both as `user` and as `storedUser`. */
  function InitialState(user: Option<User>): (s: UserState)
    ensures s.user == user && s.storedUser == user
    ensures s.status.None? && s.error.None?
  {
    UserState(user, user, None, None)
  }

  /** `{...base, ...updates}`: keys of `updates` win, every other key of `base`
      keeps its value, and spreading `null` contributes no keys. */
  function Spread(base: Option<User>, updates: User): (r: User)
    ensures base.None? ==> r.Keys == updates.Keys
    ensures base.Some? ==> r.Keys == base.value.Keys + updates.Keys
    ensures forall k :: k in updates ==> r[k] == updates[k]
    ensures base.Some? ==> forall k :: k in base.value && k !in updates ==> r[k] == base.value[k]
  {
    match base
    case None => updates
    case Some(b) => b + updates
  }

  /** `userReducer`: the next state for an action, or the error it throws. Only
      an action of unknown type throws; in particular a START_UPDATE is accepted
      while another update is pending. */
  function UserReducer(s: UserState, a: UserAction): (r: Result<UserState, ErrorValue>)
    ensures r.Err? <==> a.OtherAction?
    ensures r.Err? ==> r.error == "Unhandled action type: " + a.actionType
  {
    match a
    case StartUpdate(updates) =>
      Ok(s.(user := Some(Spread(s.user, updates)), status := Some(Pending), storedUser := s.user))
    case FinishUpdate(updatedUser) =>
      Ok(s.(user := Some(updatedUser), status := Some(Resolved), storedUser := None, error := None))
    case FailUpdate(error) =>
      Ok(s.(status := Some(Rejected), error := Some(error), user := s.storedUser, storedUser := None))
    case Reset =>
      Ok(s.(status := None, error := None))
    case OtherAction(t) =>
      Err("Unhandled action type: " + t)
  }

  lemma StartUpdateEffect(s: UserState, updates: User)
    ensures UserReducer(s, StartUpdate(updates)).Ok?
    ensures var t := UserReducer(s, StartUpdate(updates)).value;
      && t.user.Some?
      && (forall k :: k in updates ==> k in t.user.value && t.user.value[k] == updates[k])
      && (s.user.Some? ==> forall k :: k in s.user.value && k !in updates ==>
            k in t.user.value && t.user.value[k] == s.user.value[k])
      && (forall k :: k in t.user.value ==> k in updates || (s.user.Some? && k in s.user.value))
      && t.status == Some(Pending)
      && t.storedUser == s.user
      && t.error == s.error
  {
  }

  lemma FinishUpdateEffect(s: UserState, updatedUser: User)
    ensures UserReducer(s, FinishUpdate(updatedUser))
      == Ok(UserState(Some(updatedUser), None, Some(Resolved), None))
  {
  }

  lemma FailUpdateEffect(s: UserState, e: ErrorValue)
    ensures UserReducer(s, FailUpdate(e)) == Ok(UserState(s.storedUser, None, Some(Rejected), Some(e)))
  {
  }

  lemma ResetEffect(s: UserState)
    ensures UserReducer(s, Reset).Ok?
    ensures var t := UserReducer(s, Reset).value;
      t.user == s.user && t.storedUser == s.storedUser && t.status.None? && t.error.None?
  {
  }

  /** The optimistic update is undone exactly by a failure that follows it. */
  lemma StartThenFailRestoresUser(s: UserState, updates: User, e: ErrorValue)
    ensures Run(s, [StartUpdate(updates), FailUpdate(e)])
      == Ok(UserState(s.user, None, Some(Rejected), Some(e)))
  {
    var s1 := UserReducer(s, StartUpdate(updates)).value;
    assert Run(s, [StartUpdate(updates), FailUpdate(e)]) == Run(s1, [FailUpdate(e)]);
    assert Run(s1, [FailUpdate(e)]) == Run(UserReducer(s1, FailUpdate(e)).value, []);
  }

  /** A success replaces the user by the server's answer, whatever the updates were. */
  lemma StartThenFinishTakesServerUser(s: UserState, updates: User, updatedUser: User)
    ensures Run(s, [StartUpdate(updates), FinishUpdate(updatedUser)])
      == Ok(UserState(Some(updatedUser), None, Some(Resolved), None))
  {
    var s1 := UserReducer(s, StartUpdate(updates)).value;
    assert Run(s, [StartUpdate(updates), FinishUpdate(updatedUser)]) == Run(s1, [FinishUpdate(updatedUser)]);
    assert Run(s1, [FinishUpdate(updatedUser)]) == Run(UserReducer(s1, FinishUpdate(updatedUser)).value, []);
  }

  /** There is no pending guard: a second START before the first resolves
      snapshots the optimistic user, so a failure then rolls back only to it. */
  lemma SecondStartOverwritesSnapshot(s: UserState, u1: User, u2: User, e: ErrorValue)
    ensures Run(s, [StartUpdate(u1), StartUpdate(u2), FailUpdate(e)]).Ok?
    ensures Run(s, [StartUpdate(u1), StartUpdate(u2), FailUpdate(e)]).value.user == Some(Spread(s.user, u1))
  {
    var s1 := UserReducer(s, StartUpdate(u1)).value;
    var s2 := UserReducer(s1, StartUpdate(u2)).value;
    assert Run(s, [StartUpdate(u1), StartUpdate(u2), FailUpdate(e)]) == Run(s1, [StartUpdate(u2), FailUpdate(e)]);
    assert Run(s1, [StartUpdate(u2), FailUpdate(e)]) == Run(s2, [FailUpdate(e)]);
    assert Run(s2, [FailUpdate(e)]) == Run(UserReducer(s2, FailUpdate(e)).value, []);
  }

  /** A FAIL_UPDATE with no snapshot (for one, right after a success) leaves
      the user `null`. */
  lemma FailWithoutSnapshotLosesUser(s: UserState, updatedUser: User, e: ErrorValue)
    ensures Run(s, [FinishUpdate(updatedUser), FailUpdate(e)]).Ok?
    ensures Run(s, [FinishUpdate(updatedUser), FailUpdate(e)]).value.user.None?
  {
    var s1 := UserReducer(s, FinishUpdate(updatedUser)).value;
    assert Run(s, [FinishUpdate(updatedUser), FailUpdate(e)]) == Run(s1, [FailUpdate(e)]);
    assert Run(s1, [FailUpdate(e)]) == Run(UserReducer(s1, FailUpdate(e)).value, []);
  }

  /** The reducer applied to a sequence of actions, stopping at the first throw. */
  function Run(s: UserState, acts: seq<UserAction>): Result<UserState, ErrorValue>
    decreases |acts|
  {
    if acts == [] then Ok(s)
    else match UserReducer(s, acts[0])
      case Err(e) => Err(e)
      case Ok(s') => Run(s', acts[1..])
  }

  lemma {:induction false} RunAppend(s: UserState, acts: seq<UserAction>, a: UserAction)
    requires Run(s, acts).Ok?
    ensures Run(s, acts + [a]) == UserReducer(Run(s, acts).value, a)
    decreases |acts|
  {
    if acts == [] {
      assert acts + [a] == [a];
    } else {
      assert (acts + [a])[1..] == acts[1..] + [a];
      RunAppend(UserReducer(s, acts[0]).value, acts[1..], a);
    }
  }

  /** What the status says about the other fields: while idle there is no
      error; after a success nothing is stored and there is no error; after a
      failure nothing is stored and the error is there. Only PENDING leaves the
      error unconstrained, as START keeps the old one; and the initial state
      stores the user while idle, so the snapshot is unconstrained when idle. */
  ghost predicate StatusConsistent(s: UserState)
  {
    && (s.status.None? ==> s.error.None?)
    && (s.status == Some(Resolved) ==> s.storedUser.None? && s.error.None? && s.user.Some?)
    && (s.status == Some(Rejected) ==> s.storedUser.None? && s.error.Some?)
  }

  lemma ReducerKeepsStatusConsistent(s: UserState, a: UserAction)
    requires StatusConsistent(s)
    requires UserReducer(s, a).Ok?
    ensures StatusConsistent(UserReducer(s, a).value)
  {
  }

  lemma {:induction false} RunKeepsStatusConsistent(s: UserState, acts: seq<UserAction>)
    requires StatusConsistent(s)
    requires Run(s, acts).Ok?
    ensures StatusConsistent(Run(s, acts).value)
    decreases |acts|
  {
    if acts != [] {
      ReducerKeepsStatusConsistent(s, acts[0]);
      RunKeepsStatusConsistent(UserReducer(s, acts[0]).value, acts[1..]);
    }
  }

  /** The state after one `updateUser` cycle: START, then FINISH with the
      server's user when the write succeeds, FAIL with its error otherwise. */
  function UpdateCycle(s: UserState, updates: User, outcome: Result<User, ErrorValue>): (t: UserState)
    ensures t.storedUser.None?
    ensures outcome.Ok? ==> t.user == Some(outcome.value) && t.status == Some(Resolved) && t.error.None?
    ensures outcome.Err? ==> t.user == s.user && t.status == Some(Rejected) && t.error == Some(outcome.error)
  {
    var started := UserReducer(s, StartUpdate(updates)).value;
    UserReducer(started, CycleEnd(outcome)).value
  }

  /** The action `updateUser` dispatches once the write settles. */
  function CycleEnd(outcome: Result<User, ErrorValue>): UserAction
  {
    match outcome
    case Ok(u) => FinishUpdate(u)
    case Err(e) => FailUpdate(e)
  }

  /** `UserProvider`: holds the reducer state; `dispatched` records, for the
      proofs, every action the reducer accepted since creation. */
  class UserProvider {
    var state: UserState
    ghost const initial: UserState
    ghost var dispatched: seq<UserAction>

    ghost predicate Valid()
      reads this
    {
      && StatusConsistent(initial)
      && Run(initial, dispatched) == Ok(state)
      && StatusConsistent(state)
    }

    constructor(user: Option<User>)
      ensures Valid()
      ensures state == InitialState(user) && initial == state && dispatched == []
    {
      state := InitialState(user);
      initial := InitialState(user);
      dispatched := [];
    }

    /** `dispatch`: an action of unknown type throws and changes nothing;
        any other action replaces the state by the reducer's result. */
    method Dispatch(a: UserAction) returns (thrown: Option<ErrorValue>)
      requires Valid()
      modifies this
      ensures Valid()
      ensures thrown.Some? <==> a.OtherAction?
      ensures thrown.Some? ==> thrown.value == UserReducer(old(state), a).error
      ensures thrown.None? ==> state == UserReducer(old(state), a).value && dispatched == old(dispatched) + [a]
      ensures thrown.Some? ==> state == old(state) && dispatched == old(dispatched)
    {
      match UserReducer(state, a)
      case Ok(next) =>
        RunAppend(initial, dispatched, a);
        ReducerKeepsStatusConsistent(state, a);
        state := next;
        dispatched := dispatched + [a];
        thrown := None;
      case Err(e) =>
        thrown := Some(e);
    }
  }

  /** `updateUser`: dispatch START, await the write, then dispatch FINISH and
      return the server's user, or dispatch FAIL and rethrow the same error.
      `outcome` stands for what `userClient.updatedUser(user, updates)` resolves
      or rejects with. */
  method UpdateUser(p: UserProvider, updates: User, outcome: Result<User, ErrorValue>)
    returns (r: Result<User, ErrorValue>)
    requires p.Valid()
    modifies p
    ensures p.Valid()
    ensures r == outcome
    ensures p.dispatched == old(p.dispatched) + [StartUpdate(updates), CycleEnd(outcome)]
    ensures p.state == UpdateCycle(old(p.state), updates, outcome)
  {
    ghost var before := p.state;
    var _ := p.Dispatch(StartUpdate(updates));
    match outcome
    case Ok(updatedUser) =>
      var _ := p.Dispatch(FinishUpdate(updatedUser));
      r := Ok(updatedUser);
    case Err(error) =>
      var _ := p.Dispatch(FailUpdate(error));
      r := Err(error);
  }
}
