/** The "control props" exercise: a toggle reducer, the `useToggle` hook that
    either owns its state or defers to a controlling parent, the advisory
    warnings about switching control mode, `callAll`, and the parent `App` that
    controls two toggles with a click limit. */
module ControlProps {
  import opened Wrappers

  /** The reducer state `{on}`. */
  datatype ToggleState = ToggleState(on: bool)

  /** The dispatched actions. `Reset` carries the `initialState` it restores;
      `Unsupported` is an action whose `type` is neither `toggle` nor `reset`;
      an `Unsupported` whose tag is `toggle` or `reset` is outside this encoding
      (such an action is written with its own case). */
  datatype ToggleAction =
    | Toggle
    | Reset(initialState: ToggleState)
    | Unsupported(actionType: string)

  /** A reducer with the same shape as `toggleReducer`; a throw is an `Err`. */
  type Reducer = (ToggleState, ToggleAction) -> Result<ToggleState, string>

  /** What `onChange` is called with: the next state and the action. */
  datatype Change = Change(next: ToggleState, action: ToggleAction)

  /** `toggleReducer`: a toggle flips `on`, a reset returns the state carried by
      the action whatever the current state, anything else throws. */
  function ToggleReducer(s: ToggleState, a: ToggleAction): (r: Result<ToggleState, string>)
    ensures r.Err? <==> a.Unsupported?
    ensures r.Err? ==> r.error == "Unsupported type: " + a.actionType
    ensures a.Toggle? ==> r.Ok? && r.value.on != s.on
    ensures a.Reset? ==> r.Ok? && r.value == a.initialState
  {
    match a
    case Toggle => Ok(ToggleState(!s.on))
    case Reset(initialState) => Ok(initialState)
    case Unsupported(t) => Err("Unsupported type: " + t)
  }

  /** The reducer applied to a sequence of actions, stopping at the first throw. */
  function RunToggle(s: ToggleState, acts: seq<ToggleAction>): Result<ToggleState, string>
    decreases |acts|
  {
    if acts == [] then Ok(s)
    else match ToggleReducer(s, acts[0])
      case Err(e) => Err(e)
      case Ok(s') => RunToggle(s', acts[1..])
  }

  /** `n` toggle actions in a row. */
  function Toggles(n: nat): (acts: seq<ToggleAction>)
    ensures |acts| == n
    ensures forall i :: 0 <= i < n ==> acts[i] == Toggle
  {
    if n == 0 then [] else [Toggle] + Toggles(n - 1)
  }

  /** An even number of toggles brings `on` back to where it started. */
  lemma {:induction false} EvenTogglesRestore(s: ToggleState, n: nat)
    ensures RunToggle(s, Toggles(2 * n)) == Ok(s)
  {
    if n > 0 {
      var flipped := ToggleState(!s.on);
      assert Toggles(2 * n)[1..] == Toggles(2 * n - 1);
      assert RunToggle(s, Toggles(2 * n)) == RunToggle(flipped, Toggles(2 * n - 1));
      assert Toggles(2 * n - 1)[1..] == Toggles(2 * (n - 1));
      assert RunToggle(flipped, Toggles(2 * n - 1)) == RunToggle(s, Toggles(2 * (n - 1)));
      EvenTogglesRestore(s, n - 1);
    }
  }

  /** An odd number of toggles leaves `on` flipped. */
  lemma {:induction false} OddTogglesFlip(s: ToggleState, n: nat)
    ensures RunToggle(s, Toggles(2 * n + 1)) == Ok(ToggleState(!s.on))
  {
    var flipped := ToggleState(!s.on);
    assert Toggles(2 * n + 1)[1..] == Toggles(2 * n);
    assert RunToggle(s, Toggles(2 * n + 1)) == RunToggle(flipped, Toggles(2 * n));
    EvenTogglesRestore(flipped, n);
  }

  /** A reset after any run of supported actions yields the state it carries. */
  lemma {:induction false} ResetAfterAnyRun(s: ToggleState, acts: seq<ToggleAction>, initial: ToggleState)
    requires RunToggle(s, acts).Ok?
    ensures RunToggle(s, acts + [Reset(initial)]) == Ok(initial)
    decreases |acts|
  {
    if acts == [] {
      assert acts + [Reset(initial)] == [Reset(initial)];
      assert RunToggle(s, [Reset(initial)]) == RunToggle(initial, []);
    } else {
      assert (acts + [Reset(initial)])[1..] == acts[1..] + [Reset(initial)];
      ResetAfterAnyRun(ToggleReducer(s, acts[0]).value, acts[1..], initial);
    }
  }

  /** The advisory warnings of `useControlledSwitchWarning`. */
  datatype Warning = ControlledToUncontrolled | UncontrolledToControlled | ReadOnlyField

  /** The warnings due for the current `controlPropValue`, given the control
      mode seen at the first render and whether an `onChange` is given. A value
      is controlled when it is neither `null` nor `undefined` (both are `None`). */
  function ControlWarnings(controlPropValue: Option<bool>, wasControlled: bool, hasOnChange: bool): (ws: set<Warning>)
    ensures (ControlledToUncontrolled in ws || UncontrolledToControlled in ws)
      <==> controlPropValue.Some? != wasControlled
    ensures ControlledToUncontrolled in ws ==> wasControlled
    ensures UncontrolledToControlled in ws ==> !wasControlled
    ensures ReadOnlyField in ws <==> controlPropValue.Some? && !hasOnChange
  {
    var isControlled := controlPropValue.Some?;
    (if !isControlled && wasControlled then {ControlledToUncontrolled} else {})
    + (if isControlled && !wasControlled then {UncontrolledToControlled} else {})
    + (if isControlled && !hasOnChange then {ReadOnlyField} else {})
  }

  /** The handlers `callAll(...fns)(...args)` invokes: the given ones, in order. */
  function Present<F>(fns: seq<Option<F>>): seq<F>
    decreases |fns|
  {
    if fns == [] then []
    else Present(fns[..|fns| - 1]) + (match fns[|fns| - 1] case Some(f) => [f] case None => [])
  }

  /** Every given handler is invoked, no absent one is, and there are exactly
      as many calls as given handlers, so each is invoked once. */
  lemma {:induction false} PresentExactly<F>(fns: seq<Option<F>>)
    ensures forall f :: f in Present(fns) <==> Some(f) in fns
    ensures |Present(fns)| == |set i | 0 <= i < |fns| && fns[i].Some?|
    decreases |fns|
  {
    if fns != [] {
      var last := |fns| - 1;
      var init := fns[..last];
      PresentExactly(init);
      assert fns == init + [fns[last]];
      var given := set i | 0 <= i < |fns| && fns[i].Some?;
      var givenInit := set i | 0 <= i < |init| && init[i].Some?;
      assert last !in givenInit;
      if fns[last].Some? {
        assert given == givenInit + {last};
      } else {
        assert given == givenInit;
      }
    }
  }

  /** `callAll`: walks the handlers with `forEach`, skipping absent ones;
      `called` is the sequence of invocations, each with the same arguments. */
  method CallAll<F>(fns: seq<Option<F>>) returns (called: seq<F>)
    ensures called == Present(fns)
  {
    called := [];
    for i := 0 to |fns|
      invariant called == Present(fns[..i])
    {
      assert fns[..i + 1][..i] == fns[..i];
      match fns[i]
      case Some(fn) => called := called + [fn];
      case None =>
    }
    assert fns[..|fns|] == fns;
  }

  /** `useToggle`: the reducer state, the `initialState` captured once, the
      control mode seen at the first render, and the reducer in use. */
  class ToggleHook {
    var state: ToggleState
    const initialState: ToggleState
    /** The control mode at the first render; it is read only as the
        `wasControlled` argument of `ControlWarnings`. */
    const wasControlled: bool
    const reducer: Reducer

    /** The hook uses the default `toggleReducer`. */
    ghost predicate UsesToggleReducer()
    {
      forall s, a :: reducer(s, a) == ToggleReducer(s, a)
    }

    /** First render with the default reducer; `initialOn` defaults to `false`. */
    constructor(controlledOn: Option<bool>, initialOn: bool := false)
      ensures initialState == ToggleState(initialOn) && state == initialState
      ensures wasControlled == controlledOn.Some?
      ensures UsesToggleReducer()
    {
      initialState := ToggleState(initialOn);
      state := ToggleState(initialOn);
      wasControlled := controlledOn.Some?;
      reducer := ToggleReducer;
    }

    /** First render with a caller-supplied reducer. */
    constructor WithReducer(controlledOn: Option<bool>, initialOn: bool, reducer: Reducer)
      ensures initialState == ToggleState(initialOn) && state == initialState
      ensures wasControlled == controlledOn.Some?
      ensures forall s, a :: this.reducer(s, a) == reducer(s, a)
    {
      initialState := ToggleState(initialOn);
      state := ToggleState(initialOn);
      wasControlled := controlledOn.Some?;
      this.reducer := reducer;
    }

    /** The `on` the hook exposes: the controlling value when there is one,
        otherwise its own state. */
    function On(controlledOn: Option<bool>): (on: bool)
      reads this
      ensures controlledOn.Some? ==> on == controlledOn.value
      ensures controlledOn.None? ==> on == state.on
    {
      match controlledOn
      case Some(v) => v
      case None => state.on
    }

    /** `dispatchWithOnChange`. Uncontrolled, the action goes to the reducer and
        its result is committed (a throw commits nothing). Controlled, the state
        stays as it is. With an `onChange`, the reducer is applied to the state
        with the exposed `on`, and the result is reported (or thrown); without
        one that expression is never evaluated. */
    method Dispatch(action: ToggleAction, controlledOn: Option<bool>, hasOnChange: bool)
      returns (r: Result<Option<Change>, string>)
      modifies this
      ensures controlledOn.Some? ==> state == old(state)
      ensures controlledOn.None? ==>
        state == (match reducer(old(state), action) case Ok(next) => next case Err(_) => old(state))
      ensures controlledOn.None? && reducer(old(state), action).Err? ==> r.Err?
      ensures hasOnChange ==>
        r == (match reducer(old(state).(on := old(On(controlledOn))), action)
              case Ok(next) => Ok(Some(Change(next, action)))
              case Err(e) => Err(e))
      ensures !hasOnChange ==>
        r == (if controlledOn.None? && reducer(old(state), action).Err?
              then Err(reducer(old(state), action).error)
              else Ok(None))
    {
      var before, visible := state, On(controlledOn);
      var queued: Option<string> := None;
      if controlledOn.None? {
        match reducer(state, action)
        case Ok(next) => state := next;
        case Err(e) => queued := Some(e);
      }
      if hasOnChange {
        match reducer(before.(on := visible), action)
        case Ok(next) => r := Ok(Some(Change(next, action)));
        case Err(e) => r := Err(e);
      } else if queued.Some? {
        r := Err(queued.value);
      } else {
        r := Ok(None);
      }
    }

    /** `toggle`: the exposed `on` is reported flipped; uncontrolled, the state
        flips too. */
    method Toggle(controlledOn: Option<bool>, hasOnChange: bool) returns (r: Result<Option<Change>, string>)
      modifies this
      ensures controlledOn.Some? ==> state == old(state)
      ensures controlledOn.None? ==>
        state == (match reducer(old(state), ToggleAction.Toggle) case Ok(next) => next case Err(_) => old(state))
      ensures hasOnChange ==>
        r == (match reducer(old(state).(on := old(On(controlledOn))), ToggleAction.Toggle)
              case Ok(next) => Ok(Some(Change(next, ToggleAction.Toggle)))
              case Err(e) => Err(e))
      ensures UsesToggleReducer() && controlledOn.None? ==> state.on == !old(state.on)
      ensures UsesToggleReducer() && hasOnChange ==>
        r == Ok(Some(Change(ToggleState(!old(On(controlledOn))), ToggleAction.Toggle)))
      ensures UsesToggleReducer() && !hasOnChange ==> r == Ok(None)
    {
      r := Dispatch(ToggleAction.Toggle, controlledOn, hasOnChange);
    }

    /** `reset`: dispatches a reset carrying the captured `initialState`, so
        uncontrolled the state returns to `{on: initialOn}` whatever happened
        since creation. */
    method Reset(controlledOn: Option<bool>, hasOnChange: bool) returns (r: Result<Option<Change>, string>)
      modifies this
      ensures controlledOn.Some? ==> state == old(state)
      ensures controlledOn.None? ==>
        state == (match reducer(old(state), ToggleAction.Reset(initialState))
                  case Ok(next) => next case Err(_) => old(state))
      ensures hasOnChange ==>
        r == (match reducer(old(state).(on := old(On(controlledOn))), ToggleAction.Reset(initialState))
              case Ok(next) => Ok(Some(Change(next, ToggleAction.Reset(initialState))))
              case Err(e) => Err(e))
      ensures UsesToggleReducer() && controlledOn.None? ==> state == initialState
      ensures UsesToggleReducer() && hasOnChange ==>
        r == Ok(Some(Change(initialState, ToggleAction.Reset(initialState))))
      ensures UsesToggleReducer() && !hasOnChange ==> r == Ok(None)
    {
      r := Dispatch(ToggleAction.Reset(initialState), controlledOn, hasOnChange);
    }
  }

  /** The state of the parent `App`: the shared `on` of both controlled
      toggles and the click count. */
  datatype AppState = AppState(bothOn: bool, timesClicked: nat)

  /** More than four clicks show the notice, and further toggles are refused. */
  predicate TooManyClicks(a: AppState)
  {
    a.timesClicked > 4
  }

  /** One click on either controlled toggle: the toggle reports `!bothOn`, and
      `handleToggleChange` takes it unless the limit is reached. */
  function ToggleClick(a: AppState): (b: AppState)
    ensures TooManyClicks(a) ==> b == a
    ensures !TooManyClicks(a) ==> b.bothOn == !a.bothOn && b.timesClicked == a.timesClicked + 1
  {
    if TooManyClicks(a) then a else AppState(!a.bothOn, a.timesClicked + 1)
  }

  /** `n` clicks on the controlled toggles. */
  function Clicks(a: AppState, n: nat): AppState
    decreases n
  {
    if n == 0 then a else Clicks(ToggleClick(a), n - 1)
  }

  function Min(x: int, y: int): int
  {
    if x <= y then x else y
  }

  /** However many times the controlled toggles are clicked, the count stops at
      five and `bothOn` has flipped once per accepted click. */
  lemma {:induction false} ClicksSaturate(a: AppState, n: nat)
    ensures TooManyClicks(a) ==> Clicks(a, n) == a
    ensures !TooManyClicks(a) ==> Clicks(a, n).timesClicked == Min(a.timesClicked + n, 5)
    ensures Clicks(a, n).bothOn == (a.bothOn != ((Clicks(a, n).timesClicked - a.timesClicked) % 2 == 1))
    decreases n
  {
    if n > 0 {
      ClicksSaturate(ToggleClick(a), n - 1);
    }
  }

  /** The parent `App`, with its two `useState` values. */
  class SwitchesApp {
    var bothOn: bool
    var timesClicked: nat

    constructor()
      ensures bothOn == false && timesClicked == 0
    {
      bothOn := false;
      timesClicked := 0;
    }

    function Snapshot(): AppState
      reads this
    {
      AppState(bothOn, timesClicked)
    }

    /** `handleToggleChange`: a toggle after more than four clicks is ignored;
        anything else (a reset too) is taken and counted. */
    method HandleToggleChange(next: ToggleState, action: ToggleAction)
      modifies this
      ensures action.Toggle? && old(timesClicked) > 4 ==>
        bothOn == old(bothOn) && timesClicked == old(timesClicked)
      ensures !(action.Toggle? && old(timesClicked) > 4) ==>
        bothOn == next.on && timesClicked == old(timesClicked) + 1
    {
      if action.Toggle? && timesClicked > 4 {
        return;
      }
      bothOn := next.on;
      timesClicked := timesClicked + 1;
    }

    /** `handleResetClick`: both toggles off and the count back to zero. */
    method HandleResetClick()
      modifies this
      ensures bothOn == false && timesClicked == 0
    {
      bothOn := false;
      timesClicked := 0;
    }

    /** A click on one of the two toggles `App` renders with `on={bothOn}` and
        `onChange={handleToggleChange}`. */
    method ClickSwitch(t: ToggleHook)
      requires t.UsesToggleReducer()
      modifies this, t
      ensures t.state == old(t.state)
      ensures Snapshot() == ToggleClick(old(Snapshot()))
    {
      var r := t.Toggle(Some(bothOn), true);
      var change := r.value.value;
      HandleToggleChange(change.next, change.action);
    }
  }
}
