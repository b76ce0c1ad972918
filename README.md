# Reducer-driven state machines of the advanced React patterns exercises

A Dafny model of the two state machines in the exercises:

- **User context** (`src/exercise/01.js`, module `UserContext` in `user_context.dfy`):
  `userReducer` updates a user record optimistically on START_UPDATE, takes the
  server's record on FINNISH_UPDATE, rolls back to the snapshot on FAIL_UPDATE
  and clears the status on RESET. `UserProvider` holds the reducer state
  (class `UserProvider`, whose `Dispatch` runs the reducer), and `updateUser`
  drives one cycle: START, the remote write, then FINISH or FAIL.
- **Control props** (`src/exercise/06.js`, module `ControlProps` in `control_props.dfy`):
  `toggleReducer`; the `useToggle` hook (class `ToggleHook`) with its own state,
  the `initialState` captured once, the exposed `on` and `dispatchWithOnChange`,
  which commits only when uncontrolled and reports the next state to `onChange`;
  the warning conditions of `useControlledSwitchWarning`; `callAll`; and the
  parent `App` (class `SwitchesApp`) that controls two toggles and stops
  accepting toggles after five clicks.

`wrappers.dfy` holds `Option` (JavaScript's `null`/`undefined` is `None`) and
`Result` (a throw is `Err` carrying the thrown value).

Modelling choices:

- A user record is `map<string, string>`, and `{...a, ...b}` is the right-biased
  union `a + b`. `user` and `storedUser` are `Option`s: FAIL_UPDATE copies
  `storedUser` into `user`, and `storedUser` is `null` after a success, so the
  user itself can become `null` (`FailWithoutSnapshotLosesUser`). Spreading
  `null` contributes no keys.
- An action whose type string is none of the handled ones is a separate
  datatype case carrying its type; the reducer returns `Err` with the message
  the source throws.
- The remote write `userClient.updatedUser(user, updates)` is the parameter
  `outcome` of `UpdateUser`: any resolved user or any rejection.
- In `Dispatch` of the provider and of the toggle hook, React's `dispatch` is
  taken to run the reducer at once; a reducer that throws commits nothing and
  the call fails.
  The preview passed to `onChange` is computed only when there is an
  `onChange`, as `onChange?.(...)` does not evaluate its arguments otherwise;
  so a controlled hook without `onChange` never throws.
- `{...state, on}` is `state.(on := on)`: the state has no other field.

Behaviours of the source the model keeps: START_UPDATE does not clear `error`
and has no guard against a second start while one is pending
(`SecondStartOverwritesSnapshot`); the initial state stores the user as
`storedUser` while idle; and a controlled toggle leaves the hook's own state
untouched.

## Model

| member | source | states |
|---|---|---|
| `UserContext.InitialState` | src/exercise/01.js:71-76 | The provider starts idle with no error and the signed-in user both as `user` and as `storedUser`. |
| `UserContext.Spread` | src/exercise/01.js:33 | The merged user has exactly the keys of both; keys in `updates` take the update, every other old key keeps its old value; merging into `null` gives the updates. |
| `UserContext.UserReducer` | src/exercise/01.js:28-67 | The reducer throws exactly for an unknown action type, with the message "Unhandled action type: " and the type; every handled action (START while pending included) yields a state. |
| `UserContext.StartUpdateEffect` | src/exercise/01.js:30-36 | START_UPDATE: user is the old user overridden key-wise by the updates (absent keys keep old values, no other keys), status PENDING, `storedUser` the pre-update user, `error` unchanged. |
| `UserContext.FinishUpdateEffect` | src/exercise/01.js:38-45 | FINNISH_UPDATE: user is the server's user exactly, status RESOLVED, `storedUser` and `error` cleared, whatever the state before. |
| `UserContext.FailUpdateEffect` | src/exercise/01.js:47-54 | FAIL_UPDATE: user becomes `storedUser`, status REJECTED, `error` the action's error, `storedUser` cleared. |
| `UserContext.ResetEffect` | src/exercise/01.js:56-61 | RESET clears status and error and leaves `user` and `storedUser` untouched. |
| `UserContext.StartThenFailRestoresUser` | src/exercise/01.js:30-54 | START then FAIL restores the user exactly to its value before START, with status REJECTED and the error. |
| `UserContext.StartThenFinishTakesServerUser` | src/exercise/01.js:30-45 | START then FINISH leaves the server's user, independent of the updates. |
| `UserContext.SecondStartOverwritesSnapshot` | src/exercise/01.js:30-36 | Two STARTs then a FAIL roll back only to the first optimistic user, not the original. |
| `UserContext.FailWithoutSnapshotLosesUser` | src/exercise/01.js:38-54 | A FAIL right after a FINISH sets the user to `null`. |
| `UserContext.ReducerKeepsStatusConsistent` | src/exercise/01.js:28-67 | Every accepted action keeps: idle implies no error; RESOLVED implies a user, no snapshot, no error; REJECTED implies no snapshot and an error. |
| `UserContext.RunKeepsStatusConsistent` | src/exercise/01.js:28-67 | The same consistency holds after any sequence of accepted actions. |
| `UserContext.UpdateCycle` | src/exercise/01.js:93-103 | After one update cycle nothing is stored; on success the user is the server's and status RESOLVED with no error; on failure the user is the one before the cycle, status REJECTED, the error recorded. |
| `UserContext.UserProvider.constructor` | src/exercise/01.js:69-76 | The provider's state is the initial state and nothing has been dispatched. |
| `UserContext.UserProvider.Dispatch` | src/exercise/01.js:71-78 | An accepted action replaces the state by the reducer's result and is logged; an action of unknown type returns the reducer's error message and changes nothing; the state stays status-consistent and equal to the reducer run over the log. |
| `UserContext.UpdateUser` | src/exercise/01.js:93-103 | Dispatches START and then exactly one of FINISH (returning the server's user) or FAIL (rethrowing the same error); the state is that of `UpdateCycle`. |
| `ControlProps.ToggleReducer` | src/exercise/06.js:54-66 | A toggle yields the opposite `on`; a reset yields the action's `initialState` whatever the state; only an unsupported type throws, with "Unsupported type: " and the type. |
| `ControlProps.EvenTogglesRestore` | src/exercise/06.js:56-58 | Any even number of toggles returns the state it started from. |
| `ControlProps.OddTogglesFlip` | src/exercise/06.js:56-58 | Any odd number of toggles leaves `on` flipped. |
| `ControlProps.ResetAfterAnyRun` | src/exercise/06.js:59-61 | A reset after any run of supported actions yields the initial state it carries. |
| `ControlProps.ControlWarnings` | src/exercise/06.js:25-41 | A mode-switch warning is due iff the current control mode differs from the first-seen one, each direction with its own warning; the read-only warning is due iff controlled without `onChange`. |
| `ControlProps.PresentExactly` | src/exercise/06.js:8-11 | `callAll` invokes exactly the handlers that are given, and as many times as there are given handlers, so each once. |
| `ControlProps.CallAll` | src/exercise/06.js:8-11 | The loop invokes the given handlers in order, skipping the absent ones. |
| `ControlProps.ToggleHook.constructor` | src/exercise/06.js:69-76 | The hook starts with `initialState = {on: initialOn}` (default false) as its state, records whether it was controlled at first render, and uses `toggleReducer`. |
| `ControlProps.ToggleHook.WithReducer` | src/exercise/06.js:69-76 | As the constructor, with the caller's reducer. |
| `ControlProps.ToggleHook.On` | src/exercise/06.js:78-79 | The exposed `on` is the controlling value when there is one, otherwise the hook's own `on`. |
| `ControlProps.ToggleHook.Dispatch` | src/exercise/06.js:83-95 | Controlled: the state is unchanged; uncontrolled: the state becomes the reducer's result. With `onChange` it is called once with the reducer applied to the state with the exposed `on`, and the action. |
| `ControlProps.ToggleHook.Toggle` | src/exercise/06.js:97 | Controlled, the state does not move; uncontrolled, it becomes the reducer's result for a toggle; with `onChange`, it is called with the reducer's result for the exposed `on`. With the default reducer that report is `{on: !exposed on}` and the uncontrolled state flips. |
| `ControlProps.ToggleHook.Reset` | src/exercise/06.js:98-99 | Controlled, the state does not move; uncontrolled, it becomes the reducer's result for a reset carrying the captured `initialState`, which `onChange` also receives. With the default reducer, the uncontrolled state returns to `initialState` whatever happened before, and that is what `onChange` receives. |
| `ControlProps.ToggleClick` | src/exercise/06.js:137-143 | A click on a controlled toggle flips `bothOn` and counts, unless more than four clicks were already counted, in which case nothing changes. |
| `ControlProps.ClicksSaturate` | src/exercise/06.js:137-143 | Any number of clicks stops the count at five, and `bothOn` has flipped once per accepted click. |
| `ControlProps.SwitchesApp.constructor` | src/exercise/06.js:134-135 | `bothOn` starts false and the count at zero. |
| `ControlProps.SwitchesApp.HandleToggleChange` | src/exercise/06.js:137-143 | A toggle with more than four clicks changes nothing; anything else (resets too) sets `bothOn` to the reported `on` and counts. |
| `ControlProps.SwitchesApp.HandleResetClick` | src/exercise/06.js:145-148 | `bothOn` false and the count zero. |
| `ControlProps.SwitchesApp.ClickSwitch` | src/exercise/06.js:150-154 | Clicking either controlled toggle leaves the toggle's own state unchanged and moves the app state by `ToggleClick`. |

## Left out

- React rendering, context creation and the `useUser` guard (`src/exercise/01.js:12-13`, `84-90`): framework plumbing; the provider is a plain class.
- `useAuth` and the `userClient.updatedUser` network call: foreign asynchronous calls, replaced by the initial user and the `outcome` parameter.
- Interleaving of two `updateUser` calls across the `await`: `UpdateUser` runs one cycle to completion; the single-step lemmas still cover any order of actions.
- The `UserSettings` form, `UserDataDisplay` and the `dequal` library: user interface and a library outside this model (the form also compares against a shadowed `status` variable, a display matter only).
- The `warning` library's output, the `NODE_ENV` gating and `useEffect` re-run timing: only the conditions are modelled, not logging or deduplication.
- `getTogglerProps`, `getResetterProps`, the `Toggle` component and the `Switch` widget: presentation layer; `callAll` is modelled on its own and the click in `ClickSwitch`.
- UserContext.UserProvider.Dispatch: React's `dispatch` does not throw to its caller; a throwing reducer fails while the provider re-renders. The model runs the reducer at the call and returns the error with the state unchanged (no caller dispatches an unknown type).
- Error values: the value a failed write rejects with is arbitrary (the form reads its `message`); the model takes it to be a string.
- The uncontrolled toggle in `App`, whose `onChange` only logs to the console.
- The compound-component exercise `src/exercise/02.js`: rendering only.
