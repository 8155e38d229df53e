# GamepadControl: input-to-action dispatch core

A Dafny model of the part of GamepadControl that turns gamepad state changes
into audio-control actions (`GamepadControl/Gamepad.swift`):

- **Action set** (`actions.dfy`, module `Actions`): the closed enumeration
  `AudioControlAction` of twenty control intents.
- **Element resolver** (`elements.dfy`, module `Elements`): the fifteen
  controls `elementAlias` compares against, plus `Other` for every control it
  does not know, and the switch that maps each to its identifier string or to
  the sentinel `""`.
- **Binding table** (`keymap.dfy`, module `Keymap`): the `keymap` dictionary
  literal, modelled as its list of `key: action` entries and the dictionary
  they denote (`FromEntries`), with the facts the dispatcher relies on.
- **Dispatch** (`dispatch.dfy`, module `Dispatch`): the calls to the executor
  one change causes (`Invocations`) and a stream of changes causes (`Trace`),
  with the properties of dispatch: independence of the reported value, no
  deduplication, at most one call per change, and the reachable actions.
- **The gamepad object** (`gamepad.dfy`, class `Controller.Gamepad`): the
  fields `keymap` and `connected`, the set of gamepads with an installed
  value-changed handler, and two ghost records — the changes dispatched and
  the executor calls made — tied together by `Valid()`. `PerformAction`,
  `HandleInput`, `SetupGamepad`, `ControllerDidConnect`,
  `ControllerDidDisconnect` and the handler (`ValueChanged`) are methods.

Two mismatches between the table and the resolver are stated and proved:
the menu button resolves to `"buttonMenu"`, which has no binding, so pressing
it dispatches nothing (`Keymap.BoundElements`, `Dispatch.DefaultDispatch`);
and `"touchpadButton"` is bound to `transportUndo` but no control resolves to
it, so undo is never dispatched (`Elements.ElementAlias`,
`Keymap.KeyReachable`, `Dispatch.UndoNeverDispatched`,
`Dispatch.ReachableActions`).

The model follows what the code does rather than what its comments plan:
every arm of `performAction` (the seven track arms and `default`) calls the
same placeholder, so no action has an effect beyond being accepted; and a
disconnect notification only logs, so it leaves the installed handlers and the
`connected` flag as they were (the code never sets `connected` at all).

## Model

| member | source | states |
|---|---|---|
| `Actions.AllActions` | GamepadControl/Gamepad.swift:12-21 | the enumeration lists twenty actions, no action twice |
| `Actions.AllActionsComplete` | GamepadControl/Gamepad.swift:12-21 | every action is in the enumeration: the action set is closed |
| `Elements.ElementAlias` | GamepadControl/Gamepad.swift:159-178 | the resolver is a function of the element alone (deterministic); it yields the sentinel `""` exactly for unknown controls, and never yields `"touchpadButton"` |
| `Elements.KnownElements` | GamepadControl/Gamepad.swift:161-175 | definition: the fifteen controls the switch compares against, in the order of its cases; properties in `Elements.KnownElementsExact` |
| `Elements.KnownElementsExact` | GamepadControl/Gamepad.swift:160-175 | the controls the switch tests, in its order, are fifteen, pairwise distinct, and exactly the non-`Other` elements |
| `Elements.AliasInjective` | GamepadControl/Gamepad.swift:159-178 | two controls with the same identifier are the same control, unless both are unknown |
| `Keymap.FromEntries` | GamepadControl/Gamepad.swift:79-95 | definition of the dictionary a literal denotes: entries inserted left to right, a later entry replacing an earlier one with the same key; never more keys than entries; properties in `Keymap.FromEntriesKeys`, `Keymap.FromEntriesLastWins`, `Keymap.FromEntriesSize`, `Keymap.FromEntriesLookup` |
| `Keymap.FromEntriesKeys` | GamepadControl/Gamepad.swift:79-95 | a key is in the dictionary a literal denotes iff some entry of the literal names it |
| `Keymap.FromEntriesLastWins` | GamepadControl/Gamepad.swift:79-95 | a key of that dictionary maps to the action of the last entry naming it |
| `Keymap.FromEntriesSize` | GamepadControl/Gamepad.swift:79-95 | a literal with distinct keys denotes a dictionary with one key per entry |
| `Keymap.FromEntriesLookup` | GamepadControl/Gamepad.swift:79-95 | with distinct keys, every entry's key looks up that entry's action |
| `Keymap.DefaultEntries` | GamepadControl/Gamepad.swift:80-94 | definition: the fifteen `key: action` rows of the `keymap` literal, in source order; properties in `Keymap.DefaultEntriesDistinct` and `Keymap.DefaultKeymapRow` |
| `Keymap.DefaultKeymap` | GamepadControl/Gamepad.swift:79-95 | definition: the `keymap` dictionary, the dictionary the default literal denotes; properties in `Keymap.DefaultKeymapSize`, `Keymap.DefaultKeymapRow`, `Keymap.SentinelUnbound`, `Keymap.BoundActions` |
| `Keymap.DefaultEntriesDistinct` | GamepadControl/Gamepad.swift:79-95 | the default literal has fifteen entries with pairwise distinct keys |
| `Keymap.DefaultKeymapRow` | GamepadControl/Gamepad.swift:80-94 | for each of the fifteen rows, the table binds the row's key to exactly the row's action (e.g. `buttonX` to `trackMute`, `rightTrigger` to `transportRecord`) |
| `Keymap.DefaultKeymapSize` | GamepadControl/Gamepad.swift:79-95 | the table holds fifteen bindings: no entry of the literal is overwritten |
| `Keymap.SentinelUnbound` | GamepadControl/Gamepad.swift:152-176 | the sentinel `""` the resolver returns for an unknown control is not a key of the table |
| `Keymap.RowsMatchResolver` | GamepadControl/Gamepad.swift:79-95 | the table's rows and the resolver's cases name the same fourteen identifiers in the same order; at the fifteenth the table has `"touchpadButton"` and the resolver `"buttonMenu"` |
| `Keymap.BoundElements` | GamepadControl/Gamepad.swift:152-157 | a control finds a binding iff it is a known control other than the menu button |
| `Keymap.KeyReachable` | GamepadControl/Gamepad.swift:79-95 | a key of the table is the identifier of some control iff it is not `"touchpadButton"` |
| `Keymap.BoundActions` | GamepadControl/Gamepad.swift:79-95 | the table binds every action except the two distance, the two spread and the redo actions |
| `Keymap.UndoOnlyTouchpad` | GamepadControl/Gamepad.swift:94 | `transportUndo` is bound to `"touchpadButton"` and to no other key |
| `Dispatch.Invocations` | GamepadControl/Gamepad.swift:152-157 | `handleInput` as a function: at most one executor call per change; no call exactly when the resolved identifier is unbound; only bound actions are called |
| `Dispatch.Trace` | GamepadControl/Gamepad.swift:147-157 | the handler applied to changes one after another, in delivery order: never more calls than changes; properties in `Dispatch.TraceConcat`, `Dispatch.TraceIgnoresValues`, `Dispatch.ReplayNotDeduplicated`, `Dispatch.TraceBounded` |
| `Dispatch.TraceConcat` | GamepadControl/Gamepad.swift:147-157 | changes are dispatched independently: the calls of two streams in a row are the calls of each, concatenated in order |
| `Dispatch.TraceIgnoresValues` | GamepadControl/Gamepad.swift:147-157 | streams changing the same elements in the same order cause the same calls, whatever values (press, release, magnitude, axes) they report |
| `Dispatch.ReplayNotDeduplicated` | GamepadControl/Gamepad.swift:147-157 | delivering one change n times causes n calls with the bound action, or none if unbound: no deduplication |
| `Dispatch.TraceBounded` | GamepadControl/Gamepad.swift:152-157 | at most one call per change, and only actions the table binds are ever called |
| `Dispatch.DefaultDispatch` | GamepadControl/Gamepad.swift:152-157 | under the default table, the i-th control the resolver tests calls exactly the i-th action of the table, once, for the fourteen shared rows; the menu button and every unknown control call nothing |
| `Dispatch.ButtonXMutes` | GamepadControl/Gamepad.swift:80 | a change of the X button, with any value, calls `trackMute` exactly once |
| `Dispatch.RightTriggerRecords` | GamepadControl/Gamepad.swift:87 | a change of the right trigger, of any magnitude, calls `transportRecord` exactly once |
| `Dispatch.UnknownControlsSilent` | GamepadControl/Gamepad.swift:176 | a stream of changes to unknown controls causes no call |
| `Dispatch.UndoNeverDispatched` | GamepadControl/Gamepad.swift:94 | no stream of changes ever calls `transportUndo`: its binding is unreachable |
| `Dispatch.ReachableActions` | GamepadControl/Gamepad.swift:152-157 | the actions some control calls are exactly the bound actions other than `transportUndo` |
| `Controller.Gamepad.constructor` | GamepadControl/Gamepad.swift:79-97 | a new gamepad has the default table, is not connected, has no handler installed and has made no calls |
| `Controller.Gamepad.Valid` | GamepadControl/Gamepad.swift:152-157 | the object invariant: the record of executor calls is exactly the trace of the changes handed to the dispatcher, so there are never more calls than dispatched changes |
| `Controller.Gamepad.PerformAction` | GamepadControl/Gamepad.swift:27-51 | the executor accepts every action (no precondition) and records exactly that one call |
| `Controller.Gamepad.HandleInput` | GamepadControl/Gamepad.swift:152-157 | exactly one executor call with `keymap[key]` when the resolved key is bound, none when it is not; the table, `connected` and the handlers are unchanged; callable in any state (no precondition), and if the call record equalled the trace of the dispatched changes before, it still does after |
| `Controller.Gamepad.SetupGamepad` | GamepadControl/Gamepad.swift:146-150 | installs the handler on the given gamepad and on no other |
| `Controller.Gamepad.ControllerDidConnect` | GamepadControl/Gamepad.swift:136-140 | a notification without a controller, or with one lacking the extended profile, returns early and installs nothing; otherwise the handler is installed on that controller |
| `Controller.Gamepad.ControllerDidDisconnect` | GamepadControl/Gamepad.swift:142-144 | a disconnect changes no state: handlers and call record stay as they were |
| `Controller.Gamepad.ValueChanged` | GamepadControl/Gamepad.swift:147-149 | a change from a gamepad with an installed handler is dispatched exactly as `HandleInput` does; from any other gamepad it causes nothing; callable in any state, and it keeps the invariant when it held before |

## Left out

- Observer registration and removal with the notification center, and starting and stopping wireless controller discovery (`init`, `deinit`): platform lifecycle with no effect on dispatch.
- The `[weak self]` capture in the installed handler and the thread on which the platform calls it: the model delivers changes one at a time through `ValueChanged`.
- The console output of `stub()` and of the disconnect handler: an executor call is recorded in the ghost `performed` sequence instead.
- The display structs (`ButtonElement`, `TriggerElement`, `StickElement`) and the `buttons` table: display data with UUIDs and floats that dispatch never reads or writes.
- The `ObservableObject`/`@Published` publishing machinery.
- The platform's identity comparison of element objects: elements are values of a datatype, compared by equality; the analog values they report are `real` numbers, not floats. The `gamepad` argument of `elementAlias` is dropped: the model assumes every element is resolved against the gamepad that reported it, and that each of the fifteen known controls (each pad direction included) can be reported on its own; `Dispatch.DefaultDispatch`, `Keymap.KeyReachable` and `Dispatch.ReachableActions` rest on that assumption.
- A Swift dictionary literal with a repeated key stops the program; `FromEntries` instead lets the later entry win. The default literal has distinct keys (`Keymap.DefaultEntriesDistinct`), so the two agree on it.
- The SwiftUI view, the network control-protocol calls and the 3D scene in `GamepadControl/ContentView.swift` are not part of this model.
