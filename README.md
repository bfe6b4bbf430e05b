# Finite-state machine with undo/redo, in Dafny

A model of the `FSM` class of `src/fsm.js`: a state machine built from a
configuration `{ initial, states }`, where `states` maps each state name to
its `transitions` (event name to target state). An instance keeps the
active state (`state`), the path taken so far (`progress`) and the stack of
undone states (`canceledStates`). Its operations are a direct jump
(`changeState`), a transition by event (`trigger`), `reset`, a query over the
table (`getStates`), linear `undo`/`redo` and `clearHistory`.

Files:

- `tables.dfy`, module `Tables`: the state table as a sequence of
  `Entry(name, def)` with distinct names, so that key order is kept; `Names`
  (`Object.keys`), `Lookup` (`this.states[n]`), `StatesWith` (the
  filter/map of `getStates`) and JavaScript truthiness of the event argument.
- `history.dfy`, module `History`: the triple `(state, progress,
  canceledStates)` as a value `Snapshot`, one function per operation, the path
  invariant `Valid` (while the path is non-empty the active state is its last
  element) and the lemmas relating the operations: undo/redo round trips,
  `n` undos followed by `n` redos, invariant preservation over any sequence of
  calls, reset returning the initial state.
- `fsm.dfy`, module `Fsm`: the class `FSM`, whose methods update the three
  fields in place (push, pop, truncation, reassignment) and are each proved
  to leave exactly the triple the `History` function gives, and to keep the
  path invariant.
- `scenarios.dfy`, module `Scenarios`: an example machine idle -> running ->
  done, replayed on the model.

Modelling choices:

- A thrown error is a `Fail(error)` outcome: `InvalidState` for
  `changeState`, `NoTransition` for `trigger`. The `TypeError` that `trigger`
  raises when the active state is not a key of the table (src/fsm.js:37-38)
  is also `NoTransition`.
- `state` is an `Option`: `reset` on an empty `progress` (after
  `clearHistory`) stores `progress[0]`, which is `undefined` in JavaScript.
  In that state `trigger` reads the property named `"undefined"` of the table,
  which the model's `StateKey` reproduces.
- The `event` argument of `getStates` is optional (`Option`); it is falsy
  when absent or the empty string, and then all names are returned.
- The construction does not check that `initial` is a key of the table, and
  neither does the model.
- The doc comment of `reset` (src/fsm.js:46) says it returns the machine to
  its initial state. The code does so only until `clearHistory`: the next
  forward move or `redo` starts a one-element path with whatever state it
  reaches, and a later `reset` returns that state. The model follows the code
  (`History.ClearThenForward`); `History.ResetReturnsInitial` proves that
  `reset` returns the initial state after every sequence of calls without
  `clearHistory`.
- Forward moves never clear `canceledStates`, so a later `redo` can replay a
  stale state (`Scenarios.ExampleRedoThenPause`); the model keeps this.

## Model

| member | source | states |
|---|---|---|
| Tables.Names | src/fsm.js:64 | the state names, one per table entry in table order, with no duplicates |
| Tables.Lookup | src/fsm.js:37 | a definition is found exactly when the name is a key, and it is the one stored under that name |
| Tables.StatesWith | src/fsm.js:61-63 | the result keeps table order (a subsequence of the names) and holds a state's name exactly when its transitions contain the event |
| History.Init | src/fsm.js:6-11 | construction: active state `initial`, path `[initial]`, no undone states; the path invariant holds |
| History.ChangeState | src/fsm.js:25-30 | succeeds exactly when the name is a key; then the state is that name, the path gains exactly it, the undone stack is untouched, the invariant and first path element are kept; otherwise fails with InvalidState |
| History.Trigger | src/fsm.js:36-42 | succeeds exactly when the active state's table entry has a transition on the event; then moves to and appends that target, leaving the undone stack; otherwise fails with NoTransition, including when the active state is not a key |
| History.Reset | src/fsm.js:48-51 | the path is cut to its first element, which becomes the active state and is returned; an empty path stays empty and the state becomes undefined; the undone stack is untouched |
| History.Undo | src/fsm.js:72-79 | true exactly when the path has more than one element; then its last element moves to the top of the undone stack and the new last element is active; false changes nothing |
| History.Redo | src/fsm.js:86-94 | true exactly when the undone stack is non-empty; then its top is popped, appended to the path and made active; false changes nothing |
| History.UndoRedoConserve | src/fsm.js:72-94 | undo and redo only move states between the path and the undone stack: the multiset of both together is unchanged |
| History.ClearHistory | src/fsm.js:99-103 | the path becomes empty; the active state and the undone stack are unchanged |
| History.UndoThenRedo | src/fsm.js:72-94 | a successful undo followed by redo restores the exact triple |
| History.RedoThenUndo | src/fsm.js:72-94 | a successful redo on a non-empty path followed by undo restores the exact triple |
| History.ChangeStateThenUndo | src/fsm.js:25-30 | undo after a successful jump restores state and path and leaves the jumped-to state on the undone stack |
| History.TriggerThenUndo | src/fsm.js:36-42 | undo after a successful trigger restores state and path and leaves the target on the undone stack |
| History.UndoNShape | src/fsm.js:72-79 | `n` undos on a path longer than `n` leave its first `length - n` elements with the active state at their end |
| History.RedoAfterUndoN | src/fsm.js:86-94 | a redo right after the `n`-th undo gives back the triple after `n - 1` undos |
| History.UndoNThenRedoN | src/fsm.js:72-94 | `n` undos followed by `n` redos restore the exact triple |
| History.UndoNAdd | src/fsm.js:72-79 | `a + b` undos are `a` undos followed by `b` more |
| History.RedoNRevisits | src/fsm.js:72-94 | after `n` undos, the first `k` redos give exactly the triple left by `n - k` undos, so redo revisits the path in its original order |
| History.UndoToOrigin | src/fsm.js:72-79 | undoing to the start makes the path's first state active, after which undo returns false |
| History.RunPreservesValid | src/fsm.js:6-103 | every sequence of calls keeps the path invariant (state is the last element of a non-empty path) |
| History.RunKeepsOrigin | src/fsm.js:25-94 | calls other than clearHistory never empty the path nor change its first element |
| History.ResetReturnsInitial | src/fsm.js:48-51 | after any calls without clearHistory, reset returns the initial state and a following undo returns false |
| History.ClearThenForward | src/fsm.js:99-103 | after clearHistory undo is false, a jump, trigger or redo starts a one-element path with the state reached, and reset gives an undefined state |
| Fsm.FSM.constructor | src/fsm.js:6-11 | stores the table and sets state, path and undone stack to `initial`, `[initial]`, `[]` |
| Fsm.FSM.GetState | src/fsm.js:17-19 | the active state, which is the last element of the path while the invariant holds and the path is non-empty |
| Fsm.FSM.ChangeState | src/fsm.js:25-30 | passes exactly when the name is a key, updating the fields in place as History.ChangeState; otherwise fails with InvalidState and changes nothing; keeps the invariant |
| Fsm.FSM.Trigger | src/fsm.js:36-42 | updates the fields in place as History.Trigger on success; on failure reports its error and changes nothing; keeps the invariant |
| Fsm.FSM.Reset | src/fsm.js:48-51 | truncates the path in place and returns the new state, as History.Reset; keeps the invariant |
| Fsm.FSM.GetStates | src/fsm.js:59-65 | with no or a falsy event, all names in table order; with a truthy event, in table order and without duplicates, exactly the states with a transition on it |
| Fsm.FSM.Undo | src/fsm.js:72-79 | returns true exactly when the path has more than one element and pops/pushes in place as History.Undo; keeps the invariant |
| Fsm.FSM.Redo | src/fsm.js:86-94 | returns true exactly when the undone stack is non-empty and pops/pushes in place as History.Redo; keeps the invariant |
| Fsm.FSM.ClearHistory | src/fsm.js:99-103 | reassigns the path to empty and changes nothing else |
| Scenarios.ExampleForward | src/fsm.js:36-42 | from idle, "start" then "finish" reach running then done along the path |
| Scenarios.ExampleUndo | src/fsm.js:72-79 | two undos walk back to idle, moving done and running to the undone stack; a third undo is false |
| Scenarios.ExampleRedoThenPause | src/fsm.js:36-42 | redo returns to running; "pause" goes to idle and leaves the stale "done" on the undone stack |
| Scenarios.ExampleFailures | src/fsm.js:25-42 | an unknown event and an unknown state name both fail with their error |
| Scenarios.ExampleQuery | src/fsm.js:59-65 | the states with a transition on "pause" and on "start" |

## Left out

- The `currentStep` field set by `clearHistory` (src/fsm.js:101): nothing reads it.
- The error text and the JavaScript exception mechanism: a failure is a typed outcome, and the unknown-active-state `TypeError` of `trigger` is reported as `NoTransition`.
- The JavaScript key order of `Object.keys` (integer-like keys first): the table is an ordered sequence in the order given.
- Property lookups that reach the prototype chain (a state named `toString` or `__proto__`): lookups see only the table's own keys.
- Aliasing of `config.states`: the table is stored by reference in the source, but the model treats it as immutable after construction.
- Arguments that are not strings (`getStates(0)`, `changeState(42)`): names and events are strings, and `getStates` takes an optional string.
- Validation of the configuration: the source performs none, and the model adds none.
- Configuration shapes outside `Config`: a missing `initial` (the source then holds `undefined` as state and `[undefined]` as path, src/fsm.js:7,9) and a state without `transitions` (on which `trigger` and `getStates` throw a `TypeError`, src/fsm.js:38,62); `Config` always carries an `initial` name and a `transitions` map for every state.
- The `module.exports` wiring.
