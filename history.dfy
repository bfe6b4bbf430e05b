/** The machine's run-time state as a value: the active state, the path taken
    (`progress`) and the stack of undone states (`canceledStates`), with one
    function per operation of the FSM class giving the new triple from the old
    one.  The class methods in module Fsm are proved against these functions. */
module History {
  import opened Tables

  /** Why `changeState` or `trigger` throws. */
  datatype Error = InvalidState | NoTransition

  datatype Result<T> = Ok(value: T) | Err(error: Error)

  /** `state` is None when JavaScript would hold `undefined` there: after a
      `reset` of an empty `progress`. */
  datatype Snapshot = Snapshot(
    state: Option<StateName>,
    progress: seq<StateName>,
    canceledStates: seq<StateName>)

  function Last<T>(s: seq<T>): T
    requires |s| > 0
  {
    s[|s| - 1]
  }

  /** The path invariant: while there is a path, the active state is its end. */
  predicate Valid(m: Snapshot) {
    |m.progress| > 0 ==> m.state == Some(Last(m.progress))
  }

  /** A call that keeps a non-empty path keeps its first element. */
  predicate KeepsOrigin(m: Snapshot, m': Snapshot) {
    |m.progress| > 0 ==> |m'.progress| > 0 && m'.progress[0] == m.progress[0]
  }

  /** The key `this.states[this.state]` reads: an undefined state is
      converted to the property name "undefined". */
  function StateKey(state: Option<StateName>): StateName {
    match state
    case Some(n) => n
    case None => "undefined"
  }

  /** The state right after construction. */
  function Init(initial: StateName): (m: Snapshot)
    ensures Valid(m) && |m.progress| == 1 && m.progress[0] == initial
    ensures m.state == Some(initial) && m.canceledStates == []
  {
    Snapshot(Some(initial), [initial], [])
  }

  /** A forward move to `s`: the push shared by changeState, trigger and redo. */
  function Advance(m: Snapshot, s: StateName): Snapshot {
    m.(state := Some(s), progress := m.progress + [s])
  }

  /** `changeState(s)`: jumps to any key of the table, ignoring transitions. */
  function ChangeState(t: Table, m: Snapshot, s: StateName): (r: Result<Snapshot>)
    ensures r.Ok? <==> s in Names(t)
    ensures r.Err? ==> r.error == InvalidState
    ensures r.Ok? ==> r.value.state == Some(s) && r.value.progress == m.progress + [s]
                      && r.value.canceledStates == m.canceledStates
    ensures r.Ok? ==> Valid(r.value) && KeepsOrigin(m, r.value)
  {
    if s in Names(t) then Ok(Advance(m, s)) else Err(InvalidState)
  }

  /** `trigger(e)`: follows the transition on `e` of the active state's
      definition; throws when the active state is not a key or has no such
      transition. */
  function Trigger(t: Table, m: Snapshot, e: EventName): (r: Result<Snapshot>)
    ensures r.Ok? <==> exists k :: 0 <= k < |t| && t[k].name == StateKey(m.state)
                                   && e in t[k].def.transitions
    ensures forall k :: 0 <= k < |t| && t[k].name == StateKey(m.state)
                        && e in t[k].def.transitions ==>
              r.Ok? && r.value.state == Some(t[k].def.transitions[e])
              && r.value.progress == m.progress + [t[k].def.transitions[e]]
              && r.value.canceledStates == m.canceledStates
    ensures r.Err? ==> r.error == NoTransition
    ensures r.Ok? ==> Valid(r.value) && KeepsOrigin(m, r.value)
  {
    match Lookup(t, StateKey(m.state))
    case None => Err(NoTransition)
    case Some(d) =>
      if e in d.transitions then Ok(Advance(m, d.transitions[e])) else Err(NoTransition)
  }

  /** `reset()`: cuts the path back to its first element and makes that the
      active state, which it also returns. */
  function Reset(m: Snapshot): (r: (Snapshot, Option<StateName>))
    ensures r.1 == r.0.state
    ensures |m.progress| > 0 ==> r.0.progress == [m.progress[0]] && r.1 == Some(m.progress[0])
    ensures |m.progress| == 0 ==> r.0.progress == [] && r.1 == None
    ensures r.0.canceledStates == m.canceledStates
    ensures Valid(r.0) && KeepsOrigin(m, r.0)
  {
    var p := if |m.progress| > 1 then m.progress[..1] else m.progress;
    var s := if |p| > 0 then Some(p[0]) else None;
    (Snapshot(s, p, m.canceledStates), s)
  }

  /** `undo()`: moves the end of the path onto the undone stack and steps back
      to the state before it; false, with nothing changed, at the path's start. */
  function Undo(m: Snapshot): (r: (Snapshot, bool))
    ensures r.1 <==> |m.progress| > 1
    ensures !r.1 ==> r.0 == m
    ensures r.1 ==> r.0.progress == m.progress[..|m.progress| - 1]
                    && r.0.canceledStates == m.canceledStates + [Last(m.progress)]
    ensures r.1 ==> Valid(r.0)
    ensures KeepsOrigin(m, r.0)
  {
    if |m.progress| > 1 then
      var last := Last(m.progress);
      var p := m.progress[..|m.progress| - 1];
      (Snapshot(Some(Last(p)), p, m.canceledStates + [last]), true)
    else (m, false)
  }

  /** `redo()`: pops the undone stack and moves forward to that state; false,
      with nothing changed, when nothing is undone. */
  function Redo(m: Snapshot): (r: (Snapshot, bool))
    ensures r.1 <==> |m.canceledStates| > 0
    ensures !r.1 ==> r.0 == m
    ensures r.1 ==> r.0.canceledStates + [Last(m.canceledStates)] == m.canceledStates
                    && r.0.progress == m.progress + [Last(m.canceledStates)]
                    && r.0.state == Some(Last(m.canceledStates))
    ensures r.1 ==> Valid(r.0)
    ensures KeepsOrigin(m, r.0)
  {
    if |m.canceledStates| > 0 then
      var next := Last(m.canceledStates);
      (Advance(m, next).(canceledStates := m.canceledStates[..|m.canceledStates| - 1]), true)
    else (m, false)
  }

  /** `clearHistory()`: empties the path, nothing else. */
  function ClearHistory(m: Snapshot): (r: Snapshot)
    ensures r.progress == [] && r.state == m.state && r.canceledStates == m.canceledStates
    ensures Valid(r)
  {
    m.(progress := [])
  }

  // ---------------------------------------------------------------------
  // Undo and redo undo each other

  /** A successful undo followed by redo restores the exact triple. */
  lemma UndoThenRedo(m: Snapshot)
    requires Valid(m) && Undo(m).1
    ensures Redo(Undo(m).0) == (m, true)
  {
    assert Undo(m).0.progress + [Last(m.progress)] == m.progress;
  }

  /** A successful redo on a non-empty path followed by undo restores the
      exact triple. */
  lemma RedoThenUndo(m: Snapshot)
    requires Valid(m) && |m.progress| > 0 && Redo(m).1
    ensures Undo(Redo(m).0) == (m, true)
  {
  }

  /** Undo and redo only move states between the path and the undone stack. */
  lemma UndoRedoConserve(m: Snapshot)
    ensures multiset(Undo(m).0.progress) + multiset(Undo(m).0.canceledStates)
            == multiset(m.progress) + multiset(m.canceledStates)
    ensures multiset(Redo(m).0.progress) + multiset(Redo(m).0.canceledStates)
            == multiset(m.progress) + multiset(m.canceledStates)
  {
    if Undo(m).1 {
      assert Undo(m).0.progress + [Last(m.progress)] == m.progress;
    }
  }

  /** A successful forward move is undone by one undo, which leaves the
      state it moved to on the undone stack. */
  lemma ChangeStateThenUndo(t: Table, m: Snapshot, s: StateName)
    requires Valid(m) && |m.progress| > 0 && ChangeState(t, m, s).Ok?
    ensures Undo(ChangeState(t, m, s).value) == (m.(canceledStates := m.canceledStates + [s]), true)
  {
  }

  /** Likewise for a successful trigger: undo returns to the state before it
      and leaves the target on the undone stack. */
  lemma TriggerThenUndo(t: Table, m: Snapshot, e: EventName)
    requires Valid(m) && |m.progress| > 0 && Trigger(t, m, e).Ok?
    ensures Undo(Trigger(t, m, e).value).1
    ensures Undo(Trigger(t, m, e).value).0.state == m.state
    ensures Undo(Trigger(t, m, e).value).0.progress == m.progress
    ensures Undo(Trigger(t, m, e).value).0.canceledStates
            == m.canceledStates + [Last(Trigger(t, m, e).value.progress)]
  {
  }

  // ---------------------------------------------------------------------
  // Repeated undo and redo

  /** `n` successive calls of undo. */
  function UndoN(m: Snapshot, n: nat): Snapshot
    decreases n
  {
    if n == 0 then m else Undo(UndoN(m, n - 1)).0
  }

  /** While the path is long enough, `n` undos leave the path's first
      `|progress| - n` elements, ending in the active state. */
  lemma {:induction false} UndoNShape(m: Snapshot, n: nat)
    requires Valid(m) && n < |m.progress|
    ensures Valid(UndoN(m, n)) && UndoN(m, n).progress == m.progress[..|m.progress| - n]
    ensures UndoN(m, n).state == Some(m.progress[|m.progress| - 1 - n])
    decreases n
  {
    if n > 0 {
      UndoNShape(m, n - 1);
      var y := UndoN(m, n - 1);
      assert y.progress[..|y.progress| - 1] == m.progress[..|m.progress| - n];
    }
  }

  /** `n` successive calls of redo. */
  function RedoN(m: Snapshot, n: nat): Snapshot
    decreases n
  {
    if n == 0 then m else RedoN(Redo(m).0, n - 1)
  }

  /** Redo right after the `n`-th undo returns to the triple after `n - 1`. */
  lemma RedoAfterUndoN(m: Snapshot, n: nat)
    requires Valid(m) && 0 < n < |m.progress|
    ensures Redo(UndoN(m, n)).0 == UndoN(m, n - 1)
  {
    UndoNShape(m, n - 1);
    UndoThenRedo(UndoN(m, n - 1));
  }

  /** `a + b` undos are `a` undos followed by `b` more. */
  lemma {:induction false} UndoNAdd(m: Snapshot, a: nat, b: nat)
    ensures UndoN(m, a + b) == UndoN(UndoN(m, a), b)
    decreases b
  {
    if b > 0 {
      var mid := UndoN(m, a + b - 1);
      assert mid == UndoN(UndoN(m, a), b - 1) by {
        UndoNAdd(m, a, b - 1);
      }
      assert UndoN(m, a + b) == Undo(mid).0;
    }
  }

  /** After `n` undos, the first `k` redos pass back through the triples the
      undos left, in reverse order of the undos: redo revisits the path in the
      order it was first visited. */
  lemma RedoNRevisits(m: Snapshot, n: nat, k: nat)
    requires Valid(m) && n < |m.progress| && k <= n
    ensures RedoN(UndoN(m, n), k) == UndoN(m, n - k)
  {
    var start := UndoN(m, n - k);
    assert UndoN(m, n) == UndoN(start, k) by {
      UndoNAdd(m, n - k, k);
    }
    assert RedoN(UndoN(start, k), k) == start by {
      UndoNShape(m, n - k);
      UndoNThenRedoN(start, k);
    }
  }

  /** Undoing `n` forward moves and redoing them revisits them in order and
      ends in the exact triple it started from. */
  lemma {:induction false} UndoNThenRedoN(m: Snapshot, n: nat)
    requires Valid(m) && n < |m.progress|
    ensures RedoN(UndoN(m, n), n) == m
    decreases n
  {
    if n > 0 {
      RedoAfterUndoN(m, n);
      UndoNThenRedoN(m, n - 1);
    }
  }

  /** Undoing all the way back reaches the first state of the path, and a
      further undo fails. */
  lemma UndoToOrigin(m: Snapshot)
    requires Valid(m) && |m.progress| > 0
    ensures UndoN(m, |m.progress| - 1).state == Some(m.progress[0])
    ensures !Undo(UndoN(m, |m.progress| - 1)).1
  {
    UndoNShape(m, |m.progress| - 1);
  }

  // ---------------------------------------------------------------------
  // Arbitrary sequences of calls

  /** One public call; a call that throws or returns false leaves the triple
      as it was. */
  datatype Op =
    | ChangeTo(name: StateName)
    | Fire(event: EventName)
    | ResetOp
    | UndoOp
    | RedoOp
    | ClearOp

  function Step(t: Table, m: Snapshot, op: Op): Snapshot {
    match op
    case ChangeTo(s) => (var r := ChangeState(t, m, s); if r.Ok? then r.value else m)
    case Fire(e) => (var r := Trigger(t, m, e); if r.Ok? then r.value else m)
    case ResetOp => Reset(m).0
    case UndoOp => Undo(m).0
    case RedoOp => Redo(m).0
    case ClearOp => ClearHistory(m)
  }

  function Run(t: Table, m: Snapshot, ops: seq<Op>): Snapshot
    decreases |ops|
  {
    if ops == [] then m else Run(t, Step(t, m, ops[0]), ops[1..])
  }

  /** Every operation keeps the path invariant. */
  lemma {:induction false} RunPreservesValid(t: Table, m: Snapshot, ops: seq<Op>)
    requires Valid(m)
    ensures Valid(Run(t, m, ops))
    decreases |ops|
  {
    if ops != [] {
      RunPreservesValid(t, Step(t, m, ops[0]), ops[1..]);
    }
  }

  predicate NoClear(ops: seq<Op>) {
    forall i :: 0 <= i < |ops| ==> !ops[i].ClearOp?
  }

  /** Without clearHistory, the path never empties and its first element
      never changes. */
  lemma {:induction false} RunKeepsOrigin(t: Table, m: Snapshot, ops: seq<Op>)
    requires NoClear(ops)
    ensures KeepsOrigin(m, Run(t, m, ops))
    decreases |ops|
  {
    if ops != [] {
      assert !ops[0].ClearOp?;
      RunKeepsOrigin(t, Step(t, m, ops[0]), ops[1..]);
    }
  }

  /** After any calls that do not clear the history, reset returns the
      initial state of the construction and undo is then unavailable. */
  lemma ResetReturnsInitial(t: Table, initial: StateName, ops: seq<Op>)
    requires NoClear(ops)
    ensures Reset(Run(t, Init(initial), ops)).1 == Some(initial)
    ensures !Undo(Reset(Run(t, Init(initial), ops)).0).1
  {
    RunKeepsOrigin(t, Init(initial), ops);
  }

  /** After clearHistory, undo is unavailable and the next forward move
      starts a path of one element, which need not be the initial state. */
  lemma ClearThenForward(t: Table, m: Snapshot, s: StateName, e: EventName)
    ensures !Undo(ClearHistory(m)).1
    ensures ChangeState(t, ClearHistory(m), s).Ok? ==>
              ChangeState(t, ClearHistory(m), s).value.progress == [s]
    ensures Trigger(t, ClearHistory(m), e).Ok? ==>
              |Trigger(t, ClearHistory(m), e).value.progress| == 1
    ensures Redo(ClearHistory(m)).1 ==>
              Redo(ClearHistory(m)).0.progress == [Last(m.canceledStates)]
    ensures Reset(ClearHistory(m)).1 == None
  {
  }
}
