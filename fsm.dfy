/** The FSM class: a state table fixed at construction, and the fields
    `state`, `progress` and `canceledStates` that its methods update in place.
    Each method's postcondition gives the new fields as the corresponding
    function of module History applied to the old ones; what those functions
    guarantee (the path invariant, undo/redo round trips, reset) is proved
    there. */
module Fsm {
  import opened Tables
  import H = History

  /** The configuration object: `initial` and `states`.  Nothing checks that
      `initial` is a key of `states`. */
  datatype Config = Config(initial: StateName, states: Table)

  /** What a call that may throw produced. */
  datatype Outcome = Pass | Fail(error: H.Error)

  class FSM {
    const states: Table
    var state: Option<StateName>
    var progress: seq<StateName>
    var canceledStates: seq<StateName>

    /** The three mutable fields as a value. */
    function Snap(): H.Snapshot
      reads this
    {
      H.Snapshot(state, progress, canceledStates)
    }

    constructor (config: Config)
      ensures states == config.states
      ensures state == Some(config.initial) && progress == [config.initial] && canceledStates == []
      ensures Snap() == H.Init(config.initial) && H.Valid(Snap())
    {
      states := config.states;
      state := Some(config.initial);
      progress := [config.initial];
      canceledStates := [];
    }

    /** `getState()`: the active state, which is the end of the path while
        there is one. */
    function GetState(): (r: Option<StateName>)
      reads this
      ensures H.Valid(Snap()) && |progress| > 0 ==> r == Some(H.Last(progress))
      ensures r == Snap().state
    {
      state
    }

    /** `changeState(s)`. */
    method ChangeState(s: StateName) returns (outcome: Outcome)
      modifies this
      ensures outcome == Pass <==> s in Names(states)
      ensures outcome.Fail? ==> outcome.error == H.InvalidState && Snap() == old(Snap())
      ensures H.Valid(old(Snap())) ==> H.Valid(Snap())
      ensures outcome == Pass ==> Snap() == H.ChangeState(states, old(Snap()), s).value
    {
      if s in Names(states) {
        state := Some(s);
        progress := progress + [s];
        outcome := Pass;
      } else {
        outcome := Fail(H.InvalidState);
      }
    }

    /** `trigger(e)`. */
    method Trigger(e: EventName) returns (outcome: Outcome)
      modifies this
      ensures var r := H.Trigger(states, old(Snap()), e);
              (r.Ok? ==> outcome == Pass && Snap() == r.value)
              && (r.Err? ==> outcome == Fail(r.error) && Snap() == old(Snap()))
      ensures H.Valid(old(Snap())) ==> H.Valid(Snap())
    {
      var current := Lookup(states, H.StateKey(state));
      if current.Some? && e in current.value.transitions {
        var target := current.value.transitions[e];
        state := Some(target);
        progress := progress + [target];
        outcome := Pass;
      } else {
        outcome := Fail(H.NoTransition);
      }
    }

    /** `reset()`. */
    method Reset() returns (r: Option<StateName>)
      modifies this
      ensures (Snap(), r) == H.Reset(old(Snap()))
      ensures H.Valid(old(Snap())) ==> H.Valid(Snap())
    {
      if |progress| > 1 {
        progress := progress[..1];
      }
      state := if |progress| > 0 then Some(progress[0]) else None;
      r := state;
    }

    /** `getStates(event)`: with a truthy event, the states that have a
        transition on it; otherwise every state; in table order either way. */
    function GetStates(event: Option<EventName>): (r: seq<StateName>)
      ensures !Truthy(event) ==> r == Names(states)
      ensures Subsequence(r, Names(states)) && NoDuplicates(r)
      ensures Truthy(event) ==>
                forall k :: 0 <= k < |states| ==>
                  (states[k].name in r <==> event.value in states[k].def.transitions)
    {
      if Truthy(event) then
        var r := StatesWith(states, event.value);
        SubsequenceOfDistinct(r, Names(states));
        r
      else
        var r := Names(states);
        SubsequenceReflexive(r);
        r
    }

    /** `undo()`. */
    method Undo() returns (ok: bool)
      modifies this
      ensures ok <==> |old(progress)| > 1
      ensures (Snap(), ok) == H.Undo(old(Snap()))
      ensures H.Valid(old(Snap())) ==> H.Valid(Snap())
    {
      if |progress| > 1 {
        var last := progress[|progress| - 1];
        progress := progress[..|progress| - 1];
        canceledStates := canceledStates + [last];
        state := Some(progress[|progress| - 1]);
        ok := true;
      } else {
        ok := false;
      }
    }

    /** `redo()`. */
    method Redo() returns (ok: bool)
      modifies this
      ensures ok <==> |old(canceledStates)| > 0
      ensures (Snap(), ok) == H.Redo(old(Snap()))
      ensures H.Valid(old(Snap())) ==> H.Valid(Snap())
    {
      if |canceledStates| > 0 {
        var next := canceledStates[|canceledStates| - 1];
        canceledStates := canceledStates[..|canceledStates| - 1];
        state := Some(next);
        progress := progress + [next];
        ok := true;
      } else {
        ok := false;
      }
    }

    /** `clearHistory()`. */
    method ClearHistory()
      modifies this
      ensures Snap() == H.ClearHistory(old(Snap()))
      ensures H.Valid(old(Snap())) ==> H.Valid(Snap())
    {
      progress := [];
    }
  }
}
