/** An example machine idle -> running -> done, replayed on the model. */
module Scenarios {
  import opened Tables
  import opened History

  function Example(): Table {
    [ Entry("idle", StateDef(map["start" := "running"])),
      Entry("running", StateDef(map["pause" := "idle", "finish" := "done"])),
      Entry("done", StateDef(map[])) ]
  }

  /** From idle, "start" then "finish" reach done along the path. */
  lemma ExampleForward()
    ensures Trigger(Example(), Init("idle"), "start")
            == Ok(Snapshot(Some("running"), ["idle", "running"], []))
    ensures Trigger(Example(), Snapshot(Some("running"), ["idle", "running"], []), "finish")
            == Ok(Snapshot(Some("done"), ["idle", "running", "done"], []))
  {
    var t := Example();
    assert Lookup(t, "idle") == Some(t[0].def);
    assert Lookup(t, "running") == Some(t[1].def);
    assert ["idle"] + ["running"] == ["idle", "running"];
    assert ["idle", "running"] + ["done"] == ["idle", "running", "done"];
  }

  /** Two undos walk back to idle; a third fails and changes nothing. */
  lemma ExampleUndo()
    ensures Undo(Snapshot(Some("done"), ["idle", "running", "done"], []))
            == (Snapshot(Some("running"), ["idle", "running"], ["done"]), true)
    ensures Undo(Snapshot(Some("running"), ["idle", "running"], ["done"]))
            == (Snapshot(Some("idle"), ["idle"], ["done", "running"]), true)
    ensures !Undo(Snapshot(Some("idle"), ["idle"], ["done", "running"])).1
  {
    assert ["idle", "running", "done"][..2] == ["idle", "running"];
    assert ["idle", "running"][..1] == ["idle"];
    assert [] + ["done"] == ["done"];
    assert ["done"] + ["running"] == ["done", "running"];
  }

  /** Redo returns to running; "pause" then goes to idle and the stale "done"
      stays on the undone stack, as forward moves never clear it. */
  lemma ExampleRedoThenPause()
    ensures Redo(Snapshot(Some("idle"), ["idle"], ["done", "running"]))
            == (Snapshot(Some("running"), ["idle", "running"], ["done"]), true)
    ensures Trigger(Example(), Snapshot(Some("running"), ["idle", "running"], ["done"]), "pause")
            == Ok(Snapshot(Some("idle"), ["idle", "running", "idle"], ["done"]))
  {
    var t := Example();
    assert Lookup(t, "running") == Some(t[1].def);
    assert ["done", "running"][..1] == ["done"];
    assert ["idle"] + ["running"] == ["idle", "running"];
    assert ["idle", "running"] + ["idle"] == ["idle", "running", "idle"];
  }

  /** An event the active state has no transition for, and a name that is not
      a key, both fail and change nothing. */
  lemma ExampleFailures()
    ensures Trigger(Example(), Init("idle"), "bogus") == Err(NoTransition)
    ensures ChangeState(Example(), Init("idle"), "nonexistent") == Err(InvalidState)
  {
  }

  /** `getStates("pause")` is ["running"]; `getStates("start")` is ["idle"]. */
  lemma ExampleQuery()
    ensures StatesWith(Example(), "pause") == ["running"]
    ensures StatesWith(Example(), "start") == ["idle"]
  {
  }
}
