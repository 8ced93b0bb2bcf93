/** The update as the code runs it, loop by loop. */
module UpdateActivation {
  import opened Wrappers
  import opened UpdateTransaction
  import opened UpdateScript
  import opened UpdateRows

  method RunPreflights(world: World, targets: seq<Target>) returns (calls: seq<Call>, ready: bool)
    ensures (calls, ready) == PreflightFrom(world, |targets|, 0, [])
  {
    calls := [];
    for i := 0 to |targets|
      invariant PreflightFrom(world, |targets|, i, calls) == PreflightFrom(world, |targets|, 0, [])
    {
      var answer := world(calls, Preflight(i));
      calls := calls + [Call(Preflight(i), answer)];
      if answer == Threw { return calls, false; }
    }
    return calls, true;
  }

  method StopAll(world: World, targets: seq<Target>, calls: seq<Call>) returns (p: Pass)
    ensures p == StopPass(world, targets, calls)
  {
    var order := Sorted(targets, Running(targets), StopRank);
    p := Pass(calls, [], [], [], Fine);
    for i := 0 to |order|
      invariant StopFrom(world, order, i, p) == StopPass(world, targets, calls)
    {
      var t := order[i];
      var answer := world(p.calls, Stop(t));
      p := p.(calls := p.calls + [Call(Stop(t), answer)]);
      if answer == Threw { return p.(trouble := AtStop(t)); }
      p := p.(stopped := p.stopped + [t]);
    }
  }

  method StartAll(world: World, targets: seq<Target>, version: nat, before: Pass) returns (p: Pass)
    requires InRange(before.stopped, |targets|)
    ensures p == StartPass(world, targets, version, before)
  {
    p := before;
    if p.trouble != Fine { return; }
    var order := Sorted(targets, p.stopped, StartRank);
    for i := 0 to |order|
      invariant StartFrom(world, version, order, i, p) == StartPass(world, targets, version, before)
    {
      var t := order[i];
      p := p.(started := p.started + [t]);
      var answer := world(p.calls, Start(t, New));
      p := p.(calls := p.calls + [Call(Start(t, New), answer)]);
      if answer == Threw { return p.(trouble := AtStart(t)); }
      answer := world(p.calls, Verify(t, Some(version)));
      p := p.(calls := p.calls + [Call(Verify(t, Some(version)), answer)]);
      if answer == Threw { return p.(trouble := AtStart(t)); }
    }
  }

  method PrepareAll(world: World, targets: seq<Target>, before: Pass) returns (p: Pass)
    ensures p == PreparePass(world, targets, before)
  {
    p := before;
    if p.trouble != Fine { return; }
    var order := Idle(targets);
    for i := 0 to |order|
      invariant PrepareFrom(world, order, i, p) == PreparePass(world, targets, before)
    {
      var t := order[i];
      var answer := world(p.calls, Prepare(t));
      p := p.(calls := p.calls + [Call(Prepare(t), answer)]);
      if answer == Threw { return p.(trouble := AtPrepare(t)); }
      if answer.Gave? { p := p.(registered := p.registered + [t]); }
    }
  }

  method UndoAll(world: World, targets: seq<Target>, p: Pass) returns (u: Undo)
    requires InRange(p.stopped, |targets|)
    ensures u == Rollback(world, targets, p)
  {
    u := Undo(p.calls, [], {});
    var registrations := Reversed(p.registered);
    for i := 0 to |registrations|
      invariant RestoreFrom(world, registrations, i, u) == RestoreFrom(world, registrations, 0, Undo(p.calls, [], {}))
    {
      var t := registrations[i];
      var answer := world(u.calls, Restore(t));
      u := u.(calls := u.calls + [Call(Restore(t), answer)]);
      if answer == Threw { u := u.(rows := u.rows + [Row(t, Failed, Some(RegistrationRestore), None)]); }
    }
    var replacements := Reversed(p.started);
    ghost var restored := u;
    for i := 0 to |replacements|
      invariant RetireFrom(world, replacements, i, u) == RetireFrom(world, replacements, 0, restored)
    {
      var t := replacements[i];
      var answer := world(u.calls, Stop(t));
      u := u.(calls := u.calls + [Call(Stop(t), answer)]);
      if answer == Threw {
        u := u.(failedStops := u.failedStops + {t}, rows := u.rows + [Row(t, Failed, Some(ReplacementStop), None)]);
      }
    }
    var order := Sorted(targets, p.stopped, StartRank);
    ghost var retired := u;
    for i := 0 to |order|
      invariant ReviveFrom(world, targets, order, i, u) == ReviveFrom(world, targets, order, 0, retired)
    {
      if order[i] !in u.failedStops {
        u := ReviveOne(world, targets[order[i]], order[i], u);
      }
    }
  }

  /** Start the captured source again and confirm it; anything that throws leaves an unverified row. */
  method ReviveOne(world: World, target: Target, t: nat, before: Undo) returns (u: Undo)
    ensures u == Revive(world, target, t, before)
  {
    u := before;
    var failed := u.(rows := u.rows + [Row(t, Failed, Some(RestoreUnverified), None)]);
    if target.previousEntry.None? { return failed; }
    var answer := world(u.calls, Start(t, Old(target.previousEntry.value)));
    u := u.(calls := u.calls + [Call(Start(t, Old(target.previousEntry.value)), answer)]);
    var version: Option<nat> := None;
    if answer != Threw {
      if target.verifiesRestored {
        answer := world(u.calls, VerifyRestored(t));
        u := u.(calls := u.calls + [Call(VerifyRestored(t), answer)]);
        if answer.Gave? { version := Some(answer.value); }
      } else if target.previousVersion.Some? {
        answer := world(u.calls, Verify(t, target.previousVersion));
        u := u.(calls := u.calls + [Call(Verify(t, target.previousVersion), answer)]);
        version := target.previousVersion;
      } else if target.verifiesPrevious {
        answer := world(u.calls, VerifyPrevious(t));
        u := u.(calls := u.calls + [Call(VerifyPrevious(t), answer)]);
      }
    }
    u := u.(rows := u.rows
            + [if answer == Threw then Row(t, Failed, Some(RestoreUnverified), None)
               else Row(t, Restored, None, version)]);
  }

  /** Stage and validate the package before this. */
  method ActivateUpdate(world: World, targets: seq<Target>, version: nat) returns (outcome: Outcome)
    ensures outcome == Activated(world, targets, version)
    ensures exists c :: Follows(world, targets, version, outcome, c)
    ensures RowsTell(targets, outcome)
  {
    ghost var c := UpdateFollowsTheScript(world, targets, version);
    UpdateTells(world, targets, version);
    hide Follows, RowsTell;
    var calls, ready := RunPreflights(world, targets);
    if !ready { return Thrown(calls); }
    var p := StopAll(world, targets, calls);
    p := StartAll(world, targets, version, p);
    p := PrepareAll(world, targets, p);
    if p.trouble == Fine { return Reported(p.calls, DoneRows(targets)); }
    var u := UndoAll(world, targets, p);
    var rows := AddLeft(targets, p, u.rows);
    return Reported(u.calls, rows);
  }

  /** A row for every target that was not stopped. */
  method AddLeft(targets: seq<Target>, p: Pass, before: seq<Row>) returns (rows: seq<Row>)
    ensures rows == LeftFrom(targets, p, 0, before)
  {
    rows := before;
    for i := 0 to |targets|
      invariant LeftFrom(targets, p, i, rows) == LeftFrom(targets, p, 0, before)
    {
      if i !in p.stopped { rows := rows + [LeftRow(targets[i], i, p.trouble)]; }
    }
  }
}
