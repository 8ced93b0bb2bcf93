/** What a failed update reports, and what a clean report proves about the runtimes. */
module UpdateReport {
  import opened Wrappers
  import opened UpdateTransaction
  import opened UpdateSafety

  function One(b: bool): nat { if b then 1 else 0 }

  function CountRows(rows: seq<Row>, t: nat): nat {
    if rows == [] then 0 else CountRows(rows[..|rows| - 1], t) + One(rows[|rows| - 1].t == t)
  }

  lemma CountNext(rows: seq<Row>, row: Row, t: nat)
    ensures CountRows(rows + [row], t) == CountRows(rows, t) + One(row.t == t)
  {
    assert (rows + [row])[..|rows|] == rows;
  }

  // ----- registrations -----

  /** A restore of the registration was called, at or after `from`, and ended so. */
  predicate RestoreDone(calls: seq<Call>, from: nat, t: nat, threw: bool) {
    exists k :: from <= k < |calls| && calls[k].ask == Restore(t) && (calls[k].answer == Threw <==> threw)
  }

  lemma RestoreNext(calls: seq<Call>, c: Call, from: nat, t: nat, threw: bool)
    requires from <= |calls|
    ensures RestoreDone(calls + [c], from, t, threw)
       <==> RestoreDone(calls, from, t, threw) || (c.ask == Restore(t) && (c.answer == Threw <==> threw))
  {
    var next := calls + [c];
    if RestoreDone(calls, from, t, threw) {
      var k :| from <= k < |calls| && calls[k].ask == Restore(t) && (calls[k].answer == Threw <==> threw);
      assert next[k].ask == Restore(t);
    }
    if c.ask == Restore(t) { assert next[|calls|].ask == Restore(t); }
  }

  /** Rows so far: one for each restore that threw, and one for each replacement that would not stop. */
  ghost predicate Counted(u: Undo, from: nat) {
    from <= |u.calls|
    && forall t: nat :: CountRows(u.rows, t) == One(RestoreDone(u.calls, from, t, true)) + One(t in u.failedStops)
  }

  ghost predicate Clean(rows: seq<Row>) {
    forall k :: 0 <= k < |rows| ==>
      rows[k].reason !in {Some(RegistrationRestore), Some(ReplacementStop), Some(RestoreUnverified)}
  }

  ghost predicate NoneUpdated(rows: seq<Row>) { forall k :: 0 <= k < |rows| ==> rows[k].state != Updated }

  lemma {:induction false} RestoresAreCounted(world: World, list: seq<nat>, i: nat, u: Undo, from: nat)
    requires i <= |list| && Distinct(list) && Counted(u, from) && u.failedStops == {} && NoneUpdated(u.rows)
    requires forall j :: i <= j < |list| ==>
               !RestoreDone(u.calls, from, list[j], true) && !RestoreDone(u.calls, from, list[j], false)
    requires forall j :: 0 <= j < i ==>
               RestoreDone(u.calls, from, list[j], true) || RestoreDone(u.calls, from, list[j], false)
    requires (exists t: nat :: RestoreDone(u.calls, from, t, true)) ==> !Clean(u.rows)
    ensures var r := RestoreFrom(world, list, i, u);
            && Counted(r, from) && NoneUpdated(r.rows) && r.failedStops == {}
            && (forall j :: 0 <= j < |list| ==>
                  RestoreDone(r.calls, from, list[j], true) || RestoreDone(r.calls, from, list[j], false))
            && ((exists t: nat :: RestoreDone(r.calls, from, t, true)) ==> !Clean(r.rows))
    decreases |list| - i
  {
    if i < |list| {
      var t := list[i];
      var c := Call(Restore(t), world(u.calls, Restore(t)));
      var row := Row(t, Failed, Some(RegistrationRestore), None);
      var next := if c.answer != Threw then u.(calls := u.calls + [c])
                  else u.(calls := u.calls + [c], rows := u.rows + [row]);
      forall x: nat, threw: bool { RestoreNext(u.calls, c, from, x, threw); }
      forall x: nat { CountNext(u.rows, row, x); }
      hide RestoreDone, CountRows;
      assert !Clean(u.rows) ==> !Clean(u.rows + [row]) by { if !Clean(u.rows) { CleanPrefix(u.rows, [row]); } }
      assert !Clean(u.rows + [row]) by { assert (u.rows + [row])[|u.rows|] == row; }
      RestoresAreCounted(world, list, i + 1, next, from);
    }
  }

  lemma CleanPrefix(a: seq<Row>, b: seq<Row>)
    ensures Clean(a + b) ==> Clean(a) && Clean(b)
  {
    if Clean(a + b) {
      forall k | 0 <= k < |a|
        ensures a[k].reason !in {Some(RegistrationRestore), Some(ReplacementStop), Some(RestoreUnverified)}
      {
        assert (a + b)[k] == a[k];
      }
      forall k | 0 <= k < |b|
        ensures b[k].reason !in {Some(RegistrationRestore), Some(ReplacementStop), Some(RestoreUnverified)}
      {
        assert (a + b)[|a| + k] == b[k];
      }
    }
  }

  // ----- replacements -----

  lemma {:induction false} RetiresAreCounted(world: World, list: seq<nat>, i: nat, u: Undo, from: nat)
    requires i <= |list| && Distinct(list) && Counted(u, from) && NoneUpdated(u.rows)
    requires forall j :: i <= j < |list| ==> list[j] !in u.failedStops
    requires u.failedStops != {} ==> !Clean(u.rows)
    ensures var r := RetireFrom(world, list, i, u);
            && Counted(r, from) && NoneUpdated(r.rows) && u.rows <= r.rows && u.calls <= r.calls
            && (forall t: nat :: t in r.failedStops ==> t in u.failedStops || t in list)
            && (r.failedStops != {} ==> !Clean(r.rows))
            && (forall t: nat, threw: bool ::
                  RestoreDone(r.calls, from, t, threw) == RestoreDone(u.calls, from, t, threw))
    decreases |list| - i
  {
    if i < |list| {
      var t := list[i];
      var c := Call(Stop(t), world(u.calls, Stop(t)));
      var row := Row(t, Failed, Some(ReplacementStop), None);
      forall x: nat, threw: bool { RestoreNext(u.calls, c, from, x, threw); }
      forall x: nat { CountNext(u.rows, row, x); }
      assert !Clean(u.rows + [row]) by { assert (u.rows + [row])[|u.rows|] == row; }
      hide RestoreDone, CountRows, Clean;
      if c.answer != Threw {
        RetiresAreCounted(world, list, i + 1, u.(calls := u.calls + [c]), from);
      } else {
        RetiresAreCounted(world, list, i + 1,
                          u.(calls := u.calls + [c], failedStops := u.failedStops + {t}, rows := u.rows + [row]), from);
      }
    }
  }

  // ----- revivals -----

  /** The target runs its captured source again. */
  predicate PutBack(targets: seq<Target>, calls: seq<Call>, t: nat) {
    t < |targets| && targets[t].previousEntry.Some? && Status(calls, t) == Runs(Old(targets[t].previousEntry.value))
  }

  /** Rows so far, `done` being the targets already revived or given up. */
  ghost predicate Reported(targets: seq<Target>, u: Undo, from: nat, done: seq<nat>) {
    && from <= |u.calls| && NoneUpdated(u.rows)
    && (forall t: nat ::
          CountRows(u.rows, t) == One(RestoreDone(u.calls, from, t, true)) + One(t in u.failedStops || t in done))
    && (Clean(u.rows) ==> u.failedStops == {} && forall t: nat :: t in done ==> PutBack(targets, u.calls, t))
  }

  lemma ReviveIsReported(world: World, targets: seq<Target>, t: nat, u: Undo, from: nat, done: seq<nat>)
    requires t < |targets| && Reported(targets, u, from, done) && t !in done && t !in u.failedStops
    requires Orderly(targets, u.calls)
    requires targets[t].previousEntry.Some? ==> Allowed(targets, u.calls, Start(t, Old(targets[t].previousEntry.value)))
    ensures Reported(targets, Revive(world, targets[t], t, u), from, done + [t])
    ensures forall x: nat, threw: bool ::
              RestoreDone(Revive(world, targets[t], t, u).calls, from, x, threw) == RestoreDone(u.calls, from, x, threw)
    ensures u.calls <= Revive(world, targets[t], t, u).calls && u.rows <= Revive(world, targets[t], t, u).rows
  {
    var r := Revive(world, targets[t], t, u);
    var row := r.rows[|u.rows|];
    ReviveCalls(world, targets, t, u);
    ReviveRestoresNothing(world, targets[t], t, u, from);
    assert r.rows == u.rows + [row];
    forall x: nat { CountNext(u.rows, row, x); }
    if Clean(r.rows) {
      CleanPrefix(u.rows, [row]);
      assert [row][0] == row;
    }
    hide RestoreDone, CountRows, Clean, Orderly, Status, Revive;
  }

  lemma ReviveRestoresNothing(world: World, target: Target, t: nat, u: Undo, from: nat)
    requires from <= |u.calls|
    ensures u.calls <= Revive(world, target, t, u).calls
    ensures forall x: nat, threw: bool ::
              RestoreDone(Revive(world, target, t, u).calls, from, x, threw) == RestoreDone(u.calls, from, x, threw)
  {
    if target.previousEntry.Some? {
      var start := Call(Start(t, Old(target.previousEntry.value)),
                        world(u.calls, Start(t, Old(target.previousEntry.value))));
      var calls := u.calls + [start];
      forall x: nat, threw: bool { RestoreNext(u.calls, start, from, x, threw); }
      forall c: Call, x: nat, threw: bool | !c.ask.Restore? { RestoreNext(calls, c, from, x, threw); }
      hide RestoreDone;
    }
  }

  lemma {:induction false} RevivalsAreReported(world: World, targets: seq<Target>, stopped: seq<nat>, order: seq<nat>,
                                               i: nat, u: Undo, from: nat)
    requires StartOrder(targets, order, stopped) && i <= |order| && Reviving(targets, stopped, order, i, u)
    requires Reported(targets, u, from, order[..i])
    ensures var r := ReviveFrom(world, targets, order, i, u);
            && (forall t: nat, threw: bool ::
                  RestoreDone(r.calls, from, t, threw) == RestoreDone(u.calls, from, t, threw))
            && Reported(targets, r, from, order) && u.calls <= r.calls && u.rows <= r.rows
    decreases |order| - i
  {
    if i == |order| {
      assert order[..i] == order;
    } else {
      var t := order[i];
      assert order[..i + 1] == order[..i] + [t] && t !in order[..i];
      ReviveStep(world, targets, stopped, order, i, u);
      var next := if t in u.failedStops then u else Revive(world, targets[t], t, u);
      if t in u.failedStops {
        assert Reported(targets, u, from, order[..i + 1]);
      } else {
        assert targets[t].previousEntry.Some? ==>
          Allowed(targets, u.calls, Start(t, Old(targets[t].previousEntry.value))) by {
          if targets[t].previousEntry.Some? { ReviveIsAllowed(targets, stopped, order, i, u); }
        }
        hide Reported;
        ReviveIsReported(world, targets, t, u, from, order[..i]);
      }
      hide Reviving, StartOrder, Reported, RestoreDone, Revive;
      RevivalsAreReported(world, targets, stopped, order, i + 1, next, from);
    }
  }

  lemma ReviveStep(world: World, targets: seq<Target>, stopped: seq<nat>, order: seq<nat>, i: nat, u: Undo)
    requires StartOrder(targets, order, stopped) && i < |order| && Reviving(targets, stopped, order, i, u)
    ensures Reviving(targets, stopped, order, i + 1,
                     if order[i] in u.failedStops then u else Revive(world, targets[order[i]], order[i], u))
  {
    var t := order[i];
    assert order[i..] == [t] + order[i + 1..] && order[..i + 1] == order[..i] + [t];
    assert t !in order[..i] && t !in order[i + 1..];
    if t !in u.failedStops {
      if targets[t].previousEntry.Some? { ReviveIsAllowed(targets, stopped, order, i, u); }
      ReviveCalls(world, targets, t, u);
    }
    hide Orderly, Status, Revive;
  }

  // ----- the rest -----

  lemma {:induction false} LeftIsCounted(targets: seq<Target>, p: Pass, i: nat, rows: seq<Row>, t: nat)
    requires i <= |targets| && NoneUpdated(rows)
    ensures var r := LeftFrom(targets, p, i, rows);
            CountRows(r, t) == CountRows(rows, t) + One(i <= t < |targets| && t !in p.stopped) && rows <= r
            && NoneUpdated(r)
    decreases |targets| - i
  {
    if i < |targets| {
      var row := LeftRow(targets[i], i, p.trouble);
      CountNext(rows, row, t);
      hide CountRows;
      LeftIsCounted(targets, p, i + 1, if i in p.stopped then rows else rows + [row], t);
    }
  }

  // ----- reports -----

  /** The forward passes of an update whose preflights pass. */
  ghost function ForwardOf(world: World, targets: seq<Target>, version: nat): Pass {
    Forward(world, targets, version, PreflightFrom(world, |targets|, 0, []).0)
  }

  /** The update broke off after the preflights, and was undone. */
  ghost predicate Undone(world: World, targets: seq<Target>, version: nat) {
    PreflightFrom(world, |targets|, 0, []).1 && ForwardOf(world, targets, version).trouble != Fine
  }

  lemma RetiredIsCounted(world: World, targets: seq<Target>, p: Pass)
    requires Broken(targets, p) && Distinct(p.registered)
    ensures var u := Retired(world, p);
            && Reported(targets, u, |p.calls|, [])
            && (forall t: nat :: t in u.failedStops ==> t in p.stopped)
            && (forall t: nat :: t in p.registered ==>
                  RestoreDone(u.calls, |p.calls|, t, true) || RestoreDone(u.calls, |p.calls|, t, false))
            && ((exists t: nat :: RestoreDone(u.calls, |p.calls|, t, true)) ==> !Clean(u.rows))
  {
    var from, list := |p.calls|, Reversed(p.registered);
    var u0 := Undo(p.calls, [], {});
    forall t: nat, threw: bool { NothingRestoredYet(p.calls, t, threw); }
    RestoresAreCounted(world, list, 0, u0, from);
    var u1 := RestoreFrom(world, list, 0, u0);
    forall t: nat | t in p.registered
      ensures RestoreDone(u1.calls, from, t, true) || RestoreDone(u1.calls, from, t, false)
    {
      assert t in list;
      var j :| 0 <= j < |list| && list[j] == t;
    }
    RetiresAreCounted(world, Reversed(p.started), 0, u1, from);
    var u2 := RetireFrom(world, Reversed(p.started), 0, u1);
    assert u2.rows == u1.rows + u2.rows[|u1.rows|..];
    CleanPrefix(u1.rows, u2.rows[|u1.rows|..]);
    hide RestoreDone, CountRows, Clean, Orderly, Status;
  }

  lemma NothingRestoredYet(calls: seq<Call>, t: nat, threw: bool)
    ensures !RestoreDone(calls, |calls|, t, threw)
  {
  }

  lemma RollbackIsReported(world: World, targets: seq<Target>, p: Pass)
    requires Broken(targets, p) && Distinct(p.registered)
    ensures var u := Rollback(world, targets, p);
            && Reported(targets, u, |p.calls|, p.stopped)
            && (forall t: nat :: t in p.registered ==>
                  RestoreDone(u.calls, |p.calls|, t, true) || RestoreDone(u.calls, |p.calls|, t, false))
            && ((exists t: nat :: RestoreDone(u.calls, |p.calls|, t, true)) ==> !Clean(u.rows))
            && (forall t: nat :: t in u.failedStops ==> t in p.stopped)
  {
    var from, order, u := |p.calls|, Sorted(targets, p.stopped, StartRank), Retired(world, p);
    RetiredIsCounted(world, targets, p);
    StartOrderIs(targets, p);
    RetiredIsOrderly(world, targets, p);
    RetiredCanRevive(targets, p, order, u);
    assert order[..0] == [];
    var r := ReviveFrom(world, targets, order, 0, u);
    assert r == Rollback(world, targets, p);
    hide RestoreDone, CountRows, Clean, Orderly, Status, Broken, Retiring, Reviving, Sorted, RestoreFrom, RetireFrom;
    hide PutBack;
    RevivalsAreReported(world, targets, p.stopped, order, 0, u, from);
    RevivalsKeepFailedStops(world, targets, order, 0, u);
    assert r.rows == u.rows + r.rows[|u.rows|..];
    CleanPrefix(u.rows, r.rows[|u.rows|..]);
    hide ReviveFrom, Rollback, Retired;
    ReportedSame(targets, r, from, order, p.stopped);
  }

  lemma ReportedSame(targets: seq<Target>, u: Undo, from: nat, done: seq<nat>, stopped: seq<nat>)
    requires Reported(targets, u, from, done)
    requires (forall t: nat :: t in done <==> t in stopped) && (forall t: nat :: t in u.failedStops ==> t in stopped)
    ensures Reported(targets, u, from, stopped)
  {
    hide RestoreDone, CountRows, Clean, PutBack;
  }

  lemma {:induction false} RevivalsKeepFailedStops(world: World, targets: seq<Target>, order: seq<nat>, i: nat, u: Undo)
    requires i <= |order| && InRange(order, |targets|)
    ensures ReviveFrom(world, targets, order, i, u).failedStops == u.failedStops
    decreases |order| - i
  {
    if i < |order| {
      RevivalsKeepFailedStops(world, targets, order, i + 1,
                              if order[i] in u.failedStops then u else Revive(world, targets[order[i]], order[i], u));
    }
  }

  lemma UndoneIsReported(world: World, targets: seq<Target>, version: nat)
    requires Undone(world, targets, version)
    ensures var p := ForwardOf(world, targets, version);
            var u := Rollback(world, targets, p);
            && InRange(p.stopped, |targets|) && Broken(targets, p) && Registrations(p.calls, p.registered)
            && Reported(targets, u, |p.calls|, p.stopped)
            && (forall t: nat :: t in u.failedStops ==> t in p.stopped)
            && (forall t: nat :: t in p.registered ==>
                  RestoreDone(u.calls, |p.calls|, t, true) || RestoreDone(u.calls, |p.calls|, t, false))
            && ((exists t: nat :: RestoreDone(u.calls, |p.calls|, t, true)) ==> !Clean(u.rows))
  {
    var calls, p := PreflightFrom(world, |targets|, 0, []).0, ForwardOf(world, targets, version);
    PreflightsAreQuiet(world, targets, 0, []);
    ForwardIsBroken(world, targets, version, calls);
    hide Forward, PreflightFrom, Broken, Registrations, Reported, RestoreDone, Clean, Rollback;
    RollbackIsReported(world, targets, p);
  }

  lemma UndoneOutcome(world: World, targets: seq<Target>, version: nat)
    requires Undone(world, targets, version)
    ensures InRange(ForwardOf(world, targets, version).stopped, |targets|)
    ensures var p := ForwardOf(world, targets, version);
            var u := Rollback(world, targets, p);
            Activated(world, targets, version) == Outcome.Reported(u.calls, LeftFrom(targets, p, 0, u.rows))
  {
  }

  /**
   * A failed update reports every target exactly once, and once more a target whose registration could not be restored;
   * it never reports an update.
   */
  lemma EveryTargetIsReportedOnce(world: World, targets: seq<Target>, version: nat, t: nat)
    requires Undone(world, targets, version) && t < |targets|
    ensures var o, from := Activated(world, targets, version), |ForwardOf(world, targets, version).calls|;
            && o.Reported? && NoneUpdated(o.rows)
            && CountRows(o.rows, t) == 1 + One(RestoreDone(o.calls, from, t, true))
  {
    UndoneIsReported(world, targets, version);
    UndoneOutcome(world, targets, version);
    var p := ForwardOf(world, targets, version);
    hide Activated, Undone, ForwardOf, Rollback, Broken, Registrations, RestoreDone, CountRows, Clean;
    LeftIsCounted(targets, p, 0, Rollback(world, targets, p).rows, t);
  }

  lemma CleanRows(targets: seq<Target>, p: Pass, rows: seq<Row>)
    requires NoneUpdated(rows) && Clean(LeftFrom(targets, p, 0, rows))
    ensures Clean(rows)
  {
    LeftIsCounted(targets, p, 0, rows, 0);
    var all := LeftFrom(targets, p, 0, rows);
    assert all == rows + all[|rows|..];
    CleanPrefix(rows, all[|rows|..]);
  }

  /**
   * A failed update whose report shows no failed restore, stop or start has put everything back: every target it
   * stopped runs its captured source again, and every registration it changed is restored.
   */
  lemma CleanReportMeansRestored(world: World, targets: seq<Target>, version: nat, t: nat)
    requires Undone(world, targets, version) && Clean(Activated(world, targets, version).rows) && t < |targets|
    ensures var o, p := Activated(world, targets, version), ForwardOf(world, targets, version);
            && (t in p.stopped ==> PutBack(targets, o.calls, t))
            && ((exists k :: 0 <= k < |p.calls| && p.calls[k].ask == Prepare(t) && p.calls[k].answer.Gave?)
                  ==> RestoreDone(o.calls, |p.calls|, t, false) && !RestoreDone(o.calls, |p.calls|, t, true))
  {
    hide Activated, Undone, ForwardOf, Rollback, Broken, RestoreDone, CountRows, Clean, LeftFrom, PutBack;
    UndoneIsReported(world, targets, version);
    UndoneOutcome(world, targets, version);
    var p := ForwardOf(world, targets, version);
    var u := Rollback(world, targets, p);
    CleanRows(targets, p, u.rows);
  }

  // ----- what is back after a rollback, whatever it reports -----

  /** The call was made at or after `from`, and threw. */
  predicate ThrewSince(calls: seq<Call>, from: nat, ask: Ask) {
    exists k :: from <= k < |calls| && calls[k].ask == ask && calls[k].answer == Threw
  }

  lemma ThrewNext(calls: seq<Call>, c: Call, from: nat, ask: Ask)
    requires from <= |calls|
    ensures ThrewSince(calls + [c], from, ask) <==> ThrewSince(calls, from, ask) || (c.ask == ask && c.answer == Threw)
  {
    var next := calls + [c];
    if ThrewSince(calls, from, ask) {
      var k :| from <= k < |calls| && calls[k].ask == ask && calls[k].answer == Threw;
      assert next[k].ask == ask;
    }
    if c.ask == ask && c.answer == Threw { assert next[|calls|].ask == ask; }
  }

  /** The source was captured, its replacement stopped, and starting it again did not throw. */
  predicate CanBePutBack(targets: seq<Target>, calls: seq<Call>, from: nat, t: nat) {
    && t < |targets| && targets[t].previousEntry.Some?
    && !ThrewSince(calls, from, Stop(t)) && !ThrewSince(calls, from, Start(t, Old(targets[t].previousEntry.value)))
  }

  predicate Decided(targets: seq<Target>, calls: seq<Call>, from: nat, t: nat) {
    PutBack(targets, calls, t) <==> CanBePutBack(targets, calls, from, t)
  }

  /** Not started again yet: the latest of the target is its stop, which threw exactly when it is listed as failed. */
  ghost predicate Undecided(targets: seq<Target>, u: Undo, from: nat, t: nat) {
    && (t in u.failedStops <==> ThrewSince(u.calls, from, Stop(t)))
    && (t in u.failedStops ==> Status(u.calls, t) == Doubtful)
    && (t < |targets| && targets[t].previousEntry.Some? ==>
          !ThrewSince(u.calls, from, Start(t, Old(targets[t].previousEntry.value))))
  }

  lemma ReviveLeavesOthers(world: World, targets: seq<Target>, t: nat, u: Undo, from: nat, x: nat)
    requires t < |targets| && from <= |u.calls| && x != t
    requires Orderly(targets, u.calls)
    requires targets[t].previousEntry.Some? ==> Allowed(targets, u.calls, Start(t, Old(targets[t].previousEntry.value)))
    ensures Status(Revive(world, targets[t], t, u).calls, x) == Status(u.calls, x)
    ensures forall ask: Ask :: ask.t == x ==>
              (ThrewSince(Revive(world, targets[t], t, u).calls, from, ask) <==> ThrewSince(u.calls, from, ask))
  {
    ReviveCalls(world, targets, t, u);
    hide Status, Orderly, Allowed;
    if targets[t].previousEntry.Some? {
      var ask := Start(t, Old(targets[t].previousEntry.value));
      var start := Call(ask, world(u.calls, ask));
      forall a: Ask { ThrewNext(u.calls, start, from, a); }
      forall a: Ask, c: Call { ThrewNext(u.calls + [start], c, from, a); }
      hide ThrewSince;
    }
  }

  lemma ReviveDecides(world: World, targets: seq<Target>, t: nat, u: Undo, from: nat)
    requires t < |targets| && from <= |u.calls| && t !in u.failedStops && Undecided(targets, u, from, t)
    requires Orderly(targets, u.calls) && Status(u.calls, t) == Down
    requires targets[t].previousEntry.Some? ==> Allowed(targets, u.calls, Start(t, Old(targets[t].previousEntry.value)))
    ensures Decided(targets, Revive(world, targets[t], t, u).calls, from, t)
  {
    hide Orderly, Allowed, Revive;
    if targets[t].previousEntry.Some? {
      var ask := Start(t, Old(targets[t].previousEntry.value));
      var start := Call(ask, world(u.calls, ask));
      var calls := u.calls + [start];
      ThrewNext(u.calls, start, from, ask);
      ThrewNext(u.calls, start, from, Stop(t));
      assert Status(calls, t)
        == if start.answer == Threw then Doubtful else Runs(ask.entry) by { assert calls[..|calls| - 1] == u.calls; }
      ReviveGoesOn(world, targets[t], t, u, start);
      if c :| Revive(world, targets[t], t, u).calls == calls + [c] && !c.ask.Start? && !c.ask.Stop? {
        ThrewNext(calls, c, from, ask);
        ThrewNext(calls, c, from, Stop(t));
        assert (calls + [c])[..|calls|] == calls;
      }
    } else {
      assert Revive(world, targets[t], t, u).calls == u.calls by { ReviveCalls(world, targets, t, u); }
    }
  }

  /** After the start comes at most a call that verifies. */
  lemma ReviveGoesOn(world: World, target: Target, t: nat, u: Undo, start: Call)
    requires target.previousEntry.Some?
    requires start
               == Call(Start(t, Old(target.previousEntry.value)),
                       world(u.calls, Start(t, Old(target.previousEntry.value))))
    ensures var calls, r := u.calls + [start], Revive(world, target, t, u).calls;
            r == calls || exists c: Call :: r == calls + [c] && !c.ask.Start? && !c.ask.Stop?
  {
  }

  lemma {:induction false} RevivalsDecide(world: World, targets: seq<Target>, stopped: seq<nat>, order: seq<nat>,
                                          i: nat, u: Undo, from: nat)
    requires StartOrder(targets, order, stopped) && i <= |order| && Reviving(targets, stopped, order, i, u)
             && from <= |u.calls|
    requires forall t: nat :: t in order[..i] ==> Decided(targets, u.calls, from, t)
    requires forall t: nat :: t in order[i..] ==> Undecided(targets, u, from, t)
    ensures forall t: nat :: t in order ==> Decided(targets, ReviveFrom(world, targets, order, i, u).calls, from, t)
    decreases |order| - i
  {
    if i == |order| {
      assert order[..i] == order;
    } else {
      var t := order[i];
      var next := if t in u.failedStops then u else Revive(world, targets[t], t, u);
      assert order[i..] == [t] + order[i + 1..] && order[..i + 1] == order[..i] + [t];
      assert t !in order[..i] && t !in order[i + 1..];
      ReviveStep(world, targets, stopped, order, i, u);
      RevivalDecides(world, targets, stopped, order, i, u, from);
      hide Reviving, StartOrder, Decided, Undecided, Revive;
      RevivalsDecide(world, targets, stopped, order, i + 1, next, from);
    }
  }

  lemma RevivalDecides(world: World, targets: seq<Target>, stopped: seq<nat>, order: seq<nat>, i: nat, u: Undo,
                       from: nat)
    requires StartOrder(targets, order, stopped) && i < |order| && Reviving(targets, stopped, order, i, u)
             && from <= |u.calls|
    requires forall t: nat :: t in order[..i] ==> Decided(targets, u.calls, from, t)
    requires forall t: nat :: t in order[i..] ==> Undecided(targets, u, from, t)
    ensures var next := if order[i] in u.failedStops then u else Revive(world, targets[order[i]], order[i], u);
            && from <= |next.calls|
            && (forall t: nat :: t in order[..i] ==> Decided(targets, next.calls, from, t))
            && (forall t: nat :: t in order[i + 1..] ==> Undecided(targets, next, from, t))
            && Decided(targets, next.calls, from, order[i])
  {
    var t := order[i];
    assert order[i..] == [t] + order[i + 1..] && t !in order[..i] && t !in order[i + 1..];
    if t !in u.failedStops {
      if targets[t].previousEntry.Some? { ReviveIsAllowed(targets, stopped, order, i, u); }
      assert t in order[i..] && Status(u.calls, t) == Down;
      ReviveDecides(world, targets, t, u, from);
      ReviveExtends(world, targets[t], t, u);
      ReviveKeepsStops(world, targets[t], t, u);
      forall x: nat | x != t
        ensures Decided(targets, Revive(world, targets[t], t, u).calls, from, x) <==> Decided(targets, u.calls, from, x)
        ensures Undecided(targets, Revive(world, targets[t], t, u), from, x) <==> Undecided(targets, u, from, x)
      {
        ReviveLeavesOthers(world, targets, t, u, from, x);
        hide Status, Orderly, Allowed, ThrewSince, Revive;
      }
    }
  }

  lemma ReviveKeepsStops(world: World, target: Target, t: nat, u: Undo)
    ensures Revive(world, target, t, u).failedStops == u.failedStops
  {
  }

  /** Restoring registrations and stopping replacements: a stop is listed as failed exactly when it threw. */
  lemma RetiredIsUndecided(world: World, targets: seq<Target>, p: Pass)
    requires Broken(targets, p)
    ensures var u := Retired(world, p);
            && |p.calls| <= |u.calls| && forall t: nat :: t in p.stopped ==> Undecided(targets, u, |p.calls|, t)
  {
    var from, u0 := |p.calls|, Undo(p.calls, [], {});
    var u1 := RestoreFrom(world, Reversed(p.registered), 0, u0);
    RestoresThrowNoStop(world, Reversed(p.registered), 0, u0, from);
    RetiresThrow(world, Reversed(p.started), 0, u1, from);
    RetiredIsOrderly(world, targets, p);
    hide Orderly, Attempted, Status, RestoreFrom, RetireFrom, ThrewSince;
    var u, list := Retired(world, p), Reversed(p.started);
    assert list[..|list|] == list;
  }

  lemma {:induction false} RestoresThrowNoStop(world: World, list: seq<nat>, i: nat, u: Undo, from: nat)
    requires i <= |list| && from <= |u.calls| && u.failedStops == {}
    requires forall ask: Ask :: ask.Stop? || ask.Start? ==> !ThrewSince(u.calls, from, ask)
    ensures var r := RestoreFrom(world, list, i, u);
            && from <= |r.calls| && r.failedStops == {}
            && forall ask: Ask :: ask.Stop? || ask.Start? ==> !ThrewSince(r.calls, from, ask)
    decreases |list| - i
  {
    if i < |list| {
      var c := Call(Restore(list[i]), world(u.calls, Restore(list[i])));
      forall ask: Ask { ThrewNext(u.calls, c, from, ask); }
      hide ThrewSince;
      var next := if c.answer != Threw then u.(calls := u.calls + [c])
                  else u.(calls := u.calls + [c],
                          rows := u.rows + [Row(list[i], Failed, Some(RegistrationRestore), None)]);
      RestoresThrowNoStop(world, list, i + 1, next, from);
    }
  }

  lemma {:induction false} RetiresThrow(world: World, list: seq<nat>, i: nat, u: Undo, from: nat)
    requires i <= |list| && from <= |u.calls|
    requires forall t: nat :: t in u.failedStops <==> ThrewSince(u.calls, from, Stop(t))
    requires forall ask: Ask :: ask.Start? ==> !ThrewSince(u.calls, from, ask)
    ensures var r := RetireFrom(world, list, i, u);
            && from <= |r.calls|
            && (forall t: nat :: t in r.failedStops <==> ThrewSince(r.calls, from, Stop(t)))
            && forall ask: Ask :: ask.Start? ==> !ThrewSince(r.calls, from, ask)
    decreases |list| - i
  {
    if i < |list| {
      var t := list[i];
      var c := Call(Stop(t), world(u.calls, Stop(t)));
      forall ask: Ask { ThrewNext(u.calls, c, from, ask); }
      hide ThrewSince;
      var next := if c.answer != Threw then u.(calls := u.calls + [c])
                  else u.(calls := u.calls + [c], failedStops := u.failedStops + {t},
                          rows := u.rows + [Row(t, Failed, Some(ReplacementStop), None)]);
      RetiresThrow(world, list, i + 1, next, from);
    }
  }

  /**
   * What a rollback puts back, read off its calls: a target it stopped runs its captured source again exactly when one
   * was captured, stopping its replacement did not throw, and starting it did not; a changed registration is restored
   * exactly when restoring it did not throw.
   */
  lemma PutBackIsExact(world: World, targets: seq<Target>, version: nat, t: nat)
    requires Undone(world, targets, version) && t < |targets|
    ensures var o, p := Activated(world, targets, version), ForwardOf(world, targets, version);
            && (t in p.stopped ==> (PutBack(targets, o.calls, t) <==> CanBePutBack(targets, o.calls, |p.calls|, t)))
            && (t in p.registered ==>
                  (RestoreDone(o.calls, |p.calls|, t, false) || ThrewSince(o.calls, |p.calls|, Restore(t))))
  {
    UndoneIsReported(world, targets, version);
    UndoneOutcome(world, targets, version);
    var p := ForwardOf(world, targets, version);
    var order, u := Sorted(targets, p.stopped, StartRank), Retired(world, p);
    hide Activated, Undone, ForwardOf, Sorted, Reported, Registrations, Clean, CountRows;
    StartOrderIs(targets, p);
    RetiredIsOrderly(world, targets, p);
    RetiredCanRevive(targets, p, order, u);
    RetiredIsUndecided(world, targets, p);
    assert order[..0] == [] && order[0..] == order;
    assert Rollback(world, targets, p) == ReviveFrom(world, targets, order, 0, u);
    hide Broken, Retiring, Reviving, RestoreFrom, RetireFrom, ReviveFrom, Rollback, Undecided, Decided, PutBack;
    hide CanBePutBack;
    RevivalsDecide(world, targets, p.stopped, order, 0, u, |p.calls|);
    assert t in p.stopped ==> t in order;
    hide Retired;
    assert t in p.stopped ==> Decided(targets, Rollback(world, targets, p).calls, |p.calls|, t);
    DecidedIs(targets, Rollback(world, targets, p).calls, |p.calls|, t);
  }

  lemma DecidedIs(targets: seq<Target>, calls: seq<Call>, from: nat, t: nat)
    ensures Decided(targets, calls, from, t) <==>
              (PutBack(targets, calls, t) <==> CanBePutBack(targets, calls, from, t))
  {
  }

  /** When no call of the rollback throws, the targets that are back are exactly those whose source was captured. */
  lemma QuietRollbackPutsBack(world: World, targets: seq<Target>, version: nat, t: nat)
    requires Undone(world, targets, version) && t < |targets|
    requires var o, from := Activated(world, targets, version), |ForwardOf(world, targets, version).calls|;
             forall k :: from <= k < |o.calls| ==> o.calls[k].answer != Threw
    ensures var o, p := Activated(world, targets, version), ForwardOf(world, targets, version);
            && (t in p.stopped ==> (PutBack(targets, o.calls, t) <==> targets[t].previousEntry.Some?))
            && (t in p.registered ==> RestoreDone(o.calls, |p.calls|, t, false))
  {
    PutBackIsExact(world, targets, version, t);
    hide Activated, Undone, ForwardOf, PutBack;
  }

  /** An update that reports success runs the new version on every target that ran, and touched no other. */
  lemma SuccessRunsTheNewVersion(world: World, targets: seq<Target>, version: nat, t: nat)
    requires PreflightFrom(world, |targets|, 0, []).1 && !Undone(world, targets, version) && t < |targets|
    ensures var o := Activated(world, targets, version);
            && o.Reported? && |o.rows| == |targets| && o.rows[t] == DoneRow(targets[t], t)
            && Status(o.calls, t) == if targets[t].running then Runs(New) else Original
  {
    PreflightsAreQuiet(world, targets, 0, []);
    ForwardIsBroken(world, targets, version, PreflightFrom(world, |targets|, 0, []).0);
    hide Forward, PreflightFrom, Broken, Registrations, Rollback, LeftFrom, Status;
  }

  // ----- when OpenClaw comes back without its children -----

  /** A call that starts a running target's OpenClaw while a child that ran before is down. */
  ghost predicate StartsBesideStopped(targets: seq<Target>, calls: seq<Call>, k: nat, d: nat) {
    && k < |calls| && calls[k].ask.Start? && calls[k].ask.t < |targets|
    && targets[calls[k].ask.t].backend == OpenClaw && targets[calls[k].ask.t].running
    && d < |targets| && Child(targets[d]) && targets[d].running && Status(calls[..k], d) == Down
  }

  /** A target that can be put back: it ran, and its source was captured. */
  predicate Restorable(target: Target) { target.running && target.previousEntry.Some? }

  predicate Unrestorable(target: Target) { target.running && target.previousEntry.None? }

  lemma StartsBesideStoppedOnlyWithoutSource(world: World, targets: seq<Target>, version: nat, k: nat, d: nat)
    requires StartsBesideStopped(targets, Activated(world, targets, version).calls, k, d)
    ensures var calls := Activated(world, targets, version).calls;
            calls[k].ask.entry.Old? && Restorable(targets[calls[k].ask.t]) && Unrestorable(targets[d])
  {
    UpdatesAreOrderly(world, targets, version);
    hide Activated, Status;
    assert Allowed(targets, Activated(world, targets, version).calls[..k],
                   Activated(world, targets, version).calls[k].ask);
  }

  lemma ReviveExtends(world: World, target: Target, t: nat, u: Undo)
    ensures u.calls <= Revive(world, target, t, u).calls
    ensures target.previousEntry.Some? ==>
              |Revive(world, target, t, u).calls| > |u.calls|
              && Revive(world, target, t, u).calls[|u.calls|].ask == Start(t, Old(target.previousEntry.value))
  {
  }

  lemma {:induction false} RevivalsExtend(world: World, targets: seq<Target>, order: seq<nat>, i: nat, u: Undo)
    requires i <= |order| && InRange(order, |targets|)
    ensures u.calls <= ReviveFrom(world, targets, order, i, u).calls
    decreases |order| - i
  {
    if i < |order| {
      ReviveExtends(world, targets[order[i]], order[i], u);
      hide Revive;
      RevivalsExtend(world, targets, order, i + 1,
                     if order[i] in u.failedStops then u else Revive(world, targets[order[i]], order[i], u));
    }
  }

  /**
   * In a rollback, a stopped child without a captured source stays down while a stopped OpenClaw with one is started.
   */
  lemma {:induction false} RevivalLeavesChildDown(world: World, targets: seq<Target>, stopped: seq<nat>,
                                                  order: seq<nat>, i: nat, u: Undo, o: nat, d: nat)
      returns (k: nat)
    requires StartOrder(targets, order, stopped) && i <= |order| && Reviving(targets, stopped, order, i, u)
    requires o < |targets| && targets[o].backend == OpenClaw && Restorable(targets[o]) && o in order[i..]
             && o !in u.failedStops
    requires d < |targets| && Child(targets[d]) && Unrestorable(targets[d]) && Status(u.calls, d) == Down
    ensures StartsBesideStopped(targets, ReviveFrom(world, targets, order, i, u).calls, k, d)
    decreases |order| - i
  {
    var t := order[i];
    var next := if t in u.failedStops then u else Revive(world, targets[t], t, u);
    assert order[i..] == [t] + order[i + 1..];
    ReviveStep(world, targets, stopped, order, i, u);
    UnrestorableStaysDown(world, targets, stopped, order, i, u, d);
    ReviveExtends(world, targets[t], t, u);
    hide Reviving, Revive, Orderly, Status, StartOrder;
    if t == o {
      k := |u.calls|;
      RevivalsExtend(world, targets, order, i + 1, next);
      assert ReviveFrom(world, targets, order, i, u).calls[..k] == u.calls;
    } else {
      k := RevivalLeavesChildDown(world, targets, stopped, order, i + 1, next, o, d);
    }
  }

  lemma UnrestorableStaysDown(world: World, targets: seq<Target>, stopped: seq<nat>, order: seq<nat>, i: nat, u: Undo,
                              d: nat)
    requires StartOrder(targets, order, stopped) && i < |order| && Reviving(targets, stopped, order, i, u)
    requires d < |targets| && Unrestorable(targets[d])
    ensures Status((if order[i] in u.failedStops then u else Revive(world, targets[order[i]], order[i], u)).calls, d)
              == Status(u.calls, d)
  {
    var t := order[i];
    if t !in u.failedStops {
      if targets[t].previousEntry.Some? { ReviveIsAllowed(targets, stopped, order, i, u); }
      hide Allowed, Status, Revive;
      ReviveCalls(world, targets, t, u);
    }
  }

  /** Everything works except that no new version starts. */
  function NothingNewStarts(calls: seq<Call>, ask: Ask): Answer
  {
    if ask.Start? && ask.entry == New then Threw else Returned
  }

  lemma {:induction false} PreflightsPass(n: nat, i: nat, calls: seq<Call>)
    requires i <= n
    ensures PreflightFrom(NothingNewStarts, n, i, calls).1
    decreases n - i
  {
    if i < n { PreflightsPass(n, i + 1, Did(NothingNewStarts, calls, Preflight(i))); }
  }

  lemma {:induction false} StopsPass(order: seq<nat>, i: nat, p: Pass)
    requires i <= |order| && p.trouble == Fine && p.stopped == order[..i]
    ensures StopFrom(NothingNewStarts, order, i, p).trouble == Fine
            && StopFrom(NothingNewStarts, order, i, p).stopped == order
    decreases |order| - i
  {
    if i < |order| {
      assert order[..i + 1] == order[..i] + [order[i]];
      StopsPass(order, i + 1,
                p.(calls := Did(NothingNewStarts, p.calls, Stop(order[i])), stopped := p.stopped + [order[i]]));
    } else {
      assert order[..i] == order;
    }
  }

  lemma {:induction false} RetiresPass(list: seq<nat>, i: nat, u: Undo)
    requires i <= |list|
    ensures RetireFrom(NothingNewStarts, list, i, u).failedStops == u.failedStops
    ensures RestoreFrom(NothingNewStarts, list, i, u).failedStops == u.failedStops
    decreases |list| - i
  {
    if i < |list| {
      RetiresPass(list, i + 1, u.(calls := Did(NothingNewStarts, u.calls, Stop(list[i]))));
      RetiresPass(list, i + 1, u.(calls := Did(NothingNewStarts, u.calls, Restore(list[i]))));
    }
  }

  lemma EverythingStops(targets: seq<Target>, calls: seq<Call>, t: nat)
    requires t < |targets| && targets[t].running
    ensures StopPass(NothingNewStarts, targets, calls).trouble == Fine
    ensures t in StopPass(NothingNewStarts, targets, calls).stopped
            && Distinct(StopPass(NothingNewStarts, targets, calls).stopped)
  {
    var stops := Sorted(targets, Running(targets), StopRank);
    SortedIsSorted(targets, Running(targets), StopRank);
    hide Sorted;
    StopsPass(stops, 0, Pass(calls, [], [], [], Fine));
  }

  lemma NothingStarts(targets: seq<Target>, version: nat, p: Pass, t: nat)
    requires InRange(p.stopped, |targets|) && Distinct(p.stopped) && t in p.stopped && p.trouble == Fine
    ensures StartPass(NothingNewStarts, targets, version, p).trouble.AtStart?
  {
    SortedIsSorted(targets, p.stopped, StartRank);
    hide Sorted;
    assert t in Sorted(targets, p.stopped, StartRank);
  }

  lemma NoStopFails(p: Pass)
    ensures Retired(NothingNewStarts, p).failedStops == {}
  {
    RetiresPass(Reversed(p.registered), 0, Undo(p.calls, [], {}));
    RetiresPass(Reversed(p.started), 0,
                RestoreFrom(NothingNewStarts, Reversed(p.registered), 0, Undo(p.calls, [], {})));
  }

  /** When no new version starts, everything that ran is stopped, and the run breaks off at the first start. */
  lemma FailingStartStopsAll(targets: seq<Target>, version: nat, t: nat)
    requires t < |targets| && targets[t].running
    ensures Undone(NothingNewStarts, targets, version)
    ensures t in ForwardOf(NothingNewStarts, targets, version).stopped
  {
    PreflightsPass(|targets|, 0, []);
    var calls := PreflightFrom(NothingNewStarts, |targets|, 0, []).0;
    EverythingStops(targets, calls, t);
    var p := StopPass(NothingNewStarts, targets, calls);
    NothingStarts(targets, version, p, t);
    hide StopPass, StartPass, PreflightFrom, NothingNewStarts;
  }

  lemma RollbackLeavesChildDown(targets: seq<Target>, version: nat, o: nat, d: nat) returns (k: nat)
    requires o < |targets| && targets[o].backend == OpenClaw && Restorable(targets[o])
    requires d < |targets| && Child(targets[d]) && Unrestorable(targets[d])
    ensures StartsBesideStopped(targets, Activated(NothingNewStarts, targets, version).calls, k, d)
  {
    FailingStartStopsAll(targets, version, o);
    FailingStartStopsAll(targets, version, d);
    NoStopFails(ForwardOf(NothingNewStarts, targets, version));
    UndoneIsReported(NothingNewStarts, targets, version);
    UndoneOutcome(NothingNewStarts, targets, version);
    var p := ForwardOf(NothingNewStarts, targets, version);
    var order, u := Sorted(targets, p.stopped, StartRank), Retired(NothingNewStarts, p);
    StartOrderIs(targets, p);
    RetiredIsOrderly(NothingNewStarts, targets, p);
    RetiredCanRevive(targets, p, order, u);
    assert order[0..] == order;
    assert o in order && d in order;
    assert Status(u.calls, d) == Down;
    hide Activated, Undone, ForwardOf, Broken, Retiring, Reviving, StartOrder, Sorted, Reported, RestoreFrom;
    hide RetireFrom, Status, Registrations;
    k := RevivalLeavesChildDown(NothingNewStarts, targets, p.stopped, order, 0, u, o, d);
  }

  /**
   * OpenClaw never comes back before its children, whatever fails, exactly when no running OpenClaw has a captured
   * source or every running child has one.
   */
  lemma ServiceWaitsForItsChildren(targets: seq<Target>, version: nat)
    ensures (forall world: World, k: nat, d: nat ::
               !StartsBesideStopped(targets, Activated(world, targets, version).calls, k, d))
       <==> || (forall o: nat :: o < |targets| && targets[o].backend == OpenClaw ==> !Restorable(targets[o]))
            || (forall d: nat :: d < |targets| && Child(targets[d]) ==> !Unrestorable(targets[d]))
  {
    hide Activated, StartsBesideStopped;
    if o: nat, d: nat :| o < |targets| && targets[o].backend == OpenClaw && Restorable(targets[o])
                         && d < |targets| && Child(targets[d]) && Unrestorable(targets[d]) {
      var k := RollbackLeavesChildDown(targets, version, o, d);
    }
    forall world: World, k: nat, d: nat | StartsBesideStopped(targets, Activated(world, targets, version).calls, k, d)
      ensures exists o: nat :: o < |targets| && targets[o].backend == OpenClaw && Restorable(targets[o])
      ensures exists d: nat :: d < |targets| && Child(targets[d]) && Unrestorable(targets[d])
    {
      BesideStoppedNames(world, targets, version, k, d);
    }
  }

  lemma BesideStoppedNames(world: World, targets: seq<Target>, version: nat, k: nat, d: nat)
    requires StartsBesideStopped(targets, Activated(world, targets, version).calls, k, d)
    ensures exists o: nat :: o < |targets| && targets[o].backend == OpenClaw && Restorable(targets[o])
    ensures d < |targets| && Child(targets[d]) && Unrestorable(targets[d])
  {
    StartsBesideStoppedOnlyWithoutSource(world, targets, version, k, d);
    hide Activated, Status;
    var o := Activated(world, targets, version).calls[k].ask.t;
    assert o < |targets| && targets[o].backend == OpenClaw && Restorable(targets[o]);
  }
}
