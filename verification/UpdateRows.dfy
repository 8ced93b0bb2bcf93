/** What the rows of an update's report mean, read off its calls alone. */
module UpdateRows {
  import opened Wrappers
  import opened UpdateTransaction
  import opened UpdateScript
  import Safety = UpdateSafety
  import Report = UpdateReport

  // ----- what a row claims -----

  /** No later call stops or starts the target. */
  predicate LeftAlone(calls: seq<Call>, s: nat, t: nat) {
    forall k :: s < k < |calls| ==> calls[k].ask != Stop(t) && !(calls[k].ask.Start? && calls[k].ask.t == t)
  }

  /** The version that a confirmation stands for. */
  function Confirmed(target: Target, answer: Answer): Option<nat> {
    if target.verifiesRestored then (if answer.Gave? then Some(answer.value) else None) else target.previousVersion
  }

  /**
   * The target was started from its captured source and left alone since; the confirmation it offers came next and did
   * not throw, and stands for this version.
   */
  ghost predicate PutBackAs(target: Target, calls: seq<Call>, from: nat, t: nat, version: Option<nat>) {
    exists s :: from <= s < |calls| && RestartedAt(target, calls, s, t, version)
  }

  predicate RestartedAt(target: Target, calls: seq<Call>, s: nat, t: nat, version: Option<nat>) {
    && s < |calls| && target.previousEntry.Some? && calls[s].ask == Start(t, Old(target.previousEntry.value))
    && calls[s].answer != Threw && LeftAlone(calls, s, t)
    && match CheckOf(target, t)
       case None => version == None
       case Some(check) =>
         && s + 1 < |calls| && calls[s + 1].ask == check && calls[s + 1].answer != Threw
         && version == Confirmed(target, calls[s + 1].answer)
  }

  ghost predicate CouldNotBePutBack(target: Target, calls: seq<Call>, from: nat, t: nat) {
    || target.previousEntry.None?
    || Report.ThrewSince(calls, from, Start(t, Old(target.previousEntry.value)))
    || (CheckOf(target, t).Some? && Report.ThrewSince(calls, from, CheckOf(target, t).value))
  }

  predicate NeverStopped(calls: seq<Call>, t: nat) { forall k :: 0 <= k < |calls| ==> calls[k].ask != Stop(t) }

  function Unchanged(target: Target): RowState {
    if target.manual then Manual else if target.running then Failed else LeftStopped
  }

  /** A row of a failed update, whose first `from` calls ended with the one that threw. */
  ghost predicate TellsTruth(targets: seq<Target>, calls: seq<Call>, from: nat, row: Row) {
    && row.t < |targets| && 0 < from <= |calls| && (row.state != Restored ==> row.version.None?)
    && var target, broke := targets[row.t], calls[from - 1].ask;
       match row.reason
       case Some(RegistrationRestore) => row.state == Failed && Report.ThrewSince(calls, from, Restore(row.t))
       case Some(ReplacementStop) => row.state == Failed && Report.ThrewSince(calls, from, Stop(row.t))
       case Some(RestoreUnverified) =>
         row.state == Failed && DidStop(calls[..from], row.t) && CouldNotBePutBack(target, calls, from, row.t)
       case Some(RegistrationUpdate) => row.state == Failed && broke == Prepare(row.t)
       case Some(StopUnverified) => row.state == Unchanged(target) && target.running && broke == Stop(row.t)
       case Some(NotApplied) =>
         && row.state == Unchanged(target) && target.running && broke.Stop?
         && NeverStopped(calls[..from], row.t)
       case None =>
         if row.state == Restored
         then DidStop(calls[..from], row.t) && PutBackAs(target, calls, from, row.t, row.version)
         else row.state == Unchanged(target) && !target.running && broke != Prepare(row.t)
  }

  ghost predicate AllTrue(targets: seq<Target>, calls: seq<Call>, from: nat, rows: seq<Row>) {
    forall k :: 0 <= k < |rows| ==> TellsTruth(targets, calls, from, rows[k])
  }

  /** The first call that threw. */
  predicate BreaksAt(calls: seq<Call>, from: nat) {
    && 0 < from <= |calls| && calls[from - 1].answer == Threw
    && forall k :: 0 <= k < from - 1 ==> calls[k].answer != Threw
  }

  /**
   * A report: if no call threw, what ran is updated and nothing else changed; otherwise no row reports an update, and
   * every row is true of the calls.
   */
  ghost predicate RowsTell(targets: seq<Target>, o: Outcome) {
    o.Reported? ==>
      if NoneThrew(o.calls) then
        |o.rows| == |targets|
        && forall t :: 0 <= t < |targets| ==>
             o.rows[t] == Row(t, if targets[t].manual then Manual else if targets[t].running then Updated
                                 else LeftStopped, None, None)
      else exists from :: BreaksAt(o.calls, from) && AllTrue(targets, o.calls, from, o.rows)
  }

  // ----- the rows of a rollback -----

  lemma RowsNext(targets: seq<Target>, calls: seq<Call>, from: nat, rows: seq<Row>, row: Row)
    requires AllTrue(targets, calls, from, rows) && TellsTruth(targets, calls, from, row)
    ensures AllTrue(targets, calls, from, rows + [row])
  {
    hide TellsTruth;
  }

  lemma ThrewAt(calls: seq<Call>, from: nat, k: nat)
    requires from <= k < |calls| && calls[k].answer == Threw
    ensures Report.ThrewSince(calls, from, calls[k].ask)
  {
  }

  lemma {:induction false} RestoresTell(world: World, targets: seq<Target>, list: seq<nat>, i: nat, u: Undo,
                                        from: nat, calls: seq<Call>)
    requires i <= |list| && InRange(list, |targets|) && 0 < from <= |u.calls| && Honest(world, u.calls)
    requires RestoreFrom(world, list, i, u).calls <= calls && AllTrue(targets, calls, from, u.rows)
    ensures AllTrue(targets, calls, from, RestoreFrom(world, list, i, u).rows)
    decreases |list| - i
  {
    if i < |list| {
      var t := list[i];
      var next := Did(world, u.calls, Restore(t));
      var row := Row(t, Failed, Some(RegistrationRestore), None);
      HonestNext(world, u.calls, Restore(t));
      var v := if Works(world, u.calls, Restore(t)) then u.(calls := next)
               else u.(calls := next, rows := u.rows + [row]);
      hide Honest, AllTrue, TellsTruth;
      RestoresAsk(world, list, i + 1, v);
      if !Works(world, u.calls, Restore(t)) {
        assert calls[|u.calls|] == next[|u.calls|];
        RestoreRow(targets, calls, from, |u.calls|, t);
        RowsNext(targets, calls, from, u.rows, row);
      }
      RestoresTell(world, targets, list, i + 1, v, from, calls);
    }
  }

  lemma RestoreRow(targets: seq<Target>, calls: seq<Call>, from: nat, k: nat, t: nat)
    requires 0 < from <= k < |calls| && calls[k].answer == Threw && t < |targets|
    ensures calls[k].ask == Restore(t) ==>
              TellsTruth(targets, calls, from, Row(t, Failed, Some(RegistrationRestore), None))
    ensures calls[k].ask == Stop(t) ==> TellsTruth(targets, calls, from, Row(t, Failed, Some(ReplacementStop), None))
  {
    ThrewAt(calls, from, k);
  }

  lemma {:induction false} RetiresTell(world: World, targets: seq<Target>, list: seq<nat>, i: nat, u: Undo,
                                       from: nat, calls: seq<Call>)
    requires i <= |list| && InRange(list, |targets|) && 0 < from <= |u.calls| && Honest(world, u.calls)
    requires RetireFrom(world, list, i, u).calls <= calls && AllTrue(targets, calls, from, u.rows)
    ensures AllTrue(targets, calls, from, RetireFrom(world, list, i, u).rows)
    decreases |list| - i
  {
    if i < |list| {
      var t := list[i];
      var next := Did(world, u.calls, Stop(t));
      var row := Row(t, Failed, Some(ReplacementStop), None);
      HonestNext(world, u.calls, Stop(t));
      var v := if Works(world, u.calls, Stop(t)) then u.(calls := next)
               else u.(calls := next, failedStops := u.failedStops + {t}, rows := u.rows + [row]);
      hide Honest, AllTrue, TellsTruth;
      RetiresAsk(world, list, i + 1, v);
      if !Works(world, u.calls, Stop(t)) {
        assert calls[|u.calls|] == next[|u.calls|];
        RestoreRow(targets, calls, from, |u.calls|, t);
        RowsNext(targets, calls, from, u.rows, row);
      }
      RetiresTell(world, targets, list, i + 1, v, from, calls);
    }
  }

  /** The calls of the remaining revivals are all for the remaining targets. */
  lemma {:induction false} RevivalsTouch(world: World, targets: seq<Target>, order: seq<nat>, i: nat, u: Undo)
    requires i <= |order| && InRange(order, |targets|) && Honest(world, u.calls)
    ensures var r := ReviveFrom(world, targets, order, i, u);
            && u.calls <= r.calls
            && (forall k :: |u.calls| <= k < |r.calls| ==> !r.calls[k].ask.Stop? && r.calls[k].ask.t in order[i..])
    decreases |order| - i
  {
    if i < |order| {
      assert order[i..] == [order[i]] + order[i + 1..];
      ReviveAsks(world, targets[order[i]], order[i], u);
      hide Honest, Revive;
      RevivalsTouch(world, targets, order, i + 1,
                    if order[i] in u.failedStops then u else Revive(world, targets[order[i]], order[i], u));
    }
  }

  /** The row of one revival, by its calls. */
  lemma ReviveReports(world: World, target: Target, t: nat, u: Undo) returns (row: Row)
    ensures var r, at := Revive(world, target, t, u), |u.calls|;
            && r.rows == u.rows + [row] && row.t == t && u.calls <= r.calls
            && if row.state == Restored then
                 && row.reason == None && target.previousEntry.Some?
                 && |r.calls| > at && r.calls[at].ask == Start(t, Old(target.previousEntry.value))
                 && r.calls[at].answer != Threw
                 && (CheckOf(target, t).None? ==> row.version == None && |r.calls| == at + 1)
                 && (CheckOf(target, t).Some? ==>
                       && |r.calls| == at + 2 && r.calls[at + 1].ask == CheckOf(target, t).value
                       && r.calls[at + 1].answer != Threw && row.version == Confirmed(target, r.calls[at + 1].answer))
               else
                 && row == Row(t, Failed, Some(RestoreUnverified), None)
                 && (target.previousEntry.Some? ==>
                       exists k :: at <= k < |r.calls| && r.calls[k].answer == Threw
                                   && r.calls[k].ask in {Start(t, Old(target.previousEntry.value))}
                                                        + if CheckOf(target, t).Some? then {CheckOf(target, t).value}
                                                          else {})
  {
    var r, at := Revive(world, target, t, u), |u.calls|;
    row := r.rows[|u.rows|];
    if row.state != Restored && target.previousEntry.Some? {
      assert r.calls[|r.calls| - 1].answer == Threw;
    }
  }

  lemma RevivalTells(world: World, targets: seq<Target>, t: nat, u: Undo, from: nat, calls: seq<Call>)
    requires t < |targets| && 0 < from <= |u.calls| && Honest(world, u.calls)
    requires Revive(world, targets[t], t, u).calls <= calls
    requires forall k :: |Revive(world, targets[t], t, u).calls| <= k < |calls| ==>
               !calls[k].ask.Stop? && calls[k].ask.t != t
    requires DidStop(calls[..from], t) && AllTrue(targets, calls, from, u.rows)
    ensures AllTrue(targets, calls, from, Revive(world, targets[t], t, u).rows)
  {
    hide Revive, Honest, AllTrue, DidStop, CheckOf, Report.ThrewSince;
    var r, at, target := Revive(world, targets[t], t, u), |u.calls|, targets[t];
    var row := ReviveReports(world, target, t, u);
    ReviveAsks(world, target, t, u);
    if row.state == Restored {
      assert calls[at] == r.calls[at];
      if CheckOf(target, t).Some? { assert calls[at + 1] == r.calls[at + 1]; }
      ConfirmationIsQuiet(target, t);
      assert LeftAlone(calls, at, t);
      assert RestartedAt(target, calls, at, t, row.version);
      assert PutBackAs(target, calls, from, t, row.version);
    } else if target.previousEntry.Some? {
      var k :| at <= k < |r.calls| && r.calls[k].answer == Threw
               && r.calls[k].ask in {Start(t, Old(target.previousEntry.value))}
                                    + if CheckOf(target, t).Some? then {CheckOf(target, t).value} else {};
      assert calls[k] == r.calls[k];
      ThrewAt(calls, from, k);
      assert CouldNotBePutBack(target, calls, from, t);
    }
    hide RestartedAt, PutBackAs, CouldNotBePutBack;
    RowsNext(targets, calls, from, u.rows, row);
  }

  lemma ConfirmationIsQuiet(target: Target, t: nat)
    ensures CheckOf(target, t).Some? ==>
              !CheckOf(target, t).value.Stop? && !CheckOf(target, t).value.Start? && CheckOf(target, t).value.t == t
  {
  }

  lemma {:induction false} RevivalsTell(world: World, targets: seq<Target>, order: seq<nat>, i: nat, u: Undo,
                                        from: nat, calls: seq<Call>)
    requires i <= |order| && InRange(order, |targets|) && Distinct(order) && 0 < from <= |u.calls|
             && Honest(world, u.calls)
    requires from <= |calls| && calls == ReviveFrom(world, targets, order, i, u).calls
             && AllTrue(targets, calls, from, u.rows)
    requires forall t: nat :: t in order ==> DidStop(calls[..from], t)
    ensures AllTrue(targets, calls, from, ReviveFrom(world, targets, order, i, u).rows)
    decreases |order| - i
  {
    if i < |order| {
      var t := order[i];
      var next := if t in u.failedStops then u else Revive(world, targets[t], t, u);
      ReviveAsks(world, targets[t], t, u);
      hide Revive, Honest, AllTrue, DidStop, CheckOf;
      RevivalsTouch(world, targets, order, i + 1, next);
      assert t !in order[i + 1..];
      if t !in u.failedStops { RevivalTells(world, targets, t, u, from, calls); }
      RevivalsTell(world, targets, order, i + 1, next, from, calls);
    }
  }

  // ----- the rows of what was not stopped -----

  /** What a broken pass was at is what its last call asked. */
  lemma TroubleIsLast(world: World, targets: seq<Target>, version: nat, p: Pass)
    requires Breaks(world, ScriptOf(targets, version), p.calls) && p.trouble != Fine && Reached(targets, p)
    ensures var last := p.calls[|p.calls| - 1].ask;
            && (p.trouble.AtStop? ==>
                  last == Stop(p.trouble.t) && p.trouble.t < |targets| && targets[p.trouble.t].running)
            && (p.trouble.AtPrepare? ==>
                  last == Prepare(p.trouble.t) && p.trouble.t < |targets| && !targets[p.trouble.t].running)
            && (p.trouble.AtStart? ==> !last.Stop? && !last.Prepare?)
    ensures forall t: nat | t < |targets| && targets[t].running && !p.trouble.AtStop? :: t in p.stopped
  {
    ScriptHolds(targets, version);
    OrdersFit(targets);
    hide StopsOf, StartsOf, Idle, Honest, ScriptOf, Earlier;
    var n, stops, starts, idle := |targets|, StopsOf(targets), StartsOf(targets), Idle(targets);
    var last := |p.calls| - 1;
    if p.trouble.AtStart? {
      AskIsAt(targets, version, last);
    }
  }

  /** A running target that is neither stopped nor where the run broke off was never asked to stop. */
  lemma NotStoppedIsUntouched(world: World, targets: seq<Target>, version: nat, p: Pass, t: nat)
    requires Breaks(world, ScriptOf(targets, version), p.calls) && p.trouble != Fine && Reached(targets, p)
    requires t !in p.stopped && p.trouble != AtStop(t)
    ensures NeverStopped(p.calls, t)
  {
    hide Reached, ScriptOf, Honest, DidStop;
    TroubleIsLast(world, targets, version, p);
    StoppedIs(world, targets, version, p);
    OnlyThrowingStops(p.calls, t);
    assert p.calls[|p.calls| - 1].ask != Stop(t);
  }

  lemma OnlyThrowingStops(calls: seq<Call>, t: nat)
    requires !DidStop(calls, t)
    ensures forall k :: 0 <= k < |calls| && calls[k].ask == Stop(t) ==> calls[k].answer == Threw
  {
  }

  lemma LeftTells(world: World, targets: seq<Target>, version: nat, p: Pass, calls: seq<Call>, t: nat)
    requires Breaks(world, ScriptOf(targets, version), p.calls) && p.trouble != Fine && Reached(targets, p)
    requires t < |targets| && t !in p.stopped && p.calls <= calls
    ensures TellsTruth(targets, calls, |p.calls|, LeftRow(targets[t], t, p.trouble))
  {
    hide Reached, ScriptOf, Plays, NeverStopped, DidStop, PutBackAs, CouldNotBePutBack, Report.ThrewSince;
    TroubleIsLast(world, targets, version, p);
    if p.trouble != AtStop(t) { NotStoppedIsUntouched(world, targets, version, p, t); }
    hide InRange;
    assert calls[..|p.calls|] == p.calls;
  }

  lemma {:induction false} LeftRowsTell(world: World, targets: seq<Target>, version: nat, p: Pass, calls: seq<Call>,
                                        i: nat, rows: seq<Row>)
    requires Breaks(world, ScriptOf(targets, version), p.calls) && p.trouble != Fine && Reached(targets, p)
    requires i <= |targets| && p.calls <= calls && AllTrue(targets, calls, |p.calls|, rows)
    ensures AllTrue(targets, calls, |p.calls|, LeftFrom(targets, p, i, rows))
    decreases |targets| - i
  {
    hide Breaks, Reached, AllTrue, TellsTruth, ScriptOf;
    if i < |targets| {
      if i !in p.stopped {
        LeftTells(world, targets, version, p, calls, i);
        RowsNext(targets, calls, |p.calls|, rows, LeftRow(targets[i], i, p.trouble));
      }
      LeftRowsTell(world, targets, version, p, calls, i + 1,
                   if i in p.stopped then rows else rows + [LeftRow(targets[i], i, p.trouble)]);
    }
  }

  // ----- reports -----

  lemma RetiredTells(world: World, targets: seq<Target>, p: Pass, calls: seq<Call>)
    requires InRange(p.registered, |targets|) && InRange(p.started, |targets|) && Honest(world, p.calls)
    requires p.calls != [] && Safety.Retired(world, p).calls <= calls
    ensures AllTrue(targets, calls, |p.calls|, Safety.Retired(world, p).rows)
  {
    var u0 := Undo(p.calls, [], {});
    var restored := RestoreFrom(world, Reversed(p.registered), 0, u0);
    ReversedStays(p.registered, |targets|);
    ReversedStays(p.started, |targets|);
    RestoresAsk(world, Reversed(p.registered), 0, u0);
    RetiresAsk(world, Reversed(p.started), 0, restored);
    hide Honest, Reversed, RestoreFrom, RetireFrom, InRange, TellsTruth;
    RestoresTell(world, targets, Reversed(p.registered), 0, u0, |p.calls|, calls);
    RetiresTell(world, targets, Reversed(p.started), 0, restored, |p.calls|, calls);
  }

  lemma ReversedStays(list: seq<nat>, n: nat)
    requires InRange(list, n)
    ensures InRange(Reversed(list), n)
  {
    assert forall i :: 0 <= i < |Reversed(list)| ==> Reversed(list)[i] in list;
  }

  lemma PassIsInRange(world: World, targets: seq<Target>, version: nat, p: Pass)
    requires Breaks(world, ScriptOf(targets, version), p.calls) && p.trouble != Fine && Reached(targets, p)
    requires Changed(p.calls, p.registered)
    ensures InRange(p.registered, |targets|) && InRange(p.started, |targets|)
  {
    hide StopsOf, StartsOf, Idle, Honest, ScriptOf;
    OrdersFit(targets);
    StartedIs(world, targets, version, p);
    hide Reached;
    forall i | 0 <= i < |p.registered|
      ensures p.registered[i] < |targets|
    {
      assert p.registered[i] in p.registered;
      var k :| 0 <= k < |p.calls| && p.calls[k].ask == Prepare(p.registered[i]);
      AskIsAt(targets, version, k);
    }
  }

  lemma RollbackTells(world: World, targets: seq<Target>, version: nat, p: Pass)
    requires InRange(p.stopped, |targets|) && p.trouble != Fine && Reached(targets, p) && Changed(p.calls, p.registered)
    requires Breaks(world, ScriptOf(targets, version), p.calls)
    ensures var u := Rollback(world, targets, p);
            && p.calls <= u.calls && AllTrue(targets, u.calls, |p.calls|, LeftFrom(targets, p, 0, u.rows))
  {
    hide Reached, ScriptOf, DidStop, AllTrue, Changed, StartsInOrder, Honest, StopsOf, StartsOf, Idle;
    var c, u, done := CourseOf(targets, p), Rollback(world, targets, p), Safety.Retired(world, p);
    StockIsTaken(world, targets, version, p);
    PassIsInRange(world, targets, version, p);
    assert InRange(c.back, |targets|) && Distinct(c.back) && forall t: nat :: t in c.back <==> t in p.stopped by {
      BackIsOrdered(targets, p.stopped, c.back);
    }
    assert u == ReviveFrom(world, targets, c.back, 0, done);
    hide Rollback, Sorted, ReviveFrom, Plays, TakesStock;
    RetiredAsks(world, p);
    RevivalsAsk(world, targets, c.back, 0, done);
    RetiredTells(world, targets, p, u.calls);
    hide Safety.Retired, InRange;
    assert u.calls[..|p.calls|] == p.calls;
    RevivalsTell(world, targets, c.back, 0, done, |p.calls|, u.calls);
    LeftRowsTell(world, targets, version, p, u.calls, 0, u.rows);
  }

  lemma BackIsOrdered(targets: seq<Target>, stopped: seq<nat>, back: seq<nat>)
    requires StartsInOrder(targets, stopped, back)
    ensures InRange(back, |targets|) && Distinct(back) && forall t: nat :: t in back <==> t in stopped
  {
  }

  lemma DoneRowsTell(targets: seq<Target>, calls: seq<Call>)
    requires NoneThrew(calls)
    ensures RowsTell(targets, Reported(calls, DoneRows(targets)))
  {
    hide NoneThrew, AllTrue;
  }

  lemma UndoneTells(world: World, targets: seq<Target>, version: nat, p: Pass)
    requires InRange(p.stopped, |targets|) && p.trouble != Fine && Reached(targets, p) && Changed(p.calls, p.registered)
    requires Breaks(world, ScriptOf(targets, version), p.calls)
    ensures var u := Rollback(world, targets, p);
            !NoneThrew(u.calls) && RowsTell(targets, Reported(u.calls, LeftFrom(targets, p, 0, u.rows)))
  {
    hide Reached, ScriptOf, AllTrue, Changed, Rollback, LeftFrom, Breaks;
    RollbackTells(world, targets, version, p);
    BrokenAt(world, ScriptOf(targets, version), p.calls, Rollback(world, targets, p).calls);
    hide NoneThrew, BreaksAt;
  }

  lemma BrokenAt(world: World, script: seq<Ask>, calls: seq<Call>, more: seq<Call>)
    requires Breaks(world, script, calls) && calls <= more
    ensures BreaksAt(more, |calls|) && !NoneThrew(more)
  {
    assert more[|calls| - 1].answer == Threw;
  }

  /**
   * Every row of every report is true of the calls that were made. A run is undone exactly when it is reported and some
   * call of it threw.
   */
  lemma UpdateTells(world: World, targets: seq<Target>, version: nat)
    ensures var o := Activated(world, targets, version);
            && RowsTell(targets, o)
            && (Report.Undone(world, targets, version) <==> o.Reported? && !NoneThrew(o.calls))
  {
    hide StopsOf, StartsOf, Idle, Honest, PreflightFrom, NoneThrew, Forward, Rollback, LeftFrom, ScriptOf, Plays;
    hide Reached, Changed, RowsTell;
    RunEnds(world, targets, version);
    var (calls, ready) := PreflightFrom(world, |targets|, 0, []);
    var p := Forward(world, targets, version, calls);
    if !ready {
      ThrownTells(targets, calls);
    } else if p.trouble == Fine {
      DoneRowsTell(targets, p.calls);
    } else {
      UndoneTells(world, targets, version, p);
    }
  }

  lemma ThrownTells(targets: seq<Target>, calls: seq<Call>)
    ensures RowsTell(targets, Thrown(calls))
  {
  }

  // ----- what an update that is reported rests on -----

  /** The new version was started, verified at once, and left alone since. */
  predicate RunsVerified(calls: seq<Call>, s: nat, t: nat, version: nat) {
    && s + 1 < |calls| && calls[s].ask == Start(t, New) && calls[s].answer != Threw
    && calls[s + 1].ask == Verify(t, Some(version)) && calls[s + 1].answer != Threw && LeftAlone(calls, s, t)
  }

  /** When a call threw, whichever it was, nothing is reported as updated. */
  lemma ThrownUpdatesNothing(targets: seq<Target>, o: Outcome)
    requires RowsTell(targets, o) && o.Reported? && !NoneThrew(o.calls)
    ensures forall k :: 0 <= k < |o.rows| ==> o.rows[k].state != Updated
  {
    hide NoneThrew, BreaksAt, PutBackAs, CouldNotBePutBack, DidStop, Report.ThrewSince, NeverStopped;
    var from :| BreaksAt(o.calls, from) && AllTrue(targets, o.calls, from, o.rows);
    forall k | 0 <= k < |o.rows|
      ensures o.rows[k].state != Updated
    {
      assert TellsTruth(targets, o.calls, from, o.rows[k]);
    }
  }

  /** A report with one updated row rests on a verification of every target that ran; no call of its run threw. */
  lemma UpdatedIsVerified(world: World, targets: seq<Target>, version: nat, k: nat, t: nat) returns (s: nat)
    requires var o := Activated(world, targets, version);
             o.Reported? && k < |o.rows| && o.rows[k].state == Updated
    requires t < |targets| && targets[t].running
    ensures NoneThrew(Activated(world, targets, version).calls)
    ensures RunsVerified(Activated(world, targets, version).calls, s, t, version)
  {
    hide Activated, RowsTell, Follows, RunsVerified, NoneThrew;
    UpdateTells(world, targets, version);
    var o := Activated(world, targets, version);
    if !NoneThrew(o.calls) { ThrownUpdatesNothing(targets, o); }
    var c := UpdateFollowsTheScript(world, targets, version);
    s := QuietRunVerifies(world, targets, version, o, c, t);
  }

  lemma QuietRunVerifies(world: World, targets: seq<Target>, version: nat, o: Outcome, c: Course, t: nat)
    returns (s: nat)
    requires Follows(world, targets, version, o, c) && o.Reported? && NoneThrew(o.calls)
    requires t < |targets| && targets[t].running
    ensures RunsVerified(o.calls, s, t, version)
  {
    hide Honest, Earlier, TakesStock, TakesBack, PreparesInOrder, Script;
    assert t in c.stops && t in c.starts;
    var j :| 0 <= j < |c.starts| && c.starts[j] == t;
    s := StartStands(|targets|, version, c, j);
    assert Distinct(c.starts);
    hide Planned, Distinct, LeftAlone;
    OneStart(targets, version, c, j, o.calls);
  }

  lemma StartStands(n: nat, version: nat, c: Course, j: nat) returns (s: nat)
    requires j < |c.starts|
    ensures var script := Script(n, version, c.stops, c.starts, c.idle);
            && s == n + |c.stops| + 2 * j && s + 1 < |script|
            && script[s] == Start(c.starts[j], New) && script[s + 1] == Verify(c.starts[j], Some(version))
  {
    StartAskAt(c.starts, version, j);
    hide StartAsk;
    s := n + |c.stops| + 2 * j;
    assert StartAsks(c.starts, version)[2 * j] == Start(c.starts[j], New);
    assert StartAsks(c.starts, version)[2 * j + 1] == Verify(c.starts[j], Some(version));
  }

  /** After the stops come starts, each once, and verifications and preparations. */
  lemma ScriptPast(n: nat, version: nat, c: Course, k: nat)
    requires n + |c.stops| <= k < |Script(n, version, c.stops, c.starts, c.idle)|
    ensures var ask, at := Script(n, version, c.stops, c.starts, c.idle)[k], n + |c.stops|;
            && !ask.Stop?
            && (ask.Start? ==> k < at + 2 * |c.starts| && (k - at) % 2 == 0 && ask.t == c.starts[(k - at) / 2])
  {
    var at := n + |c.stops|;
    if k < at + 2 * |c.starts| {
      assert StartAsks(c.starts, version)[k - at] == StartAsk(c.starts, version, k - at);
    }
  }

  /** A script starts a target once, after all stops. */
  lemma OneStart(targets: seq<Target>, version: nat, c: Course, j: nat, calls: seq<Call>)
    requires j < |c.starts| && Distinct(c.starts)
    requires var script := Script(|targets|, version, c.stops, c.starts, c.idle);
             |calls| == |script| && forall k :: 0 <= k < |calls| ==> calls[k].ask == script[k]
    ensures LeftAlone(calls, |targets| + |c.stops| + 2 * j, c.starts[j])
  {
    hide Script;
    var at := |targets| + |c.stops|;
    forall k | at + 2 * j < k < |calls|
      ensures calls[k].ask != Stop(c.starts[j]) && !(calls[k].ask.Start? && calls[k].ask.t == c.starts[j])
    {
      ScriptPast(|targets|, version, c, k);
    }
  }
}
