/**
 * In every run of an update, whatever fails: nothing is started that was not stopped, the service brackets its
 * children, all is put back.
 */
module UpdateSafety {
  import opened Wrappers
  import opened UpdateTransaction

  // ----- what a trace says of each target -----

  datatype Condition = Original | Down | Runs(entry: Entry) | Doubtful

  /** What the calls so far prove of a target. A failed stop or start proves nothing. */
  function Status(calls: seq<Call>, t: nat): Condition {
    if calls == [] then Original
    else
      var last := calls[|calls| - 1];
      if last.ask == Stop(t) then (if last.answer == Threw then Doubtful else Down)
      else if last.ask.Start? && last.ask.t == t then (if last.answer == Threw then Doubtful else Runs(last.ask.entry))
      else Status(calls[..|calls| - 1], t)
  }

  predicate Attempted(calls: seq<Call>, t: nat) { exists k :: 0 <= k < |calls| && calls[k].ask == Stop(t) }

  predicate Child(target: Target) { target.backend == HermesRelay || target.backend == Hermes }

  /**
   * A start comes only after the target's latest stop returned, with no start since, and an old version only from the
   * captured source. OpenClaw starts only when every
   * child that was stopped has been started again, save one that has no captured source to start. A child is stopped
   * only after a stop of every running OpenClaw was attempted.
   */
  predicate Allowed(targets: seq<Target>, calls: seq<Call>, ask: Ask) {
    match ask
    case Start(t, entry) =>
      && Status(calls, t) == Down
      && (entry.Old? ==> t < |targets| && targets[t].previousEntry == Some(entry.entry))
      && (t < |targets| && targets[t].backend == OpenClaw ==>
            forall d: nat :: d < |targets| && Child(targets[d]) && Status(calls, d) == Down ==>
              entry != New && targets[d].previousEntry.None?)
    case Stop(t) =>
      t < |targets| && Child(targets[t]) ==>
        forall o: nat :: o < |targets| && targets[o].running && targets[o].backend == OpenClaw ==> Attempted(calls, o)
    case _ => true
  }

  predicate Orderly(targets: seq<Target>, calls: seq<Call>) {
    forall k :: 0 <= k < |calls| ==> Allowed(targets, calls[..k], calls[k].ask)
  }

  lemma OrderlyNext(targets: seq<Target>, calls: seq<Call>, c: Call)
    requires Orderly(targets, calls) && Allowed(targets, calls, c.ask)
    ensures Orderly(targets, calls + [c])
  {
    hide Allowed;
    var next := calls + [c];
    forall k | 0 <= k < |next|
      ensures Allowed(targets, next[..k], next[k].ask)
    {
      if k < |calls| { assert next[..k] == calls[..k]; } else { assert next[..k] == calls; }
    }
  }

  lemma StatusNext(calls: seq<Call>, c: Call, t: nat)
    ensures Status(calls + [c], t) == if c.ask == Stop(t) then (if c.answer == Threw then Doubtful else Down)
                                      else if c.ask.Start? && c.ask.t == t then
                                             (if c.answer == Threw then Doubtful else Runs(c.ask.entry))
                                      else Status(calls, t)
    ensures Attempted(calls, t) || c.ask == Stop(t) <==> Attempted(calls + [c], t)
  {
    var next := calls + [c];
    assert next[..|calls|] == calls;
    if Attempted(calls, t) {
      var k :| 0 <= k < |calls| && calls[k].ask == Stop(t);
      assert next[k].ask == Stop(t);
    }
    if c.ask == Stop(t) { assert next[|calls|].ask == Stop(t); }
  }

  lemma StatusEverywhere(calls: seq<Call>, c: Call)
    ensures forall t: nat ::
              Status(calls + [c], t) == if c.ask == Stop(t) then (if c.answer == Threw then Doubtful else Down)
                                      else if c.ask.Start? && c.ask.t == t then
                                             (if c.answer == Threw then Doubtful else Runs(c.ask.entry))
                                      else Status(calls, t)
    ensures forall t: nat :: Attempted(calls, t) ==> Attempted(calls + [c], t)
    ensures c.ask.Stop? ==> Attempted(calls + [c], c.ask.t)
  {
    forall t: nat { StatusNext(calls, c, t); }
    if c.ask.Stop? { StatusNext(calls, c, c.ask.t); }
  }

  // ----- the forward passes -----

  lemma {:induction false} PreflightsAreQuiet(world: World, targets: seq<Target>, i: nat, calls: seq<Call>)
    requires i <= |targets| && forall k :: 0 <= k < |calls| ==> calls[k].ask.Preflight?
    ensures forall k :: 0 <= k < |PreflightFrom(world, |targets|, i, calls).0| ==>
              PreflightFrom(world, |targets|, i, calls).0[k].ask.Preflight?
    decreases |targets| - i
  {
    if i < |targets| && Works(world, calls, Preflight(i)) {
      PreflightsAreQuiet(world, targets, i + 1, Did(world, calls, Preflight(i)));
    }
  }

  lemma {:induction false} QuietIsOrderly(targets: seq<Target>, calls: seq<Call>)
    requires forall k :: 0 <= k < |calls| ==> calls[k].ask.Preflight?
    ensures Orderly(targets, calls) && forall t: nat :: Status(calls, t) == Original
  {
    if calls != [] {
      QuietIsOrderly(targets, calls[..|calls| - 1]);
      assert calls == calls[..|calls| - 1] + [calls[|calls| - 1]];
      OrderlyNext(targets, calls[..|calls| - 1], calls[|calls| - 1]);
      StatusEverywhere(calls[..|calls| - 1], calls[|calls| - 1]);
    }
  }

  /** Exactly the stopped targets are down, and every running OpenClaw is asked to stop before any child. */
  ghost predicate Stopping(targets: seq<Target>, order: seq<nat>, i: nat, p: Pass)
    requires i <= |order|
  {
    && p.stopped == order[..i] && p.started == [] && p.trouble == Fine && Orderly(targets, p.calls)
    && (forall t: nat :: Status(p.calls, t) == if t in order[..i] then Down else Original)
    && (forall j :: 0 <= j < i ==> Attempted(p.calls, order[j]))
  }

  ghost predicate StopOrder(targets: seq<Target>, order: seq<nat>) {
    && InRange(order, |targets|) && Distinct(order) && Ascending(targets, order, StopRank)
    && (forall t: nat :: t in order <==> t < |targets| && targets[t].running)
  }

  /** A pass that broke off: what was stopped and not started since is down, and nothing else is. */
  ghost predicate Broken(targets: seq<Target>, p: Pass) {
    && Orderly(targets, p.calls) && InRange(p.stopped, |targets|) && Distinct(p.stopped) && Distinct(p.started)
    && (forall t: nat :: t in p.started ==> t in p.stopped)
    && (forall t: nat :: t in p.stopped && t !in p.started ==> Status(p.calls, t) == Down)
    && (forall t: nat :: t !in p.stopped ==> Status(p.calls, t) != Down)
    && (p.started != [] ==> forall o: nat :: o < |targets| && targets[o].running ==> Attempted(p.calls, o))
    && (forall t: nat :: t in p.stopped ==> t < |targets| && targets[t].running)
  }

  lemma StopIsAllowed(targets: seq<Target>, order: seq<nat>, i: nat, p: Pass)
    requires StopOrder(targets, order) && i < |order| && Stopping(targets, order, i, p)
    ensures Allowed(targets, p.calls, Stop(order[i]))
  {
    if Child(targets[order[i]]) {
      forall o: nat | o < |targets| && targets[o].running && targets[o].backend == OpenClaw
        ensures Attempted(p.calls, o)
      {
        assert o in order;
        var j :| 0 <= j < |order| && order[j] == o;
        assert j < i;
      }
    }
  }

  lemma {:induction false} StopsAreOrderly(world: World, targets: seq<Target>, order: seq<nat>, i: nat, p: Pass)
    requires StopOrder(targets, order) && i <= |order| && Stopping(targets, order, i, p)
    ensures var r := StopFrom(world, order, i, p);
            && Broken(targets, r) && (r.trouble == Fine ==> Stopping(targets, order, |order|, r))
            && (r.trouble.Fine? || r.trouble.AtStop?)
    decreases |order| - i
  {
    hide Orderly, Status, Allowed, Attempted, Distinct, Ascending;
    if i == |order| {
      StoppingIsBroken(targets, order, i, p);
    } else {
      var t := order[i];
      var answer := world(p.calls, Stop(t));
      StopStep(targets, order, i, p, answer);
      if answer != Threw {
        StopsAreOrderly(world, targets, order, i + 1,
                        p.(calls := p.calls + [Call(Stop(t), answer)], stopped := p.stopped + [t]));
      }
    }
  }

  lemma StoppingIsBroken(targets: seq<Target>, order: seq<nat>, i: nat, p: Pass)
    requires StopOrder(targets, order) && i <= |order| && Stopping(targets, order, i, p)
    ensures Broken(targets, p)
  {
    hide Orderly, Status, Allowed, Attempted, Ascending;
    forall t: nat | t in p.stopped ensures t in order { }
  }

  /** One stop, however it ends. */
  lemma StopStep(targets: seq<Target>, order: seq<nat>, i: nat, p: Pass, answer: Answer)
    requires StopOrder(targets, order) && i < |order| && Stopping(targets, order, i, p)
    ensures var calls := p.calls + [Call(Stop(order[i]), answer)];
            && (answer != Threw ==>
                  Stopping(targets, order, i + 1, p.(calls := calls, stopped := p.stopped + [order[i]])))
            && (answer == Threw ==> Broken(targets, p.(calls := calls, trouble := AtStop(order[i]))))
  {
    var t, c := order[i], Call(Stop(order[i]), answer);
    StopIsAllowed(targets, order, i, p);
    OrderlyNext(targets, p.calls, c);
    StatusEverywhere(p.calls, c);
    StoppingIsBroken(targets, order, i, p);
    assert order[..i + 1] == order[..i] + [t] && t !in order[..i];
    hide Orderly, Status, Allowed, Attempted, Ascending;
  }

  ghost predicate StartOrder(targets: seq<Target>, order: seq<nat>, stopped: seq<nat>) {
    && InRange(order, |targets|) && Distinct(order) && Ascending(targets, order, StartRank)
    && (forall t: nat :: t in order <==> t in stopped)
  }

  /** Started so far, all running the new version; the rest of the stopped ones are down. */
  ghost predicate Starting(targets: seq<Target>, order: seq<nat>, i: nat, p: Pass)
    requires i <= |order|
  {
    && p.started == order[..i] && p.trouble == Fine && Orderly(targets, p.calls)
    && (forall t: nat ::
          Status(p.calls, t) == if t in order[..i] then Runs(New) else if t in p.stopped then Down else Original)
    && (forall o: nat :: o < |targets| && targets[o].running ==> Attempted(p.calls, o))
    && InRange(p.stopped, |targets|) && Distinct(p.stopped)
    && (forall t: nat :: t in p.stopped ==> targets[t].running)
  }

  lemma StartIsAllowed(targets: seq<Target>, order: seq<nat>, i: nat, p: Pass)
    requires StartOrder(targets, order, p.stopped) && i < |order| && Starting(targets, order, i, p)
    ensures Allowed(targets, p.calls, Start(order[i], New))
  {
    var t := order[i];
    assert t in p.stopped && t !in order[..i];
    if targets[t].backend == OpenClaw {
      forall d: nat | d < |targets| && Child(targets[d])
        ensures Status(p.calls, d) != Down
      {
        if d in p.stopped {
          assert d in order;
          var j :| 0 <= j < |order| && order[j] == d;
          assert j < i;
          assert order[..i][j] == d;
        }
      }
    }
  }

  lemma StartedIsKnown(order: seq<nat>, stopped: seq<nat>, i: nat)
    requires i < |order| && Distinct(order) && forall t: nat :: t in order <==> t in stopped
    ensures order[..i + 1] == order[..i] + [order[i]] && Distinct(order[..i + 1])
    ensures forall t: nat :: t in order[..i + 1] ==> t in stopped
    ensures order[i] !in order[..i]
  {
    forall t: nat | t in order[..i + 1] ensures t in stopped { assert t in order; }
  }

  /** One start and its verification, however they end. */
  lemma StartStep(targets: seq<Target>, order: seq<nat>, i: nat, p: Pass, start: Answer, verify: Answer,
                  version: Option<nat>)
    requires StartOrder(targets, order, p.stopped) && i < |order| && Starting(targets, order, i, p)
    ensures var q := p.(started := p.started + [order[i]], calls := p.calls + [Call(Start(order[i], New), start)]);
            && Orderly(targets, q.calls) && Orderly(targets, q.calls + [Call(Verify(order[i], version), verify)])
            && (forall t: nat :: Status(q.calls + [Call(Verify(order[i], version), verify)], t) == Status(q.calls, t))
            && (forall o: nat :: o < |targets| && targets[o].running ==>
                  Attempted(q.calls + [Call(Verify(order[i], version), verify)], o))
            && Broken(targets, q)
            && (start != Threw ==> Starting(targets, order, i + 1, q))
  {
    var t := order[i];
    var calls := p.calls + [Call(Start(t, New), start)];
    var q := p.(started := p.started + [t], calls := calls);
    StartIsAllowed(targets, order, i, p);
    OrderlyNext(targets, p.calls, Call(Start(t, New), start));
    StatusEverywhere(p.calls, Call(Start(t, New), start));
    OrderlyNext(targets, calls, Call(Verify(t, version), verify));
    StatusEverywhere(calls, Call(Verify(t, version), verify));
    StartedIsKnown(order, p.stopped, i);
    hide Orderly, Status, Allowed, Attempted;
    StartKeeps(targets, order, i, p, start, q);
  }

  lemma StartKeeps(targets: seq<Target>, order: seq<nat>, i: nat, p: Pass, start: Answer, q: Pass)
    requires StartOrder(targets, order, p.stopped) && i < |order| && Starting(targets, order, i, p)
    requires q == p.(started := p.started + [order[i]], calls := q.calls) && Orderly(targets, q.calls)
    requires forall t: nat ::
               Status(q.calls, t) == if t == order[i] then (if start == Threw then Doubtful else Runs(New))
                                     else Status(p.calls, t)
    requires forall t: nat :: Attempted(p.calls, t) ==> Attempted(q.calls, t)
    ensures Broken(targets, q)
    ensures start != Threw ==> Starting(targets, order, i + 1, q)
  {
    StartedIsKnown(order, p.stopped, i);
    hide Orderly, Status, Allowed, Attempted, Ascending;
  }

  lemma {:induction false} StartsAreOrderly(world: World, targets: seq<Target>, version: nat, order: seq<nat>, i: nat,
                                            p: Pass)
    requires StartOrder(targets, order, p.stopped) && i <= |order| && Starting(targets, order, i, p)
    ensures var r := StartFrom(world, version, order, i, p);
            && Broken(targets, r) && (r.trouble == Fine ==> Starting(targets, order, |order|, r))
            && (r.trouble.Fine? || r.trouble.AtStart?)
    decreases |order| - i
  {
    hide Orderly, Status, Allowed, Attempted;
    if i == |order| {
      assert order[..i] == order;
    } else {
      var t := order[i];
      var start := world(p.calls, Start(t, New));
      var q := p.(started := p.started + [t], calls := p.calls + [Call(Start(t, New), start)]);
      var verify := world(q.calls, Verify(t, Some(version)));
      var next := q.(calls := q.calls + [Call(Verify(t, Some(version)), verify)]);
      StartStep(targets, order, i, p, start, verify, Some(version));
      if start == Threw {
        BrokenTrouble(targets, q, AtStart(t));
      } else if verify == Threw {
        BrokenTrouble(targets, next, AtStart(t));
      } else {
        StartsAreOrderly(world, targets, version, order, i + 1, next);
      }
    }
  }

  /** A call that neither starts nor stops anything leaves the pass as it was. */
  lemma QuietCall(targets: seq<Target>, p: Pass, c: Call)
    requires Broken(targets, p) && !c.ask.Start? && !c.ask.Stop?
    ensures Broken(targets, p.(calls := p.calls + [c]))
    ensures forall t: nat :: Status(p.calls + [c], t) == Status(p.calls, t)
  {
    OrderlyNext(targets, p.calls, c);
    StatusEverywhere(p.calls, c);
    hide Orderly, Status, Attempted;
  }

  /** The registrations recorded are those that some call of the trace made. */
  ghost predicate Registrations(calls: seq<Call>, registered: seq<nat>) {
    forall t: nat :: t in registered <==>
      exists k :: 0 <= k < |calls| && calls[k].ask == Prepare(t) && calls[k].answer.Gave?
  }

  lemma RegistrationsNext(calls: seq<Call>, registered: seq<nat>, c: Call)
    requires Registrations(calls, registered)
    ensures Registrations(calls + [c], if c.ask.Prepare? && c.answer.Gave? then registered + [c.ask.t] else registered)
  {
    var next := calls + [c];
    var more := if c.ask.Prepare? && c.answer.Gave? then registered + [c.ask.t] else registered;
    forall t: nat
      ensures t in more <==> exists k :: 0 <= k < |next| && next[k].ask == Prepare(t) && next[k].answer.Gave?
    {
      if t in more {
        if t in registered {
          var k :| 0 <= k < |calls| && calls[k].ask == Prepare(t) && calls[k].answer.Gave?;
          assert next[k].ask == Prepare(t);
        } else {
          assert next[|calls|].ask == Prepare(t);
        }
      }
      if k :| 0 <= k < |next| && next[k].ask == Prepare(t) && next[k].answer.Gave? {
        if k < |calls| { assert calls[k].ask == Prepare(t); }
      }
    }
  }

  lemma {:induction false} PreparesAreOrderly(world: World, targets: seq<Target>, order: seq<nat>, i: nat, p: Pass)
    requires i <= |order| && Broken(targets, p) && p.trouble == Fine && Distinct(order)
    requires Registrations(p.calls, p.registered) && Distinct(p.registered)
             && (forall j :: i <= j < |order| ==> order[j] !in p.registered)
    requires forall j :: 0 <= j < |order| ==> order[j] < |targets| && !targets[order[j]].running
    requires forall t: nat :: t in p.registered ==> t < |targets|
    ensures var r := PrepareFrom(world, order, i, p);
            && Broken(targets, r) && Registrations(r.calls, r.registered) && Distinct(r.registered)
            && (forall t: nat :: Status(r.calls, t) == Status(p.calls, t))
            && (forall t: nat :: t in r.registered ==> t < |targets|)
            && (r.trouble.AtPrepare? ==> r.trouble.t < |targets| && !targets[r.trouble.t].running)
            && (r.trouble.Fine? || r.trouble.AtPrepare?)
    decreases |order| - i
  {
    if i < |order| {
      var t := order[i];
      var c := Call(Prepare(t), world(p.calls, Prepare(t)));
      QuietCall(targets, p, c);
      RegistrationsNext(p.calls, p.registered, c);
      hide Broken, Status, Registrations;
      if c.answer != Threw {
        var next := p.(calls := p.calls + [c],
                       registered := if c.answer.Gave? then p.registered + [t] else p.registered);
        BrokenRegistered(targets, p.(calls := p.calls + [c]), next.registered);
        PreparesAreOrderly(world, targets, order, i + 1, next);
      } else {
        BrokenTrouble(targets, p.(calls := p.calls + [c]), AtPrepare(t));
      }
    }
  }

  lemma BrokenRegistered(targets: seq<Target>, p: Pass, registered: seq<nat>)
    requires Broken(targets, p)
    ensures Broken(targets, p.(registered := registered))
  {
    hide Orderly, Status, Attempted;
  }

  lemma BrokenTrouble(targets: seq<Target>, p: Pass, trouble: Trouble)
    requires Broken(targets, p)
    ensures Broken(targets, p.(trouble := trouble))
  {
    hide Orderly, Status, Attempted;
  }

  // ----- undoing -----

  /** How far the replacements have been taken down: those that stopped are down, those that did not are doubtful. */
  ghost predicate Retiring(targets: seq<Target>, p: Pass, list: seq<nat>, i: nat, u: Undo)
    requires i <= |list|
  {
    && Orderly(targets, u.calls)
    && (forall t: nat :: t in u.failedStops ==> t in list[..i])
    && (forall t: nat :: t in p.stopped && t !in p.started ==> Status(u.calls, t) == Down)
    && (forall t: nat :: t in list[..i] ==> Status(u.calls, t) == if t in u.failedStops then Doubtful else Down)
    && (forall t: nat :: t !in p.stopped ==> Status(u.calls, t) != Down)
    && (p.started != [] ==> forall o: nat :: o < |targets| && targets[o].running ==> Attempted(u.calls, o))
  }

  lemma {:induction false} RestoresAreOrderly(world: World, targets: seq<Target>, p: Pass, list: seq<nat>, i: nat,
                                              u: Undo)
    requires i <= |list| && Broken(targets, p.(calls := u.calls)) && u.failedStops == {}
    ensures var r := RestoreFrom(world, list, i, u);
            Broken(targets, p.(calls := r.calls)) && r.failedStops == {}
    decreases |list| - i
  {
    if i < |list| {
      var c := Call(Restore(list[i]), world(u.calls, Restore(list[i])));
      QuietCall(targets, p.(calls := u.calls), c);
      hide Broken, Status;
      var rows := if c.answer != Threw then u.rows
                  else u.rows + [Row(list[i], Failed, Some(RegistrationRestore), None)];
      assert p.(calls := u.calls).(calls := u.calls + [c]) == p.(calls := u.calls + [c]);
      RestoresAreOrderly(world, targets, p, list, i + 1, u.(calls := u.calls + [c], rows := rows));
    }
  }

  lemma {:induction false} RetiresAreOrderly(world: World, targets: seq<Target>, p: Pass, list: seq<nat>, i: nat,
                                             u: Undo)
    requires i <= |list| && Distinct(list) && (forall t: nat :: t in list <==> t in p.started)
    requires (forall t: nat :: t in p.started ==> t in p.stopped) && Retiring(targets, p, list, i, u)
    ensures Retiring(targets, p, list, |list|, RetireFrom(world, list, i, u))
    decreases |list| - i
  {
    hide Orderly, Status, Attempted, Allowed, Distinct;
    if i < |list| {
      var answer := world(u.calls, Stop(list[i]));
      RetireStep(targets, p, list, i, u, answer);
      RetiresAreOrderly(world, targets, p, list, i + 1, Took(u, list[i], answer));
    } else {
      assert list[..i] == list;
    }
  }

  function Took(u: Undo, t: nat, answer: Answer): Undo {
    var calls := u.calls + [Call(Stop(t), answer)];
    if answer != Threw then u.(calls := calls)
    else u.(calls := calls, failedStops := u.failedStops + {t},
            rows := u.rows + [Row(t, Failed, Some(ReplacementStop), None)])
  }

  /** Taking one replacement down, or failing to. */
  lemma RetireStep(targets: seq<Target>, p: Pass, list: seq<nat>, i: nat, u: Undo, answer: Answer)
    requires i < |list| && Distinct(list) && (forall t: nat :: t in list <==> t in p.started)
    requires (forall t: nat :: t in p.started ==> t in p.stopped) && Retiring(targets, p, list, i, u)
    ensures Retiring(targets, p, list, i + 1, Took(u, list[i], answer))
  {
    var t, c := list[i], Call(Stop(list[i]), answer);
    assert t in list && p.started != [];
    RetireIsAllowed(targets, p, list, i, u);
    OrderlyNext(targets, u.calls, c);
    StatusEverywhere(u.calls, c);
    assert list[..i + 1] == list[..i] + [t] && t !in list[..i];
    hide Orderly, Status, Attempted, Allowed, Distinct;
  }

  lemma RetireIsAllowed(targets: seq<Target>, p: Pass, list: seq<nat>, i: nat, u: Undo)
    requires i < |list| && Retiring(targets, p, list, i, u) && p.started != []
    ensures Allowed(targets, u.calls, Stop(list[i]))
  {
  }

  /** How far the stopped targets have been put back. */
  ghost predicate Reviving(targets: seq<Target>, stopped: seq<nat>, order: seq<nat>, i: nat, u: Undo)
    requires i <= |order| && InRange(order, |targets|)
  {
    && Orderly(targets, u.calls)
    && (forall t: nat :: t in order[i..] && t !in u.failedStops ==> Status(u.calls, t) == Down)
    && (forall t: nat :: t in order[..i] && Status(u.calls, t) == Down ==> targets[t].previousEntry.None?)
    && (forall t: nat :: t in u.failedStops ==> Status(u.calls, t) != Down)
    && (forall t: nat :: t !in stopped ==> Status(u.calls, t) != Down)
  }

  lemma ReviveIsAllowed(targets: seq<Target>, stopped: seq<nat>, order: seq<nat>, i: nat, u: Undo)
    requires StartOrder(targets, order, stopped) && i < |order| && Reviving(targets, stopped, order, i, u)
             && order[i] !in u.failedStops
    requires targets[order[i]].previousEntry.Some?
    ensures Allowed(targets, u.calls, Start(order[i], Old(targets[order[i]].previousEntry.value)))
  {
    var t := order[i];
    assert order[i..][0] == t;
    if targets[t].backend == OpenClaw {
      forall d: nat | d < |targets| && Child(targets[d]) && Status(u.calls, d) == Down
        ensures targets[d].previousEntry.None?
      {
        assert d in order;
        var j :| 0 <= j < |order| && order[j] == d;
        assert j < i && order[..i][j] == d;
      }
    }
  }

  lemma QuietAsk(targets: seq<Target>, calls: seq<Call>, c: Call)
    requires Orderly(targets, calls) && !c.ask.Start? && !c.ask.Stop?
    ensures Orderly(targets, calls + [c]) && forall x: nat :: Status(calls + [c], x) == Status(calls, x)
  {
    OrderlyNext(targets, calls, c);
    StatusEverywhere(calls, c);
  }

  /** A revival with a previous entry starts it, asks at most one further question, and reports once. */
  lemma ReviveShape(world: World, target: Target, t: nat, u: Undo) returns (asks: seq<Call>)
    ensures var r := Revive(world, target, t, u);
            && r.failedStops == u.failedStops && |asks| <= 1
            && (target.previousEntry.None? ==> r.calls == u.calls)
            && (target.previousEntry.Some? ==>
                  r.calls == Did(world, u.calls, Start(t, Old(target.previousEntry.value))) + asks)
            && |r.rows| == |u.rows| + 1 && u.rows <= r.rows
            && r.rows[|u.rows|].t == t && r.rows[|u.rows|].state in {Failed, Restored}
            && (r.rows[|u.rows|].state == Failed <==> r.rows[|u.rows|].reason == Some(RestoreUnverified))
            && (r.rows[|u.rows|].state == Restored ==>
                  target.previousEntry.Some? && Works(world, u.calls, Start(t, Old(target.previousEntry.value))))
    ensures forall c :: c in asks ==> !c.ask.Start? && !c.ask.Stop?
  {
    asks := [];
    if target.previousEntry.Some? {
      var calls := Did(world, u.calls, Start(t, Old(target.previousEntry.value)));
      if Works(world, u.calls, Start(t, Old(target.previousEntry.value))) {
        if target.verifiesRestored {
          asks := [Call(VerifyRestored(t), world(calls, VerifyRestored(t)))];
        } else if target.previousVersion.Some? {
          asks := [Call(Verify(t, target.previousVersion), world(calls, Verify(t, target.previousVersion)))];
        } else if target.verifiesPrevious {
          asks := [Call(VerifyPrevious(t), world(calls, VerifyPrevious(t)))];
        }
      }
    }
  }

  /** One revival makes at most one start, and then only asks for confirmation. */
  lemma ReviveCalls(world: World, targets: seq<Target>, t: nat, u: Undo)
    requires t < |targets| && Orderly(targets, u.calls)
    requires targets[t].previousEntry.Some? ==> Allowed(targets, u.calls, Start(t, Old(targets[t].previousEntry.value)))
    ensures var r := Revive(world, targets[t], t, u);
            && Orderly(targets, r.calls) && r.failedStops == u.failedStops
            && (forall x: nat :: x != t ==> Status(r.calls, x) == Status(u.calls, x))
            && (targets[t].previousEntry.Some? ==>
                  Status(r.calls, t) == Doubtful || Status(r.calls, t) == Runs(Old(targets[t].previousEntry.value)))
            && (targets[t].previousEntry.None? ==> r.calls == u.calls)
            && |r.rows| == |u.rows| + 1 && u.rows <= r.rows
            && r.rows[|u.rows|].t == t && r.rows[|u.rows|].state in {Failed, Restored}
            && (r.rows[|u.rows|].state == Failed <==> r.rows[|u.rows|].reason == Some(RestoreUnverified))
            && (r.rows[|u.rows|].state == Restored ==>
                  targets[t].previousEntry.Some? && Status(r.calls, t) == Runs(Old(targets[t].previousEntry.value)))
  {
    var asks := ReviveShape(world, targets[t], t, u);
    hide Revive;
    if targets[t].previousEntry.Some? {
      var ask := Start(t, Old(targets[t].previousEntry.value));
      var start := Call(ask, world(u.calls, ask));
      OrderlyNext(targets, u.calls, start);
      StatusEverywhere(u.calls, start);
      hide Orderly, Status, Allowed, Attempted;
      if asks == [] {
        assert u.calls + [start] + asks == u.calls + [start];
      } else {
        assert asks == [asks[0]];
        QuietAsk(targets, u.calls + [start], asks[0]);
      }
    }
  }

  lemma {:induction false} RevivalsAreOrderly(world: World, targets: seq<Target>, stopped: seq<nat>, order: seq<nat>,
                                              i: nat, u: Undo)
    requires StartOrder(targets, order, stopped) && i <= |order| && Reviving(targets, stopped, order, i, u)
    ensures Reviving(targets, stopped, order, |order|, ReviveFrom(world, targets, order, i, u))
    decreases |order| - i
  {
    if i < |order| {
      var t := order[i];
      assert order[i..] == [t] + order[i + 1..] && order[..i + 1] == order[..i] + [t];
      assert t !in order[..i] && t !in order[i + 1..];
      var next := if t in u.failedStops then u else Revive(world, targets[t], t, u);
      if t !in u.failedStops {
        if targets[t].previousEntry.Some? { ReviveIsAllowed(targets, stopped, order, i, u); }
        ReviveCalls(world, targets, t, u);
      }
      hide Orderly, Status, Revive;
      assert Reviving(targets, stopped, order, i + 1, next);
      RevivalsAreOrderly(world, targets, stopped, order, i + 1, next);
    }
  }

  // ----- the whole transaction -----

  /** The state in which the three forward passes end. */
  lemma ForwardIsBroken(world: World, targets: seq<Target>, version: nat, calls: seq<Call>)
    requires forall k :: 0 <= k < |calls| ==> calls[k].ask.Preflight?
    ensures var p := Forward(world, targets, version, calls);
            && Broken(targets, p) && Registrations(p.calls, p.registered) && Distinct(p.registered)
            && (forall t: nat :: t in p.registered ==> t < |targets|)
            && (p.trouble.AtPrepare? ==> p.trouble.t < |targets| && !targets[p.trouble.t].running)
            && (p.trouble == Fine ==>
                  forall t: nat ::
                    Status(p.calls, t) == if t < |targets| && targets[t].running then Runs(New) else Original)
  {
    QuietIsOrderly(targets, calls);
    var order := Sorted(targets, Running(targets), StopRank);
    SortedIsSorted(targets, Running(targets), StopRank);
    var p0 := Pass(calls, [], [], [], Fine);
    hide Orderly, Status, Attempted, Sorted, Running;
    assert StopOrder(targets, order) && Stopping(targets, order, 0, p0);
    StopsAreOrderly(world, targets, order, 0, p0);
    var p1 := StopPass(world, targets, calls);
    NoRegistrations(calls);
    StopsRegisterNothing(world, order, 0, p0);
    if p1.trouble == Fine {
      StopsThenStarts(world, targets, version, order, p1);
    } else {
      assert StartPass(world, targets, version, p1) == p1;
    }
  }

  lemma NoRegistrations(calls: seq<Call>)
    requires forall k :: 0 <= k < |calls| ==> calls[k].ask.Preflight?
    ensures Registrations(calls, [])
  {
  }

  lemma {:induction false} StopsRegisterNothing(world: World, order: seq<nat>, i: nat, p: Pass)
    requires i <= |order| && Registrations(p.calls, p.registered)
    ensures var r := StopFrom(world, order, i, p); Registrations(r.calls, r.registered)
    decreases |order| - i
  {
    if i < |order| {
      var c := Call(Stop(order[i]), world(p.calls, Stop(order[i])));
      RegistrationsNext(p.calls, p.registered, c);
      hide Registrations;
      if c.answer != Threw {
        StopsRegisterNothing(world, order, i + 1, p.(calls := p.calls + [c], stopped := p.stopped + [order[i]]));
      }
    }
  }

  lemma {:induction false} StartsRegisterNothing(world: World, version: nat, order: seq<nat>, i: nat, p: Pass)
    requires i <= |order| && Registrations(p.calls, p.registered)
    ensures var r := StartFrom(world, version, order, i, p); Registrations(r.calls, r.registered)
    decreases |order| - i
  {
    if i < |order| {
      var t := order[i];
      var start := Call(Start(t, New), world(p.calls, Start(t, New)));
      var q := p.(started := p.started + [t], calls := p.calls + [start]);
      var verify := Call(Verify(t, Some(version)), world(q.calls, Verify(t, Some(version))));
      RegistrationsNext(p.calls, p.registered, start);
      RegistrationsNext(q.calls, p.registered, verify);
      hide Registrations;
      if start.answer != Threw && verify.answer != Threw {
        StartsRegisterNothing(world, version, order, i + 1, q.(calls := q.calls + [verify]));
      }
    }
  }

  lemma StopsThenStarts(world: World, targets: seq<Target>, version: nat, stops: seq<nat>, p1: Pass)
    requires StopOrder(targets, stops) && Stopping(targets, stops, |stops|, p1)
             && Registrations(p1.calls, p1.registered) && p1.registered == []
    ensures InRange(p1.stopped, |targets|)
    ensures var p := PreparePass(world, targets, StartPass(world, targets, version, p1));
            && Broken(targets, p) && Registrations(p.calls, p.registered) && Distinct(p.registered)
            && (forall t: nat :: t in p.registered ==> t < |targets|)
            && (p.trouble.AtPrepare? ==> p.trouble.t < |targets| && !targets[p.trouble.t].running)
            && (p.trouble == Fine ==>
                  forall t: nat ::
                    Status(p.calls, t) == if t < |targets| && targets[t].running then Runs(New) else Original)
  {
    assert stops[..|stops|] == stops && p1.stopped == stops;
    var order := Sorted(targets, p1.stopped, StartRank);
    SortedIsSorted(targets, p1.stopped, StartRank);
    hide Orderly, Status, Sorted, Registrations;
    assert StartOrder(targets, order, p1.stopped);
    assert Starting(targets, order, 0, p1) by { StoppedIsStarting(targets, stops, p1, order); }
    StartsAreOrderly(world, targets, version, order, 0, p1);
    StartsRegisterNothing(world, version, order, 0, p1);
    var p2 := StartPass(world, targets, version, p1);
    if p2.trouble == Fine {
      assert order[..|order|] == order;
      PreparesAreOrderly(world, targets, Idle(targets), 0, p2) by { IdleIsIdle(targets); }
    } else {
      assert PreparePass(world, targets, p2) == p2;
    }
  }

  lemma StoppedIsStarting(targets: seq<Target>, stops: seq<nat>, p: Pass, order: seq<nat>)
    requires StopOrder(targets, stops) && Stopping(targets, stops, |stops|, p)
    ensures Starting(targets, order, 0, p)
  {
    hide Orderly, Status;
    assert stops[..|stops|] == stops;
    forall o: nat | o < |targets| && targets[o].running
      ensures Attempted(p.calls, o)
    {
      assert o in stops;
    }
    assert forall t: nat :: t in p.stopped ==> t in stops;
  }

  lemma IdleIsIdle(targets: seq<Target>)
    ensures forall j :: 0 <= j < |Idle(targets)| ==> Idle(targets)[j] < |targets| && !targets[Idle(targets)[j]].running
  {
    forall j | 0 <= j < |Idle(targets)|
      ensures !targets[Idle(targets)[j]].running
    {
      assert Idle(targets)[j] in Idle(targets);
    }
  }

  /** The state of a rollback once the registrations are restored and the replacements stopped. */
  ghost function Retired(world: World, p: Pass): Undo {
    RetireFrom(world, Reversed(p.started), 0, RestoreFrom(world, Reversed(p.registered), 0, Undo(p.calls, [], {})))
  }

  lemma RetiredIsOrderly(world: World, targets: seq<Target>, p: Pass)
    requires Broken(targets, p)
    ensures Retiring(targets, p, Reversed(p.started), |p.started|, Retired(world, p))
  {
    var list, u0 := Reversed(p.started), Undo(p.calls, [], {});
    var u1 := RestoreFrom(world, Reversed(p.registered), 0, u0);
    assert p.(calls := u0.calls) == p;
    hide Orderly, Status, Attempted, Reversed;
    RestoresAreOrderly(world, targets, p, Reversed(p.registered), 0, u0);
    assert Retiring(targets, p, list, 0, u1);
    RetiresAreOrderly(world, targets, p, list, 0, u1);
  }

  lemma RetiredCanRevive(targets: seq<Target>, p: Pass, order: seq<nat>, u: Undo)
    requires Broken(targets, p) && StartOrder(targets, order, p.stopped)
    requires Retiring(targets, p, Reversed(p.started), |p.started|, u)
    ensures Reviving(targets, p.stopped, order, 0, u)
  {
    var list := Reversed(p.started);
    assert list[..|list|] == list && order[0..] == order;
    hide Orderly, Status, Attempted, Reversed;
  }

  /** A rollback keeps the order of things too. */
  lemma RollbackIsOrderly(world: World, targets: seq<Target>, p: Pass)
    requires Broken(targets, p)
    ensures var u, order := Rollback(world, targets, p), Sorted(targets, p.stopped, StartRank);
            StartOrder(targets, order, p.stopped) && Reviving(targets, p.stopped, order, |order|, u)
  {
    var order := Sorted(targets, p.stopped, StartRank);
    SortedIsSorted(targets, p.stopped, StartRank);
    RetiredIsOrderly(world, targets, p);
    hide Orderly, Status, Attempted, Sorted, Reversed, RestoreFrom, RetireFrom;
    RetiredCanRevive(targets, p, order, Retired(world, p));
    hide Broken, Retiring, Reviving, StartOrder;
    assert StartOrder(targets, order, p.stopped) by { StartOrderIs(targets, p); }
    RevivalsAreOrderly(world, targets, p.stopped, order, 0, Retired(world, p));
  }

  lemma StartOrderIs(targets: seq<Target>, p: Pass)
    requires InRange(p.stopped, |targets|) && Distinct(p.stopped)
    ensures StartOrder(targets, Sorted(targets, p.stopped, StartRank), p.stopped)
  {
    SortedIsSorted(targets, p.stopped, StartRank);
  }

  /** In every run, whatever fails, every start and stop is allowed where it happens. */
  lemma UpdatesAreOrderly(world: World, targets: seq<Target>, version: nat)
    ensures Orderly(targets, Activated(world, targets, version).calls)
  {
    var (calls, ready) := PreflightFrom(world, |targets|, 0, []);
    PreflightsAreQuiet(world, targets, 0, []);
    QuietIsOrderly(targets, calls);
    if ready {
      ForwardIsBroken(world, targets, version, calls);
      hide Orderly, Status, PreflightFrom, Forward, Rollback, LeftFrom;
      RollbackIsOrderly(world, targets, Forward(world, targets, version, calls));
    }
  }

  /** When a preflight fails, nothing is stopped, started or prepared. */
  lemma FailedPreflightTouchesNothing(world: World, targets: seq<Target>, version: nat, k: nat)
    requires Activated(world, targets, version).Thrown? && k < |Activated(world, targets, version).calls|
    ensures Activated(world, targets, version).calls[k].ask.Preflight?
  {
    PreflightsAreQuiet(world, targets, 0, []);
  }
}
