/**
 * What calls an update makes, told as a script: the forward calls are one list, played until a call throws, and what
 * follows a throw takes back, last first, what the trace itself shows was done.
 */
module UpdateScript {
  import opened Wrappers
  import opened UpdateTransaction
  import Safety = UpdateSafety
  import Report = UpdateReport

  // ----- orders -----

  /** Independent runtimes, then the service, then its relay, then Hermes. */
  predicate StopsFirst(a: Backend, b: Backend) {
    match a
    case Other(_) => !b.Other?
    case OpenClaw => b.HermesRelay? || b.Hermes?
    case HermesRelay => b.Hermes?
    case Hermes => false
  }

  /** The service last, the relay just before it. */
  predicate StartsFirst(a: Backend, b: Backend) {
    match b
    case OpenClaw => !a.OpenClaw?
    case HermesRelay => a.Hermes? || a.Other?
    case _ => false
  }

  ghost predicate Earlier(list: seq<nat>, x: nat, y: nat) {
    exists i, j :: 0 <= i < j < |list| && list[i] == x && list[j] == y
  }

  /** Every running target once, by who stops first, else as listed. */
  ghost predicate StopsInOrder(targets: seq<Target>, order: seq<nat>) {
    && Distinct(order) && (forall t: nat :: t in order <==> t < |targets| && targets[t].running)
    && InRange(order, |targets|)
    && forall i, j :: 0 <= i < j < |order| ==>
         var a, b := targets[order[i]].backend, targets[order[j]].backend;
         StopsFirst(a, b) || (!StopsFirst(b, a) && order[i] < order[j])
  }

  /** Every stopped target once, by who starts first, else as they were stopped. */
  ghost predicate StartsInOrder(targets: seq<Target>, stopped: seq<nat>, order: seq<nat>) {
    && Distinct(order) && (forall t: nat :: t in order <==> t in stopped) && InRange(order, |targets|)
    && forall i, j :: 0 <= i < j < |order| ==>
         var a, b := targets[order[i]].backend, targets[order[j]].backend;
         StartsFirst(a, b) || (!StartsFirst(b, a) && Earlier(stopped, order[i], order[j]))
  }

  /** Every idle target that can be prepared once, as listed. */
  ghost predicate PreparesInOrder(targets: seq<Target>, order: seq<nat>) {
    && (forall t: nat :: t in order <==> t < |targets| && !targets[t].running && targets[t].prepares)
    && Rising(order)
  }

  predicate Rising(list: seq<nat>) { forall i, j :: 0 <= i < j < |list| ==> list[i] < list[j] }

  ghost predicate Stable(targets: seq<Target>, list: seq<nat>, rank: Backend -> nat, x: seq<nat>, most: nat) {
    && InRange(x, |targets|) && (forall i :: 0 <= i < |x| ==> rank(targets[x[i]].backend) <= most)
    && forall i, j :: 0 <= i < j < |x| ==>
         var a, b := rank(targets[x[i]].backend), rank(targets[x[j]].backend);
         a < b || (a == b && Earlier(list, x[i], x[j]))
  }

  /** Targets of one rank, in the order of the list. */
  ghost predicate Tier(targets: seq<Target>, list: seq<nat>, rank: Backend -> nat, x: seq<nat>, r: nat) {
    && InRange(x, |targets|) && (forall i :: 0 <= i < |x| ==> rank(targets[x[i]].backend) == r)
    && forall i, j :: 0 <= i < j < |x| ==> Earlier(list, x[i], x[j])
  }

  lemma EarlierGrows(list: seq<nat>, last: nat, x: nat, y: nat)
    ensures Earlier(list, x, y) ==> Earlier(list + [last], x, y)
    ensures x in list ==> Earlier(list + [last], x, last)
  {
    var next := list + [last];
    if i, j :| 0 <= i < j < |list| && list[i] == x && list[j] == y { assert next[i] == x && next[j] == y; }
    if i :| 0 <= i < |list| && list[i] == x { assert next[i] == x && next[|list|] == last; }
  }

  lemma {:induction false} RankedIsTier(targets: seq<Target>, list: seq<nat>, rank: Backend -> nat, r: nat)
    requires InRange(list, |targets|)
    ensures Tier(targets, list, rank, Ranked(targets, list, rank, r), r)
  {
    if list != [] {
      var less, last := list[..|list| - 1], list[|list| - 1];
      assert list == less + [last];
      RankedIsTier(targets, less, rank, r);
      var part := Ranked(targets, less, rank, r);
      forall x: nat, y: nat { EarlierGrows(less, last, x, y); }
      assert forall i :: 0 <= i < |part| ==> part[i] in part;
      hide Earlier;
    }
  }

  lemma TiersJoin(targets: seq<Target>, list: seq<nat>, rank: Backend -> nat, x: seq<nat>, part: seq<nat>, most: nat)
    requires Stable(targets, list, rank, x, most) && Tier(targets, list, rank, part, most + 1)
    ensures Stable(targets, list, rank, x + part, most + 1)
  {
    hide Earlier;
  }

  lemma TierIsStable(targets: seq<Target>, list: seq<nat>, rank: Backend -> nat, x: seq<nat>, r: nat)
    requires Tier(targets, list, rank, x, r)
    ensures Stable(targets, list, rank, x, r)
  {
    hide Earlier;
  }

  lemma SortedIsStable(targets: seq<Target>, list: seq<nat>, rank: Backend -> nat)
    requires InRange(list, |targets|)
    ensures Stable(targets, list, rank, Sorted(targets, list, rank), 3)
  {
    var a, b, c, d := Ranked(targets, list, rank, 0), Ranked(targets, list, rank, 1),
                      Ranked(targets, list, rank, 2), Ranked(targets, list, rank, 3);
    RankedIsTier(targets, list, rank, 0);
    RankedIsTier(targets, list, rank, 1);
    RankedIsTier(targets, list, rank, 2);
    RankedIsTier(targets, list, rank, 3);
    assert Sorted(targets, list, rank) == a + b + c + d;
    hide Ranked, Stable, Tier, Sorted, InRange;
    TierIsStable(targets, list, rank, a, 0);
    TiersJoin(targets, list, rank, a, b, 0);
    TiersJoin(targets, list, rank, a + b, c, 1);
    TiersJoin(targets, list, rank, a + b + c, d, 2);
  }

  lemma {:induction false} RunningRises(targets: seq<Target>)
    ensures Rising(Running(targets))
  {
    if targets != [] {
      var less := targets[..|targets| - 1];
      RunningRises(less);
      assert forall i :: 0 <= i < |Running(less)| ==> Running(less)[i] < |less|;
    }
  }

  lemma {:induction false} IdleRises(targets: seq<Target>)
    ensures Rising(Idle(targets))
  {
    if targets != [] {
      var less := targets[..|targets| - 1];
      IdleRises(less);
      assert forall i :: 0 <= i < |Idle(less)| ==> Idle(less)[i] < |less|;
    }
  }

  lemma RisingIsEarlier(list: seq<nat>, x: nat, y: nat)
    requires Rising(list) && Earlier(list, x, y)
    ensures x < y
  {
  }

  lemma StopOrderIs(targets: seq<Target>)
    ensures StopsInOrder(targets, Sorted(targets, Running(targets), StopRank))
  {
    hide Sorted, Running, Earlier, Ascending, Rising, Distinct;
    var list := Running(targets);
    SortedIsSorted(targets, list, StopRank);
    SortedIsStable(targets, list, StopRank);
    RunningRises(targets);
    var order := Sorted(targets, list, StopRank);
    forall i, j | 0 <= i < j < |order|
      ensures var a, b := targets[order[i]].backend, targets[order[j]].backend;
              StopsFirst(a, b) || (!StopsFirst(b, a) && order[i] < order[j])
    {
      if Earlier(list, order[i], order[j]) { RisingIsEarlier(list, order[i], order[j]); }
    }
  }

  lemma StartOrderIs(targets: seq<Target>, stopped: seq<nat>)
    requires InRange(stopped, |targets|) && Distinct(stopped)
    ensures StartsInOrder(targets, stopped, Sorted(targets, stopped, StartRank))
  {
    SortedIsSorted(targets, stopped, StartRank);
    SortedIsStable(targets, stopped, StartRank);
    hide Sorted, Earlier, Ascending;
  }

  // ----- the script -----

  function PreflightAsks(n: nat): (asks: seq<Ask>)
    ensures |asks| == n && forall i: nat :: i < n ==> asks[i] == Preflight(i)
  {
    seq(n, i requires 0 <= i < n => Preflight(i))
  }

  function StopAsks(list: seq<nat>): (asks: seq<Ask>)
    ensures |asks| == |list| && forall i :: 0 <= i < |list| ==> asks[i] == Stop(list[i])
  {
    seq(|list|, i requires 0 <= i < |list| => Stop(list[i]))
  }

  /** Each start is followed at once by the verification of what was started. */
  function StartAsks(list: seq<nat>, version: nat): (asks: seq<Ask>)
    ensures |asks| == 2 * |list| && forall k :: 0 <= k < |asks| ==> asks[k] == StartAsk(list, version, k)
  {
    seq(2 * |list|, k requires 0 <= k < 2 * |list| => StartAsk(list, version, k))
  }

  function StartAsk(list: seq<nat>, version: nat, k: nat): Ask
    requires k < 2 * |list|
  {
    if k % 2 == 0 then Start(list[k / 2], New) else Verify(list[k / 2], Some(version))
  }

  lemma StartAskAt(list: seq<nat>, version: nat, i: nat)
    requires i < |list|
    ensures StartAsk(list, version, 2 * i) == Start(list[i], New)
    ensures StartAsk(list, version, 2 * i + 1) == Verify(list[i], Some(version))
  {
  }

  function PrepareAsks(list: seq<nat>): (asks: seq<Ask>)
    ensures |asks| == |list| && forall i :: 0 <= i < |list| ==> asks[i] == Prepare(list[i])
  {
    seq(|list|, i requires 0 <= i < |list| => Prepare(list[i]))
  }

  function Script(n: nat, version: nat, stops: seq<nat>, starts: seq<nat>, idle: seq<nat>): seq<Ask> {
    PreflightAsks(n) + StopAsks(stops) + StartAsks(starts, version) + PrepareAsks(idle)
  }

  /** Every answer is the world's, to what had happened until then. */
  ghost predicate Honest(world: World, calls: seq<Call>) {
    forall k :: 0 <= k < |calls| ==> calls[k].answer == world(calls[..k], calls[k].ask)
  }

  predicate NoneThrew(calls: seq<Call>) { forall k :: 0 <= k < |calls| ==> calls[k].answer != Threw }

  /** The calls are the script's, as far as they go, and none but the last threw. */
  ghost predicate Plays(world: World, script: seq<Ask>, calls: seq<Call>) {
    && Honest(world, calls) && |calls| <= |script|
    && (forall k :: 0 <= k < |calls| ==> calls[k].ask == script[k])
    && (forall k :: 0 <= k < |calls| - 1 ==> calls[k].answer != Threw)
  }

  /** The script broke off at a call that threw. */
  ghost predicate Breaks(world: World, script: seq<Ask>, calls: seq<Call>) {
    Plays(world, script, calls) && calls != [] && calls[|calls| - 1].answer == Threw
  }

  lemma HonestNext(world: World, calls: seq<Call>, ask: Ask)
    requires Honest(world, calls)
    ensures Honest(world, Did(world, calls, ask))
  {
    var next := Did(world, calls, ask);
    forall k | 0 <= k < |next|
      ensures next[k].answer == world(next[..k], next[k].ask)
    {
      if k < |calls| { assert next[..k] == calls[..k]; } else { assert next[..k] == calls; }
    }
  }

  lemma PlayNext(world: World, script: seq<Ask>, calls: seq<Call>)
    requires Plays(world, script, calls) && NoneThrew(calls) && |calls| < |script|
    ensures var ask := script[|calls|];
            var next := Did(world, calls, ask);
            && Plays(world, script, next) && |next| == |calls| + 1
            && (Works(world, calls, ask) ==> NoneThrew(next))
            && (!Works(world, calls, ask) ==> Breaks(world, script, next))
  {
    HonestNext(world, calls, script[|calls|]);
    hide Honest;
  }

  // ----- the forward passes play the script -----

  lemma {:induction false} PreflightsPlay(world: World, script: seq<Ask>, n: nat, i: nat, calls: seq<Call>)
    requires i <= n <= |script| && forall j: nat :: j < n ==> script[j] == Preflight(j)
    requires Plays(world, script, calls) && NoneThrew(calls) && |calls| == i
    ensures var (r, ready) := PreflightFrom(world, n, i, calls);
            && (ready ==> Plays(world, script, r) && NoneThrew(r) && |r| == n)
            && (!ready ==> Breaks(world, script, r) && |r| <= n)
    decreases n - i
  {
    if i < n {
      PlayNext(world, script, calls);
      hide Plays, NoneThrew;
      if Works(world, calls, Preflight(i)) { PreflightsPlay(world, script, n, i + 1, Did(world, calls, Preflight(i))); }
    }
  }

  /** How far a pass is: it plays on, or it broke off. */
  ghost predicate Playing(world: World, script: seq<Ask>, p: Pass, end: nat) {
    if p.trouble == Fine then Plays(world, script, p.calls) && NoneThrew(p.calls) && |p.calls| == end
    else Breaks(world, script, p.calls) && |p.calls| <= end
  }

  lemma {:induction false} StopsPlay(world: World, script: seq<Ask>, at: nat, order: seq<nat>, i: nat, p: Pass)
    requires i <= |order| && at + |order| <= |script|
    requires forall k :: at <= k < at + |order| ==> script[k] == Stop(order[k - at])
    requires p.trouble == Fine && Playing(world, script, p, at + i) && p.stopped == order[..i]
    ensures var r := StopFrom(world, order, i, p);
            && Playing(world, script, r, at + |order|)
            && r.stopped == order[..|r.stopped|] && |r.calls| == at + |r.stopped| + (if r.trouble == Fine then 0 else 1)
            && (r.trouble == Fine ==> r.stopped == order)
            && (r.trouble != Fine ==> |r.stopped| < |order| && r.trouble == AtStop(order[|r.stopped|]))
    decreases |order| - i
  {
    if i < |order| {
      var t := order[i];
      assert script[at + i] == Stop(t);
      PlayNext(world, script, p.calls);
      hide Plays, NoneThrew, Breaks;
      assert order[..i + 1] == order[..i] + [t];
      if Works(world, p.calls, Stop(t)) {
        StopsPlay(world, script, at, order, i + 1,
                  p.(calls := Did(world, p.calls, Stop(t)), stopped := p.stopped + [t]));
      }
    } else {
      assert order[..i] == order;
    }
  }

  lemma {:induction false} StartsPlay(world: World, script: seq<Ask>, version: nat, at: nat, order: seq<nat>, i: nat,
                                      p: Pass)
    requires i <= |order| && at + 2 * |order| <= |script|
    requires forall k :: at <= k < at + 2 * |order| ==> script[k] == StartAsk(order, version, k - at)
    requires p.trouble == Fine && Playing(world, script, p, at + 2 * i) && p.started == order[..i]
    ensures var r := StartFrom(world, version, order, i, p);
            && Playing(world, script, r, at + 2 * |order|)
            && r.started == order[..|r.started|]
            && (r.trouble == Fine ==> r.started == order)
            && (r.trouble != Fine ==>
                  && r.started != [] && r.trouble.AtStart?
                  && at + 2 * |r.started| - 1 <= |r.calls| <= at + 2 * |r.started|)
    decreases |order| - i
  {
    if i < |order| {
      var t := order[i];
      StartAskAt(order, version, i);
      assert script[at + 2 * i] == Start(t, New) && script[at + 2 * i + 1] == Verify(t, Some(version));
      hide StartAsk;
      assert order[..i + 1] == order[..i] + [t];
      PlayNext(world, script, p.calls);
      if Works(world, p.calls, Start(t, New)) {
        var calls := Did(world, p.calls, Start(t, New));
        PlayNext(world, script, calls);
        hide Plays, NoneThrew, Breaks;
        if Works(world, calls, Verify(t, Some(version))) {
          StartsPlay(world, script, version, at, order, i + 1,
                     p.(calls := Did(world, calls, Verify(t, Some(version))), started := p.started + [t]));
        }
      }
    } else {
      assert order[..i] == order;
    }
  }

  /** The targets whose preparation gave something to restore. */
  ghost predicate Changed(calls: seq<Call>, registered: seq<nat>) {
    && Rising(registered)
    && forall t: nat :: t in registered <==>
         exists k :: 0 <= k < |calls| && calls[k].ask == Prepare(t) && calls[k].answer.Gave?
  }

  lemma ChangedNext(calls: seq<Call>, registered: seq<nat>, c: Call)
    requires Changed(calls, registered)
    requires c.ask.Prepare? ==> forall t: nat :: t in registered ==> t < c.ask.t
    ensures Changed(calls + [c], if c.ask.Prepare? && c.answer.Gave? then registered + [c.ask.t] else registered)
  {
    var next := calls + [c];
    var more := if c.ask.Prepare? && c.answer.Gave? then registered + [c.ask.t] else registered;
    assert forall i :: 0 <= i < |registered| ==> registered[i] in registered;
    forall t: nat
      ensures t in more <==> exists k :: 0 <= k < |next| && next[k].ask == Prepare(t) && next[k].answer.Gave?
    {
      if t in registered {
        var k :| 0 <= k < |calls| && calls[k].ask == Prepare(t) && calls[k].answer.Gave?;
        assert next[k].ask == Prepare(t);
      } else if t in more {
        assert next[|calls|].ask == Prepare(t);
      }
      if k :| 0 <= k < |next| && next[k].ask == Prepare(t) && next[k].answer.Gave? {
        if k < |calls| { assert calls[k].ask == Prepare(t); }
      }
    }
  }

  lemma RisesTo(order: seq<nat>, i: nat)
    requires Rising(order) && i < |order|
    ensures forall x: nat :: x in order[..i] ==> x < order[i]
  {
  }

  lemma {:induction false} PreparesPlay(world: World, script: seq<Ask>, at: nat, order: seq<nat>, i: nat, p: Pass)
    requires i <= |order| && at + |order| <= |script| && Rising(order)
    requires forall k :: at <= k < at + |order| ==> script[k] == Prepare(order[k - at])
    requires p.trouble == Fine && Playing(world, script, p, at + i)
    requires Changed(p.calls, p.registered) && forall t: nat :: t in p.registered ==> t in order[..i]
    ensures var r := PrepareFrom(world, order, i, p);
            && Playing(world, script, r, at + |order|) && Changed(r.calls, r.registered)
            && (r.trouble != Fine ==>
                  at < |r.calls| && |r.calls| - 1 - at < |order|
                  && r.trouble == AtPrepare(order[|r.calls| - 1 - at]))
    decreases |order| - i
  {
    hide Plays, NoneThrew, Breaks, Changed, Rising;
    if i < |order| {
      PrepareStep(world, script, at, order, i, p);
      if Works(world, p.calls, Prepare(order[i])) {
        var c := Call(Prepare(order[i]), world(p.calls, Prepare(order[i])));
        PreparesPlay(world, script, at, order, i + 1, AfterPrepare(p, c));
      }
    }
  }

  function AfterPrepare(p: Pass, c: Call): Pass {
    p.(calls := p.calls + [c], registered := if c.answer.Gave? then p.registered + [c.ask.t] else p.registered)
  }

  /** One preparation, however it ends. */
  lemma PrepareStep(world: World, script: seq<Ask>, at: nat, order: seq<nat>, i: nat, p: Pass)
    requires i < |order| && at + |order| <= |script| && Rising(order) && script[at + i] == Prepare(order[i])
    requires p.trouble == Fine && Playing(world, script, p, at + i)
    requires Changed(p.calls, p.registered) && forall t: nat :: t in p.registered ==> t in order[..i]
    ensures var c := Call(Prepare(order[i]), world(p.calls, Prepare(order[i])));
            var next := AfterPrepare(p, c);
            && Changed(next.calls, next.registered) && |next.calls| == at + i + 1
            && (c.answer != Threw ==>
                  Playing(world, script, next, at + i + 1)
                  && forall t: nat :: t in next.registered ==> t in order[..i + 1])
            && (c.answer == Threw ==> Breaks(world, script, next.calls) && next.registered == p.registered)
  {
    var t := order[i];
    var c := Call(Prepare(t), world(p.calls, Prepare(t)));
    hide NoneThrew, Changed, Rising, Honest;
    PlayNext(world, script, p.calls);
    RisesTo(order, i);
    hide Plays;
    assert order[..i + 1] == order[..i] + [t];
    ChangedNext(p.calls, p.registered, c);
  }

  // ----- the forward passes together -----

  function StopsOf(targets: seq<Target>): (order: seq<nat>)
    ensures InRange(order, |targets|)
  {
    Sorted(targets, Running(targets), StopRank)
  }

  function StartsOf(targets: seq<Target>): seq<nat> { Sorted(targets, StopsOf(targets), StartRank) }

  function ScriptOf(targets: seq<Target>, version: nat): seq<Ask> {
    Script(|targets|, version, StopsOf(targets), StartsOf(targets), Idle(targets))
  }

  /** Where a pass broke off, by the number of its calls. */
  ghost predicate Reached(targets: seq<Target>, p: Pass) {
    var n, stops, starts, idle := |targets|, StopsOf(targets), StartsOf(targets), Idle(targets);
    match p.trouble
    case AtStop(t) =>
      && p.started == p.registered == [] && |p.calls| == n + |p.stopped| + 1
      && |p.stopped| < |stops| && p.stopped == stops[..|p.stopped|] && t == stops[|p.stopped|]
    case AtStart(t) =>
      && p.stopped == stops && p.started <= starts && p.started != [] && p.registered == []
      && n + |stops| + 2 * |p.started| - 1 <= |p.calls| <= n + |stops| + 2 * |p.started|
    case AtPrepare(t) =>
      var at := n + |stops| + 2 * |starts|;
      && p.stopped == stops && p.started == starts
      && at < |p.calls| <= at + |idle| && t == idle[|p.calls| - 1 - at]
    case Fine => p.stopped == stops && p.started == starts && |p.calls| == n + |stops| + 2 * |starts| + |idle|
  }

  lemma ScriptHolds(targets: seq<Target>, version: nat)
    ensures var script := ScriptOf(targets, version);
            var n, stops, starts, idle := |targets|, StopsOf(targets), StartsOf(targets), Idle(targets);
            && |script| == n + |stops| + 2 * |starts| + |idle|
            && (forall k: nat :: k < n ==> script[k] == Preflight(k))
            && (forall k :: n <= k < n + |stops| ==> script[k] == Stop(stops[k - n]))
            && (forall k :: n + |stops| <= k < n + |stops| + 2 * |starts| ==>
                  script[k] == StartAsk(starts, version, k - n - |stops|))
            && (forall k :: n + |stops| + 2 * |starts| <= k < |script| ==>
                  script[k] == Prepare(idle[k - n - |stops| - 2 * |starts|]))
  {
    hide StopsOf, StartsOf, Idle, StartAsk;
  }

  lemma OrdersFit(targets: seq<Target>)
    ensures StopsInOrder(targets, StopsOf(targets)) && StartsInOrder(targets, StopsOf(targets), StartsOf(targets))
            && PreparesInOrder(targets, Idle(targets))
  {
    StopOrderIs(targets);
    assert StopsInOrder(targets, StopsOf(targets));
    hide StopsOf, Idle, Sorted, Stable, Earlier;
    StartOrderIs(targets, StopsOf(targets));
    IdleRises(targets);
  }

  lemma StopPassPlays(world: World, targets: seq<Target>, version: nat, calls: seq<Call>)
    requires Plays(world, ScriptOf(targets, version), calls) && NoneThrew(calls) && |calls| == |targets|
    ensures var p, n := StopPass(world, targets, calls), |targets|;
            && p.started == p.registered == [] && Playing(world, ScriptOf(targets, version), p, n + |StopsOf(targets)|)
            && (p.trouble == Fine ==> p.stopped == StopsOf(targets))
            && (p.trouble != Fine ==> Reached(targets, p))
  {
    ScriptHolds(targets, version);
    hide ScriptOf, Plays, NoneThrew, Breaks, StartsOf, Idle, Sorted, Running;
    StopsPlay(world, ScriptOf(targets, version), |targets|, StopsOf(targets), 0, Pass(calls, [], [], [], Fine));
  }

  lemma StartPassPlays(world: World, targets: seq<Target>, version: nat, p: Pass)
    requires var n, script := |targets|, ScriptOf(targets, version);
             p.trouble == Fine && Playing(world, script, p, n + |StopsOf(targets)|)
    requires p.stopped == StopsOf(targets) && p.started == p.registered == []
    ensures InRange(p.stopped, |targets|)
    ensures var r, n := StartPass(world, targets, version, p), |targets|;
            && r.stopped == p.stopped && r.registered == []
            && Playing(world, ScriptOf(targets, version), r, n + |StopsOf(targets)| + 2 * |StartsOf(targets)|)
            && (r.trouble == Fine ==> r.started == StartsOf(targets))
            && (r.trouble != Fine ==> Reached(targets, r))
  {
    ScriptHolds(targets, version);
    OrdersFit(targets);
    hide ScriptOf, Plays, NoneThrew, Breaks, StopsOf, Idle, Sorted, Running, Earlier;
    StartsPlay(world, ScriptOf(targets, version), version, |targets| + |StopsOf(targets)|, StartsOf(targets), 0, p);
  }

  lemma PreparePassPlays(world: World, targets: seq<Target>, version: nat, p: Pass)
    requires var n, script := |targets|, ScriptOf(targets, version);
             p.trouble == Fine && Playing(world, script, p, n + |StopsOf(targets)| + 2 * |StartsOf(targets)|)
    requires p.stopped == StopsOf(targets) && p.started == StartsOf(targets) && p.registered == []
    requires Changed(p.calls, [])
    ensures var r := PreparePass(world, targets, p);
            && Playing(world, ScriptOf(targets, version), r, |ScriptOf(targets, version)|) && Reached(targets, r)
            && Changed(r.calls, r.registered)
  {
    ScriptHolds(targets, version);
    IdleRises(targets);
    hide ScriptOf, Plays, NoneThrew, Breaks, StopsOf, StartsOf, Idle, Sorted, Running, Earlier, Changed;
    PreparesPlay(world, ScriptOf(targets, version), |targets| + |StopsOf(targets)| + 2 * |StartsOf(targets)|,
                 Idle(targets), 0, p);
  }

  /** Nothing is prepared before the starts are done. */
  lemma NothingChangedYet(world: World, targets: seq<Target>, version: nat, p: Pass)
    requires Plays(world, ScriptOf(targets, version), p.calls)
             && |p.calls| <= |targets| + |StopsOf(targets)| + 2 * |StartsOf(targets)|
    ensures Changed(p.calls, [])
  {
    hide StopsOf, StartsOf, Idle, Honest;
    var script := ScriptOf(targets, version);
    assert forall k :: 0 <= k < |targets| + |StopsOf(targets)| + 2 * |StartsOf(targets)| ==> !script[k].Prepare?;
  }

  /** The forward passes play the script to its end, or to the first call that throws. */
  lemma ForwardPlays(world: World, targets: seq<Target>, version: nat, calls: seq<Call>)
    requires Plays(world, ScriptOf(targets, version), calls) && NoneThrew(calls) && |calls| == |targets|
    ensures var p := Forward(world, targets, version, calls);
            && Playing(world, ScriptOf(targets, version), p, |ScriptOf(targets, version)|) && Reached(targets, p)
            && Changed(p.calls, p.registered)
  {
    StopPassPlays(world, targets, version, calls);
    var p1 := StopPass(world, targets, calls);
    hide ScriptOf, StopsOf, StartsOf, Idle, StopPass, StartFrom, PrepareFrom, Plays, Changed, Sorted, NoneThrew;
    if p1.trouble == Fine {
      StartPassPlays(world, targets, version, p1);
      var p2 := StartPass(world, targets, version, p1);
      NothingChangedYet(world, targets, version, p2);
      if p2.trouble == Fine {
        PreparePassPlays(world, targets, version, p2);
      } else {
        StaysWithin(world, targets, version, p2, |targets| + |StopsOf(targets)| + 2 * |StartsOf(targets)|);
      }
    } else {
      NothingChangedYet(world, targets, version, p1);
      StaysWithin(world, targets, version, p1, |targets| + |StopsOf(targets)|);
    }
  }

  lemma StaysWithin(world: World, targets: seq<Target>, version: nat, p: Pass, end: nat)
    requires p.trouble != Fine && Playing(world, ScriptOf(targets, version), p, end)
             && end <= |ScriptOf(targets, version)|
    ensures Playing(world, ScriptOf(targets, version), p, |ScriptOf(targets, version)|)
  {
    hide ScriptOf, Plays;
  }

  // ----- what follows a throw -----

  /** How a stopped target, started again, is confirmed. */
  function CheckOf(target: Target, t: nat): Option<Ask> {
    if target.verifiesRestored then Some(VerifyRestored(t))
    else if target.previousVersion.Some? then Some(Verify(t, target.previousVersion))
    else if target.verifiesPrevious then Some(VerifyPrevious(t))
    else None
  }

  /**
   * From `at` on, the calls put the targets of `order` back: each that was captured and whose replacement did not
   * refuse to stop is started, and if that returned, confirmed.
   */
  ghost predicate PutsBack(targets: seq<Target>, calls: seq<Call>, from: nat, order: seq<nat>, i: nat, at: nat)
    requires i <= |order| && InRange(order, |targets|)
    decreases |order| - i
  {
    if i == |order| then at == |calls|
    else
      var t, target := order[i], targets[order[i]];
      if Report.ThrewSince(calls, from, Stop(t)) || target.previousEntry.None? then
        PutsBack(targets, calls, from, order, i + 1, at)
      else
        && at < |calls| && calls[at].ask == Start(t, Old(target.previousEntry.value))
        && if calls[at].answer == Threw || CheckOf(target, t).None? then
             PutsBack(targets, calls, from, order, i + 1, at + 1)
           else
             && at + 1 < |calls| && calls[at + 1].ask == CheckOf(target, t).value
             && PutsBack(targets, calls, from, order, i + 1, at + 2)
  }

  /** What the forward calls did, and the order in which it is put back. */
  datatype Course = Course(
    stops: seq<nat>, starts: seq<nat>, idle: seq<nat>, from: nat,
    stopped: seq<nat>, started: seq<nat>, registered: seq<nat>, back: seq<nat>)

  ghost predicate Planned(targets: seq<Target>, c: Course) {
    && StopsInOrder(targets, c.stops) && StartsInOrder(targets, c.stops, c.starts)
    && PreparesInOrder(targets, c.idle)
  }

  predicate DidStop(calls: seq<Call>, t: nat) {
    exists k :: 0 <= k < |calls| && calls[k].ask == Stop(t) && calls[k].answer != Threw
  }

  predicate TriedStart(calls: seq<Call>, t: nat) { exists k :: 0 <= k < |calls| && calls[k].ask == Start(t, New) }

  ghost predicate TakesStock(targets: seq<Target>, calls: seq<Call>, c: Course) {
    && c.stopped <= c.stops && (forall t: nat :: t in c.stopped <==> DidStop(calls, t))
    && c.started <= c.starts && (forall t: nat :: t in c.started <==> TriedStart(calls, t))
    && Changed(calls, c.registered) && StartsInOrder(targets, c.stopped, c.back)
  }

  /** Last first: registrations are restored, replacements stopped; then all that was stopped is put back. */
  ghost predicate TakesBack(targets: seq<Target>, calls: seq<Call>, c: Course) {
    var a, b := |c.registered|, |c.started|;
    && c.from + a + b <= |calls|
    && (forall k :: c.from <= k < c.from + a ==> calls[k].ask == Restore(c.registered[c.from + a - 1 - k]))
    && (forall k :: c.from + a <= k < c.from + a + b ==> calls[k].ask == Stop(c.started[c.from + a + b - 1 - k]))
    && InRange(c.back, |targets|) && PutsBack(targets, calls, c.from, c.back, 0, c.from + a + b)
  }

  /** All calls of an update, in order, and what they were answered. */
  ghost predicate Follows(world: World, targets: seq<Target>, version: nat, o: Outcome, c: Course) {
    var script := Script(|targets|, version, c.stops, c.starts, c.idle);
    && Planned(targets, c) && Honest(world, o.calls)
    && if o.Thrown? then Breaks(world, script, o.calls) && |o.calls| <= |targets|
       else if NoneThrew(o.calls) then Plays(world, script, o.calls) && |o.calls| == |script|
       else
         && |targets| < c.from <= |o.calls| && Breaks(world, script, o.calls[..c.from])
         && TakesStock(targets, o.calls[..c.from], c) && TakesBack(targets, o.calls, c)
  }

  // ----- a rollback takes back -----

  lemma {:induction false} ReversedAt(list: seq<nat>, k: nat)
    requires k < |list|
    ensures Reversed(list)[k] == list[|list| - 1 - k]
  {
    if k > 0 { ReversedAt(list[..|list| - 1], k - 1); }
  }

  lemma {:induction false} RestoresAsk(world: World, list: seq<nat>, i: nat, u: Undo)
    requires i <= |list| && Honest(world, u.calls)
    ensures var r := RestoreFrom(world, list, i, u);
            && Honest(world, r.calls) && u.calls <= r.calls && |r.calls| == |u.calls| + |list| - i
            && (forall k :: |u.calls| <= k < |r.calls| ==> r.calls[k].ask == Restore(list[k - |u.calls| + i]))
    decreases |list| - i
  {
    if i < |list| {
      var t := list[i];
      var calls := Did(world, u.calls, Restore(t));
      HonestNext(world, u.calls, Restore(t));
      hide Honest;
      RestoresAsk(world, list, i + 1,
                  if Works(world, u.calls, Restore(t)) then u.(calls := calls)
                  else u.(calls := calls, rows := u.rows + [Row(t, Failed, Some(RegistrationRestore), None)]));
    }
  }

  lemma {:induction false} RetiresAsk(world: World, list: seq<nat>, i: nat, u: Undo)
    requires i <= |list| && Honest(world, u.calls)
    ensures var r := RetireFrom(world, list, i, u);
            && Honest(world, r.calls) && u.calls <= r.calls && |r.calls| == |u.calls| + |list| - i
            && (forall k :: |u.calls| <= k < |r.calls| ==> r.calls[k].ask == Stop(list[k - |u.calls| + i]))
    decreases |list| - i
  {
    if i < |list| {
      var t := list[i];
      var calls := Did(world, u.calls, Stop(t));
      HonestNext(world, u.calls, Stop(t));
      hide Honest;
      RetiresAsk(world, list, i + 1,
                 if Works(world, u.calls, Stop(t)) then u.(calls := calls)
                 else u.(calls := calls, failedStops := u.failedStops + {t},
                         rows := u.rows + [Row(t, Failed, Some(ReplacementStop), None)]));
    }
  }

  /** What putting one target back asks. */
  lemma ReviveAsks(world: World, target: Target, t: nat, u: Undo)
    requires Honest(world, u.calls)
    ensures var r, at := Revive(world, target, t, u), |u.calls|;
            && Honest(world, r.calls) && u.calls <= r.calls && r.failedStops == u.failedStops
            && (forall k :: at <= k < |r.calls| ==> !r.calls[k].ask.Stop? && r.calls[k].ask.t == t)
            && if target.previousEntry.None? then r.calls == u.calls
               else
                 && |r.calls| > at && r.calls[at].ask == Start(t, Old(target.previousEntry.value))
                 && if r.calls[at].answer == Threw || CheckOf(target, t).None? then |r.calls| == at + 1
                    else |r.calls| == at + 2 && r.calls[at + 1].ask == CheckOf(target, t).value
  {
    if target.previousEntry.Some? {
      var ask := Start(t, Old(target.previousEntry.value));
      HonestNext(world, u.calls, ask);
      var calls := Did(world, u.calls, ask);
      if CheckOf(target, t).Some? { HonestNext(world, calls, CheckOf(target, t).value); }
      hide Honest;
    }
  }

  lemma {:induction false} RevivalsAsk(world: World, targets: seq<Target>, order: seq<nat>, i: nat, u: Undo)
    requires i <= |order| && InRange(order, |targets|) && Honest(world, u.calls)
    ensures var r := ReviveFrom(world, targets, order, i, u);
            && Honest(world, r.calls) && u.calls <= r.calls
            && (forall k :: |u.calls| <= k < |r.calls| ==> !r.calls[k].ask.Stop?)
    decreases |order| - i
  {
    if i < |order| {
      ReviveAsks(world, targets[order[i]], order[i], u);
      hide Honest, Revive;
      RevivalsAsk(world, targets, order, i + 1,
                  if order[i] in u.failedStops then u else Revive(world, targets[order[i]], order[i], u));
    }
  }

  /** The calls of all revivals, seen from the end. */
  lemma {:induction false} RevivalsPutBack(world: World, targets: seq<Target>, order: seq<nat>, i: nat, u: Undo,
                                           from: nat, calls: seq<Call>)
    requires i <= |order| && InRange(order, |targets|) && Honest(world, u.calls)
    requires calls == ReviveFrom(world, targets, order, i, u).calls
    requires forall t: nat :: t in u.failedStops <==> Report.ThrewSince(calls, from, Stop(t))
    ensures PutsBack(targets, calls, from, order, i, |u.calls|)
    decreases |order| - i
  {
    if i < |order| {
      var t := order[i];
      var next := if t in u.failedStops then u else Revive(world, targets[t], t, u);
      ReviveAsks(world, targets[t], t, u);
      hide Honest, Revive, Report.ThrewSince, CheckOf;
      RevivalsAsk(world, targets, order, i + 1, next);
      RevivalsPutBack(world, targets, order, i + 1, next, from, calls);
    }
  }

  lemma ThrewStays(calls: seq<Call>, more: seq<Call>, from: nat, ask: Ask)
    requires calls <= more && forall k :: |calls| <= k < |more| ==> more[k].ask != ask
    ensures Report.ThrewSince(more, from, ask) <==> Report.ThrewSince(calls, from, ask)
  {
  }

  lemma RetiredAsks(world: World, p: Pass)
    requires Honest(world, p.calls)
    ensures var calls, from, a, b := Safety.Retired(world, p).calls, |p.calls|, |p.registered|, |p.started|;
            && Honest(world, calls) && p.calls <= calls && |calls| == from + a + b
            && (forall k :: from <= k < from + a ==> calls[k].ask == Restore(p.registered[from + a - 1 - k]))
            && (forall k :: from + a <= k < from + a + b ==> calls[k].ask == Stop(p.started[from + a + b - 1 - k]))
  {
    var from, a, b := |p.calls|, |p.registered|, |p.started|;
    var u0 := Undo(p.calls, [], {});
    var u1 := RestoreFrom(world, Reversed(p.registered), 0, u0);
    var calls := Safety.Retired(world, p).calls;
    RestoresAsk(world, Reversed(p.registered), 0, u0);
    RetiresAsk(world, Reversed(p.started), 0, u1);
    hide Honest, Reversed, RestoreFrom, RetireFrom;
    forall k | from <= k < from + a
      ensures calls[k].ask == Restore(p.registered[from + a - 1 - k])
    {
      ReversedAt(p.registered, k - from);
      assert u1.calls[k].ask == Restore(Reversed(p.registered)[k - from]);
    }
    forall k | from + a <= k < from + a + b
      ensures calls[k].ask == Stop(p.started[from + a + b - 1 - k])
    {
      ReversedAt(p.started, k - from - a);
      assert calls[k].ask == Stop(Reversed(p.started)[k - from - a]);
    }
  }

  /** The calls of a rollback. */
  lemma RollbackTakesBack(world: World, targets: seq<Target>, p: Pass, c: Course)
    requires InRange(p.stopped, |targets|) && Honest(world, p.calls)
    requires c.from == |p.calls| && c.registered == p.registered && c.started == p.started
             && c.back == Sorted(targets, p.stopped, StartRank)
    ensures var u := Rollback(world, targets, p);
            Honest(world, u.calls) && p.calls <= u.calls && TakesBack(targets, u.calls, c)
  {
    hide Honest, Safety.Retired, Sorted, Report.ThrewSince, InRange, PutsBack, ReviveFrom, RetireFrom, RestoreFrom;
    var done := Safety.Retired(world, p);
    var u := Rollback(world, targets, p);
    assert InRange(c.back, |targets|);
    assert u == ReviveFrom(world, targets, c.back, 0, done) by { RollbackIs(world, targets, p); }
    hide Rollback;
    RetiredAsks(world, p);
    RevivalsAsk(world, targets, c.back, 0, done);
    StopsThrewAsListed(world, targets, p, c.back, u);
    RevivalsPutBack(world, targets, c.back, 0, done, c.from, u.calls);
  }

  lemma RollbackIs(world: World, targets: seq<Target>, p: Pass)
    requires InRange(p.stopped, |targets|)
    ensures Rollback(world, targets, p)
         == ReviveFrom(world, targets, Sorted(targets, p.stopped, StartRank), 0, Safety.Retired(world, p))
  {
    hide Sorted, ReviveFrom, RetireFrom, RestoreFrom, Reversed;
  }

  lemma StopsThrewAsListed(world: World, targets: seq<Target>, p: Pass, back: seq<nat>, u: Undo)
    requires InRange(back, |targets|) && Honest(world, p.calls)
    requires u == ReviveFrom(world, targets, back, 0, Safety.Retired(world, p))
    ensures forall t: nat ::
              t in Safety.Retired(world, p).failedStops <==> Report.ThrewSince(u.calls, |p.calls|, Stop(t))
  {
    hide Honest, Safety.Retired, Report.ThrewSince, InRange, ReviveFrom;
    var done := Safety.Retired(world, p);
    RetiredAsks(world, p);
    RetiredStops(world, p);
    RevivalsAsk(world, targets, back, 0, done);
    forall t: nat
      ensures t in done.failedStops <==> Report.ThrewSince(u.calls, |p.calls|, Stop(t))
    {
      ThrewStays(done.calls, u.calls, |p.calls|, Stop(t));
    }
  }

  lemma RetiredStops(world: World, p: Pass)
    ensures var u := Safety.Retired(world, p);
            forall t: nat :: t in u.failedStops <==> Report.ThrewSince(u.calls, |p.calls|, Stop(t))
  {
    var u0 := Undo(p.calls, [], {});
    Report.RestoresThrowNoStop(world, Reversed(p.registered), 0, u0, |p.calls|);
    hide RestoreFrom, Report.ThrewSince;
    Report.RetiresThrow(world, Reversed(p.started), 0, RestoreFrom(world, Reversed(p.registered), 0, u0), |p.calls|);
  }

  /** Which part of the script a call is from. */
  lemma AskIsAt(targets: seq<Target>, version: nat, k: nat)
    requires k < |ScriptOf(targets, version)|
    ensures var ask, n, stops, starts := ScriptOf(targets, version)[k], |targets|, StopsOf(targets), StartsOf(targets);
            var at := n + |stops|;
            && (ask.Stop? ==> n <= k < at && ask == Stop(stops[k - n]))
            && (ask.Start? ==> at <= k < at + 2 * |starts| && ask == Start(starts[(k - at) / 2], New))
            && (ask.Prepare? ==> at + 2 * |starts| <= k && ask == Prepare(Idle(targets)[k - at - 2 * |starts|]))
  {
    var script, n, stops, starts := ScriptOf(targets, version), |targets|, StopsOf(targets), StartsOf(targets);
    var at := n + |stops|;
    ScriptHolds(targets, version);
    hide StopsOf, StartsOf, Idle, ScriptOf;
  }

  lemma StoppedIs(world: World, targets: seq<Target>, version: nat, p: Pass)
    requires Playing(world, ScriptOf(targets, version), p, |ScriptOf(targets, version)|) && Reached(targets, p)
    ensures p.stopped <= StopsOf(targets) && forall t: nat :: t in p.stopped <==> DidStop(p.calls, t)
  {
    var n, stops := |targets|, StopsOf(targets);
    ScriptHolds(targets, version);
    hide StopsOf, StartsOf, Idle, Honest, ScriptOf;
    forall t: nat | t in p.stopped
      ensures DidStop(p.calls, t)
    {
      var j :| 0 <= j < |p.stopped| && p.stopped[j] == t;
      assert p.calls[n + j].ask == Stop(t);
    }
    forall t: nat | DidStop(p.calls, t)
      ensures t in p.stopped
    {
      var k :| 0 <= k < |p.calls| && p.calls[k].ask == Stop(t) && p.calls[k].answer != Threw;
      AskIsAt(targets, version, k);
      assert p.stopped[k - n] == t;
    }
  }

  lemma StartedIs(world: World, targets: seq<Target>, version: nat, p: Pass)
    requires Playing(world, ScriptOf(targets, version), p, |ScriptOf(targets, version)|) && Reached(targets, p)
    ensures p.started <= StartsOf(targets) && forall t: nat :: t in p.started <==> TriedStart(p.calls, t)
  {
    var n, stops, starts := |targets|, StopsOf(targets), StartsOf(targets);
    var at := n + |stops|;
    ScriptHolds(targets, version);
    hide StopsOf, StartsOf, Idle, Honest, NoneThrew, ScriptOf;
    forall t: nat | t in p.started
      ensures TriedStart(p.calls, t)
    {
      var j :| 0 <= j < |p.started| && p.started[j] == t;
      StartAskAt(starts, version, j);
      assert p.calls[at + 2 * j].ask == StartAsk(starts, version, 2 * j);
    }
    forall t: nat | TriedStart(p.calls, t)
      ensures t in p.started
    {
      var k :| 0 <= k < |p.calls| && p.calls[k].ask == Start(t, New);
      AskIsAt(targets, version, k);
      assert (k - at) / 2 < |p.started|;
    }
  }

  function CourseOf(targets: seq<Target>, p: Pass): Course
    requires InRange(p.stopped, |targets|)
  {
    Course(StopsOf(targets), StartsOf(targets), Idle(targets), |p.calls|, p.stopped, p.started, p.registered,
           Sorted(targets, p.stopped, StartRank))
  }

  lemma PlanFits(targets: seq<Target>, c: Course)
    requires c.stops == StopsOf(targets) && c.starts == StartsOf(targets) && c.idle == Idle(targets)
    ensures Planned(targets, c)
  {
    OrdersFit(targets);
    hide StopsOf, StartsOf, Idle, StopsInOrder, StartsInOrder, PreparesInOrder;
  }

  lemma {:induction false} PrefixIsDistinct(a: seq<nat>, b: seq<nat>)
    requires a <= b && Distinct(b)
    ensures Distinct(a)
  {
    assert forall i :: 0 <= i < |a| ==> a[i] == b[i];
  }

  lemma StockIsTaken(world: World, targets: seq<Target>, version: nat, p: Pass)
    requires InRange(p.stopped, |targets|) && Reached(targets, p) && Changed(p.calls, p.registered)
    requires Playing(world, ScriptOf(targets, version), p, |ScriptOf(targets, version)|)
    ensures TakesStock(targets, p.calls, CourseOf(targets, p))
  {
    hide StopsOf, StartsOf, Idle, Playing, Reached, Sorted, ScriptOf, Changed, DidStop, TriedStart, StartsInOrder;
    hide InRange, Distinct;
    StoppedIs(world, targets, version, p);
    StartedIs(world, targets, version, p);
    StopsAreDistinct(targets);
    PrefixIsDistinct(p.stopped, StopsOf(targets));
    StartOrderIs(targets, p.stopped);
  }

  lemma StopsAreDistinct(targets: seq<Target>)
    ensures Distinct(StopsOf(targets))
  {
    OrdersFit(targets);
    hide StartsInOrder, PreparesInOrder, StopsOf, StartsOf, Distinct;
  }

  lemma UndoneFollows(world: World, targets: seq<Target>, version: nat, p: Pass, o: Outcome)
    requires InRange(p.stopped, |targets|) && p.trouble != Fine && Reached(targets, p) && Changed(p.calls, p.registered)
    requires Playing(world, ScriptOf(targets, version), p, |ScriptOf(targets, version)|)
    requires o.Reported? && o.calls == Rollback(world, targets, p).calls
    ensures Follows(world, targets, version, o, CourseOf(targets, p))
  {
    hide Planned, TakesStock, TakesBack, Honest, Rollback, Reached, StopsOf, StartsOf, Idle, Sorted, Script, InRange;
    hide Changed;
    var c := CourseOf(targets, p);
    PlanFits(targets, c);
    StockIsTaken(world, targets, version, p);
    RollbackTakesBack(world, targets, p, c);
    ReachedIsPast(targets, p);
    hide Plays;
    assert o.calls[..c.from] == p.calls;
    assert o.calls[c.from - 1].answer == Threw;
  }

  lemma ReachedIsPast(targets: seq<Target>, p: Pass)
    requires Reached(targets, p) && p.trouble != Fine
    ensures |p.calls| > |targets|
  {
    hide StopsOf, StartsOf, Idle;
  }

  lemma OthersFollow(world: World, targets: seq<Target>, version: nat, o: Outcome)
    requires var script := ScriptOf(targets, version);
             if o.Thrown? then Breaks(world, script, o.calls) && |o.calls| <= |targets|
             else Plays(world, script, o.calls) && NoneThrew(o.calls) && |o.calls| == |script|
    ensures Follows(world, targets, version, o, CourseOf(targets, Pass([], [], [], [], Fine)))
  {
    var c := CourseOf(targets, Pass([], [], [], [], Fine));
    PlanFits(targets, c);
    hide Planned, Honest, StopsOf, StartsOf, Idle, Sorted, Script, NoneThrew;
  }

  lemma NothingIsHonest(world: World)
    ensures Honest(world, [])
  {
  }

  /** How the forward part of a run ends. */
  lemma RunEnds(world: World, targets: seq<Target>, version: nat)
    ensures var (calls, ready) := PreflightFrom(world, |targets|, 0, []);
            var script, p := ScriptOf(targets, version), Forward(world, targets, version, calls);
            && (!ready ==> Breaks(world, script, calls) && |calls| <= |targets|)
            && (ready ==> Playing(world, script, p, |script|) && Reached(targets, p) && Changed(p.calls, p.registered))
  {
    hide StopsOf, StartsOf, Idle, Honest, PreflightFrom, Forward, Reached, Changed;
    var (calls, ready) := PreflightFrom(world, |targets|, 0, []);
    ScriptHolds(targets, version);
    hide ScriptOf;
    assert Honest(world, []) by { NothingIsHonest(world); }
    PreflightsPlay(world, ScriptOf(targets, version), |targets|, 0, []);
    hide Plays, NoneThrew, Playing, Breaks;
    if ready { ForwardPlays(world, targets, version, calls); }
  }

  /** The calls of a run, and what they were answered, in every world. */
  lemma UpdateFollowsTheScript(world: World, targets: seq<Target>, version: nat) returns (c: Course)
    ensures Follows(world, targets, version, Activated(world, targets, version), c)
  {
    hide StopsOf, StartsOf, Idle, Honest, PreflightFrom, NoneThrew, Forward, Rollback, LeftFrom, ScriptOf, Follows;
    hide CourseOf, Plays, Reached, Changed;
    RunEnds(world, targets, version);
    var (calls, ready) := PreflightFrom(world, |targets|, 0, []);
    var o, p := Activated(world, targets, version), Forward(world, targets, version, calls);
    if ready && p.trouble != Fine {
      c := CourseOf(targets, p);
      UndoneFollows(world, targets, version, p, o);
    } else {
      c := CourseOf(targets, Pass([], [], [], [], Fine));
      OthersFollow(world, targets, version, o);
    }
  }
}
