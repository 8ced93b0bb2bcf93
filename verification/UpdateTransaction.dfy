/**
 * Replacing several dependent runtimes at once: stop them, start the new version, verify it, or put everything back.
 */
module UpdateTransaction {
  import opened Wrappers

  datatype Backend = OpenClaw | HermesRelay | Hermes | Other(name: nat)

  /** A runtime, with what is known of the version it ran before and of the checks it offers. */
  datatype Target = Target(
    backend: Backend, running: bool, manual: bool, previousEntry: Option<nat>, previousVersion: Option<nat>,
    verifiesPrevious: bool, verifiesRestored: bool, prepares: bool)

  datatype Entry = New | Old(entry: nat)

  /** Every effect the transaction asks for; targets are named by their position. */
  datatype Ask =
    | Preflight(t: nat)
    | Stop(t: nat)
    | Start(t: nat, entry: Entry)
    | Verify(t: nat, version: Option<nat>)
    | Prepare(t: nat)
    | Restore(t: nat)
    | VerifyRestored(t: nat)
    | VerifyPrevious(t: nat)

  /** A call throws, returns nothing, or returns a value: a registration to restore, or a version. */
  datatype Answer = Threw | Returned | Gave(value: nat)

  datatype Call = Call(ask: Ask, answer: Answer)

  /** What the world answers may depend on everything that happened before. */
  type World = (seq<Call>, Ask) -> Answer

  datatype RowState = Updated | LeftStopped | Restored | Failed | Manual

  datatype Reason = RegistrationRestore | ReplacementStop | RestoreUnverified |
    RegistrationUpdate | StopUnverified | NotApplied

  datatype Row = Row(t: nat, state: RowState, reason: Option<Reason>, version: Option<nat>)

  /** Where a forward pass broke off. */
  datatype Trouble = Fine | AtStop(t: nat) | AtStart(t: nat) | AtPrepare(t: nat)

  datatype Pass = Pass(calls: seq<Call>, stopped: seq<nat>, started: seq<nat>, registered: seq<nat>, trouble: Trouble)

  datatype Undo = Undo(calls: seq<Call>, rows: seq<Row>, failedStops: set<nat>)

  datatype Outcome = Thrown(calls: seq<Call>) | Reported(calls: seq<Call>, rows: seq<Row>)

  function Did(world: World, calls: seq<Call>, ask: Ask): seq<Call> { calls + [Call(ask, world(calls, ask))] }

  predicate Works(world: World, calls: seq<Call>, ask: Ask) { world(calls, ask) != Threw }

  // ----- orders -----

  function StartRank(b: Backend): nat { if b == OpenClaw then 2 else if b == HermesRelay then 1 else 0 }

  function StopRank(b: Backend): nat
  {
    if b == OpenClaw then 1 else if b == HermesRelay then 2 else if b == Hermes then 3 else 0
  }

  function Ranked(targets: seq<Target>, list: seq<nat>, rank: Backend -> nat, r: nat): (part: seq<nat>)
    requires InRange(list, |targets|)
    ensures InRange(part, |targets|)
    ensures forall t: nat :: t in part <==> t in list && t < |targets| && rank(targets[t].backend) == r
    ensures Distinct(list) ==> Distinct(part)
  {
    if list == [] then []
    else
      var less := Ranked(targets, list[..|list| - 1], rank, r);
      assert forall i :: 0 <= i < |less| ==> less[i] in list[..|list| - 1];
      less + if rank(targets[list[|list| - 1]].backend) == r then [list[|list| - 1]] else []
  }

  predicate InRange(list: seq<nat>, n: nat) { forall i :: 0 <= i < |list| ==> list[i] < n }

  predicate Distinct(list: seq<nat>) { forall i, j :: 0 <= i < j < |list| ==> list[i] != list[j] }

  /** A stable sort by a rank from 0 to 3. */
  function Sorted(targets: seq<Target>, list: seq<nat>, rank: Backend -> nat): (r: seq<nat>)
    requires InRange(list, |targets|)
    ensures InRange(r, |targets|)
  {
    Ranked(targets, list, rank, 0) + Ranked(targets, list, rank, 1) + Ranked(targets, list, rank, 2)
    + Ranked(targets, list, rank, 3)
  }

  predicate Ascending(targets: seq<Target>, list: seq<nat>, rank: Backend -> nat)
    requires InRange(list, |targets|)
  {
    forall i, j :: 0 <= i < j < |list| ==> rank(targets[list[i]].backend) <= rank(targets[list[j]].backend)
  }

  predicate AtMost(targets: seq<Target>, list: seq<nat>, rank: Backend -> nat, r: nat)
    requires InRange(list, |targets|)
  {
    forall i :: 0 <= i < |list| ==> rank(targets[list[i]].backend) <= r
  }

  lemma RankedJoins(targets: seq<Target>, x: seq<nat>, list: seq<nat>, rank: Backend -> nat, r: nat)
    requires InRange(list, |targets|) && InRange(x, |targets|) && Distinct(list) && Distinct(x) && r > 0
    requires Ascending(targets, x, rank) && AtMost(targets, x, rank, r - 1)
    ensures var y := x + Ranked(targets, list, rank, r);
            Distinct(y) && Ascending(targets, y, rank) && AtMost(targets, y, rank, r)
  {
    var part := Ranked(targets, list, rank, r);
    hide Ranked;
    assert forall i :: 0 <= i < |part| ==> part[i] in part;
  }

  lemma SortedIsSorted(targets: seq<Target>, list: seq<nat>, rank: Backend -> nat)
    requires InRange(list, |targets|) && Distinct(list) && forall b :: rank(b) <= 3
    ensures var r := Sorted(targets, list, rank);
            Distinct(r) && Ascending(targets, r, rank) && (forall t: nat :: t in r <==> t in list)
  {
    hide Ranked, Ascending, AtMost, Distinct;
    var a, b, c, d := Ranked(targets, list, rank, 0), Ranked(targets, list, rank, 1),
                      Ranked(targets, list, rank, 2), Ranked(targets, list, rank, 3);
    LowestRank(targets, list, rank);
    RankedJoins(targets, a, list, rank, 1);
    RankedJoins(targets, a + b, list, rank, 2);
    RankedJoins(targets, a + b + c, list, rank, 3);
    forall t: nat ensures t in a + b + c + d <==> t in list { RankedHolds(targets, list, rank, t); }
  }

  lemma LowestRank(targets: seq<Target>, list: seq<nat>, rank: Backend -> nat)
    requires InRange(list, |targets|) && Distinct(list)
    ensures var a := Ranked(targets, list, rank, 0);
            Distinct(a) && Ascending(targets, a, rank) && AtMost(targets, a, rank, 0)
  {
    var a := Ranked(targets, list, rank, 0);
    hide Ranked;
    assert forall i :: 0 <= i < |a| ==> a[i] in a;
  }

  lemma RankedHolds(targets: seq<Target>, list: seq<nat>, rank: Backend -> nat, t: nat)
    requires InRange(list, |targets|) && forall b :: rank(b) <= 3
    ensures t in list <==>
              t
                in Ranked(targets, list, rank, 0) + Ranked(targets, list, rank, 1) + Ranked(targets, list, rank, 2)
                   + Ranked(targets, list, rank, 3)
  {
    hide Ranked, Distinct;
    if t in list {
      var i :| 0 <= i < |list| && list[i] == t;
      assert rank(targets[t].backend) <= 3;
      assert t in Ranked(targets, list, rank, rank(targets[t].backend));
    }
  }

  function Running(targets: seq<Target>): (list: seq<nat>)
    ensures InRange(list, |targets|) && Distinct(list)
    ensures forall t: nat :: t in list <==> t < |targets| && targets[t].running
  {
    if targets == [] then []
    else
      var less := Running(targets[..|targets| - 1]);
      less + if targets[|targets| - 1].running then [|targets| - 1] else []
  }

  function Idle(targets: seq<Target>): (list: seq<nat>)
    ensures InRange(list, |targets|) && Distinct(list)
    ensures forall t: nat :: t in list <==> t < |targets| && !targets[t].running && targets[t].prepares
  {
    if targets == [] then []
    else
      var less := Idle(targets[..|targets| - 1]);
      less + if !targets[|targets| - 1].running && targets[|targets| - 1].prepares then [|targets| - 1] else []
  }

  function Reversed(list: seq<nat>): (r: seq<nat>)
    ensures |r| == |list|
    ensures forall t: nat :: t in r <==> t in list
    ensures Distinct(list) ==> Distinct(r)
  {
    if list == [] then []
    else
      var rest := Reversed(list[..|list| - 1]);
      assert forall i :: 0 <= i < |rest| ==> rest[i] in list[..|list| - 1];
      [list[|list| - 1]] + rest
  }

  // ----- the forward passes -----

  function PreflightFrom(world: World, n: nat, i: nat, calls: seq<Call>): (seq<Call>, bool)
    requires i <= n
    decreases n - i
  {
    if i == n then (calls, true)
    else if Works(world, calls, Preflight(i)) then PreflightFrom(world, n, i + 1, Did(world, calls, Preflight(i)))
    else (Did(world, calls, Preflight(i)), false)
  }

  function StopFrom(world: World, order: seq<nat>, i: nat, p: Pass): (r: Pass)
    requires i <= |order|
    ensures p.stopped <= r.stopped <= p.stopped + order[i..]
    ensures r.started == p.started && r.registered == p.registered
    decreases |order| - i
  {
    if i == |order| then p
    else
      var t, next := order[i], p.(calls := Did(world, p.calls, Stop(order[i])));
      if Works(world, p.calls, Stop(t)) then StopFrom(world, order, i + 1, next.(stopped := p.stopped + [t]))
      else next.(trouble := AtStop(t))
  }

  function StartFrom(world: World, version: nat, order: seq<nat>, i: nat, p: Pass): (r: Pass)
    requires i <= |order|
    ensures p.started <= r.started <= p.started + order[i..]
    ensures r.stopped == p.stopped && r.registered == p.registered
    decreases |order| - i
  {
    if i == |order| then p
    else
      var t := order[i];
      var q := p.(started := p.started + [t], calls := Did(world, p.calls, Start(t, New)));
      if !Works(world, p.calls, Start(t, New)) then q.(trouble := AtStart(t))
      else
        var next := q.(calls := Did(world, q.calls, Verify(t, Some(version))));
        if Works(world, q.calls, Verify(t, Some(version))) then StartFrom(world, version, order, i + 1, next)
        else next.(trouble := AtStart(t))
  }

  function PrepareFrom(world: World, order: seq<nat>, i: nat, p: Pass): (r: Pass)
    requires i <= |order|
    ensures r.stopped == p.stopped && r.started == p.started
    decreases |order| - i
  {
    if i == |order| then p
    else
      var t, next := order[i], p.(calls := Did(world, p.calls, Prepare(order[i])));
      if !Works(world, p.calls, Prepare(t)) then next.(trouble := AtPrepare(t))
      else PrepareFrom(world, order, i + 1,
                       if world(p.calls, Prepare(t)).Gave? then next.(registered := p.registered + [t]) else next)
  }

  // ----- undoing -----

  function RestoreFrom(world: World, list: seq<nat>, i: nat, u: Undo): Undo
    requires i <= |list|
    decreases |list| - i
  {
    if i == |list| then u
    else
      var t, next := list[i], u.(calls := Did(world, u.calls, Restore(list[i])));
      RestoreFrom(world, list, i + 1,
                  if Works(world, u.calls, Restore(t)) then next
                  else next.(rows := u.rows + [Row(t, Failed, Some(RegistrationRestore), None)]))
  }

  function RetireFrom(world: World, list: seq<nat>, i: nat, u: Undo): Undo
    requires i <= |list|
    decreases |list| - i
  {
    if i == |list| then u
    else
      var t, next := list[i], u.(calls := Did(world, u.calls, Stop(list[i])));
      RetireFrom(world, list, i + 1,
                 if Works(world, u.calls, Stop(t)) then next
                 else next.(failedStops := u.failedStops + {t},
                            rows := u.rows + [Row(t, Failed, Some(ReplacementStop), None)]))
  }

  /** Put one stopped target back on its captured source, and say whether that could be confirmed. */
  function Revive(world: World, target: Target, t: nat, u: Undo): Undo {
    var failed := Row(t, Failed, Some(RestoreUnverified), None);
    if target.previousEntry.None? then u.(rows := u.rows + [failed])
    else
      var entry := Old(target.previousEntry.value);
      var next := u.(calls := Did(world, u.calls, Start(t, entry)));
      if !Works(world, u.calls, Start(t, entry)) then next.(rows := u.rows + [failed])
      else if target.verifiesRestored then
        var version := world(next.calls, VerifyRestored(t));
        next.(calls := Did(world, next.calls, VerifyRestored(t)),
              rows := u.rows
              + [if version == Threw then failed
                 else Row(t, Restored, None, if version.Gave? then Some(version.value) else None)])
      else if target.previousVersion.Some? then
        var ask := Verify(t, target.previousVersion);
        next.(calls := Did(world, next.calls, ask),
              rows := u.rows
              + [if Works(world, next.calls, ask) then Row(t, Restored, None, target.previousVersion) else failed])
      else if target.verifiesPrevious then
        var ask := VerifyPrevious(t);
        next.(calls := Did(world, next.calls, ask),
              rows := u.rows + [if Works(world, next.calls, ask) then Row(t, Restored, None, None) else failed])
      else next.(rows := u.rows + [Row(t, Restored, None, None)])
  }

  function ReviveFrom(world: World, targets: seq<Target>, list: seq<nat>, i: nat, u: Undo): Undo
    requires i <= |list| && InRange(list, |targets|)
    decreases |list| - i
  {
    if i == |list| then u
    else ReviveFrom(world, targets, list, i + 1,
                    if list[i] in u.failedStops then u else Revive(world, targets[list[i]], list[i], u))
  }

  /** The row of a target that was never stopped, in a failed run. */
  function LeftRow(target: Target, t: nat, trouble: Trouble): Row {
    Row(t, if trouble == AtPrepare(t) then Failed else if target.manual then Manual
           else if target.running then Failed else LeftStopped,
        if trouble == AtPrepare(t) then Some(RegistrationUpdate) else if trouble == AtStop(t) then Some(StopUnverified)
        else if target.running then Some(NotApplied) else None, None)
  }

  function LeftFrom(targets: seq<Target>, p: Pass, i: nat, rows: seq<Row>): seq<Row>
    requires i <= |targets|
    decreases |targets| - i
  {
    if i == |targets| then rows
    else LeftFrom(targets, p, i + 1, if i in p.stopped then rows else rows + [LeftRow(targets[i], i, p.trouble)])
  }

  function DoneRow(target: Target, t: nat): Row {
    Row(t, if target.manual then Manual else if target.running then Updated else LeftStopped, None, None)
  }

  function DoneRows(targets: seq<Target>): (rows: seq<Row>)
    ensures |rows| == |targets| && forall t :: 0 <= t < |rows| ==> rows[t] == DoneRow(targets[t], t)
  {
    seq(|targets|, t requires 0 <= t < |targets| => DoneRow(targets[t], t))
  }

  // ----- the transaction -----

  function StopPass(world: World, targets: seq<Target>, calls: seq<Call>): (p: Pass)
    ensures InRange(p.stopped, |targets|)
  {
    StopFrom(world, Sorted(targets, Running(targets), StopRank), 0, Pass(calls, [], [], [], Fine))
  }

  function StartPass(world: World, targets: seq<Target>, version: nat, p: Pass): (r: Pass)
    requires InRange(p.stopped, |targets|)
    ensures r.stopped == p.stopped
  {
    if p.trouble == Fine then StartFrom(world, version, Sorted(targets, p.stopped, StartRank), 0, p) else p
  }

  function PreparePass(world: World, targets: seq<Target>, p: Pass): (r: Pass)
    ensures r.stopped == p.stopped
  {
    if p.trouble == Fine then PrepareFrom(world, Idle(targets), 0, p) else p
  }

  function Forward(world: World, targets: seq<Target>, version: nat, calls: seq<Call>): (p: Pass)
    ensures InRange(p.stopped, |targets|)
  {
    PreparePass(world, targets, StartPass(world, targets, version, StopPass(world, targets, calls)))
  }

  function Rollback(world: World, targets: seq<Target>, p: Pass): Undo
    requires InRange(p.stopped, |targets|)
  {
    var restored := RestoreFrom(world, Reversed(p.registered), 0, Undo(p.calls, [], {}));
    var retired := RetireFrom(world, Reversed(p.started), 0, restored);
    ReviveFrom(world, targets, Sorted(targets, p.stopped, StartRank), 0, retired)
  }

  /** The whole update: thrown when a preflight fails, otherwise reported, with everything put back on any failure. */
  function Activated(world: World, targets: seq<Target>, version: nat): Outcome {
    var (calls, ready) := PreflightFrom(world, |targets|, 0, []);
    if !ready then Thrown(calls)
    else
      var p := Forward(world, targets, version, calls);
      if p.trouble == Fine then Reported(p.calls, DoneRows(targets))
      else
        var u := Rollback(world, targets, p);
        Reported(u.calls, LeftFrom(targets, p, 0, u.rows))
  }
}
