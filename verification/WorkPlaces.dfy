/** Where a merge puts each record, told by the orders before and after it and by the read alone. */
module WorkPlaces {
  import opened HistoryTypes
  import opened WorkSequences
  import opened StableSort
  import opened WorkOrder
  import opened WorkOrderLaws
  import opened WorkOrderMerge

  // ----- coming before -----

  ghost predicate Before(s: seq<Text>, x: Text, y: Text) {
    exists i, j :: 0 <= i < j < |s| && s[i] == x && s[j] == y
  }

  lemma BeforeJoins(a: seq<Text>, b: seq<Text>, x: Text, y: Text)
    ensures Before(a + b, x, y) <==> Before(a, x, y) || Before(b, x, y) || (x in a && y in b)
  {
    var s := a + b;
    if Before(s, x, y) {
      var i, j :| 0 <= i < j < |s| && s[i] == x && s[j] == y;
      if j < |a| {
        assert a[i] == x && a[j] == y;
      } else if |a| <= i {
        assert b[i - |a|] == x && b[j - |a|] == y;
      } else {
        assert a[i] in a && b[j - |a|] in b;
      }
    }
    if Before(a, x, y) {
      var i, j :| 0 <= i < j < |a| && a[i] == x && a[j] == y;
      assert s[i] == x && s[j] == y;
    }
    if Before(b, x, y) {
      var i, j :| 0 <= i < j < |b| && b[i] == x && b[j] == y;
      assert s[|a| + i] == x && s[|a| + j] == y;
    }
    if x in a && y in b {
      var i :| 0 <= i < |a| && a[i] == x;
      var j :| 0 <= j < |b| && b[j] == y;
      assert s[i] == x && s[|a| + j] == y;
    }
  }

  lemma BeforeIsHeld(s: seq<Text>, x: Text, y: Text)
    ensures Before(s, x, y) ==> x in s && y in s
    ensures !Before([], x, y) && !Before([y], x, y) && !Before([x], x, y)
  {
  }

  lemma {:induction false} BeforeFilters(s: seq<Text>, keep: set<Text>, x: Text, y: Text)
    ensures x in keep && y in keep ==> (Before(Filter(s, keep), x, y) <==> Before(s, x, y))
    ensures x !in keep && y !in keep ==> (Before(Without(s, keep), x, y) <==> Before(s, x, y))
  {
    if s != [] {
      var head, rest := [s[0]], s[1..];
      assert s == head + rest;
      BeforeFilters(rest, keep, x, y);
      BeforeJoins(head, rest, x, y);
      BeforeJoins(head, Filter(rest, keep), x, y);
      BeforeJoins(head, Without(rest, keep), x, y);
      FilterCons(s[0], rest, keep);
      OneIsNotBefore(s[0], x, y);
      hide Filter, Without, Before;
      assert [] + Filter(rest, keep) == Filter(rest, keep) && [] + Without(rest, keep) == Without(rest, keep);
    }
  }

  lemma OneIsNotBefore(z: Text, x: Text, y: Text)
    ensures !Before([z], x, y)
  {
  }

  lemma BeforeIsTotal(s: seq<Text>, x: Text, y: Text)
    requires Distinct(s) && x in s && y in s && x != y
    ensures Before(s, x, y) <==> !Before(s, y, x)
  {
    var i :| 0 <= i < |s| && s[i] == x;
    var j :| 0 <= j < |s| && s[j] == y;
    if i < j { assert Before(s, x, y); } else { assert Before(s, y, x); }
  }

  /** `x` is named before `y` is. */
  ghost predicate FirstNamed(values: seq<Text>, x: Text, y: Text) {
    exists i :: 0 <= i < |values| && values[i] == x && y !in values[..i]
  }

  lemma {:induction false} UniqueKeepsFirst(values: seq<Text>, x: Text, y: Text)
    requires x in values && y in values && x != y
    ensures Before(Unique(values), x, y) <==> FirstNamed(values, x, y)
  {
    var last := |values| - 1;
    var less, z := values[..last], values[last];
    assert values == less + [z];
    BeforeJoins(Unique(less), [z], x, y);
    BeforeIsHeld(Unique(less), x, y);
    OneIsNotBefore(z, x, y);
    if x in less && y in less {
      UniqueKeepsFirst(less, x, y);
      FirstNamedStays(less, z, x, y);
    } else if x in less {
      var i :| 0 <= i < |less| && less[i] == x;
      assert values[i] == x && y !in values[..i];
    } else {
      assert z == x && y in less;
      forall i | 0 <= i < |values| && values[i] == x
        ensures y in values[..i]
      {
        assert i == last;
      }
    }
  }

  lemma FirstNamedStays(less: seq<Text>, z: Text, x: Text, y: Text)
    requires x in less && y in less
    ensures FirstNamed(less + [z], x, y) <==> FirstNamed(less, x, y)
  {
    var s := less + [z];
    if i :| 0 <= i < |s| && s[i] == x && y !in s[..i] {
      assert y in s[..|less|] by { assert s[..|less|] == less; }
      assert s[..i] == less[..i];
    }
    if i :| 0 <= i < |less| && less[i] == x && y !in less[..i] {
      assert s[i] == x && s[..i] == less[..i];
    }
  }

  // ----- what a read decides -----

  /**
   * Of two records of one kind, which comes first after a read. Those it names and may place come in its order; they
   * come before the others if the page is earlier, and after the settled and before the live others if it is the head.
   * Others of one group stay as they were.
   */
  ghost predicate Precedes(values: seq<Text>, shown: set<Text>, earlier: bool, live: set<Text>,
                           x: Text, y: Text, was: bool)
  {
    var first, second := x in values && x !in shown, y in values && y !in shown;
    if first && second then FirstNamed(values, x, y)
    else if first then earlier || y in live
    else if second then !earlier && x !in live
    else if earlier || (x in live <==> y in live) then was
    else y in live
  }

  lemma ArrangedPlaces(s: seq<Text>, source: seq<Text>, earlier: bool, live: set<Text>, x: Text, y: Text)
    requires Distinct(s) && x in s && y in s && x != y
    ensures Before(Arranged(s, source, earlier, live), x, y)
        <==> if x in source && y in source then Before(source, x, y)
             else if x in source then earlier || y in live
             else if y in source then !earlier && x !in live
             else if earlier || (x in live <==> y in live) then Before(s, x, y)
             else y in live
  {
    var drop := Elements(source);
    var rest := Without(s, drop);
    BeforeFilters(s, drop, x, y);
    hide Filter, Without, Before;
    if earlier {
      BeforeJoins(source, rest, x, y);
      BeforeIsHeld(source, x, y);
      BeforeIsHeld(rest, x, y);
    } else {
      var settled, alive := Without(rest, live), Filter(rest, live);
      BeforeFilters(rest, live, x, y);
      BeforeJoins(settled + source, alive, x, y);
      BeforeJoins(settled, source, x, y);
      BeforeIsHeld(source, x, y);
      BeforeIsHeld(settled, x, y);
      BeforeIsHeld(alive, x, y);
    }
  }

  lemma KnownPlaces(values: seq<Text>, ids: seq<Text>, shown: set<Text>, x: Text, y: Text)
    requires x in ids && y in ids && x in values && y in values && x != y && x !in shown && y !in shown
    ensures Before(Known(values, ids), x, y) <==> FirstNamed(values, x, y)
    ensures Before(Without(Known(values, ids), shown), x, y) <==> FirstNamed(values, x, y)
  {
    hide Filter, Without, Unique, Before;
    UniqueKeepsFirst(values, x, y);
    BeforeFilters(Unique(values), Elements(ids), x, y);
    BeforeFilters(Known(values, ids), shown, x, y);
  }

  /** How the read orders what it may place, among everything there. */
  lemma ReadPlaces(ids: seq<Text>, values: seq<Text>, shown: set<Text>, earlier: bool, live: set<Text>,
                   x: Text, y: Text)
    requires Distinct(ids) && x in ids && y in ids && x != y
    ensures Before(Arranged(ids, Without(Known(values, ids), shown), earlier, live), x, y)
        <==> Precedes(values, shown, earlier, live, x, y, Before(ids, x, y))
    ensures shown == {} ==> Without(Known(values, ids), shown) == Known(values, ids)
  {
    var source := Without(Known(values, ids), shown);
    FilterAll(Known(values, ids), shown);
    hide Filter, Before, FirstNamed;
    assert x in source <==> x in values && x !in shown;
    assert y in source <==> y in values && y !in shown;
    hide Without, Arranged;
    ArrangedPlaces(ids, source, earlier, live, x, y);
    if x in source && y in source { KnownPlaces(values, ids, shown, x, y); }
  }

  // ----- orders are places -----

  function At(j: Journal, id: Text): int { OrderIn(Marks(j), id) }

  lemma OrdersAre(j: Journal, x: Text, y: Text)
    requires Valid(j) && x in Prior(j) && y in Prior(j)
    ensures At(j, x) < At(j, y) <==> Before(Prior(j), x, y)
  {
    var at := ValidKeys(j);
    SortedMarks(Marks(j), at);
    var prior := Prior(j);
    OrderInIsKey(j, at, x);
    OrderInIsKey(j, at, y);
    hide Marks, SortBy;
    var i :| 0 <= i < |prior| && prior[i] == x;
    var k :| 0 <= k < |prior| && prior[k] == y;
    if i < k { assert at(prior[i]) < at(prior[k]); }
    if k < i { assert at(prior[k]) < at(prior[i]); }
  }

  lemma OrderInIsKey(j: Journal, at: Text -> int, x: Text)
    requires Valid(j) && Keys(Marks(j), at) && x in Prior(j)
    ensures At(j, x) == at(x)
  {
    var marks := Marks(j);
    SortedHolds(marks);
    var i :| 0 <= i < |marks| && MarkIds(marks)[i] == x;
    OrderInIs(marks, i);
  }

  lemma RunIsAt(j: Journal, r: Run)
    requires Valid(j) && r in j.runs
    ensures At(j, r.id) == r.order && r.id in Prior(j)
    ensures forall s :: s in r.steps ==> At(j, s.id) == s.order && s.id in Prior(j) && s.id in StepIdSet(r)
  {
    var at := ValidKeys(j);
    var i :| 0 <= i < |j.runs| && j.runs[i] == r;
    RunKeys(j, at, i);
    SortedHolds(Marks(j));
    OrderInIsKey(j, at, r.id);
    hide Marks, Valid, SortBy;
    forall s | s in r.steps
      ensures At(j, s.id) == s.order && s.id in Prior(j) && s.id in StepIdSet(r)
    {
      var k :| 0 <= k < |r.steps| && r.steps[k] == s;
      assert StepMarks(r)[k] == Mark(s.id, s.order) && MarkIds(StepMarks(r))[k] == s.id;
      OrderInIsKey(j, at, s.id);
    }
  }

  // ----- runs and steps -----

  function StepsRead(q: Reading, id: Text): seq<Text> { if id in q.steps then q.steps[id] else [] }

  /** The read names a run of its conversation. */
  ghost predicate Concerns(j: Journal, q: Reading) {
    exists r :: r in j.runs && r.scope == q.scope && r.id in q.runs
  }

  lemma ConcernsIs(j: Journal, q: Reading)
    ensures Concerns(j, q) <==> Source(j, q) != []
  {
    ExistingHolds(j, q.scope);
    var runs := Existing(j, q.scope);
    hide Existing, Unique;
    if Concerns(j, q) {
      var r :| r in j.runs && r.scope == q.scope && r.id in q.runs;
      var k :| 0 <= k < |runs| && runs[k] == r;
      assert RunIds(runs)[k] == r.id;
      assert r.id in Source(j, q);
    }
    if Source(j, q) != [] {
      var x := Source(j, q)[0];
      assert x in Source(j, q);
      var k :| 0 <= k < |runs| && RunIds(runs)[k] == x;
      assert runs[k] in runs && runs[k].id in q.runs;
    }
  }

  /** The runs of the conversation stand as the read decides. */
  ghost predicate RunsPlaced(j: Journal, q: Reading, t: Journal) {
    forall r, s | r in j.runs && s in j.runs && r.scope == q.scope && s.scope == q.scope && r.id != s.id ::
      At(t, r.id) < At(t, s.id) <==>
        Precedes(q.runs, if q.earlier then q.known else {}, q.earlier, q.live, r.id, s.id, r.order < s.order)
  }

  /** So do the steps of each of these runs; a step is placed wherever it was shown before. */
  ghost predicate StepsPlaced(j: Journal, q: Reading, t: Journal) {
    forall r, a, b | r in j.runs && r.scope == q.scope && a in r.steps && b in r.steps && a.id != b.id ::
      At(t, a.id) < At(t, b.id) <==>
        Precedes(StepsRead(q, r.id), {}, q.earlier, q.live, a.id, b.id, a.order < b.order)
  }

  lemma ExistingIds(j: Journal, q: Reading, r: Run)
    requires r in j.runs && r.scope == q.scope
    ensures r in Existing(j, q.scope) && r.id in RunIds(Existing(j, q.scope))
  {
    ExistingHolds(j, q.scope);
    var runs := Existing(j, q.scope);
    hide Existing;
    var k :| 0 <= k < |runs| && runs[k] == r;
    assert RunIds(runs)[k] == r.id;
  }

  lemma RunsStandAsRead(j: Journal, q: Reading, r: Run, s: Run)
    requires Valid(j) && Source(j, q) != [] && r in j.runs && s in j.runs && r.scope == q.scope && s.scope == q.scope
    requires r.id != s.id
    ensures Before(NewOrder(j, q), r.id, s.id)
        <==> Precedes(q.runs, if q.earlier then q.known else {}, q.earlier, q.live, r.id, s.id, r.order < s.order)
  {
    var ids, shown := RunIds(Existing(j, q.scope)), if q.earlier then q.known else {};
    ExistingIds(j, q, r);
    ExistingIds(j, q, s);
    ExistingIsTidy(j, q.scope);
    RunsStand(j, q);
    RunIsAt(j, r);
    RunIsAt(j, s);
    OrdersAre(j, r.id, s.id);
    hide Valid, Existing, NewOrder, Filter, Without, Before, Precedes, Prior, Unique, Arranged, At, TidyRun, TidyPair;
    BeforeFilters(NewOrder(j, q), Elements(ids), r.id, s.id);
    BeforeFilters(Prior(j), Elements(ids), r.id, s.id);
    ReadPlaces(ids, q.runs, shown, q.earlier, q.live, r.id, s.id);
  }

  lemma StepsStandAsRead(j: Journal, q: Reading, r: Run, a: Step, b: Step)
    requires Valid(j) && Source(j, q) != [] && r in j.runs && r.scope == q.scope
    requires a in r.steps && b in r.steps && a.id != b.id
    ensures Before(NewOrder(j, q), a.id, b.id)
        <==> Precedes(StepsRead(q, r.id), {}, q.earlier, q.live, a.id, b.id, a.order < b.order)
  {
    var ids := StepIds(r);
    ExistingIds(j, q, r);
    ExistingIsTidy(j, q.scope);
    StepsStand(j, q, r);
    RunIsAt(j, r);
    OrdersAre(j, a.id, b.id);
    assert TidyRun(r, Prior(j));
    DistinctParts(Prior(j), StepIdSet(r));
    hide Valid, Existing, NewOrder, Filter, Without, Before, Precedes, Prior, Unique, Arranged, At, TidyPair, StepIds;
    hide StepIdSet;
    BeforeFilters(NewOrder(j, q), StepIdSet(r), a.id, b.id);
    BeforeFilters(Prior(j), StepIdSet(r), a.id, b.id);
    ReadPlaces(ids, StepsRead(q, r.id), {}, q.earlier, q.live, a.id, b.id);
  }

  // ----- blocks -----

  /** Whatever is not of the run stands before all of the run or after all of it, and the run before its steps. */
  ghost predicate BlocksPlaced(j: Journal, q: Reading, t: Journal) {
    forall r, a | r in j.runs && r.scope == q.scope && a in r.steps :: Adjoins(t, r, a)
  }

  ghost predicate Adjoins(t: Journal, r: Run, a: Step) {
    && At(t, r.id) < At(t, a.id)
    && forall x | x in MarkIds(Marks(t)) && x !in BlockIds(r) :: At(t, x) < At(t, r.id) <==> At(t, x) < At(t, a.id)
  }

  lemma {:induction false} FlattenedSplits(runs: seq<Run>, order: seq<Text>, q: Reading, id: Text)
    returns (head: seq<Text>, tail: seq<Text>)
    requires id in order
    ensures Flattened(runs, order, q) == head + Block(runs, id, q) + tail
  {
    var last := |order| - 1;
    hide Block;
    if order[last] == id {
      head, tail := Flattened(runs, order[..last], q), [];
    } else {
      assert order == order[..last] + [order[last]];
      head, tail := FlattenedSplits(runs, order[..last], q, id);
      tail := tail + Block(runs, order[last], q);
    }
  }

  lemma FlatSplits(j: Journal, q: Reading, r: Run) returns (head: seq<Text>, tail: seq<Text>)
    requires Valid(j) && r in j.runs && r.scope == q.scope
    ensures FlatOf(j, q) == head + ([r.id] + StepOrdering(r, q)) + tail
    ensures forall x :: x in StepOrdering(r, q) <==> x in StepIdSet(r)
  {
    ExistingIds(j, q, r);
    ExistingIsTidy(j, q.scope);
    OrderingHolds(j, q);
    var run := BlockHolds(Existing(j, q.scope), r.id, q, Prior(j));
    assert TidyPair(run, r) && TidyRun(r, Prior(j)) && Distinct(Prior(j));
    StepOrderingHolds(r, q, Prior(j));
    hide Valid, Existing, RunOrdering, Flattened, Block, Prior, Tidy, TidyRun, StepOrdering, StepIdSet, Distinct;
    head, tail := FlattenedSplits(Existing(j, q.scope), RunOrdering(j, q), q, r.id);
  }

  /** The new sequence around the block of one run. */
  lemma OrderSplits(j: Journal, q: Reading, r: Run) returns (head: seq<Text>, tail: seq<Text>)
    requires Valid(j) && Source(j, q) != [] && r in j.runs && r.scope == q.scope
    ensures NewOrder(j, q) == head + ([r.id] + StepOrdering(r, q)) + tail
    ensures forall x :: x in StepOrdering(r, q) <==> x in StepIdSet(r)
  {
    var flat := FlatOf(j, q);
    FlatHolds(j, q);
    FlatIsThere(j, q);
    hide Valid, FlatOf, Prior, StepOrdering, StepIdSet, Source, Splice, Without, Distinct, InRuns;
    head, tail := FlatSplits(j, q, r);
    assert flat[0] in flat && flat[0] in Prior(j);
    var h, l := SpliceIs(Prior(j), Elements(flat), flat);
    BlockMoves(h, head, [r.id] + StepOrdering(r, q), tail, l);
    head, tail := h + head, tail + l;
  }

  lemma BlockMoves(a: seq<Text>, b: seq<Text>, block: seq<Text>, c: seq<Text>, d: seq<Text>)
    ensures a + (b + block + c) + d == (a + b) + block + (c + d)
  {
  }

  lemma BlocksStand(head: seq<Text>, id: Text, steps: seq<Text>, tail: seq<Text>, a: Text, x: Text)
    requires Distinct(head + ([id] + steps) + tail) && a in steps
    requires x in head + ([id] + steps) + tail && x != id && x !in steps
    ensures var s := head + ([id] + steps) + tail;
            Before(s, id, a) && (Before(s, x, id) <==> Before(s, x, a))
  {
    var block := [id] + steps;
    DistinctHalves(head + block, tail);
    DistinctHalves(head, block);
    assert id in block && a in block && x !in block;
    BeforeJoins(head + block, tail, id, a);
    BeforeJoins(head, block, id, a);
    BeforeJoins([id], steps, id, a);
    hide Distinct;
    HeadComesBefore(head, block, tail, x, id);
    HeadComesBefore(head, block, tail, x, a);
    hide Before;
  }

  lemma HeadComesBefore(head: seq<Text>, block: seq<Text>, tail: seq<Text>, x: Text, y: Text)
    requires y in block && y !in head && y !in tail && x !in block
    ensures Before(head + block + tail, x, y) <==> x in head
  {
    BeforeJoins(head + block, tail, x, y);
    BeforeJoins(head, block, x, y);
    BeforeIsHeld(head, x, y);
    BeforeIsHeld(block, x, y);
    BeforeIsHeld(tail, x, y);
    hide Before;
  }

  // ----- the others -----

  predicate OfConversation(j: Journal, q: Reading, x: Text) {
    exists r :: r in j.runs && r.scope == q.scope && x in BlockIds(r)
  }

  ghost predicate StoodBefore(j: Journal, q: Reading, x: Text, y: Text) {
    if OfConversation(j, q, y)
    then forall z :: z in MarkIds(Marks(j)) && OfConversation(j, q, z) ==> At(j, x) < At(j, z)
    else At(j, x) < At(j, y)
  }

  /**
   * Records outside the conversation stand among themselves as before; one of them stands before the conversation's if
   * and only if it stood before the first of these.
   */
  ghost predicate OthersPlaced(j: Journal, q: Reading, t: Journal) {
    forall x, y | x in MarkIds(Marks(j)) && y in MarkIds(Marks(j)) && x != y && !OfConversation(j, q, x) ::
      At(t, x) < At(t, y) <==> StoodBefore(j, q, x, y)
  }

  lemma {:induction false} SplicePlaces(s: seq<Text>, block: set<Text>, flat: seq<Text>, x: Text, y: Text)
    requires Distinct(s) && x in s && x !in block && y in flat && block == Elements(flat)
    requires forall z :: z in flat ==> z in s
    ensures Before(Splice(s, block, flat), x, y) <==> forall z :: z in block ==> Before(s, x, z)
  {
    var z0 := y;
    var head, tail := SpliceStarts(s, block, flat);
    hide Splice, Without;
    BeforeJoins(head, s[|head|..], x, y);
    assert s == head + s[|head|..];
    assert x in head <==> x !in s[|head|..] by { DistinctHalves(head, s[|head|..]); }
    HeadComesBefore(head, flat, tail, x, y);
    var first := s[|head|];
    if x in head {
      forall z | z in block
        ensures Before(s, x, z)
      {
        BeforeJoins(head, s[|head|..], x, z);
      }
    } else {
      assert x in s[|head|..];
      BeforeIsTotal(s, x, first);
      assert Before(s, first, x) by {
        var k :| 0 <= k < |s| && s[k] == x;
      }
    }
  }

  /** A splice is what stands before the block's first record, the block, and the others. */
  lemma {:induction false} SpliceStarts(s: seq<Text>, block: set<Text>, flat: seq<Text>)
    returns (head: seq<Text>, tail: seq<Text>)
    requires exists x :: x in s && x in block
    ensures Splice(s, block, flat) == head + flat + tail
    ensures |head| < |s| && head == s[..|head|] && s[|head|] in block
    ensures forall x :: x in head || x in tail ==> x !in block
  {
    if s[0] in block {
      head, tail := [], Without(s[1..], block);
    } else {
      var x :| x in s && x in block;
      assert x in s[1..];
      head, tail := SpliceStarts(s[1..], block, flat);
      head := [s[0]] + head;
    }
  }

  // ----- a merge, in full -----

  /**
   * All that a merge does: nothing, if the read names no run of its conversation. Otherwise every record is kept, with
   * one order of those from 0 to the number of records, and all pairs of records stand as told.
   */
  ghost predicate Told(j: Journal, q: Reading, t: Journal) {
    if !Concerns(j, q) then t == j
    else
      && Valid(t) && t.nextOrder == |Marks(t)| == |Marks(j)|
      && multiset(PlainRuns(t.runs)) == multiset(PlainRuns(j.runs))
      && PlainReviews(t.reviews) == PlainReviews(j.reviews)
      && (forall i, k :: 0 <= i < k < |t.runs| ==> t.runs[i].order <= t.runs[k].order)
      && RunsPlaced(j, q, t) && StepsPlaced(j, q, t) && BlocksPlaced(j, q, t) && OthersPlaced(j, q, t)
  }

  lemma RunsArePlaced(j: Journal, q: Reading)
    requires Valid(j) && Source(j, q) != []
    ensures RunsPlaced(j, q, Merged(j, q))
  {
    var t := Merged(j, q);
    MergeKeepsTheRule(j, q);
    PriorsAgree(j, q);
    hide Valid, Source, Merged, Marks, Numbered, Prior, NewOrder, At, Before, Precedes;
    forall r, s | r in j.runs && s in j.runs && r.scope == q.scope && s.scope == q.scope && r.id != s.id
      ensures At(t, r.id) < At(t, s.id) <==> Before(NewOrder(j, q), r.id, s.id)
    {
      RunIsAt(j, r);
      RunIsAt(j, s);
      OrdersAre(t, r.id, s.id);
    }
    forall r, s | r in j.runs && s in j.runs && r.scope == q.scope && s.scope == q.scope && r.id != s.id {
      RunsStandAsRead(j, q, r, s);
    }
  }

  lemma PriorsAgree(j: Journal, q: Reading)
    requires Valid(j) && Source(j, q) != []
    ensures forall x :: x in Prior(j) <==> x in NewOrder(j, q)
    ensures forall x :: x in Prior(j) <==> x in MarkIds(Marks(j))
    ensures Distinct(Prior(j)) && Distinct(NewOrder(j, q))
  {
    ResultHolds(j, q);
    PriorHolds(j);
  }

  lemma StepsArePlaced(j: Journal, q: Reading)
    requires Valid(j) && Source(j, q) != []
    ensures StepsPlaced(j, q, Merged(j, q))
  {
    var t := Merged(j, q);
    MergeKeepsTheRule(j, q);
    PriorsAgree(j, q);
    hide Valid, Source, Merged, Marks, Numbered, Prior, NewOrder, At, Before, Precedes, StepsRead;
    forall r, a, b | r in j.runs && r.scope == q.scope && a in r.steps && b in r.steps && a.id != b.id
      ensures At(t, a.id) < At(t, b.id)
         <==> Precedes(StepsRead(q, r.id), {}, q.earlier, q.live, a.id, b.id, a.order < b.order)
    {
      RunIsAt(j, r);
      OrdersAre(t, a.id, b.id);
      StepsStandAsRead(j, q, r, a, b);
    }
  }

  lemma BlocksArePlaced(j: Journal, q: Reading)
    requires Valid(j) && Source(j, q) != []
    ensures BlocksPlaced(j, q, Merged(j, q))
  {
    hide Valid, Source, Merged, Adjoins;
    forall r, a | r in j.runs && r.scope == q.scope && a in r.steps ensures Adjoins(Merged(j, q), r, a) {
      StepAdjoins(j, q, r, a);
    }
  }

  lemma StepAdjoins(j: Journal, q: Reading, r: Run, a: Step)
    requires Valid(j) && Source(j, q) != [] && r in j.runs && r.scope == q.scope && a in r.steps
    ensures Adjoins(Merged(j, q), r, a)
  {
    var t := Merged(j, q);
    hide Valid, Source, Merged, Marks, Numbered, Prior, NewOrder, At, BlockIds, Distinct, StepIdSet;
    SameRecords(j, q);
    RunIsRecord(j, r);
    BlockIsPlaced(j, q, r, a, r.id);
    forall x | x in MarkIds(Marks(t)) && x !in BlockIds(r)
      ensures At(t, x) < At(t, r.id) <==> At(t, x) < At(t, a.id)
    {
      OutsiderIsNotRun(r, x);
      BlockIsPlaced(j, q, r, a, x);
    }
  }

  lemma SameRecords(j: Journal, q: Reading)
    requires Valid(j) && Source(j, q) != []
    ensures forall x :: x in MarkIds(Marks(Merged(j, q))) <==> x in MarkIds(Marks(j))
  {
    hide Valid, Source, Merged, Marks, Numbered, Prior, NewOrder;
    MergeKeepsTheRule(j, q);
  }

  lemma RunIsRecord(j: Journal, r: Run)
    requires Valid(j) && r in j.runs
    ensures r.id in MarkIds(Marks(j))
  {
    RunIsAt(j, r);
    PriorHolds(j);
  }

  lemma OutsiderIsNotRun(r: Run, x: Text)
    requires x !in BlockIds(r)
    ensures x != r.id
  {
  }

  lemma BlockIsPlaced(j: Journal, q: Reading, r: Run, a: Step, x: Text)
    requires Valid(j) && Source(j, q) != [] && r in j.runs && r.scope == q.scope && a in r.steps
    requires x in MarkIds(Marks(j)) && (x == r.id || x !in BlockIds(r))
    ensures var t := Merged(j, q);
            if x == r.id then At(t, x) < At(t, a.id) else At(t, x) < At(t, r.id) <==> At(t, x) < At(t, a.id)
  {
    var t := Merged(j, q);
    MergeKeepsTheRule(j, q);
    PriorsAgree(j, q);
    hide Valid, Source, Merged, Marks, Numbered, Prior, NewOrder, At, Before, BlockIds, Distinct, StepOrdering;
    hide StepIdSet;
    RunIsAt(j, r);
    var head, tail := OrderSplits(j, q, r);
    BlockStands(j, q, r, a.id, x, head, tail);
    OrdersAre(t, x, r.id);
    OrdersAre(t, x, a.id);
  }

  lemma BlockStands(j: Journal, q: Reading, r: Run, a: Text, x: Text, head: seq<Text>, tail: seq<Text>)
    requires Distinct(NewOrder(j, q)) && NewOrder(j, q) == head + ([r.id] + StepOrdering(r, q)) + tail
    requires forall y :: y in StepOrdering(r, q) <==> y in StepIdSet(r)
    requires a in StepIdSet(r) && x in NewOrder(j, q) && (x == r.id || x !in BlockIds(r))
    ensures Before(NewOrder(j, q), r.id, a)
    ensures x != r.id ==> (Before(NewOrder(j, q), x, r.id) <==> Before(NewOrder(j, q), x, a))
  {
    hide NewOrder, StepIdSet, StepOrdering, Before, Distinct;
    RunLeads(head, r.id, StepOrdering(r, q), tail, a);
    if x != r.id { BlocksStand(head, r.id, StepOrdering(r, q), tail, a, x); }
  }

  lemma RunLeads(head: seq<Text>, id: Text, steps: seq<Text>, tail: seq<Text>, a: Text)
    requires a in steps
    ensures Before(head + ([id] + steps) + tail, id, a)
  {
    BeforeJoins(head + ([id] + steps), tail, id, a);
    BeforeJoins(head, [id] + steps, id, a);
    BeforeJoins([id], steps, id, a);
    hide Before;
  }

  lemma FlatIsConversation(j: Journal, q: Reading, x: Text)
    requires Valid(j)
    ensures x in FlatOf(j, q) <==> OfConversation(j, q, x)
  {
    FlatHolds(j, q);
    ExistingHolds(j, q.scope);
    hide FlatOf, Existing, BlockIds, Valid, Prior;
  }

  lemma OtherStands(j: Journal, q: Reading, x: Text, y: Text)
    requires Valid(j) && Source(j, q) != [] && x in Prior(j) && y in Prior(j) && x != y && !OfConversation(j, q, x)
    ensures Before(NewOrder(j, q), x, y)
       <==> if OfConversation(j, q, y)
            then forall z :: z in Prior(j) && OfConversation(j, q, z) ==> Before(Prior(j), x, z)
            else Before(Prior(j), x, y)
  {
    var flat, prior := FlatOf(j, q), Prior(j);
    FlatHolds(j, q);
    ResultHolds(j, q);
    PriorHolds(j);
    forall z ensures z in flat <==> OfConversation(j, q, z) { FlatIsConversation(j, q, z); }
    hide Valid, Source, Marks, Prior, FlatOf, Before, OfConversation, Filter, Without, InRuns, Splice, Distinct;
    if y in flat {
      SplicePlaces(prior, Elements(flat), flat, x, y);
    } else {
      BeforeFilters(prior, Elements(flat), x, y);
      BeforeFilters(NewOrder(j, q), Elements(flat), x, y);
    }
  }

  lemma OthersArePlaced(j: Journal, q: Reading)
    requires Valid(j) && Source(j, q) != []
    ensures OthersPlaced(j, q, Merged(j, q))
  {
    var t := Merged(j, q);
    MergeKeepsTheRule(j, q);
    PriorsAgree(j, q);
    hide Valid, Source, Merged, Marks, Numbered, Prior, NewOrder, At, StoodBefore, OfConversation, Distinct;
    forall x, y | x in MarkIds(Marks(j)) && y in MarkIds(Marks(j)) && x != y && !OfConversation(j, q, x)
      ensures At(t, x) < At(t, y) <==> StoodBefore(j, q, x, y)
    {
      OtherStands(j, q, x, y);
      OrdersAre(t, x, y);
      OthersStood(j, q, x, y);
    }
  }

  lemma OthersStood(j: Journal, q: Reading, x: Text, y: Text)
    requires Valid(j) && x in Prior(j) && y in Prior(j) && forall z :: z in Prior(j) <==> z in MarkIds(Marks(j))
    ensures StoodBefore(j, q, x, y)
       <==> if OfConversation(j, q, y)
            then forall z :: z in Prior(j) && OfConversation(j, q, z) ==> Before(Prior(j), x, z)
            else Before(Prior(j), x, y)
  {
    hide Valid, Marks, Prior, At, Before, OfConversation;
    forall z | z in MarkIds(Marks(j))
      ensures At(j, x) < At(j, z) <==> Before(Prior(j), x, z)
    {
      OrdersAre(j, x, z);
    }
  }

  /** A merge of any read into any valid journal is told in full by the orders before it and the read. */
  lemma MergeIsTold(j: Journal, q: Reading)
    requires Valid(j)
    ensures Told(j, q, Merged(j, q))
  {
    var t := Merged(j, q);
    ConcernsIs(j, q);
    if Concerns(j, q) {
      MergeOnlyReorders(j, q);
      OrdersAreCounted(j, q);
      RunsStaySorted(j, q);
      RunsArePlaced(j, q);
      StepsArePlaced(j, q);
      BlocksArePlaced(j, q);
      OthersArePlaced(j, q);
      hide Valid, Source, Concerns, RunsPlaced, StepsPlaced, BlocksPlaced, OthersPlaced, PlainRuns, PlainReviews;
      hide Merged, Marks;
    } else {
      hide Valid, Concerns;
    }
  }

  lemma RunsStaySorted(j: Journal, q: Reading)
    requires Valid(j) && Source(j, q) != []
    ensures forall i, k :: 0 <= i < k < |Merged(j, q).runs| ==> Merged(j, q).runs[i].order <= Merged(j, q).runs[k].order
  {
    MergeIsReordering(j, q);
    var runs := RenumberedRuns(j.runs, NewOrder(j, q));
    hide Merged, NewOrder, RenumberedRuns, Source, Valid, SortBy;
    SortOrders(runs, RunOrder);
    var sorted := SortBy(runs, RunOrder);
    assert forall i, k :: 0 <= i < k < |sorted| ==> RunOrder(sorted[i]) <= RunOrder(sorted[k]);
  }

  lemma OrdersAreCounted(j: Journal, q: Reading)
    requires Valid(j) && Source(j, q) != []
    ensures var t := Merged(j, q); Valid(t) && t.nextOrder == |Marks(t)| == |Marks(j)|
  {
    MergeKeepsTheRule(j, q);
    PriorsAgree(j, q);
    hide Valid, Source, NewOrder, Merged, Numbered, Marks;
    PriorCounts(j);
    PriorCounts(Merged(j, q));
    SameLength(NewOrder(j, q), Prior(j));
  }

  lemma PriorCounts(j: Journal)
    ensures |Prior(j)| == |Marks(j)|
  {
    hide Marks;
    SortCounts(Marks(j));
  }

  lemma SortCounts(marks: seq<Mark>)
    ensures |SortBy(marks, ByOrder)| == |marks|
  {
    assert |multiset(SortBy(marks, ByOrder))| == |multiset(marks)|;
  }
}
