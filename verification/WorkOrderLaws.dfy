/**
 * Merging work order renumbers and nothing else: no record is lost, other conversations keep their order, and it is
 * done once.
 */
module WorkOrderLaws {
  import opened Wrappers
  import opened HistoryTypes
  import opened WorkSequences
  import opened StableSort
  import opened WorkOrder

  // ----- sorted IDs -----

  /** IDs in the order a function gives them. */
  predicate Ascending(s: seq<Text>, at: Text -> int) {
    forall i, j :: 0 <= i < j < |s| ==> at(s[i]) < at(s[j])
  }

  lemma {:induction false} AscendingIsUnique(a: seq<Text>, b: seq<Text>, at: Text -> int)
    requires Ascending(a, at) && Ascending(b, at) && forall x :: x in a <==> x in b
    ensures a == b
  {
    assert a == [] <==> b == [] by {
      assert a != [] ==> a[0] in a;
      assert b != [] ==> b[0] in b;
    }
    if a != [] {
      assert a[0] in b && b[0] in a;
      var i :| 0 <= i < |b| && b[i] == a[0];
      var j :| 0 <= j < |a| && a[j] == b[0];
      assert forall k :: 0 < k < |a| ==> at(a[0]) < at(a[k]);
      assert forall k :: 0 < k < |b| ==> at(b[0]) < at(b[k]);
      assert a[0] == b[0];
      forall x
        ensures x in a[1..] <==> x in b[1..]
      {
        assert x in a[1..] <==> x in a && x != a[0];
        assert x in b[1..] <==> x in b && x != b[0];
      }
      AscendingIsUnique(a[1..], b[1..], at);
      assert a == [a[0]] + a[1..] && b == [b[0]] + b[1..];
    }
  }

  lemma {:induction false} AscendingFilters(s: seq<Text>, keep: set<Text>, at: Text -> int)
    requires Ascending(s, at)
    ensures Ascending(Filter(s, keep), at)
  {
    if s != [] {
      AscendingFilters(s[1..], keep, at);
      var rest := Filter(s[1..], keep);
      forall i | 0 <= i < |rest|
        ensures at(s[0]) < at(rest[i])
      {
        assert rest[i] in s[1..];
        var k :| 0 <= k < |s[1..]| && s[1..][k] == rest[i];
        assert s[k + 1] == rest[i];
      }
    }
  }

  /** Sorting some of the marks gives some of the sorted IDs. */
  lemma SortedPart(ids: seq<Text>, prior: seq<Text>, keep: set<Text>, at: Text -> int)
    requires Ascending(ids, at) && Ascending(prior, at)
    requires forall x :: x in ids <==> x in prior && x in keep
    ensures ids == Filter(prior, keep)
  {
    AscendingFilters(prior, keep, at);
    AscendingIsUnique(ids, Filter(prior, keep), at);
  }

  // ----- records are apart -----

  function StepIdSet(run: Run): set<Text> { Elements(MarkIds(StepMarks(run))) }

  /** Runs have their own IDs, their steps theirs, and no step shares one with a run or with another run's step. */
  ghost predicate Apart(runs: seq<Run>) {
    && (forall i, k :: 0 <= i < k < |runs| ==> runs[i].id != runs[k].id && StepIdSet(runs[i]) !! StepIdSet(runs[k]))
    && (forall i, k :: 0 <= i < |runs| && 0 <= k < |runs| ==> runs[i].id !in StepIdSet(runs[k]))
    && (forall i :: 0 <= i < |runs| ==> Distinct(MarkIds(StepMarks(runs[i]))))
  }

  function AllIds(runs: seq<Run>): set<Text> { Elements(MarkIds(RunMarks(runs))) }

  lemma IdsJoin(a: seq<Mark>, b: seq<Mark>)
    ensures MarkIds(a + b) == MarkIds(a) + MarkIds(b)
  {
  }

  lemma RunIdsJoin(runs: seq<Run>)
    requires runs != []
    ensures var last := |runs| - 1;
            MarkIds(RunMarks(runs))
              == MarkIds(RunMarks(runs[..last])) + ([runs[last].id] + MarkIds(StepMarks(runs[last])))
  {
    var last := |runs| - 1;
    var mark := [Mark(runs[last].id, runs[last].order)];
    IdsJoin(RunMarks(runs[..last]), MarksOf(runs[last]));
    IdsJoin(mark, StepMarks(runs[last]));
    assert MarkIds(mark) == [runs[last].id];
  }

  lemma {:induction false} RunsHold(runs: seq<Run>, x: Text)
    ensures x in AllIds(runs) <==> exists i :: 0 <= i < |runs| && (x == runs[i].id || x in StepIdSet(runs[i]))
  {
    if runs != [] {
      var last := |runs| - 1;
      RunsHold(runs[..last], x);
      RunIdsJoin(runs);
      hide StepMarks, RunMarks;
      assert x in AllIds(runs) <==> x in AllIds(runs[..last]) || x == runs[last].id || x in StepIdSet(runs[last]);
      if x in AllIds(runs[..last]) {
        var i :| 0 <= i < last && (x == runs[..last][i].id || x in StepIdSet(runs[..last][i]));
        assert x == runs[i].id || x in StepIdSet(runs[i]);
      }
    }
  }

  lemma {:induction false} RunsAreApart(runs: seq<Run>)
    requires Distinct(MarkIds(RunMarks(runs)))
    ensures Apart(runs)
  {
    if runs != [] {
      var last := |runs| - 1;
      var less, run := runs[..last], runs[last];
      RunIdsJoin(runs);
      DistinctHalves(MarkIds(RunMarks(less)), [run.id] + MarkIds(StepMarks(run)));
      DistinctHalves([run.id], MarkIds(StepMarks(run)));
      RunsAreApart(less);
      hide StepMarks, RunMarks;
      forall i | 0 <= i < last
        ensures runs[i].id != run.id && StepIdSet(runs[i]) !! StepIdSet(run) && runs[i].id !in StepIdSet(run)
                && run.id !in StepIdSet(runs[i])
      {
        assert runs[i] == less[i];
        RunsHold(less, runs[i].id);
        forall x | x in StepIdSet(runs[i]) ensures x in AllIds(less) { RunsHold(less, x); }
        assert forall x :: x in AllIds(less) ==> x in MarkIds(RunMarks(less));
      }
    }
  }

  // ----- keys -----

  /** The order of an ID in the journal. */
  function OrderIn(marks: seq<Mark>, id: Text): int {
    if marks == [] then -1 else if marks[0].id == id then marks[0].order else OrderIn(marks[1..], id)
  }

  lemma {:induction false} OrderInIs(marks: seq<Mark>, k: nat)
    requires Distinct(MarkIds(marks)) && k < |marks|
    ensures OrderIn(marks, marks[k].id) == marks[k].order
  {
    if k > 0 {
      assert MarkIds(marks)[0] != MarkIds(marks)[k];
      assert forall i :: 0 <= i < |marks[1..]| ==> MarkIds(marks[1..])[i] == MarkIds(marks)[i + 1];
      OrderInIs(marks[1..], k - 1);
    }
  }

  /** `at` tells every record's order, and no two records have one. */
  ghost predicate Keys(marks: seq<Mark>, at: Text -> int) {
    && (forall k :: 0 <= k < |marks| ==> at(marks[k].id) == marks[k].order)
    && (forall x, y :: x in MarkIds(marks) && y in MarkIds(marks) && x != y ==> at(x) != at(y))
  }

  lemma ValidKeys(j: Journal) returns (at: Text -> int)
    requires Valid(j)
    ensures Keys(Marks(j), at)
  {
    var marks := Marks(j);
    at := id => OrderIn(marks, id);
    forall k | 0 <= k < |marks| ensures at(marks[k].id) == marks[k].order { OrderInIs(marks, k); }
    forall x, y | x in MarkIds(marks) && y in MarkIds(marks) && x != y
      ensures at(x) != at(y)
    {
      var a :| 0 <= a < |marks| && MarkIds(marks)[a] == x;
      var b :| 0 <= b < |marks| && MarkIds(marks)[b] == y;
      OrderInIs(marks, a);
      OrderInIs(marks, b);
    }
  }

  /** Sorting marks that have keys puts their IDs in key order. */
  lemma SortedMarks(marks: seq<Mark>, at: Text -> int)
    requires Distinct(MarkIds(marks)) && Keys(marks, at)
    ensures var ids := MarkIds(SortBy(marks, ByOrder));
            Ascending(ids, at) && Distinct(ids) && forall x :: x in ids <==> x in MarkIds(marks)
  {
    var sorted := SortBy(marks, ByOrder);
    forall i, k | 0 <= i < k < |marks|
      ensures marks[i].order != marks[k].order
    {
      assert MarkIds(marks)[i] != MarkIds(marks)[k];
      assert MarkIds(marks)[i] in MarkIds(marks) && MarkIds(marks)[k] in MarkIds(marks);
    }
    SortStrict(marks, ByOrder);
    forall i | 0 <= i < |sorted|
      ensures at(sorted[i].id) == sorted[i].order
    {
      SortHolds(marks, ByOrder, sorted[i]);
      var k :| 0 <= k < |marks| && marks[k] == sorted[i];
    }
    SortedHolds(marks);
    hide SortBy;
  }

  lemma SortedHolds(marks: seq<Mark>)
    ensures forall x :: x in MarkIds(SortBy(marks, ByOrder)) <==> x in MarkIds(marks)
  {
    var sorted := SortBy(marks, ByOrder);
    hide SortBy;
    forall x | x in MarkIds(sorted)
      ensures x in MarkIds(marks)
    {
      var i :| 0 <= i < |sorted| && MarkIds(sorted)[i] == x;
      SortHolds(marks, ByOrder, sorted[i]);
      var k :| 0 <= k < |marks| && marks[k] == sorted[i];
      assert MarkIds(marks)[k] == x;
    }
    forall x | x in MarkIds(marks)
      ensures x in MarkIds(sorted)
    {
      var i :| 0 <= i < |marks| && MarkIds(marks)[i] == x;
      SortHolds(marks, ByOrder, marks[i]);
      var k :| 0 <= k < |sorted| && sorted[k] == marks[i];
      assert MarkIds(sorted)[k] == x;
    }
  }

  // ----- the order that is there -----

  ghost predicate TidyRun(r: Run, prior: seq<Text>) {
    r.id in prior && StepIds(r) == Filter(prior, StepIdSet(r)) && forall x :: x in StepIdSet(r) ==> x in prior
  }

  ghost predicate TidyPair(r: Run, t: Run) {
    r.id !in StepIdSet(t) && (r != t ==> r.id != t.id && StepIdSet(r) !! StepIdSet(t))
  }

  /** The runs a conversation's order is made of: named apart, and sorted as the whole journal is. */
  ghost predicate Tidy(runs: seq<Run>, prior: seq<Text>) {
    && Distinct(prior) && Distinct(RunIds(runs)) && RunIds(runs) == Filter(prior, Elements(RunIds(runs)))
    && (forall r :: r in runs ==> TidyRun(r, prior))
    && (forall r, t :: r in runs && t in runs ==> TidyPair(r, t))
  }

  lemma {:induction false} RunMarkIn(runs: seq<Run>, i: nat) returns (k: nat)
    requires i < |runs|
    ensures k < |RunMarks(runs)| && RunMarks(runs)[k] == Mark(runs[i].id, runs[i].order)
  {
    var last := |runs| - 1;
    if i == last {
      k := |RunMarks(runs[..last])|;
    } else {
      k := RunMarkIn(runs[..last], i);
    }
  }

  lemma {:induction false} StepMarkIn(runs: seq<Run>, i: nat, m: nat) returns (k: nat)
    requires i < |runs| && m < |runs[i].steps|
    ensures k < |RunMarks(runs)| && RunMarks(runs)[k] == Mark(runs[i].steps[m].id, runs[i].steps[m].order)
  {
    var last := |runs| - 1;
    if i == last {
      k := |RunMarks(runs[..last])| + 1 + m;
    } else {
      k := StepMarkIn(runs[..last], i, m);
    }
  }

  /** The keys of the whole journal are the keys of each run and of its steps. */
  lemma RunKeys(j: Journal, at: Text -> int, i: nat)
    requires Keys(Marks(j), at) && Distinct(MarkIds(Marks(j))) && i < |j.runs|
    ensures at(j.runs[i].id) == j.runs[i].order
    ensures Keys(StepMarks(j.runs[i]), at) && Distinct(MarkIds(StepMarks(j.runs[i])))
    ensures j.runs[i].id in MarkIds(Marks(j)) && forall x :: x in StepIdSet(j.runs[i]) ==> x in MarkIds(Marks(j))
  {
    var marks, run := Marks(j), j.runs[i];
    var k := RunMarkIn(j.runs, i);
    assert marks[|j.reviews| + k] == Mark(run.id, run.order) && MarkIds(marks)[|j.reviews| + k] == run.id;
    forall m | 0 <= m < |run.steps|
      ensures at(run.steps[m].id) == run.steps[m].order && run.steps[m].id in MarkIds(marks)
    {
      var n := StepMarkIn(j.runs, i, m);
      assert marks[|j.reviews| + n] == Mark(run.steps[m].id, run.steps[m].order)
             && MarkIds(marks)[|j.reviews| + n] == run.steps[m].id;
    }
    JournalIsApart(j);
    hide Marks, RunMarks;
    assert forall x :: x in MarkIds(StepMarks(run)) ==> x in MarkIds(marks);
  }

  lemma JournalIsApart(j: Journal)
    requires Distinct(MarkIds(Marks(j)))
    ensures Apart(j.runs)
  {
    IdsJoin(ReviewMarks(j.reviews), RunMarks(j.runs));
    DistinctHalves(MarkIds(ReviewMarks(j.reviews)), MarkIds(RunMarks(j.runs)));
    RunsAreApart(j.runs);
  }

  lemma {:induction false} ScopeKeepsDistinct(runs: seq<Run>, scope: Scoped)
    requires forall i, k :: 0 <= i < k < |runs| ==> runs[i].order != runs[k].order
    ensures forall i, k :: 0 <= i < k < |InScope(runs, scope)| ==>
              InScope(runs, scope)[i].order != InScope(runs, scope)[k].order
  {
    if runs != [] {
      var last := |runs| - 1;
      ScopeKeepsDistinct(runs[..last], scope);
      var less := InScope(runs[..last], scope);
      forall i | 0 <= i < |less|
        ensures less[i].order != runs[last].order
      {
        assert less[i] in runs[..last];
        var k :| 0 <= k < last && runs[..last][k] == less[i];
      }
    }
  }

  lemma ExistingHolds(j: Journal, scope: Scoped)
    ensures forall r :: r in Existing(j, scope) <==> r in j.runs && r.scope == scope
  {
    forall r { SortHolds(InScope(j.runs, scope), RunOrder, r); }
  }

  /** A run's steps, sorted, are the journal's order restricted to them. */
  lemma StepsAreFiltered(j: Journal, at: Text -> int, i: nat)
    requires Keys(Marks(j), at) && Distinct(MarkIds(Marks(j))) && i < |j.runs|
    ensures StepIds(j.runs[i]) == Filter(Prior(j), StepIdSet(j.runs[i]))
    ensures forall x :: x in StepIdSet(j.runs[i]) ==> x in Prior(j)
  {
    RunKeys(j, at, i);
    SortedMarks(StepMarks(j.runs[i]), at);
    SortedMarks(Marks(j), at);
    hide Marks, StepMarks, SortBy, Filter;
    SortedPart(StepIds(j.runs[i]), Prior(j), StepIdSet(j.runs[i]), at);
  }

  /** The conversation's runs come in key order. */
  lemma ExistingAscends(j: Journal, scope: Scoped, at: Text -> int)
    requires Keys(Marks(j), at) && Distinct(MarkIds(Marks(j)))
    ensures Ascending(RunIds(Existing(j, scope)), at)
    ensures forall x :: x in RunIds(Existing(j, scope)) ==> x in MarkIds(Marks(j))
  {
    var runs, existing := j.runs, Existing(j, scope);
    hide Filter, InScope, StepIdSet, StepMarks, Apart, SortBy;
    forall i | 0 <= i < |runs|
      ensures at(runs[i].id) == runs[i].order && runs[i].id in MarkIds(Marks(j))
    {
      RunKeys(j, at, i);
    }
    RunOrdersDiffer(j, at);
    hide Marks, Keys;
    ScopeKeepsDistinct(runs, scope);
    SortStrict(InScope(runs, scope), RunOrder);
    ExistingHolds(j, scope);
    forall i | 0 <= i < |existing|
      ensures at(existing[i].id) == existing[i].order && existing[i].id in MarkIds(Marks(j))
    {
      assert existing[i] in existing;
      var k :| 0 <= k < |runs| && runs[k] == existing[i];
    }
    assert Strict(existing, RunOrder);
    hide Existing;
    forall i, k | 0 <= i < k < |existing|
      ensures at(RunIds(existing)[i]) < at(RunIds(existing)[k])
    {
      assert RunOrder(existing[i]) < RunOrder(existing[k]);
    }
  }

  lemma RunOrdersDiffer(j: Journal, at: Text -> int)
    requires Keys(Marks(j), at) && Distinct(MarkIds(Marks(j)))
    ensures forall i, k :: 0 <= i < k < |j.runs| ==> j.runs[i].order != j.runs[k].order
  {
    JournalIsApart(j);
    forall i, k | 0 <= i < k < |j.runs|
      ensures j.runs[i].order != j.runs[k].order
    {
      RunKeys(j, at, i);
      RunKeys(j, at, k);
    }
  }

  /** The conversation's runs, sorted, are the journal's order restricted to them. */
  lemma ExistingIsFiltered(j: Journal, scope: Scoped, at: Text -> int)
    requires Keys(Marks(j), at) && Distinct(MarkIds(Marks(j)))
    ensures RunIds(Existing(j, scope)) == Filter(Prior(j), Elements(RunIds(Existing(j, scope))))
    ensures Distinct(RunIds(Existing(j, scope)))
  {
    var ids := RunIds(Existing(j, scope));
    ExistingAscends(j, scope, at);
    SortedMarks(Marks(j), at);
    hide Marks, SortBy, Filter, Existing, Keys;
    assert Ascending(Prior(j), at) && forall x :: x in Prior(j) <==> x in MarkIds(Marks(j));
    hide Prior;
    SortedPart(ids, Prior(j), Elements(ids), at);
  }

  lemma ExistingRun(j: Journal, scope: Scoped, at: Text -> int, r: Run)
    requires Keys(Marks(j), at) && Distinct(MarkIds(Marks(j))) && r in Existing(j, scope)
    ensures TidyRun(r, Prior(j))
  {
    ExistingHolds(j, scope);
    SortedHolds(Marks(j));
    hide Marks, SortBy, Filter, Existing, StepIdSet, Keys, InScope, StepIds;
    var i :| 0 <= i < |j.runs| && j.runs[i] == r;
    StepsAreFiltered(j, at, i);
    RunKeys(j, at, i);
  }

  lemma ExistingPair(j: Journal, scope: Scoped, r: Run, t: Run)
    requires Apart(j.runs) && r in Existing(j, scope) && t in Existing(j, scope)
    ensures TidyPair(r, t)
  {
    ExistingHolds(j, scope);
    hide SortBy, Existing, StepIdSet, InScope;
    var i :| 0 <= i < |j.runs| && j.runs[i] == r;
    var k :| 0 <= k < |j.runs| && j.runs[k] == t;
  }

  lemma ExistingIsTidy(j: Journal, scope: Scoped)
    requires Valid(j)
    ensures Tidy(Existing(j, scope), Prior(j))
  {
    var at := ValidKeys(j);
    assert Distinct(MarkIds(Marks(j)));
    hide Valid, Marks, Keys, Filter, Existing, Apart, TidyRun, TidyPair;
    SortedMarks(Marks(j), at);
    ExistingIsFiltered(j, scope, at);
    JournalIsApart(j);
    var existing := Existing(j, scope);
    forall r | r in existing ensures TidyRun(r, Prior(j)) { ExistingRun(j, scope, at, r); }
    forall r, t | r in existing && t in existing ensures TidyPair(r, t) { ExistingPair(j, scope, r, t); }
  }

  // ----- the block of one conversation -----

  function BlockIds(run: Run): set<Text> { {run.id} + StepIdSet(run) }

  /** A run's steps are rearranged, none lost. */
  lemma StepOrderingHolds(run: Run, q: Reading, prior: seq<Text>)
    requires TidyRun(run, prior) && Distinct(prior)
    ensures Distinct(StepOrdering(run, q)) && forall x :: x in StepOrdering(run, q) <==> x in StepIdSet(run)
  {
    DistinctParts(prior, StepIdSet(run));
    var known := Known(if run.id in q.steps then q.steps[run.id] else [], StepIds(run));
    DistinctParts(Unique(if run.id in q.steps then q.steps[run.id] else []), Elements(StepIds(run)));
    hide Arranged, Filter, StepIds, StepIdSet;
    ArrangedKeepsAll(StepIds(run), known, q.earlier, q.live);
  }

  lemma RunNamedIs(runs: seq<Run>, run: Run, prior: seq<Text>)
    requires run in runs && Tidy(runs, prior)
    ensures RunNamed(runs, run.id) == Some(run)
  {
    hide StepIdSet, TidyRun;
    var found := RunNamed(runs, run.id);
    assert TidyPair(found.value, run);
  }

  /** A block is a run followed by its steps. */
  lemma BlockHolds(runs: seq<Run>, id: Text, q: Reading, prior: seq<Text>) returns (run: Run)
    requires Tidy(runs, prior) && id in RunIds(runs)
    ensures run in runs && run.id == id && Block(runs, id, q) == [id] + StepOrdering(run, q)
    ensures Distinct(Block(runs, id, q)) && forall x :: x in Block(runs, id, q) <==> x in BlockIds(run)
  {
    var i :| 0 <= i < |runs| && RunIds(runs)[i] == id;
    run := runs[i];
    RunNamedIs(runs, run, prior);
    assert TidyPair(run, run) && TidyRun(run, prior);
    hide StepIdSet, StepOrdering, Tidy;
    StepOrderingHolds(run, q, prior);
    DistinctJoins([id], StepOrdering(run, q));
  }

  /** All of some runs' blocks: every run and step once, the runs in the given order, each run's steps in theirs. */
  lemma {:induction false} FlattenedHolds(runs: seq<Run>, order: seq<Text>, q: Reading, prior: seq<Text>)
    requires Tidy(runs, prior) && Distinct(order) && forall x :: x in order ==> x in RunIds(runs)
    ensures Distinct(Flattened(runs, order, q))
    ensures forall x :: x in Flattened(runs, order, q) <==> InBlocks(runs, order, x)
  {
    if order != [] {
      FlattenedNext(runs, order, q);
      OrderParts(order);
      var less, id := order[..|order| - 1], order[|order| - 1];
      var before, block := Flattened(runs, less, q), Block(runs, id, q);
      hide Flattened, Block, BlockIds, Distinct, InBlocks;
      FlattenedHolds(runs, less, q, prior);
      var run := BlockHolds(runs, id, q, prior);
      forall x
        ensures InBlocks(runs, order, x) <==> InBlocks(runs, less, x) || x in BlockIds(run)
        ensures !(InBlocks(runs, less, x) && x in BlockIds(run))
      {
        BlocksApart(runs, less, id, prior, run, x);
      }
      DistinctJoins(before, block);
    }
  }

  ghost predicate InBlocks(runs: seq<Run>, order: seq<Text>, x: Text) {
    exists r :: r in runs && r.id in order && x in BlockIds(r)
  }

  lemma BlocksApart(runs: seq<Run>, less: seq<Text>, id: Text, prior: seq<Text>, run: Run, x: Text)
    requires Tidy(runs, prior) && id !in less && run in runs && run.id == id
    ensures InBlocks(runs, less + [id], x) <==> InBlocks(runs, less, x) || x in BlockIds(run)
    ensures !(InBlocks(runs, less, x) && x in BlockIds(run))
  {
    hide TidyRun, StepIdSet;
    if r :| r in runs && r.id in less + [id] && x in BlockIds(r) {
      assert TidyPair(r, run);
      if r.id != id { assert r.id in less; }
    }
    forall r | r in runs && r.id in less && x in BlockIds(r)
      ensures x !in BlockIds(run)
    {
      assert TidyPair(r, run) && TidyPair(run, r);
    }
    if InBlocks(runs, less, x) {
      var r :| r in runs && r.id in less && x in BlockIds(r);
      assert r.id in less + [id];
    }
    if x in BlockIds(run) { assert run.id in less + [id]; }
  }

  lemma FlattenedNext(runs: seq<Run>, order: seq<Text>, q: Reading)
    requires order != []
    ensures Flattened(runs, order, q) == Flattened(runs, order[..|order| - 1], q) + Block(runs, order[|order| - 1], q)
  {
  }

  lemma StepsAreNoRuns(runs: seq<Run>, run: Run, q: Reading, prior: seq<Text>)
    requires Tidy(runs, prior) && run in runs
    ensures forall x :: x in StepOrdering(run, q) ==> x !in Elements(RunIds(runs))
  {
    hide StepOrdering, StepIdSet, TidyRun, Distinct, Filter;
    StepOrderingHolds(run, q, prior);
    forall x | x in RunIds(runs)
      ensures x !in StepIdSet(run)
    {
      var i :| 0 <= i < |runs| && RunIds(runs)[i] == x;
      assert TidyPair(runs[i], run);
    }
  }

  lemma BlockRuns(runs: seq<Run>, id: Text, q: Reading, prior: seq<Text>)
    requires Tidy(runs, prior) && id in RunIds(runs)
    ensures Filter(Block(runs, id, q), Elements(RunIds(runs))) == [id]
  {
    var run := BlockHolds(runs, id, q, prior);
    StepsAreNoRuns(runs, run, q, prior);
    hide StepOrdering, Filter, Tidy, Block;
    FilterJoins([id], StepOrdering(run, q), Elements(RunIds(runs)));
    FilterAll([id], Elements(RunIds(runs)));
    FilterAll(StepOrdering(run, q), Elements(RunIds(runs)));
  }

  lemma BlockSteps(runs: seq<Run>, id: Text, q: Reading, prior: seq<Text>, run: Run)
    requires Tidy(runs, prior) && id in RunIds(runs) && run in runs
    ensures Filter(Block(runs, id, q), StepIdSet(run)) == if id == run.id then StepOrdering(run, q) else []
  {
    hide StepOrdering, Filter, Block, StepIdSet, TidyRun;
    var other := BlockHolds(runs, id, q, prior);
    assert TidyPair(other, run) && TidyRun(other, prior) && Distinct(prior);
    hide Tidy, Distinct;
    StepOrderingHolds(other, q, prior);
    FilterJoins([id], StepOrdering(other, q), StepIdSet(run));
    FilterAll([id], StepIdSet(run));
    FilterAll(StepOrdering(other, q), StepIdSet(run));
  }

  lemma OrderParts(order: seq<Text>)
    requires order != [] && Distinct(order)
    ensures var less, id := order[..|order| - 1], order[|order| - 1];
            Distinct(less) && id !in less && order == less + [id] && forall x :: x in order <==> x in less || x == id
  {
    var less, id := order[..|order| - 1], order[|order| - 1];
    assert order == less + [id];
  }

  /** The runs of a block sequence stand in the given order. */
  lemma {:induction false} FlattenedRuns(runs: seq<Run>, order: seq<Text>, q: Reading, prior: seq<Text>)
    requires Tidy(runs, prior) && Distinct(order) && forall x :: x in order ==> x in RunIds(runs)
    ensures Filter(Flattened(runs, order, q), Elements(RunIds(runs))) == order
  {
    if order != [] {
      FlattenedNext(runs, order, q);
      OrderParts(order);
      hide Flattened, Block, Filter, Tidy, Distinct;
      var less, id := order[..|order| - 1], order[|order| - 1];
      FlattenedRuns(runs, less, q, prior);
      BlockRuns(runs, id, q, prior);
      FilterJoins(Flattened(runs, less, q), Block(runs, id, q), Elements(RunIds(runs)));
    }
  }

  /** The steps of one run stand as they were arranged. */
  lemma {:induction false} FlattenedSteps(runs: seq<Run>, order: seq<Text>, q: Reading, prior: seq<Text>, run: Run)
    requires Tidy(runs, prior) && Distinct(order) && (forall x :: x in order ==> x in RunIds(runs)) && run in runs
    ensures Filter(Flattened(runs, order, q), StepIdSet(run)) == if run.id in order then StepOrdering(run, q) else []
  {
    if order != [] {
      FlattenedNext(runs, order, q);
      OrderParts(order);
      hide Flattened, Block, Filter, Tidy, Distinct, StepOrdering, StepIdSet;
      var less, id := order[..|order| - 1], order[|order| - 1];
      FlattenedSteps(runs, less, q, prior, run);
      BlockSteps(runs, id, q, prior, run);
      FilterJoins(Flattened(runs, less, q), Block(runs, id, q), StepIdSet(run));
    }
  }
}
