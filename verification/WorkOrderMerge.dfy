/** What one merge of a conversation's work order does to the whole journal, and that a second does nothing. */
module WorkOrderMerge {
  import opened Wrappers
  import opened HistoryTypes
  import opened WorkSequences
  import opened StableSort
  import opened WorkOrder
  import opened WorkOrderLaws

  // ----- the new sequence -----

  function Placed(j: Journal, q: Reading): seq<Text> {
    if q.earlier then Without(Source(j, q), q.known) else Source(j, q)
  }

  lemma PlacedIsKnown(j: Journal, q: Reading)
    ensures Distinct(Placed(j, q)) && forall x :: x in Placed(j, q) ==> x in RunIds(Existing(j, q.scope))
  {
    var ids := RunIds(Existing(j, q.scope));
    DistinctParts(Unique(q.runs), Elements(ids));
    DistinctParts(Source(j, q), q.known);
  }

  lemma OrderingHolds(j: Journal, q: Reading)
    requires Valid(j)
    ensures Distinct(RunOrdering(j, q)) && forall x :: x in RunOrdering(j, q) <==> x in RunIds(Existing(j, q.scope))
  {
    ExistingIsTidy(j, q.scope);
    PlacedIsKnown(j, q);
    hide Arranged, Source, Valid, Existing;
    ArrangedKeepsAll(RunIds(Existing(j, q.scope)), Placed(j, q), q.earlier, q.live);
  }

  /** A record of these runs: a run or one of its steps. */
  ghost predicate InRuns(runs: seq<Run>, x: Text) { exists r :: r in runs && x in BlockIds(r) }

  lemma BlocksAreRuns(runs: seq<Run>, order: seq<Text>, x: Text)
    requires forall y :: y in order <==> y in RunIds(runs)
    ensures InBlocks(runs, order, x) <==> InRuns(runs, x)
  {
    hide BlockIds;
    if r :| r in runs && x in BlockIds(r) {
      var k :| 0 <= k < |runs| && runs[k] == r;
      assert RunIds(runs)[k] == r.id;
      assert r.id in order;
    }
  }

  lemma RunsArePrior(runs: seq<Run>, prior: seq<Text>, x: Text)
    requires Tidy(runs, prior) && InRuns(runs, x)
    ensures x in prior
  {
    var r :| r in runs && x in BlockIds(r);
    assert TidyRun(r, prior);
    hide StepIds, Filter;
  }

  /** The conversation's records, each once: all its runs and all their steps, nothing else. */
  lemma FlatHolds(j: Journal, q: Reading)
    requires Valid(j)
    ensures Distinct(FlatOf(j, q))
    ensures forall x :: x in FlatOf(j, q) <==> InRuns(Existing(j, q.scope), x)
    ensures forall x :: x in FlatOf(j, q) ==> x in Prior(j)
  {
    hide Valid, Existing, RunOrdering, Flattened, Prior, InRuns, InBlocks, Tidy, Distinct;
    var runs, order := Existing(j, q.scope), RunOrdering(j, q);
    ExistingIsTidy(j, q.scope);
    OrderingHolds(j, q);
    FlattenedHolds(runs, order, q, Prior(j));
    forall x
      ensures x in FlatOf(j, q) <==> InRuns(runs, x)
      ensures InRuns(runs, x) ==> x in Prior(j)
    {
      BlocksAreRuns(runs, order, x);
      if InRuns(runs, x) { RunsArePrior(runs, Prior(j), x); }
    }
  }

  lemma FlatIsThere(j: Journal, q: Reading)
    requires Valid(j) && Source(j, q) != []
    ensures FlatOf(j, q) != []
  {
    var runs := Existing(j, q.scope);
    FlatHolds(j, q);
    hide Valid, Existing, FlatOf, StepIdSet;
    assert Source(j, q)[0] in Source(j, q);
    var k :| 0 <= k < |runs| && RunIds(runs)[k] == Source(j, q)[0];
    assert runs[k] in runs && runs[k].id in BlockIds(runs[k]);
    assert runs[k].id in FlatOf(j, q);
  }

  lemma PriorHolds(j: Journal)
    requires Valid(j)
    ensures Distinct(Prior(j)) && forall x :: x in Prior(j) <==> x in MarkIds(Marks(j))
  {
    var at := ValidKeys(j);
    SortedMarks(Marks(j), at);
    hide Marks;
  }

  /**
   * The new sequence holds every record once; outside the conversation it is the old one; inside, it is what the
   * history says; and splicing again changes nothing.
   */
  lemma ResultHolds(j: Journal, q: Reading)
    requires Valid(j) && Source(j, q) != []
    ensures var r, flat := NewOrder(j, q), FlatOf(j, q);
            && Distinct(r) && (forall x :: x in r <==> x in Prior(j))
            && Without(r, Elements(flat)) == Without(Prior(j), Elements(flat))
            && (forall keep: set<Text> | keep <= Elements(flat) :: Filter(r, keep) == Filter(flat, keep))
            && Splice(r, Elements(flat), flat) == r
  {
    PriorHolds(j);
    FlatHolds(j, q);
    FlatIsThere(j, q);
    hide Valid, Prior, FlatOf, Source, Splice, Filter, Without;
    SpliceKeepsAll(Prior(j), FlatOf(j, q));
  }

  // ----- renumbering -----

  lemma DistinctCounts(s: seq<Text>)
    ensures Distinct(s) <==> forall x :: multiset(s)[x] <= 1
  {
    if Distinct(s) {
      forall x ensures multiset(s)[x] <= 1 { CountsOnce(s, x); }
    } else {
      var i, k :| 0 <= i < k < |s| && s[i] == s[k];
      assert s == s[..k] + s[k..] && s[..k][i] == s[i] && s[k..][0] == s[k];
      assert multiset(s) == multiset(s[..k]) + multiset(s[k..]);
      assert s[i] in multiset(s[..k]) && s[i] in multiset(s[k..]);
      assert multiset(s)[s[i]] >= 2;
    }
  }

  lemma {:induction false} CountsOnce(s: seq<Text>, x: Text)
    requires Distinct(s)
    ensures multiset(s)[x] <= 1
  {
    if s != [] {
      var last := |s| - 1;
      assert s == s[..last] + [s[last]];
      CountsOnce(s[..last], x);
      if x == s[last] { assert x !in s[..last]; }
    }
  }

  lemma {:induction false} InsertedIds(s: seq<Run>, x: Run)
    ensures multiset(MarkIds(RunMarks(Insert(s, x, RunOrder))))
              == multiset(MarkIds(RunMarks(s))) + multiset(MarkIds(MarksOf(x)))
  {
    hide RunMarks, MarksOf;
    if s != [] && RunOrder(s[|s| - 1]) > RunOrder(x) {
      var less, last := s[..|s| - 1], s[|s| - 1];
      InsertedIds(less, x);
      RunMarksNext(Insert(less, x, RunOrder), last);
      RunMarksNext(less, last);
      assert less + [last] == s;
    } else {
      RunMarksNext(s, x);
      assert [] + [x] == [x];
    }
  }

  lemma RunMarksNext(s: seq<Run>, x: Run)
    ensures MarkIds(RunMarks(s + [x])) == MarkIds(RunMarks(s)) + MarkIds(MarksOf(x))
  {
    assert (s + [x])[..|s|] == s;
    IdsJoin(RunMarks(s), MarksOf(x));
  }

  /** Sorting runs keeps every ID as often as it was there. */
  lemma {:induction false} SortedRunIds(s: seq<Run>)
    ensures multiset(MarkIds(RunMarks(SortBy(s, RunOrder)))) == multiset(MarkIds(RunMarks(s)))
  {
    hide RunMarks, MarksOf, Insert;
    if s != [] {
      var less, last := s[..|s| - 1], s[|s| - 1];
      SortedRunIds(less);
      InsertedIds(SortBy(less, RunOrder), last);
      RunMarksNext(less, last);
      assert less + [last] == s;
    }
  }

  lemma {:induction false} RenumberedIds(runs: seq<Run>, result: seq<Text>)
    ensures MarkIds(RunMarks(RenumberedRuns(runs, result))) == MarkIds(RunMarks(runs))
  {
    if runs != [] {
      var last := |runs| - 1;
      RenumberedIds(runs[..last], result);
      assert RenumberedRuns(runs, result) == RenumberedRuns(runs[..last], result) + [Renumbered(runs[last], result)];
      RunMarksNext(RenumberedRuns(runs[..last], result), Renumbered(runs[last], result));
      RunMarksNext(runs[..last], runs[last]);
      assert runs == runs[..last] + [runs[last]];
      assert MarkIds(MarksOf(Renumbered(runs[last], result))) == MarkIds(MarksOf(runs[last]));
    }
  }

  lemma ReorderedIds(j: Journal, result: seq<Text>)
    ensures multiset(MarkIds(Marks(Reordered(j, result)))) == multiset(MarkIds(Marks(j)))
  {
    var t := Reordered(j, result);
    RenumberedIds(j.runs, result);
    SortedRunIds(RenumberedRuns(j.runs, result));
    assert MarkIds(ReviewMarks(t.reviews)) == MarkIds(ReviewMarks(j.reviews));
    hide RunMarks, SortBy;
    IdsJoin(ReviewMarks(t.reviews), RunMarks(t.runs));
    IdsJoin(ReviewMarks(j.reviews), RunMarks(j.runs));
  }

  /** Every record's order is its place in the new sequence. */
  ghost predicate Numbered(marks: seq<Mark>, result: seq<Text>) {
    forall k :: 0 <= k < |marks| ==> marks[k].id in result && marks[k].order == Position(result, marks[k].id)
  }

  lemma {:induction false} RunsNumbered(runs: seq<Run>, result: seq<Text>)
    requires forall i :: 0 <= i < |runs| ==> Numbered(MarksOf(runs[i]), result)
    ensures Numbered(RunMarks(runs), result)
  {
    if runs != [] {
      RunsNumbered(runs[..|runs| - 1], result);
    }
  }

  lemma RunIsNumbered(run: Run, result: seq<Text>)
    requires run.id in result && forall x :: x in StepIdSet(run) ==> x in result
    ensures Numbered(MarksOf(Renumbered(run, result)), result)
  {
    var marks := MarksOf(Renumbered(run, result));
    forall k | 0 <= k < |marks|
      ensures marks[k].id in result && marks[k].order == Position(result, marks[k].id)
    {
      if k > 0 {
        assert MarkIds(StepMarks(run))[k - 1] in StepIdSet(run);
      }
    }
  }

  lemma ReorderedNumbers(j: Journal, result: seq<Text>)
    requires forall x :: x in MarkIds(Marks(j)) ==> x in result
    ensures Numbered(Marks(Reordered(j, result)), result)
  {
    var t, runs := Reordered(j, result), RenumberedRuns(j.runs, result);
    IdsJoin(ReviewMarks(j.reviews), RunMarks(j.runs));
    assert forall x :: x in AllIds(j.runs) ==> x in result;
    assert Numbered(ReviewMarks(t.reviews), result) by {
      assert forall i :: 0 <= i < |j.reviews| ==> MarkIds(ReviewMarks(j.reviews))[i] in MarkIds(Marks(j));
    }
    hide SortBy, RunMarks, Numbered, MarksOf;
    forall i | 0 <= i < |t.runs|
      ensures Numbered(MarksOf(t.runs[i]), result)
    {
      SortHolds(runs, RunOrder, t.runs[i]);
      var k :| 0 <= k < |runs| && runs[k] == t.runs[i];
      RunsHold(j.runs, j.runs[k].id);
      forall x | x in StepIdSet(j.runs[k]) ensures x in result { RunsHold(j.runs, x); }
      RunIsNumbered(j.runs[k], result);
    }
    RunsNumbered(t.runs, result);
    NumberedJoins(ReviewMarks(t.reviews), RunMarks(t.runs), result);
  }

  lemma NumberedJoins(a: seq<Mark>, b: seq<Mark>, result: seq<Text>)
    requires Numbered(a, result) && Numbered(b, result)
    ensures Numbered(a + b, result)
  {
  }

  lemma PositionIs(s: seq<Text>, k: nat)
    requires Distinct(s) && k < |s|
    ensures Position(s, s[k]) == k
  {
  }

  /**
   * Reindexing gives a valid journal: its orders are exactly the positions of the new sequence, so they run from 0 to
   * one less than the next order with no gap, each held by one record.
   */
  lemma ReorderedIsValid(j: Journal, result: seq<Text>)
    requires Distinct(MarkIds(Marks(j))) && Distinct(result) && forall x :: x in MarkIds(Marks(j)) <==> x in result
    ensures var t := Reordered(j, result);
            && Valid(t) && t.nextOrder == |result| && Prior(t) == result
            && Distinct(MarkIds(Marks(t))) && (forall x :: x in MarkIds(Marks(t)) <==> x in result)
  {
    var t := Reordered(j, result);
    var marks := Marks(t);
    ReorderedIds(j, result);
    ReorderedNumbers(j, result);
    DistinctCounts(MarkIds(Marks(j)));
    DistinctCounts(MarkIds(marks));
    forall x
      ensures x in MarkIds(marks) <==> x in result
    {
      assert x in MarkIds(marks) <==> x in multiset(MarkIds(marks));
      assert x in MarkIds(Marks(j)) <==> x in multiset(MarkIds(Marks(j)));
    }
    hide Marks, Reordered;
    NumberedIsValid(t, result);
  }

  lemma NumberedIsValid(t: Journal, result: seq<Text>)
    requires Distinct(MarkIds(Marks(t))) && Numbered(Marks(t), result) && Distinct(result) && t.nextOrder == |result|
    requires forall x :: x in MarkIds(Marks(t)) <==> x in result
    ensures Valid(t) && Prior(t) == result
  {
    var marks := Marks(t);
    hide Marks;
    forall a, b | 0 <= a < b < |marks|
      ensures marks[a].order != marks[b].order
    {
      assert MarkIds(marks)[a] != MarkIds(marks)[b];
      assert result[marks[a].order] == marks[a].id;
    }
    assert Valid(t);
    var at := ValidKeys(t);
    SortedMarks(marks, at);
    forall i, k | 0 <= i < k < |result|
      ensures at(result[i]) < at(result[k])
    {
      KeyIsPosition(marks, result, at, i);
      KeyIsPosition(marks, result, at, k);
    }
    AscendingIsUnique(Prior(t), result, at);
  }

  lemma KeyIsPosition(marks: seq<Mark>, result: seq<Text>, at: Text -> int, i: nat)
    requires Keys(marks, at) && Numbered(marks, result) && Distinct(result) && i < |result|
             && result[i] in MarkIds(marks)
    ensures at(result[i]) == i
  {
    var k :| 0 <= k < |marks| && MarkIds(marks)[k] == result[i];
    PositionIs(result, i);
  }

  // ----- what a merge does -----

  /** On a valid journal the merge is never refused. */
  lemma MergeIsReordering(j: Journal, q: Reading)
    requires Valid(j) && Source(j, q) != []
    ensures Merged(j, q) == Reordered(j, NewOrder(j, q))
    ensures Distinct(MarkIds(Marks(j))) && Distinct(NewOrder(j, q))
            && forall x :: x in MarkIds(Marks(j)) <==> x in NewOrder(j, q)
  {
    ResultHolds(j, q);
    PriorHolds(j);
    hide Marks, NewOrder, Source, Prior, FlatOf;
  }

  /**
   * A merge keeps the journal valid. When it reindexes, the orders are exactly 0 to n - 1, one for each record, and the
   * next order is n.
   */
  lemma MergeKeepsTheRule(j: Journal, q: Reading)
    requires Valid(j)
    ensures Valid(Merged(j, q))
    ensures Source(j, q) != [] ==>
              var t := Merged(j, q);
              && t.nextOrder == |Prior(j)| && Prior(t) == NewOrder(j, q)
              && (forall x :: x in MarkIds(Marks(t)) <==> x in MarkIds(Marks(j)))
              && Numbered(Marks(t), Prior(t))
  {
    if Source(j, q) != [] {
      MergeIsReordering(j, q);
      ReorderedIsValid(j, NewOrder(j, q));
      ReorderedNumbers(j, NewOrder(j, q));
      ResultHolds(j, q);
      hide Marks, NewOrder, Source, Prior, FlatOf, Valid, Reordered, Numbered;
      SameLength(NewOrder(j, q), Prior(j)) by { PriorHolds(j); }
      assert Merged(j, q).nextOrder == |NewOrder(j, q)|;
    }
  }

  lemma {:induction false} SameLength(a: seq<Text>, b: seq<Text>)
    requires Distinct(a) && Distinct(b) && forall x :: x in a <==> x in b
    ensures |a| == |b|
  {
    DistinctSize(a);
    DistinctSize(b);
    assert Elements(a) == Elements(b);
  }

  lemma {:induction false} DistinctSize(s: seq<Text>)
    requires Distinct(s)
    ensures |Elements(s)| == |s|
  {
    if s != [] {
      var last := |s| - 1;
      DistinctSize(s[..last]);
      assert Elements(s) == Elements(s[..last]) + {s[last]};
    }
  }

  /** Records outside the conversation keep their order among themselves. */
  lemma OthersKeepTheirOrder(j: Journal, q: Reading)
    requires Valid(j)
    ensures Without(Prior(Merged(j, q)), Elements(FlatOf(j, q))) == Without(Prior(j), Elements(FlatOf(j, q)))
  {
    if Source(j, q) != [] {
      MergeKeepsTheRule(j, q);
      ResultHolds(j, q);
    }
  }

  /** The history's runs stand in the history's order. */
  lemma HistoryOrderWins(j: Journal, q: Reading)
    requires Valid(j) && Source(j, q) != []
    ensures Filter(Prior(Merged(j, q)), Elements(Placed(j, q))) == Placed(j, q)
  {
    var runs := Existing(j, q.scope);
    MergeKeepsTheRule(j, q);
    ResultHolds(j, q);
    FlatHolds(j, q);
    RunsStand(j, q);
    PlacedIsKnown(j, q);
    PlacedStands(RunIds(runs), Placed(j, q), q.earlier, q.live);
    hide Merged, Prior, NewOrder, Source, Placed, FlatOf, Existing, Arranged, Filter, Valid;
    var ids, placed := Elements(RunIds(runs)), Elements(Placed(j, q));
    assert Filter(NewOrder(j, q), ids) == RunOrdering(j, q);
    FilterWithin(NewOrder(j, q), ids, placed);
  }

  lemma {:induction false} FilterWithin(s: seq<Text>, a: set<Text>, b: set<Text>)
    requires b <= a
    ensures Filter(Filter(s, a), b) == Filter(s, b)
  {
    if s != [] {
      FilterWithin(s[1..], a, b);
      if s[0] in a {
        assert Filter(s, a) == [s[0]] + Filter(s[1..], a);
        FilterCons(s[0], Filter(s[1..], a), b);
      } else {
        assert Filter(s, a) == Filter(s[1..], a) && Filter(s, b) == Filter(s[1..], b);
      }
    }
  }

  lemma PlacedStands(s: seq<Text>, source: seq<Text>, earlier: bool, live: set<Text>)
    ensures Filter(Arranged(s, source, earlier, live), Elements(source)) == source
  {
    var drop := Elements(source);
    var rest := Without(s, drop);
    hide Filter, Without;
    FilterAll(source, drop);
    if earlier {
      FilterJoins(source, rest, drop);
      FilterAll(rest, drop);
    } else {
      var settled, alive := Without(rest, live), Filter(rest, live);
      FilterJoins(settled, source, drop);
      FilterJoins(settled + source, alive, drop);
      FilterAll(settled, drop);
      FilterAll(alive, drop);
    }
  }

  /** In the new sequence the conversation's runs stand as arranged. */
  lemma RunsStand(j: Journal, q: Reading)
    requires Valid(j) && Source(j, q) != []
    ensures Filter(NewOrder(j, q), Elements(RunIds(Existing(j, q.scope)))) == RunOrdering(j, q)
  {
    var runs, ids := Existing(j, q.scope), Elements(RunIds(Existing(j, q.scope)));
    ExistingIsTidy(j, q.scope);
    OrderingHolds(j, q);
    ResultHolds(j, q);
    FlatHolds(j, q);
    RunsAreInFlat(j, q);
    hide Valid, Existing, RunOrdering, Flattened, Prior, NewOrder, Filter, Tidy, Source;
    FlattenedRuns(runs, RunOrdering(j, q), q, Prior(j));
    assert ids <= Elements(FlatOf(j, q));
  }

  lemma RunsAreInFlat(j: Journal, q: Reading)
    requires Valid(j)
    ensures forall x :: x in RunIds(Existing(j, q.scope)) ==> x in FlatOf(j, q)
    ensures forall r :: r in Existing(j, q.scope) ==> StepIdSet(r) <= Elements(FlatOf(j, q))
  {
    FlatHolds(j, q);
    hide Valid, Existing, FlatOf, StepIdSet;
    var runs := Existing(j, q.scope);
    forall x | x in RunIds(runs)
      ensures x in FlatOf(j, q)
    {
      var k :| 0 <= k < |runs| && RunIds(runs)[k] == x;
      assert runs[k] in runs && x in BlockIds(runs[k]);
    }
    forall r, x | r in runs && x in StepIdSet(r)
      ensures x in FlatOf(j, q)
    {
      assert x in BlockIds(r);
    }
  }

  /** In the new sequence each run's steps stand as arranged. */
  lemma StepsStand(j: Journal, q: Reading, run: Run)
    requires Valid(j) && Source(j, q) != [] && run in Existing(j, q.scope)
    ensures Filter(NewOrder(j, q), StepIdSet(run)) == StepOrdering(run, q)
  {
    var runs := Existing(j, q.scope);
    ExistingIsTidy(j, q.scope);
    OrderingHolds(j, q);
    ResultHolds(j, q);
    RunsAreInFlat(j, q);
    hide Valid, Existing, RunOrdering, Flattened, Prior, NewOrder, Filter, Tidy, Source, StepOrdering;
    FlattenedSteps(runs, RunOrdering(j, q), q, Prior(j), run);
    var k :| 0 <= k < |runs| && runs[k] == run;
    assert RunIds(runs)[k] == run.id;
  }

  // ----- nothing is lost -----

  /** A run without its orders. */
  function Plain(run: Run): Run {
    run.(order := 0, steps := seq(|run.steps|, i requires 0 <= i < |run.steps| => run.steps[i].(order := 0)))
  }

  function PlainRuns(runs: seq<Run>): (r: seq<Run>)
    ensures |r| == |runs| && forall i :: 0 <= i < |r| ==> r[i] == Plain(runs[i])
  {
    seq(|runs|, i requires 0 <= i < |runs| => Plain(runs[i]))
  }

  function PlainReviews(reviews: seq<Review>): (r: seq<Review>)
    ensures |r| == |reviews| && forall i :: 0 <= i < |r| ==> r[i] == reviews[i].(order := 0)
  {
    seq(|reviews|, i requires 0 <= i < |reviews| => reviews[i].(order := 0))
  }

  lemma PlainNext(runs: seq<Run>, run: Run)
    ensures PlainRuns(runs + [run]) == PlainRuns(runs) + [Plain(run)]
  {
    hide Plain;
  }

  lemma {:induction false} PlainInsert(s: seq<Run>, x: Run)
    ensures multiset(PlainRuns(Insert(s, x, RunOrder))) == multiset(PlainRuns(s)) + multiset{Plain(x)}
  {
    hide Plain, PlainRuns;
    if s != [] && RunOrder(s[|s| - 1]) > RunOrder(x) {
      var less, last := s[..|s| - 1], s[|s| - 1];
      PlainInsert(less, x);
      PlainNext(Insert(less, x, RunOrder), last);
      PlainNext(less, last);
      assert less + [last] == s;
    } else {
      PlainNext(s, x);
      assert [] + [x] == [x];
    }
  }

  lemma {:induction false} PlainSort(s: seq<Run>)
    ensures multiset(PlainRuns(SortBy(s, RunOrder))) == multiset(PlainRuns(s))
  {
    hide Plain, PlainRuns, Insert;
    if s != [] {
      var less, last := s[..|s| - 1], s[|s| - 1];
      PlainSort(less);
      PlainInsert(SortBy(less, RunOrder), last);
      PlainNext(less, last);
      assert less + [last] == s;
    }
  }

  lemma RenumberingIsPlain(runs: seq<Run>, result: seq<Text>)
    ensures PlainRuns(RenumberedRuns(runs, result)) == PlainRuns(runs)
  {
    hide Number;
    forall i | 0 <= i < |runs|
      ensures Plain(Renumbered(runs[i], result)) == Plain(runs[i])
    {
    }
  }

  /** A merge changes nothing of a record but its order, and neither adds nor drops one. */
  lemma MergeOnlyReorders(j: Journal, q: Reading)
    ensures multiset(PlainRuns(Merged(j, q).runs)) == multiset(PlainRuns(j.runs))
    ensures PlainReviews(Merged(j, q).reviews) == PlainReviews(j.reviews)
  {
    hide NewOrder, Source, SortBy, Number, PlainRuns, Plain, RenumberedRuns;
    var result := NewOrder(j, q);
    RenumberingIsPlain(j.runs, result);
    PlainSort(RenumberedRuns(j.runs, result));
  }

  // ----- merging twice -----

  /** The conversation's runs after the merge are those before it, renumbered. */
  lemma ExistingAfter(j: Journal, q: Reading, r: Run)
    requires Valid(j) && Source(j, q) != [] && r in Existing(j, q.scope)
    ensures Renumbered(r, NewOrder(j, q)) in Existing(Merged(j, q), q.scope)
  {
    MergeIsReordering(j, q);
    var result := NewOrder(j, q);
    var runs := RenumberedRuns(j.runs, result);
    ExistingHolds(j, q.scope);
    ExistingHolds(Merged(j, q), q.scope);
    hide Existing, SortBy, NewOrder, Source, Merged, Valid, Number, Marks;
    var k :| 0 <= k < |j.runs| && j.runs[k] == r;
    SortHolds(runs, RunOrder, runs[k]);
  }

  lemma ExistingBefore(j: Journal, q: Reading, t: Run) returns (r: Run)
    requires Valid(j) && Source(j, q) != [] && t in Existing(Merged(j, q), q.scope)
    ensures r in Existing(j, q.scope) && t == Renumbered(r, NewOrder(j, q))
  {
    MergeIsReordering(j, q);
    hide Existing, SortBy, NewOrder, Source, Merged, Valid, Number, Marks, InScope, Distinct;
    ExistingHolds(Merged(j, q), q.scope);
    ExistingHolds(j, q.scope);
    var k := ReorderedRun(j, NewOrder(j, q), t);
    r := j.runs[k];
  }

  lemma ReorderedRun(j: Journal, result: seq<Text>, t: Run) returns (k: nat)
    requires t in Reordered(j, result).runs
    ensures k < |j.runs| && t == Renumbered(j.runs[k], result)
  {
    var runs := RenumberedRuns(j.runs, result);
    hide SortBy, Number;
    SortHolds(runs, RunOrder, t);
    k :| 0 <= k < |runs| && runs[k] == t;
  }

  lemma RenumberedSteps(r: Run, result: seq<Text>)
    ensures MarkIds(StepMarks(Renumbered(r, result))) == MarkIds(StepMarks(r))
            && StepIdSet(Renumbered(r, result)) == StepIdSet(r)
    ensures Renumbered(r, result).id == r.id
  {
    hide Number;
  }

  lemma RunIdsAfter(j: Journal, q: Reading)
    requires Valid(j) && Source(j, q) != []
    ensures Elements(RunIds(Existing(Merged(j, q), q.scope))) == Elements(RunIds(Existing(j, q.scope)))
  {
    var before, after := Existing(j, q.scope), Existing(Merged(j, q), q.scope);
    hide Existing, NewOrder, Source, Merged, Valid, Number;
    forall x | x in RunIds(before)
      ensures x in RunIds(after)
    {
      var k :| 0 <= k < |before| && RunIds(before)[k] == x;
      ExistingAfter(j, q, before[k]);
      var n :| 0 <= n < |after| && after[n] == Renumbered(before[k], NewOrder(j, q));
      assert RunIds(after)[n] == x;
    }
    forall x | x in RunIds(after)
      ensures x in RunIds(before)
    {
      var k :| 0 <= k < |after| && RunIds(after)[k] == x;
      var r := ExistingBefore(j, q, after[k]);
      var n :| 0 <= n < |before| && before[n] == r;
      assert RunIds(before)[n] == x;
    }
  }

  /** The second time, the conversation's runs are found as the first merge arranged them. */
  lemma RunOrderingAgain(j: Journal, q: Reading)
    requires Valid(j) && Source(j, q) != []
    ensures Valid(Merged(j, q)) && Source(Merged(j, q), q) == Source(j, q)
    ensures RunOrdering(Merged(j, q), q) == RunOrdering(j, q)
  {
    var t := Merged(j, q);
    MergeKeepsTheRule(j, q);
    RunIdsAfter(j, q);
    ExistingIsTidy(t, q.scope);
    RunsStand(j, q);
    hide Valid, Existing, NewOrder, Merged, Filter, Prior, TidyRun, TidyPair, Marks, Numbered;
    assert RunIds(Existing(t, q.scope)) == RunOrdering(j, q);
    ArrangedTwice(RunIds(Existing(j, q.scope)), Placed(j, q), q.earlier, q.live);
    hide Arranged;
  }

  /** So are each run's steps. */
  lemma StepOrderingAgain(j: Journal, q: Reading, r: Run)
    requires Valid(j) && Source(j, q) != [] && r in Existing(j, q.scope)
    ensures StepOrdering(Renumbered(r, NewOrder(j, q)), q) == StepOrdering(r, q)
  {
    hide Valid, Existing, NewOrder, Merged, Filter, Prior, Source, Marks, Renumbered, StepIdSet, Numbered, Arranged;
    hide StepIds;
    var t, after := Merged(j, q), Renumbered(r, NewOrder(j, q));
    MergeKeepsTheRule(j, q);
    ExistingAfter(j, q, r);
    ExistingIsTidy(t, q.scope);
    assert TidyRun(after, Prior(t));
    RenumberedSteps(r, NewOrder(j, q));
    StepsStand(j, q, r);
    assert StepIds(after) == StepOrdering(r, q);
    StepOrderingSettles(r, after, q);
  }

  lemma StepOrderingSettles(r: Run, after: Run, q: Reading)
    requires after.id == r.id && MarkIds(StepMarks(after)) == MarkIds(StepMarks(r))
             && StepIds(after) == StepOrdering(r, q)
    ensures StepOrdering(after, q) == StepOrdering(r, q)
  {
    hide Filter, Arranged, SortBy;
    SortedHolds(StepMarks(r));
    SortedHolds(StepMarks(after));
    assert Elements(StepIds(after)) == Elements(StepIds(r));
    ArrangedTwice(StepIds(r), Known(if r.id in q.steps then q.steps[r.id] else [], StepIds(r)), q.earlier, q.live);
  }

  lemma BlockAgain(j: Journal, q: Reading, id: Text)
    requires Valid(j) && Source(j, q) != [] && id in RunIds(Existing(j, q.scope))
    ensures Block(Existing(Merged(j, q), q.scope), id, q) == Block(Existing(j, q.scope), id, q)
  {
    var t, runs := Merged(j, q), Existing(j, q.scope);
    MergeKeepsTheRule(j, q);
    ExistingIsTidy(j, q.scope);
    ExistingIsTidy(t, q.scope);
    var r := BlockHolds(runs, id, q, Prior(j));
    ExistingAfter(j, q, r);
    RenumberedSteps(r, NewOrder(j, q));
    StepOrderingAgain(j, q, r);
    RunNamedIs(Existing(t, q.scope), Renumbered(r, NewOrder(j, q)), Prior(t));
    hide Valid, Existing, NewOrder, Merged, Prior, Tidy, Source, Marks, Renumbered, StepOrdering, Numbered;
  }

  lemma {:induction false} FlattenedAgain(a: seq<Run>, b: seq<Run>, order: seq<Text>, q: Reading)
    requires forall id :: id in order ==> Block(a, id, q) == Block(b, id, q)
    ensures Flattened(a, order, q) == Flattened(b, order, q)
  {
    if order != [] {
      hide Block;
      FlattenedAgain(a, b, order[..|order| - 1], q);
    }
  }

  lemma FlatAgain(j: Journal, q: Reading)
    requires Valid(j) && Source(j, q) != []
    ensures FlatOf(Merged(j, q), q) == FlatOf(j, q)
  {
    RunOrderingAgain(j, q);
    OrderingHolds(j, q);
    hide Valid, Existing, NewOrder, Merged, Prior, Source, Block, RunOrdering;
    forall id | id in RunOrdering(j, q)
      ensures Block(Existing(Merged(j, q), q.scope), id, q) == Block(Existing(j, q.scope), id, q)
    {
      BlockAgain(j, q, id);
    }
    FlattenedAgain(Existing(Merged(j, q), q.scope), Existing(j, q.scope), RunOrdering(j, q), q);
  }

  lemma RenumberedTwice(run: Run, result: seq<Text>)
    ensures Renumbered(Renumbered(run, result), result) == Renumbered(run, result)
  {
    NumberedTwice(run.id, run.order, result);
    forall i | 0 <= i < |run.steps|
      ensures Number(result, run.steps[i].id, Number(result, run.steps[i].id, run.steps[i].order))
                == Number(result, run.steps[i].id, run.steps[i].order)
    {
      NumberedTwice(run.steps[i].id, run.steps[i].order, result);
    }
    hide Number;
  }

  lemma NumberedTwice(id: Text, order: int, result: seq<Text>)
    ensures Number(result, id, Number(result, id, order)) == Number(result, id, order)
  {
  }

  lemma RenumberedRunsTwice(j: Journal, result: seq<Text>)
    ensures RenumberedRuns(Reordered(j, result).runs, result) == Reordered(j, result).runs
  {
    var t, runs := Reordered(j, result), RenumberedRuns(j.runs, result);
    hide SortBy, Renumbered;
    forall i | 0 <= i < |t.runs|
      ensures Renumbered(t.runs[i], result) == t.runs[i]
    {
      SortHolds(runs, RunOrder, t.runs[i]);
      var k :| 0 <= k < |runs| && runs[k] == t.runs[i];
      RenumberedTwice(j.runs[k], result);
    }
  }

  /** Renumbering by the sequence a journal already has changes nothing. */
  lemma ReorderedTwice(j: Journal, result: seq<Text>)
    ensures Reordered(Reordered(j, result), result) == Reordered(j, result)
  {
    var t := Reordered(j, result);
    RenumberedRunsTwice(j, result);
    SortOrders(RenumberedRuns(j.runs, result), RunOrder);
    SortedStays(t.runs, RunOrder);
    forall i | 0 <= i < |j.reviews|
      ensures t.reviews[i].(order := Number(result, t.reviews[i].id, t.reviews[i].order)) == t.reviews[i]
    {
      NumberedTwice(j.reviews[i].id, j.reviews[i].order, result);
    }
    hide SortBy, RenumberedRuns, Number;
    assert RenumberedReviews(t.reviews, result) == t.reviews;
  }

  /** A second identical merge changes nothing. */
  lemma MergeIsIdempotent(j: Journal, q: Reading)
    requires Valid(j)
    ensures Merged(Merged(j, q), q) == Merged(j, q)
  {
    if Source(j, q) != [] {
      MergeIsReordering(j, q);
      MergeKeepsTheRule(j, q);
      RunOrderingAgain(j, q);
      FlatAgain(j, q);
      ResultHolds(j, q);
      ReorderedTwice(j, NewOrder(j, q));
      hide Valid, Prior, Source, FlatOf, Reordered, Splice, Marks, Numbered;
      assert NewOrder(Merged(j, q), q) == NewOrder(j, q);
    }
  }
}
