/** The journal document, rewritten in place by a merge. */
module WorkJournal {
  import opened Wrappers
  import opened HistoryTypes
  import opened WorkSequences
  import opened StableSort
  import opened WorkOrder
  import Places = WorkPlaces

  class JournalDocument {
    var nextOrder: int
    var runs: seq<Run>
    var reviews: seq<Review>

    ghost function View(): Journal
      reads this
    {
      Journal(nextOrder, runs, reviews)
    }

    constructor (document: Journal)
      ensures View() == document
    {
      nextOrder, runs, reviews := document.nextOrder, document.runs, document.reviews;
    }

    /** Each run of the new order, followed by its steps. */
    static method Flatten(existing: seq<Run>, order: seq<Text>, q: Reading) returns (flattened: seq<Text>)
      ensures flattened == Flattened(existing, order, q)
    {
      hide Block;
      flattened := [];
      for k := 0 to |order|
        invariant flattened == Flattened(existing, order[..k], q)
      {
        assert order[..k + 1][..k] == order[..k];
        flattened := flattened + Block(existing, order[k], q);
      }
      assert order[..|order|] == order;
    }

    /** The old sequence with the block in place of its first record. */
    static method SpliceBlock(prior: seq<Text>, flattened: seq<Text>) returns (result: seq<Text>)
      ensures result == Splice(prior, Elements(flattened), flattened)
    {
      hide Splice, Without;
      var block, inserted := Elements(flattened), false;
      result := [];
      assert prior[0..] == prior;
      for k := 0 to |prior|
        invariant Splice(prior, block, flattened)
                    == result + if inserted then Without(prior[k..], block) else Splice(prior[k..], block, flattened)
      {
        SpliceNext(prior, k, block, flattened);
        if prior[k] in block {
          if !inserted { result, inserted := result + flattened, true; }
        } else {
          result := result + [prior[k]];
        }
      }
      SpliceEnds(block, flattened);
      assert prior[|prior|..] == [];
    }

    static lemma SpliceNext(prior: seq<Text>, k: nat, block: set<Text>, flat: seq<Text>)
      requires k < |prior|
      ensures Without(prior[k..], block)
                == (if prior[k] in block then [] else [prior[k]]) + Without(prior[k + 1..], block)
      ensures Splice(prior[k..], block, flat)
           == if prior[k] in block then flat + Without(prior[k + 1..], block)
              else [prior[k]] + Splice(prior[k + 1..], block, flat)
    {
      assert prior[k..][0] == prior[k] && prior[k..][1..] == prior[k + 1..];
    }

    static lemma SpliceEnds(block: set<Text>, flat: seq<Text>)
      ensures Without([], block) == [] && Splice([], block, flat) == []
    {
    }

    static method Distinguish(ids: seq<Text>) returns (distinct: bool)
      ensures distinct <==> Distinct(ids)
    {
      var seen: set<Text> := {};
      for k := 0 to |ids|
        invariant seen == Elements(ids[..k]) && Distinct(ids[..k])
      {
        if ids[k] in seen {
          var i :| 0 <= i < k && ids[..k][i] == ids[k];
          return false;
        }
        seen := seen + {ids[k]};
      }
      assert ids[..|ids|] == ids;
      return true;
    }

    /** Rewrite every order in place, then sort the runs. */
    method Reindex(result: seq<Text>)
      modifies this
      ensures View() == Reordered(old(View()), result)
    {
      hide Number;
      for k := 0 to |runs|
        invariant |runs| == |old(runs)| && nextOrder == old(nextOrder) && reviews == old(reviews)
        invariant forall i :: 0 <= i < |runs| ==>
                    runs[i] == if i < k then Renumbered(old(runs)[i], result) else old(runs)[i]
      {
        var run := RenumberRun(runs[k], result);
        runs := runs[k := run];
      }
      for k := 0 to |reviews|
        invariant |reviews| == |old(reviews)| && nextOrder == old(nextOrder)
                  && runs == RenumberedRuns(old(runs), result)
        invariant forall i :: 0 <= i < |reviews| ==>
                    reviews[i]
                      == if i < k
                         then old(reviews)[i].(order := Number(result, old(reviews)[i].id, old(reviews)[i].order))
                         else old(reviews)[i]
      {
        reviews := reviews[k := reviews[k].(order := Number(result, reviews[k].id, reviews[k].order))];
      }
      assert reviews == RenumberedReviews(old(reviews), result);
      nextOrder := |result|;
      runs := SortBy(runs, RunOrder);
    }

    static method RenumberRun(run: Run, result: seq<Text>) returns (renumbered: Run)
      ensures renumbered == Renumbered(run, result)
    {
      hide Number;
      var steps := run.steps;
      for k := 0 to |steps|
        invariant |steps| == |run.steps|
        invariant forall i :: 0 <= i < |steps| ==>
                    steps[i]
                      == if i < k then run.steps[i].(order := Number(result, run.steps[i].id, run.steps[i].order))
                         else run.steps[i]
      {
        steps := steps[k := steps[k].(order := Number(result, steps[k].id, steps[k].order))];
      }
      renumbered := run.(order := Number(result, run.id, run.order), steps := steps);
      assert renumbered.steps == Renumbered(run, result).steps;
    }

    static lemma MergeTold(j: Journal, q: Reading)
      ensures Valid(j) ==> Places.Told(j, q, Merged(j, q))
    {
      hide Valid, Places.Told, Merged;
      if Valid(j) { Places.MergeIsTold(j, q); }
    }

    /** Place the conversation's work where its history puts it; nothing changes unless the new sequence is sound. */
    method MergeHistory(q: Reading)
      modifies this
      ensures View() == Merged(old(View()), q)
      ensures Valid(old(View())) ==> Places.Told(old(View()), q, View())
    {
      MergeTold(View(), q);
      hide Splice, Flattened, SortBy, Arranged, Filter, Without, Known, Reordered, Distinct, Marks;
      hide Valid, Places.Told;
      var existing := SortBy(InScope(runs, q.scope), RunOrder);
      var source := Known(q.runs, RunIds(existing));
      if source == [] { return; }
      var placed := if q.earlier then Without(source, q.known) else source;
      var flattened := Flatten(existing, Arranged(RunIds(existing), placed, q.earlier, q.live), q);
      var prior := MarkIds(SortBy(Marks(Journal(nextOrder, runs, reviews)), ByOrder));
      var result := SpliceBlock(prior, flattened);
      var distinct := Distinguish(result);
      if !distinct { return; }
      Reindex(result);
    }
  }
}
