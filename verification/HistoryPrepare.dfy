/** The steps that apply a read: collect suspicion, plan, rebuild the rows, settle producer IDs, retire dropped rows. */
module HistoryPrepare {
  import opened Wrappers
  import opened HistoryTypes
  import opened HistoryMemories
  import opened HistoryApplication
  import opened HistoryMerging
  import opened HistoryRows
  import Identity = HistoryIdentity
  import Reconciliation = HistoryReconciliation

  // ----- grouping -----

  predicate Twice(values: seq<Option<Text>>, s: Text) {
    exists i, j :: 0 <= i < j < |values| && values[i] == Some(s) && values[j] == Some(s)
  }

  ghost predicate Counts(counts: map<Text, nat>, values: seq<Option<Text>>) {
    forall s ::
      (s in counts <==> Some(s) in values) && (s in counts ==> counts[s] > 0 && (counts[s] > 1 <==> Twice(values, s)))
  }

  function Counted(counts: map<Text, nat>, value: Option<Text>): map<Text, nat> {
    if value.None? then counts
    else counts[value.value := 1 + if value.value in counts then counts[value.value] else 0]
  }

  lemma CountsNext(counts: map<Text, nat>, values: seq<Option<Text>>, i: nat)
    requires i < |values| && Counts(counts, values[..i])
    ensures Counts(Counted(counts, values[i]), values[..i + 1])
  {
    hide Twice;
    var next := Counted(counts, values[i]);
    assert values[..i + 1] == values[..i] + [values[i]];
    forall s
      ensures (s in next <==> Some(s) in values[..i + 1])
              && (s in next ==> next[s] > 0 && (next[s] > 1 <==> Twice(values[..i + 1], s)))
    {
      TwiceNext(values, i, s);
      CountNext(counts, values[..i], values[i], s);
    }
  }

  lemma CountNext(counts: map<Text, nat>, values: seq<Option<Text>>, value: Option<Text>, s: Text)
    requires Counts(counts, values)
    ensures var next := Counted(counts, value);
            && (s in next <==> Some(s) in values || value == Some(s))
            && (s in next ==>
                  next[s] > 0 && (next[s] > 1 <==> Twice(values, s) || (value == Some(s) && Some(s) in values)))
  {
    hide Twice;
    assert s in counts <==> Some(s) in values;
    if s !in counts { NotTwice(values, s); }
  }

  lemma NotTwice(values: seq<Option<Text>>, s: Text)
    requires Some(s) !in values
    ensures !Twice(values, s)
  {
  }

  lemma TwiceNext(values: seq<Option<Text>>, i: nat, s: Text)
    requires i < |values|
    ensures Twice(values[..i + 1], s) <==> Twice(values[..i], s) || (values[i] == Some(s) && Some(s) in values[..i])
  {
    var less, more := values[..i], values[..i + 1];
    if Twice(less, s) {
      var a, b :| 0 <= a < b < |less| && less[a] == Some(s) && less[b] == Some(s);
      assert more[a] == Some(s) && more[b] == Some(s);
    }
    if values[i] == Some(s) && Some(s) in less {
      var a :| 0 <= a < |less| && less[a] == Some(s);
      assert more[a] == Some(s) && more[i] == Some(s);
    }
    if Twice(more, s) {
      var a, b :| 0 <= a < b < |more| && more[a] == Some(s) && more[b] == Some(s);
      assert less[a] == Some(s);
      if b < i { assert less[b] == Some(s); }
    }
  }

  /** Group the values and pick those held more than once, in whatever order the dictionary yields them. */
  method Repeated(values: seq<Option<Text>>) returns (found: seq<Text>)
    ensures forall s :: s in found <==> Twice(values, s)
  {
    hide Counts, Twice;
    var counts: map<Text, nat> := map[];
    NoCounts();
    assert values[..0] == [];
    for i := 0 to |values|
      invariant Counts(counts, values[..i])
    {
      CountsNext(counts, values, i);
      counts := Counted(counts, values[i]);
    }
    assert values[..|values|] == values;
    CountsMean(counts, values);
    found := [];
    var rest := counts.Keys;
    while rest != {}
      invariant rest <= counts.Keys
      invariant forall s :: s in found <==> s in counts && s !in rest && counts[s] > 1
      decreases rest
    {
      var s :| s in rest;
      rest := rest - {s};
      if counts[s] > 1 { found := found + [s]; }
    }
  }

  lemma NoCounts()
    ensures Counts(map[], [])
  {
  }

  lemma CountsMean(counts: map<Text, nat>, values: seq<Option<Text>>)
    requires Counts(counts, values)
    ensures forall s :: Twice(values, s) <==> s in counts && counts[s] > 1
  {
    forall s
      ensures Twice(values, s) <==> s in counts && counts[s] > 1
    {
      if s !in counts { assert Some(s) !in values; }
    }
  }

  // ----- suspicion -----

  function Provided(reports: seq<Report>): (values: seq<Option<Text>>)
    ensures |values| == |reports| && forall i :: 0 <= i < |values| ==> values[i] == reports[i].providedId
  {
    seq(|reports|, i requires 0 <= i < |reports| => reports[i].providedId)
  }

  function Named(rows: seq<Displayed>, epoch: Option<Id>): (values: seq<Option<Text>>)
    ensures |values| == |rows|
    ensures forall i :: 0 <= i < |values| ==> values[i] == if rows[i].epoch == epoch then rows[i].providedId else None
  {
    seq(|rows|, i requires 0 <= i < |rows| => if rows[i].epoch == epoch then rows[i].providedId else None)
  }

  lemma TwiceInRead(reports: seq<Report>, s: Text)
    ensures Twice(Provided(reports), s) <==> RepeatedInRead(reports, s)
  {
  }

  lemma TwiceInRows(rows: seq<Displayed>, epoch: Option<Id>, s: Text)
    ensures Twice(Named(rows, epoch), s) <==> RepeatedInRows(rows, epoch, s)
  {
    var values := Named(rows, epoch);
    if RepeatedInRows(rows, epoch, s) {
      var i, j :| 0 <= i < j < |rows| && Names(rows[i], epoch, s) && Names(rows[j], epoch, s);
      assert values[i] == Some(s) && values[j] == Some(s);
    }
    if Twice(values, s) {
      var i, j :| 0 <= i < j < |values| && values[i] == Some(s) && values[j] == Some(s);
      assert Names(rows[i], epoch, s) && Names(rows[j], epoch, s);
    }
  }

  method RememberEach(memory: Ambiguity, found: seq<Text>) returns (after: Ambiguity)
    ensures after == RememberAll(memory, found)
  {
    after := memory;
    for i := 0 to |found|
      invariant after == RememberAll(memory, found[..i])
    {
      assert found[..i + 1][..i] == found[..i];
      after := after.Remember(found[i]);
    }
    assert found[..|found|] == found;
  }

  lemma RememberNext(memory: Ambiguity, found: seq<Text>, source: Text)
    ensures RememberAll(memory, found + [source]) == RememberAll(memory, found).Remember(source)
  {
    assert (found + [source])[..|found|] == found;
  }

  method CollectStored(memory: Ambiguity, stored: seq<Displayed>, epoch: Option<Id>) returns (after: Ambiguity)
    ensures after == RememberAll(memory, AmbiguousStored(stored, epoch))
  {
    hide RememberAll;
    after := RememberEach(memory, []);
    for i := 0 to |stored|
      invariant after == RememberAll(memory, AmbiguousStored(stored[..i], epoch))
    {
      assert stored[..i + 1][..i] == stored[..i];
      var row := stored[i];
      if row.epoch == epoch && row.origin == Some(AmbiguousProvided) && row.providedId.Some? {
        RememberNext(memory, AmbiguousStored(stored[..i], epoch), row.providedId.value);
        after := after.Remember(row.providedId.value);
      } else {
        assert AmbiguousStored(stored[..i + 1], epoch) == AmbiguousStored(stored[..i], epoch);
      }
    }
    assert stored[..|stored|] == stored;
  }

  method CollectReports(memory: Ambiguity, reports: seq<Report>) returns (after: Ambiguity)
    ensures after == RememberAll(memory, AmbiguousReports(reports))
  {
    hide RememberAll;
    after := RememberEach(memory, []);
    for i := 0 to |reports|
      invariant after == RememberAll(memory, AmbiguousReports(reports[..i]))
    {
      assert reports[..i + 1][..i] == reports[..i];
      var row := reports[i];
      if row.origin == Some(AmbiguousProvided) && row.providedId.Some? {
        RememberNext(memory, AmbiguousReports(reports[..i]), row.providedId.value);
        after := after.Remember(row.providedId.value);
      } else {
        assert AmbiguousReports(reports[..i + 1]) == AmbiguousReports(reports[..i]);
      }
    }
    assert reports[..|reports|] == reports;
  }

  lemma {:induction false} OverflowIsFinal(memory: Ambiguity, found: seq<Text>)
    requires memory.overflow
    ensures RememberAll(memory, found) == memory
  {
    if found != [] { OverflowIsFinal(memory, found[..|found| - 1]); }
  }

  lemma {:induction false} ContradictionsJoin(a: seq<Report>, b: seq<Report>, stored: seq<Displayed>, epoch: Option<Id>)
    ensures Contradictions(a + b, stored, epoch) == Contradictions(a, stored, epoch) + Contradictions(b, stored, epoch)
  {
    hide Contradicts;
    if b == [] {
      assert a + b == a;
    } else {
      assert (a + b)[..|a + b| - 1] == a + b[..|b| - 1];
      ContradictionsJoin(a, b[..|b| - 1], stored, epoch);
    }
  }

  /** Once the memory overflows, the rest of the read changes nothing. */
  lemma RestIsIdle(memory: Ambiguity, reports: seq<Report>, stored: seq<Displayed>, epoch: Option<Id>, i: nat)
    requires i <= |reports| && RememberAll(memory, Contradictions(reports[..i], stored, epoch)).overflow
    ensures RememberAll(memory, Contradictions(reports, stored, epoch))
              == RememberAll(memory, Contradictions(reports[..i], stored, epoch))
  {
    hide Contradicts;
    assert reports == reports[..i] + reports[i..];
    ContradictionsJoin(reports[..i], reports[i..], stored, epoch);
    RememberJoins(memory, Contradictions(reports[..i], stored, epoch), Contradictions(reports[i..], stored, epoch));
    OverflowIsFinal(RememberAll(memory, Contradictions(reports[..i], stored, epoch)),
                    Contradictions(reports[i..], stored, epoch));
  }

  lemma ContradictionNext(memory: Ambiguity, reports: seq<Report>, stored: seq<Displayed>, epoch: Option<Id>, i: nat)
    requires i < |reports|
    ensures var before := RememberAll(memory, Contradictions(reports[..i], stored, epoch));
            var after := RememberAll(memory, Contradictions(reports[..i + 1], stored, epoch));
            after
              == if Contradicts(reports[i], stored, epoch) then before.Remember(SourceOf(reports[i], stored, epoch))
                 else before
  {
    assert reports[..i + 1][..i] == reports[..i];
    hide RememberAll;
    if Contradicts(reports[i], stored, epoch) {
      RememberNext(memory, Contradictions(reports[..i], stored, epoch), reports[i].providedId.value);
    } else {
      assert Contradictions(reports[..i + 1], stored, epoch) == Contradictions(reports[..i], stored, epoch);
    }
  }

  lemma RememberElements(memory: Ambiguity, source: Text)
    requires memory.Valid() && !memory.overflow
    ensures var after := memory.Remember(source);
            && (source in memory.sources ==> after == memory)
            && (source !in memory.sources && !after.overflow ==>
                  Elements(after.sources) == Elements(memory.sources) + {source})
  {
    hide Distinct;
  }

  /** Look for contradicted sources until the memory overflows, skipping those already known. */
  method CollectContradictions(memory: Ambiguity, reports: seq<Report>, stored: seq<Displayed>, epoch: Option<Id>)
    returns (after: Ambiguity)
    requires memory.Valid()
    ensures after == RememberAll(memory, Contradictions(reports, stored, epoch))
  {
    after := memory;
    var known := Elements(memory.sources);
    assert Contradictions(reports[..0], stored, epoch) == [];
    assert after == RememberAll(memory, Contradictions(reports[..0], stored, epoch));
    hide Contradicts, RememberAll, Contradictions, SourceOf, Ambiguity.Remember, Ambiguity.Valid;
    for i := 0 to |reports|
      invariant after == RememberAll(memory, Contradictions(reports[..i], stored, epoch)) && after.Valid()
      invariant after.overflow || known == Elements(after.sources)
    {
      ContradictionNext(memory, reports, stored, epoch, i);
      MemoryGrows(memory, Contradictions(reports[..i + 1], stored, epoch));
      if after.overflow {
        RestIsIdle(memory, reports, stored, epoch, i);
        return;
      }
      if Contradicts(reports[i], stored, epoch) {
        var source := SourceOf(reports[i], stored, epoch);
        RememberElements(after, source);
        if source !in known {
          after := after.Remember(source);
          known := known + {source};
        }
      }
    }
    assert reports[..|reports|] == reports;
  }

  function SourceOf(row: Report, stored: seq<Displayed>, epoch: Option<Id>): (source: Text)
    requires Contradicts(row, stored, epoch)
    ensures row.providedId == Some(source)
  {
    row.providedId.value
  }

  /** Everything in the read and the stored rows that speaks against a producer ID. */
  method Suspect(m: Merge) returns (memory: Ambiguity, ghost repeats: seq<Text>)
    requires m.Memory().Valid()
    ensures Repeats(repeats, m.read, m.stored, m.context.epoch)
    ensures memory == m.Suspects(repeats)
  {
    var epoch := m.context.epoch;
    var incoming := Repeated(Provided(m.read.messages));
    var prior := Repeated(Named(m.stored, epoch));
    repeats := incoming + prior;
    forall s
      ensures s in repeats <==> RepeatedInRead(m.read.messages, s) || RepeatedInRows(m.stored, epoch, s)
    {
      TwiceInRead(m.read.messages, s);
      TwiceInRows(m.stored, epoch, s);
    }
    hide Merge.Memory, Repeats;
    SuspectsInSteps(m, incoming, prior);
    memory := CollectStored(m.Memory(), m.stored, epoch);
    memory := CollectReports(memory, m.read.messages);
    memory := RememberEach(memory, incoming);
    memory := RememberEach(memory, prior);
    memory := CollectContradictions(memory, m.read.messages, m.stored, epoch);
  }

  lemma SuspectsInSteps(m: Merge, incoming: seq<Text>, prior: seq<Text>)
    requires m.Memory().Valid()
    ensures var epoch := m.context.epoch;
            var a := RememberAll(m.Memory(), AmbiguousStored(m.stored, epoch));
            var b := RememberAll(a, AmbiguousReports(m.read.messages));
            var c := RememberAll(RememberAll(b, incoming), prior);
            c.Valid()
            && m.Suspects(incoming + prior) == RememberAll(c, Contradictions(m.read.messages, m.stored, epoch))
  {
    var epoch, start := m.context.epoch, m.Memory();
    var w, x := AmbiguousStored(m.stored, epoch), AmbiguousReports(m.read.messages);
    var y := Contradictions(m.read.messages, m.stored, epoch);
    assert m.Suspects(incoming + prior) == RememberAll(start, w + x + (incoming + prior) + y);
    hide Merge.Memory, Merge.Suspects, Contradictions, AmbiguousStored, AmbiguousReports, Distinct;
    JoinFive(start, w, x, incoming, prior, y);
    MemoryGrows(start, w + x + incoming + prior);
  }

  lemma JoinFive(start: Ambiguity, w: seq<Text>, x: seq<Text>, a: seq<Text>, b: seq<Text>, y: seq<Text>)
    ensures var four := RememberAll(RememberAll(RememberAll(RememberAll(start, w), x), a), b);
            && RememberAll(start, w + x + a + b) == four
            && RememberAll(start, w + x + (a + b) + y) == RememberAll(four, y)
  {
    hide RememberAll;
    RememberJoins(start, w, x);
    RememberJoins(start, w + x, a);
    RememberJoins(start, w + x + a, b);
    RememberJoins(start, w + x + a + b, y);
    assert w + x + a + b == w + x + (a + b);
  }

  // ----- settling -----

  /** The row, or the row without authority for a producer ID among those settled. */
  ghost predicate Settling(row: Displayed, was: Displayed, epoch: Option<Id>, settled: seq<Text>) {
    row == was || (row == was.(origin := Some(AmbiguousProvided)) && exists s :: s in settled && Names(was, epoch, s))
  }

  /** Rows that share a producer ID all lose its authority, then so does every row of a blocked one. */
  method Settle(drafted: seq<Displayed>, epoch: Option<Id>, memory: Ambiguity)
    returns (rows: seq<Displayed>, after: Ambiguity, ghost clashes: seq<Text>)
    requires memory.Valid()
    ensures Clashes(clashes, drafted, epoch)
    ensures after == RememberAll(memory, clashes) && rows == MarkAll(drafted, epoch, after)
  {
    var found := Repeated(Named(drafted, epoch));
    clashes := found;
    forall s
      ensures s in clashes <==> RepeatedInRows(drafted, epoch, s)
    {
      TwiceInRows(drafted, epoch, s);
    }
    hide RepeatedInRows;
    after, rows := memory, drafted;
    for i := 0 to |found|
      invariant after == RememberAll(memory, found[..i])
      invariant |rows| == |drafted|
      invariant forall k :: 0 <= k < |rows| ==> Settling(rows[k], drafted[k], epoch, found[..i])
    {
      assert found[..i + 1][..i] == found[..i];
      var source := found[i];
      assert source in found[..i + 1] && forall s :: s in found[..i] ==> s in found[..i + 1];
      after := after.Remember(source);
      rows := seq(|rows|, k requires 0 <= k < |rows| =>
        if Names(rows[k], epoch, source) then rows[k].(origin := Some(AmbiguousProvided)) else rows[k]);
    }
    assert found[..|found|] == found;
    SettledIsMarked(drafted, rows, epoch, memory, found);
    rows := MarkAll(rows, epoch, after);
  }

  lemma SettledIsMarked(drafted: seq<Displayed>, rows: seq<Displayed>, epoch: Option<Id>, memory: Ambiguity,
                        found: seq<Text>)
    requires memory.Valid() && |rows| == |drafted|
    requires forall k :: 0 <= k < |rows| ==> Settling(rows[k], drafted[k], epoch, found)
    ensures MarkAll(rows, epoch, RememberAll(memory, found)) == MarkAll(drafted, epoch, RememberAll(memory, found))
  {
    forall k | 0 <= k < |rows|
      ensures Marked(rows[k], epoch, RememberAll(memory, found))
                == Marked(drafted[k], epoch, RememberAll(memory, found))
    {
      if rows[k] != drafted[k] {
        var s :| s in found && Names(drafted[k], epoch, s);
        FoundIsBlocked(memory, found, s);
      }
    }
  }

  // ----- the application -----

  /** Apply a read. Nothing is changed unless everything succeeds. */
  method Prepare(m: Merge) returns (r: Result<Projection, Failure>, ghost repeats: seq<Text>, ghost clashes: seq<Text>)
    ensures r.Ok? <==> Applicable(m, repeats, clashes)
    ensures m.Ready(repeats) ==> Consistent(m, repeats, clashes)
    ensures r.Ok? ==> r.value == Applied(m, repeats, clashes) && Told(m, repeats, r.value)
  {
    repeats, clashes := [], [];
    if !m.Memory().Valid() || !m.Gone().Valid() {
      return Err(Invalid), repeats, clashes;
    }
    var memory;
    memory, repeats := Suspect(m);
    var prior := MarkAll(m.stored, m.context.epoch, memory);
    var plan := Reconciliation.PlanRows(IncomingRows(m.read, m.context.epoch, memory),
                                        StoredRows(prior, m.stored, m.read, m.context),
                                        m.context.earlier
                                        && m.read.byCursor, m.read.hasMore == Some(true), m.context.newId);
    assert plan == m.Plan(repeats);
    if plan.Err? {
      return Err(plan.error), repeats, clashes;
    }
    hide Merge.Plan, Repeats, Merge.Memory, Merge.Gone, RepeatedInRows;
    PlanIsSound(m, repeats);
    hide Told;
    r, clashes := Finish(m, repeats, memory, prior, plan.value);
    if r.Ok? { ProjectionIsTold(m, repeats, clashes); }
  }

  method Finish(m: Merge, ghost repeats: seq<Text>, memory: Ambiguity, prior: seq<Displayed>, plan: Reconciliation.Plan)
      returns (r: Result<Projection, Failure>, ghost clashes: seq<Text>)
    requires m.Ready(repeats) && m.Plan(repeats) == Ok(plan) && memory == m.Suspects(repeats)
             && prior == m.Prior(repeats)
    requires Repeats(repeats, m.read, m.stored, m.context.epoch)
    ensures Consistent(m, repeats, clashes)
    ensures r.Ok? <==> Applicable(m, repeats, clashes)
    ensures r.Ok? ==> r.value == Applied(m, repeats, clashes)
  {
    PlanIsSound(m, repeats);
    assert memory.Valid() by { SuspectsAreValid(m, repeats); }
    var drafted := ShowAll(plan.entries, m.read, prior, memory, m.Gone(), m.context);
    assert drafted == m.Drafted(repeats);
    hide Merge.Plan, Merge.Ready, Repeats, Merge.Drafted, Merge.Suspects, Merge.Gone, Clashes, Merge.Prior, Retiring;
    var rows, after;
    rows, after, clashes := Settle(drafted, m.context.epoch, memory);
    var retired := RememberRetired(m.Gone(), LeavingSources(prior, RowIds(rows), m.context.epoch));
    if retired.Err? {
      return Err(retired.error), clashes;
    }
    r := Ok(Projection(rows, plan.accepted, StrongResources(m.stored) - StrongResources(rows), after, retired.value));
  }

  lemma SuspectsAreValid(m: Merge, repeats: seq<Text>)
    requires m.Memory().Valid()
    ensures m.Suspects(repeats).Valid()
  {
    MemoryGrows(m.Memory(), AmbiguousStored(m.stored, m.context.epoch) + AmbiguousReports(m.read.messages) + repeats
                            + Contradictions(m.read.messages, m.stored, m.context.epoch));
  }
}
