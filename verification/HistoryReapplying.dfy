/** Applying the same head again: the memories carried over, the rows matched anew by what they hold. */
module HistoryReapplying {
  import opened Wrappers
  import opened HistoryTypes
  import opened HistoryMemories
  import opened HistoryApplication
  import opened HistoryMerging
  import Identity = HistoryIdentity
  import Application = HistoryApplication
  import Weaving = HistoryWeave
  import Reconciliation = HistoryReconciliation
  import Replanning = HistoryReplanning

  // ----- one row -----

  /** The names of a row's attachments tell them apart. */
  ghost predicate Naming(context: Context) {
    forall id, a: nat, b: nat, x, y :: context.referenceId(id, a, x) == context.referenceId(id, b, y) ==> a == b
  }

  lemma {:induction false} FirstIsOwn(media: seq<Reference>, at: nat)
    requires at < |media| && forall a, b :: 0 <= a < b < |media| ==> media[a].id != media[b].id
    ensures FirstReference(media, media[at].id) == Some(media[at])
  {
    if at > 0 { FirstIsOwn(media[1..], at - 1); }
  }

  /** Files found again are those found before. */
  lemma ReferencesAgain(raw: Report, id: Text, previous: Option<Displayed>, owned: bool, context: Context,
                        kept: Displayed)
    requires Naming(context) && kept.media == References(raw, id, previous, owned, context)
    requires kept.revision == Some(raw.raw)
    ensures References(raw, id, Some(kept), owned, context) == kept.media
  {
    if !(owned && raw.role == Identity.User && previous.Some? && previous.value.media != []) {
      forall at | 0 <= at < |raw.attachments|
        ensures ReferenceFor(raw, at, id, Some(kept), context) == kept.media[at]
      {
        assert kept.media[at] == ReferenceFor(raw, at, id, previous, context);
        FirstIsOwn(kept.media, at);
      }
    }
  }

  /** The report's own producer ID is among the sources. */
  predicate Lists(sources: seq<Text>, raw: Report) { raw.providedId.Some? && raw.providedId.value in sources }

  lemma LivenessAgain(raw: Report, previous: Option<Displayed>, read: Read, retired: Retired, kept: Displayed,
                      later: Retired)
    requires kept.liveness == LivenessOf(raw, previous, read, retired)
    requires raw.role == Identity.Assistant && raw.origin == Some(Provided) ==>
               (Lists(later.sources, raw) <==> Lists(retired.sources, raw))
    ensures LivenessOf(raw, Some(kept), read, later) == kept.liveness
  {
  }

  /** The two contexts name the same things. */
  ghost predicate SameNames(context: Context, other: Context) {
    other.epoch == context.epoch && other.referenceId == context.referenceId
  }

  /** The row's content is kept when it is read again: it is a finished row with a live segment. */
  predicate Fixed(row: Displayed, read: Read) {
    row.liveness == Some(Terminal) && row.segmentId.Some? && read.activeRunEvidence != Some(false)
  }

  /** What a report makes of a row it has made is that row, unless its content is kept anyway. */
  lemma UpdatedAgain(raw: Report, id: Text, previous: Option<Displayed>, read: Read, memory: Ambiguity,
                     retired: Retired, context: Context, later: Ambiguity, others: Retired, other: Context)
    requires Naming(context) && SameNames(context, other)
    requires previous.Some? && Owned(previous.value) ==> raw.role == Identity.User && raw.attribution.None?
    requires raw.role == Identity.Assistant && raw.origin == Some(Provided) ==>
               (Lists(others.sources, raw) <==> Lists(retired.sources, raw))
    requires !Fixed(Updated(raw, id, previous, read, memory, retired, context), read)
    ensures var kept := Marked(Updated(raw, id, previous, read, memory, retired, context), context.epoch, later);
            Marked(Updated(raw, id, Some(kept), read, later, others, other), other.epoch, later) == kept
  {
    var made := Updated(raw, id, previous, read, memory, retired, context);
    var kept := Marked(made, context.epoch, later);
    var owned := previous.Some? && Owned(previous.value);
    ReferencesAgain(raw, id, previous, owned, context, kept);
    SameReferences(raw, id, Some(kept), owned, context, other);
    LivenessAgain(raw, previous, read, retired, kept, others);
    hide References;
    assert Owned(kept) == owned;
  }

  lemma SameReferences(raw: Report, id: Text, previous: Option<Displayed>, owned: bool, context: Context,
                       other: Context)
    requires SameNames(context, other)
    ensures References(raw, id, previous, owned, context) == References(raw, id, previous, owned, other)
  {
    forall at | 0 <= at < |raw.attachments|
      ensures ReferenceFor(raw, at, id, previous, context) == ReferenceFor(raw, at, id, previous, other)
    {
    }
  }

  // ----- suspicion -----

  lemma {:induction false} RememberKnown(memory: Ambiguity, found: seq<Text>)
    requires memory.Valid() && forall s :: s in found ==> memory.Blocks(s)
    ensures RememberAll(memory, found) == memory
  {
    if found != [] {
      RememberKnown(memory, found[..|found| - 1]);
      assert found[|found| - 1] in found;
    }
  }

  lemma StoredAmbiguityIsBlocked(m: Merge, repeats: seq<Text>, clashes: seq<Text>, p: nat)
    requires Consistent(m, repeats, clashes) && p < |m.stored|
    requires var row := m.Prior(repeats)[p];
             row.epoch == m.context.epoch && row.origin == Some(AmbiguousProvided) && row.providedId.Some?
    ensures m.FinalMemory(repeats, clashes).Blocks(m.stored[p].providedId.value)
  {
    var s := m.stored[p].providedId.value;
    hide Merge.Ready, Merge.Suspects, Merge.FinalMemory, RepeatedInRead, RepeatedInRows, Contradicts;
    assert m.stored[p] in m.stored;
    if m.Suspects(repeats).Blocks(s) {
      SuspectsStayBlocked(m, repeats, clashes, s);
    } else {
      BlockingIsExact(m, repeats, clashes, s);
      assert Suspicious(m, repeats, s);
    }
  }

  /** Every row of the result whose producer ID is ambiguous has it blocked. */
  lemma AmbiguousIsBlocked(m: Merge, repeats: seq<Text>, clashes: seq<Text>, k: nat)
    requires Consistent(m, repeats, clashes) && k < |m.Messages(repeats, clashes)|
    requires var row := m.Messages(repeats, clashes)[k];
             row.epoch == m.context.epoch && row.origin == Some(AmbiguousProvided) && row.providedId.Some?
    ensures m.FinalMemory(repeats, clashes).Blocks(m.Messages(repeats, clashes)[k].providedId.value)
  {
    var row, final := m.Messages(repeats, clashes)[k], m.FinalMemory(repeats, clashes);
    var e := RowOf(m, repeats, clashes, k);
    assert e in m.Plan(repeats).value.entries;
    hide Merge.Ready, Merge.Plan, Merge.Drafted, Merge.Messages, Merge.Suspects, Merge.FinalMemory, Merge.Gone;
    hide Consistent, Shown;
    if !final.Blocks(row.providedId.value) {
      DraftIsBlocked(m, repeats, clashes, e);
    }
  }

  lemma UpdatedSource(raw: Report, id: Text, previous: Option<Displayed>, read: Read, memory: Ambiguity,
                      retired: Retired, context: Context)
    ensures var made := Updated(raw, id, previous, read, memory, retired, context);
            && made.providedId == raw.providedId
            && (made.origin == Some(AmbiguousProvided) ==>
                  || Blocked(memory, raw.providedId) || raw.origin == Some(AmbiguousProvided)
                  || (previous.Some? && previous.value.origin == Some(AmbiguousProvided)
                      && previous.value.providedId == raw.providedId))
  {
    hide References, LivenessOf;
  }

  /** An ambiguous draft's producer ID is blocked in the end. */
  lemma DraftIsBlocked(m: Merge, repeats: seq<Text>, clashes: seq<Text>, e: Weaving.Entry)
    requires Consistent(m, repeats, clashes) && e in m.Plan(repeats).value.entries && Sound(e, m.read, m.Prior(repeats))
    requires var draft := Shown(e, m.read, m.Prior(repeats), m.Suspects(repeats), m.Gone(), m.context);
             draft.epoch == m.context.epoch && draft.origin == Some(AmbiguousProvided) && draft.providedId.Some?
    ensures var draft := Shown(e, m.read, m.Prior(repeats), m.Suspects(repeats), m.Gone(), m.context);
            m.FinalMemory(repeats, clashes).Blocks(draft.providedId.value)
  {
    match e {
      case Preserved(p, _) => StoredAmbiguityIsBlocked(m, repeats, clashes, p);
      case History(i, _, _) =>
        UpdatedSource(m.read.messages[i], e.id, PreviousOf(m, repeats, e), m.read, m.Suspects(repeats), m.Gone(),
                      m.context);
        hide Merge.Ready, Merge.Plan, Merge.Drafted, Merge.Suspects, Merge.FinalMemory, Merge.Gone, Consistent, Updated;
        ReportedIsBlocked(m, repeats, clashes, e);
    }
  }

  lemma ReportedIsBlocked(m: Merge, repeats: seq<Text>, clashes: seq<Text>, e: Weaving.Entry)
    requires Consistent(m, repeats, clashes) && e in m.Plan(repeats).value.entries && Sound(e, m.read, m.Prior(repeats))
    requires e.History? && m.read.messages[e.index].providedId.Some?
    requires var raw, previous := m.read.messages[e.index], PreviousOf(m, repeats, e);
             || Blocked(m.Suspects(repeats), raw.providedId) || raw.origin == Some(AmbiguousProvided)
             || (previous.Some? && previous.value.origin == Some(AmbiguousProvided)
                 && previous.value.providedId == raw.providedId)
    ensures m.FinalMemory(repeats, clashes).Blocks(m.read.messages[e.index].providedId.value)
  {
    assert m.Ready(repeats) && m.Memory().Valid();
    hide Merge.Ready, Merge.Plan, Merge.Drafted, Merge.Suspects, Merge.FinalMemory, Merge.Gone, Consistent;
    hide RepeatedInRead, Contradicts;
    var raw := m.read.messages[e.index];
    if Blocked(m.Suspects(repeats), raw.providedId) {
      SuspectsStayBlocked(m, repeats, clashes, raw.providedId.value);
    } else if raw.origin == Some(AmbiguousProvided) {
      ReportIsBlocked(m, repeats, clashes, e.index);
    } else {
      MatchedEpoch(m, repeats, e);
      StoredAmbiguityIsBlocked(m, repeats, clashes, e.previous.value);
    }
  }

  /** A matched row that was ambiguous under the report's own producer ID was found to be. */
  lemma InheritedIsSuspect(m: Merge, repeats: seq<Text>, p: nat)
    requires m.Memory().Valid() && Repeats(repeats, m.read, m.stored, m.context.epoch) && p < |m.stored|
    requires m.Prior(repeats)[p].epoch == m.context.epoch && m.Prior(repeats)[p].origin == Some(AmbiguousProvided)
    ensures Blocked(m.Suspects(repeats), m.Prior(repeats)[p].providedId) || m.Prior(repeats)[p].providedId.None?
  {
    var prior := m.Prior(repeats)[p];
    assert m.stored[p] in m.stored;
    if prior.providedId.Some? {
      SuspicionIsExact(m, repeats, prior.providedId.value);
      hide Merge.Suspects, RepeatedInRead, RepeatedInRows, Contradicts, Fits;
    }
  }

  /** The stored row an entry joins to its report. */
  function PreviousOf(m: Merge, repeats: seq<Text>, e: Weaving.Entry): Option<Displayed>
    requires e.History? && Sound(e, m.read, m.Prior(repeats))
  {
    if e.previous.Some? then Some(m.Prior(repeats)[e.previous.value]) else None
  }

  lemma PreviousIsSuspect(m: Merge, repeats: seq<Text>, clashes: seq<Text>, e: Weaving.Entry)
    requires Consistent(m, repeats, clashes) && e in m.Plan(repeats).value.entries && e.History?
    requires Sound(e, m.read, m.Prior(repeats))
    ensures var raw, previous := m.read.messages[e.index], PreviousOf(m, repeats, e);
            && (Blocked(m.Suspects(repeats), raw.providedId) ==>
                  Blocked(m.FinalMemory(repeats, clashes), raw.providedId))
            && (previous.Some? && previous.value.origin == Some(AmbiguousProvided)
                && previous.value.providedId == raw.providedId && raw.providedId.Some? ==>
                  Blocked(m.Suspects(repeats), raw.providedId))
  {
    var raw, previous := m.read.messages[e.index], PreviousOf(m, repeats, e);
    hide Merge.Plan, Merge.Suspects, Merge.FinalMemory, Merge.Drafted, RepeatedInRead, RepeatedInRows;
    if previous.Some? && previous.value.origin == Some(AmbiguousProvided) {
      MatchedEpoch(m, repeats, e);
      InheritedIsSuspect(m, repeats, e.previous.value);
    }
    if Blocked(m.Suspects(repeats), raw.providedId) {
      SuspectsStayBlocked(m, repeats, clashes, raw.providedId.value);
    }
  }

  /** What a report was made into holds its keys and does not contradict it. */
  lemma OwnRowAgrees(m: Merge, repeats: seq<Text>, clashes: seq<Text>, e: Weaving.Entry)
    requires Consistent(m, repeats, clashes) && e in m.Plan(repeats).value.entries && e.History?
    requires Sound(e, m.read, m.Prior(repeats))
    ensures var raw, final := m.read.messages[e.index], m.FinalMemory(repeats, clashes);
            var row := ReportRow(raw, m.context.epoch, Blocked(final, raw.providedId));
            var made := Shown(e, m.read, m.Prior(repeats), m.Suspects(repeats), m.Gone(), m.context);
            var kept := DisplayedRow(Marked(made, m.context.epoch, final));
            && Identity.SourceCompatible(row, kept)
            && (!Replanning.Nameless(raw, PreviousOf(m, repeats, e)) ==> Replanning.Carries(row, kept))
  {
    PreviousIsSuspect(m, repeats, clashes, e);
    var raw, previous := m.read.messages[e.index], PreviousOf(m, repeats, e);
    var suspects, final, gone := m.Suspects(repeats), m.FinalMemory(repeats, clashes), m.Gone();
    hide Consistent, Merge.Plan, Merge.Suspects, Merge.Gone, Merge.FinalMemory, Merge.Prior, Merge.Ready;
    assert Shown(e, m.read, m.Prior(repeats), suspects, gone, m.context)
        == Updated(raw, e.id, previous, m.read, suspects, gone, m.context);
    hide *;
    Replanning.UpdatedCarries(raw, e.id, previous, m.read, suspects, gone, m.context, final);
  }

  lemma SuspiciousIsBlocked(m: Merge, repeats: seq<Text>, clashes: seq<Text>, s: Text)
    requires Consistent(m, repeats, clashes) && Suspicious(m, repeats, s)
    ensures m.FinalMemory(repeats, clashes).Blocks(s)
  {
    BlockingIsExact(m, repeats, clashes, s);
  }

  lemma ReportIsBlocked(m: Merge, repeats: seq<Text>, clashes: seq<Text>, i: nat)
    requires Consistent(m, repeats, clashes) && i < |m.read.messages| && m.read.messages[i].providedId.Some?
    requires var raw := m.read.messages[i];
             Contradicts(raw, m.stored, m.context.epoch) || raw.origin == Some(AmbiguousProvided)
             || RepeatedInRead(m.read.messages, raw.providedId.value)
    ensures m.FinalMemory(repeats, clashes).Blocks(m.read.messages[i].providedId.value)
  {
    hide Contradicts, RepeatedInRead, RepeatedInRows, Merge.FinalMemory, Merge.Ready, Merge.Drafted;
    assert m.read.messages[i] in m.read.messages;
    SuspiciousIsBlocked(m, repeats, clashes, m.read.messages[i].providedId.value);
  }

  /** A row that still has its authority was not touched. */
  lemma KeptIsStored(stored: Displayed, context: Context, suspects: Ambiguity, final: Ambiguity)
    ensures var kept := Marked(Marked(stored, context.epoch, suspects), context.epoch, final);
            kept.origin == Some(Provided) ==> kept == stored
  {
  }

  /** No report contradicts a row of the result that speaks for its producer ID. */
  lemma NothingContradicts(m: Merge, repeats: seq<Text>, clashes: seq<Text>, i: nat)
    requires Consistent(m, repeats, clashes) && i < |m.read.messages|
    ensures !Contradicts(m.read.messages[i], m.Messages(repeats, clashes), m.context.epoch)
  {
    var raw, rows := m.read.messages[i], m.Messages(repeats, clashes);
    hide Merge.Ready, Merge.Plan, Merge.Drafted, Merge.Messages, Consistent, Identity.SourceCompatible;
    forall k | 0 <= k < |rows| && raw.origin == Some(Provided) && raw.providedId.Some?
               && SpeaksFor(rows[k], m.context.epoch, raw.providedId.value)
      ensures Identity.SourceCompatible(ReportRow(raw, m.context.epoch, false), DisplayedRow(rows[k]))
    {
      SpeakerAgrees(m, repeats, clashes, i, k);
    }
  }

  lemma SpeakerAgrees(m: Merge, repeats: seq<Text>, clashes: seq<Text>, i: nat, k: nat)
    requires Consistent(m, repeats, clashes) && i < |m.read.messages| && k < |m.Messages(repeats, clashes)|
    requires m.read.messages[i].origin == Some(Provided) && m.read.messages[i].providedId.Some?
    requires SpeaksFor(m.Messages(repeats, clashes)[k], m.context.epoch, m.read.messages[i].providedId.value)
    ensures Identity.SourceCompatible(ReportRow(m.read.messages[i], m.context.epoch, false),
                                      DisplayedRow(m.Messages(repeats, clashes)[k]))
  {
    var raw, row := m.read.messages[i], m.Messages(repeats, clashes)[k];
    var e := RowOf(m, repeats, clashes, k);
    assert e in m.Plan(repeats).value.entries;
    hide Merge.Ready, Merge.Plan, Merge.Drafted, Merge.Messages, Merge.Suspects, Merge.FinalMemory, Merge.Gone;
    hide Consistent, Identity.SourceCompatible, References, LivenessOf;
    match e {
      case Preserved(p, _) =>
        KeptIsStored(m.stored[p], m.context, m.Suspects(repeats), m.FinalMemory(repeats, clashes));
        if !Identity.SourceCompatible(ReportRow(raw, m.context.epoch, false), DisplayedRow(row)) {
          assert Contradicts(raw, m.stored, m.context.epoch);
          ReportIsBlocked(m, repeats, clashes, i);
        }
      case History(j, _, _) =>
        assert m.read.messages[j].providedId == raw.providedId;
        if j != i {
          ReportIsBlocked(m, repeats, clashes, i);
        } else {
          OwnRowAgrees(m, repeats, clashes, e);
        }
    }
  }

  // ----- the second application -----

  /** The same read is applied to its own result. */
  ghost predicate Reapplies(m: Merge, repeats: seq<Text>, clashes: seq<Text>, n: Merge) {
    && Consistent(m, repeats, clashes) && Applicable(m, repeats, clashes)
    && n.read == m.read && n.stored == m.Messages(repeats, clashes)
    && n.ambiguity == Some(m.FinalMemory(repeats, clashes))
    && n.retired == Retiring(m.Gone(), m.Leavers(repeats, clashes))
    && SameNames(m.context, n.context) && n.context.earlier == m.context.earlier
  }

  /** The second time, the memory starts where it was left. */
  lemma MemoryIsCarried(m: Merge, repeats: seq<Text>, clashes: seq<Text>, n: Merge)
    requires Reapplies(m, repeats, clashes, n)
    ensures n.Memory() == m.FinalMemory(repeats, clashes) && n.Memory().Valid()
  {
    FinalMemoryIs(m, repeats, clashes);
    MemoryGrows(m.Memory(), Found(m, repeats, clashes));
    hide Merge.Messages, Merge.Leavers, Merge.Drafted, Found;
  }

  /** Everything the second application finds suspicious is blocked already. */
  lemma FoundAgain(m: Merge, repeats: seq<Text>, clashes: seq<Text>, n: Merge, s: Text)
    requires Reapplies(m, repeats, clashes, n)
    requires || s in AmbiguousStored(n.stored, n.context.epoch) || s in AmbiguousReports(n.read.messages)
             || RepeatedInRead(n.read.messages, s) || RepeatedInRows(n.stored, n.context.epoch, s)
             || s in Contradictions(n.read.messages, n.stored, n.context.epoch)
    ensures m.FinalMemory(repeats, clashes).Blocks(s)
  {
    hide Merge.Ready, Merge.Messages, Merge.FinalMemory, Merge.Leavers, Consistent, Retiring, RepeatedInRead;
    hide RepeatedInRows, Contradicts;
    if s in AmbiguousStored(n.stored, n.context.epoch) {
      var row :| row in n.stored && row.epoch == n.context.epoch && row.origin == Some(AmbiguousProvided)
                 && row.providedId == Some(s);
      var k :| 0 <= k < |n.stored| && n.stored[k] == row;
      AmbiguousIsBlocked(m, repeats, clashes, k);
    } else if s in AmbiguousReports(n.read.messages) {
      var raw :| raw in n.read.messages && raw.origin == Some(AmbiguousProvided) && raw.providedId == Some(s);
      var i :| 0 <= i < |m.read.messages| && m.read.messages[i] == raw;
      ReportIsBlocked(m, repeats, clashes, i);
    } else if s in Contradictions(n.read.messages, n.stored, n.context.epoch) {
      var raw :| raw in n.read.messages && raw.providedId == Some(s) && Contradicts(raw, n.stored, n.context.epoch);
      var i :| 0 <= i < |m.read.messages| && m.read.messages[i] == raw;
      NothingContradicts(m, repeats, clashes, i);
    } else if RepeatedInRows(n.stored, n.context.epoch, s) {
      RepeatedIsBlocked(m, repeats, clashes, s);
    } else {
      assert RepeatedInRead(m.read.messages, s);
      SuspiciousIsBlocked(m, repeats, clashes, s);
    }
  }

  lemma MessagesAre(m: Merge, repeats: seq<Text>, clashes: seq<Text>)
    requires m.Ready(repeats)
    ensures m.Messages(repeats, clashes)
         == MarkAll(m.Drafted(repeats), m.context.epoch, m.FinalMemory(repeats, clashes))
  {
    hide Merge.Drafted, Merge.FinalMemory, Merge.Ready;
  }

  /** Losing authority leaves a row its producer ID. */
  lemma MarkedRepeats(drafted: seq<Displayed>, epoch: Option<Id>, memory: Ambiguity, s: Text)
    ensures RepeatedInRows(MarkAll(drafted, epoch, memory), epoch, s) <==> RepeatedInRows(drafted, epoch, s)
  {
    var rows := MarkAll(drafted, epoch, memory);
    assert forall k :: 0 <= k < |rows| ==>
      (Application.Names(rows[k], epoch, s) <==> Application.Names(drafted[k], epoch, s));
  }

  lemma RepeatedIsBlocked(m: Merge, repeats: seq<Text>, clashes: seq<Text>, s: Text)
    requires Consistent(m, repeats, clashes) && RepeatedInRows(m.Messages(repeats, clashes), m.context.epoch, s)
    ensures m.FinalMemory(repeats, clashes).Blocks(s)
  {
    hide Merge.Messages, Merge.Drafted, Merge.Ready, Merge.FinalMemory, Merge.Plan, Clashes, MarkAll, RepeatedInRows;
    MessagesAre(m, repeats, clashes);
    MarkedRepeats(m.Drafted(repeats), m.context.epoch, m.FinalMemory(repeats, clashes), s);
    SuspiciousIsBlocked(m, repeats, clashes, s);
  }

  /** Applying a read to its own result finds nothing suspicious that is not blocked already. */
  lemma SuspicionSettles(m: Merge, repeats: seq<Text>, clashes: seq<Text>, n: Merge, others: seq<Text>)
    requires Reapplies(m, repeats, clashes, n) && Repeats(others, n.read, n.stored, n.context.epoch)
    ensures n.Suspects(others) == m.FinalMemory(repeats, clashes)
  {
    var found := AmbiguousStored(n.stored, n.context.epoch) + AmbiguousReports(n.read.messages) + others
                 + Contradictions(n.read.messages, n.stored, n.context.epoch);
    MemoryIsCarried(m, repeats, clashes, n);
    hide Reapplies, Merge.FinalMemory, RepeatedInRead, RepeatedInRows;
    forall s | s in found
      ensures m.FinalMemory(repeats, clashes).Blocks(s)
    {
      FoundAgain(m, repeats, clashes, n, s);
    }
    RememberKnown(n.Memory(), found);
  }

  // ----- the second plan -----

  predicate Head(m: Merge) { !(m.context.earlier && m.read.byCursor) }

  predicate Retains(m: Merge) { m.read.hasMore == Some(true) }

  function AnchorsIn(m: Merge, repeats: seq<Text>): (anchors: Reconciliation.Anchors) {
    Reconciliation.AnchorsOf(m.Incoming(repeats), m.Rows(repeats))
  }

  lemma PlanIsOfAnchors(m: Merge, repeats: seq<Text>)
    requires Head(m) && Reconciliation.ValidRows(m.Incoming(repeats), m.Rows(repeats))
    ensures Reconciliation.Injective(AnchorsIn(m, repeats), |m.Rows(repeats)|)
            && Reconciliation.DistinctStored(m.Rows(repeats))
    ensures m.Plan(repeats)
         == Reconciliation.PlanOf(AnchorsIn(m, repeats), m.Rows(repeats), false, Retains(m), m.context.newId)
  {
    hide Reconciliation.PlanOf, Reconciliation.AnchorsOf, Merge.Incoming, Merge.Rows;
    Replanning.PlannedPlans(m.Incoming(repeats), m.Rows(repeats), Retains(m), m.context.newId);
  }

  lemma ReadyIsPlanned(m: Merge, repeats: seq<Text>)
    requires Head(m) && m.Plan(repeats).Ok?
    ensures Reconciliation.ValidRows(m.Incoming(repeats), m.Rows(repeats))
    ensures Reconciliation.Injective(AnchorsIn(m, repeats), |m.Rows(repeats)|)
            && Reconciliation.DistinctStored(m.Rows(repeats))
    ensures Reconciliation.PlanOf(AnchorsIn(m, repeats), m.Rows(repeats), false, Retains(m), m.context.newId).Ok?
    ensures Reconciliation.HeadEntries(AnchorsIn(m, repeats), m.Rows(repeats), m.context.newId, Retains(m))
         == m.Plan(repeats).value.entries
  {
    assert Reconciliation.ValidRows(m.Incoming(repeats), m.Rows(repeats)) by {
      hide Merge.Incoming, Merge.Rows, Reconciliation.ValidRows, Reconciliation.PlanOf;
    }
    hide Merge.Incoming, Merge.Rows, Merge.Plan, Reconciliation.PlanOf, AnchorsIn;
    PlanIsOfAnchors(m, repeats);
  }

  /** A kept row that changed since the first read began, and no other kept row, counts as changed the second time. */
  ghost predicate ChangesStand(m: Merge, repeats: seq<Text>, n: Merge, others: seq<Text>)
    requires m.Plan(repeats).Ok?
  {
    var entries := m.Plan(repeats).value.entries;
    forall k :: 0 <= k < |n.stored| && k < |entries| && entries[k].Preserved? && entries[k].index < |m.stored| ==>
      (n.Rows(others)[k].changedAfterRead <==> m.Rows(repeats)[entries[k].index].changedAfterRead)
  }

  /** The rows the second plan starts from are the rows of the result. */
  lemma PriorAgain(m: Merge, repeats: seq<Text>, clashes: seq<Text>, n: Merge, others: seq<Text>)
    requires Reapplies(m, repeats, clashes, n) && Repeats(others, n.read, n.stored, n.context.epoch)
    ensures n.Prior(others) == n.stored
  {
    SuspicionSettles(m, repeats, clashes, n, others);
    hide Merge.Suspects, Merge.FinalMemory, Merge.Ready, Merge.Drafted, Merge.Leavers, Retiring, Merge.Messages;
    hide Consistent, Applicable, Merge.Plan, Shown;
    forall k | 0 <= k < |n.stored|
      ensures Marked(n.stored[k], n.context.epoch, m.FinalMemory(repeats, clashes)) == n.stored[k]
    {
      var _ := RowOf(m, repeats, clashes, k);
    }
  }

  /** Losing its authority does not change how a row is kept. */
  lemma KeptRowStands(prior: Displayed, stored: Displayed, read: Read, context: Context, memory: Ambiguity,
                      other: Context)
    ensures var kept := Marked(prior, context.epoch, memory);
            var row, before := StoredRow(kept, kept, read, other), StoredRow(prior, stored, read, context);
            && row.identity.locallyOwned == before.identity.locallyOwned
            && row.preserveWhenAbsent == before.preserveWhenAbsent
            && row.preserveMatchingContent == before.preserveMatchingContent
  {
  }

  lemma RowsAre(n: Merge, others: seq<Text>, k: nat)
    requires n.Prior(others) == n.stored && k < |n.stored|
    ensures |n.Rows(others)| == |n.stored|
    ensures n.Rows(others)[k] == StoredRow(n.stored[k], n.stored[k], n.read, n.context)
  {
    hide Merge.Prior;
  }

  lemma RowAgainShows(m: Merge, repeats: seq<Text>, clashes: seq<Text>, n: Merge, others: seq<Text>, k: nat)
    requires Reapplies(m, repeats, clashes, n) && n.Prior(others) == n.stored && k < |n.stored|
    ensures |n.stored| == |m.Plan(repeats).value.entries| == |n.Rows(others)|
    ensures var e, row := m.Plan(repeats).value.entries[k], n.Rows(others)[k];
            && row.id == e.id && row.identity == DisplayedRow(n.stored[k])
            && (e.Preserved? ==>
                  && e.index < |m.stored|
                  && row.identity.locallyOwned == m.Rows(repeats)[e.index].identity.locallyOwned
                  && row.preserveWhenAbsent == m.Rows(repeats)[e.index].preserveWhenAbsent
                  && row.preserveMatchingContent == m.Rows(repeats)[e.index].preserveMatchingContent)
  {
    var final := m.FinalMemory(repeats, clashes);
    MessagesMatchEntries(m, repeats, clashes);
    Entry(m, repeats, clashes, k);
    var e := RowOf(m, repeats, clashes, k);
    RowsAre(n, others, k);
    assert n.read == m.read && n.stored[k] == m.Messages(repeats, clashes)[k];
    if e.Preserved? {
      assert m.Rows(repeats)[e.index]
          == StoredRow(m.Prior(repeats)[e.index], m.stored[e.index], m.read, m.context);
    }
    hide Merge.Plan, Merge.Suspects, Merge.FinalMemory, Merge.Ready, Merge.Drafted, Merge.Leavers, Retiring;
    hide Merge.Messages, Consistent, Merge.Gone, Reapplies, Marked, Merge.Prior, Merge.Rows, Updated;
    if e.Preserved? {
      KeptRowStands(m.Prior(repeats)[e.index], m.stored[e.index], m.read, m.context, final, n.context);
    }
  }

  lemma RowAgainStands(m: Merge, repeats: seq<Text>, clashes: seq<Text>, n: Merge, others: seq<Text>, k: nat)
    requires Reapplies(m, repeats, clashes, n) && n.Prior(others) == n.stored && k < |n.stored|
    requires ChangesStand(m, repeats, n, others)
    ensures |n.stored| == |m.Plan(repeats).value.entries| == |n.Rows(others)|
    ensures n.Rows(others)[k].id == m.Plan(repeats).value.entries[k].id
    ensures var e, row := m.Plan(repeats).value.entries[k], n.Rows(others)[k];
            e.Preserved? ==>
              && e.index < |m.stored| == |m.Rows(repeats)|
              && Reconciliation.SameFlags(row, m.Rows(repeats)[e.index])
              && (Reconciliation.KeepsContent(row) <==> Reconciliation.KeepsContent(m.Rows(repeats)[e.index]))
  {
    hide Merge.Plan, Merge.Rows, Merge.Prior, Reapplies;
    RowAgainShows(m, repeats, clashes, n, others, k);
    RowsAreStored(m, repeats);
  }

  /** The first plan, and the rows of its result as rows to read over. */
  lemma FirstPlanned(m: Merge, repeats: seq<Text>, clashes: seq<Text>, n: Merge, others: seq<Text>)
    requires Reapplies(m, repeats, clashes, n) && Repeats(others, n.read, n.stored, n.context.epoch) && Head(m)
    ensures var anchors, rows, newId := AnchorsIn(m, repeats), m.Rows(repeats), m.context.newId;
            && Reconciliation.Injective(anchors, |rows|) && Reconciliation.DistinctStored(rows)
            && Reconciliation.PlanOf(anchors, rows, false, Retains(m), newId).Ok?
            && m.Plan(repeats).Ok?
            && Reconciliation.HeadEntries(anchors, rows, newId, Retains(m)) == m.Plan(repeats).value.entries
            && n.Prior(others) == n.stored && |rows| == |m.stored|
            && |n.Rows(others)| == |n.stored| == |m.Plan(repeats).value.entries|
  {
    PriorAgain(m, repeats, clashes, n, others);
    ReadyIsPlanned(m, repeats);
    RowsAreStored(m, repeats);
    RowsAreStored(n, others);
    MessagesMatchEntries(m, repeats, clashes);
    hide Merge.Plan, Merge.Rows, Merge.Prior, AnchorsIn, Reconciliation.PlanOf, Reconciliation.HeadEntries;
  }

  /** The result, as rows to read over, shows the plan; rows that keep their content keep it again. */
  lemma ResultShows(m: Merge, repeats: seq<Text>, clashes: seq<Text>, n: Merge, others: seq<Text>)
    requires Reapplies(m, repeats, clashes, n) && Repeats(others, n.read, n.stored, n.context.epoch) && Head(m)
    requires ChangesStand(m, repeats, n, others)
    ensures var anchors, rows, newId := AnchorsIn(m, repeats), m.Rows(repeats), m.context.newId;
            && Reconciliation.Injective(anchors, |rows|) && Reconciliation.DistinctStored(rows)
            && Reconciliation.PlanOf(anchors, rows, false, Retains(m), newId).Ok?
            && Replanning.Shows(anchors, rows, Retains(m), newId, n.Rows(others))
            && Replanning.KeepsAgain(anchors, rows, Retains(m), newId, n.Rows(others))
  {
    hide Merge.Plan, Merge.Rows, Merge.Prior, AnchorsIn, Reconciliation.PlanOf, Reconciliation.HeadEntries, Merge.Ready;
    hide Reapplies, Retains, ChangesStand, Reconciliation.SameFlags, Reconciliation.KeepsContent, Consistent;
    hide Reconciliation.DistinctStored, Reconciliation.Injective, Head, Repeats;
    FirstPlanned(m, repeats, clashes, n, others);
    forall k | 0 <= k < |n.stored|
      ensures n.Rows(others)[k].id == m.Plan(repeats).value.entries[k].id
      ensures var e, row := m.Plan(repeats).value.entries[k], n.Rows(others)[k];
              e.Preserved? ==>
                && e.index < |m.stored|
                && Reconciliation.SameFlags(row, m.Rows(repeats)[e.index])
                && (Reconciliation.KeepsContent(row) <==> Reconciliation.KeepsContent(m.Rows(repeats)[e.index]))
    {
      RowAgainStands(m, repeats, clashes, n, others, k);
    }
  }

  lemma ResultIsValid(m: Merge, repeats: seq<Text>, clashes: seq<Text>, n: Merge, others: seq<Text>)
    requires Reapplies(m, repeats, clashes, n) && Repeats(others, n.read, n.stored, n.context.epoch) && Head(m)
    requires ChangesStand(m, repeats, n, others) && |n.stored| <= Reconciliation.ROWS_LIMIT
    ensures Reconciliation.ValidRows(n.Incoming(others), n.Rows(others))
  {
    ResultShows(m, repeats, clashes, n, others);
    ReadyIsPlanned(m, repeats);
    var rows, reports, again := m.Rows(repeats), m.Incoming(repeats), n.Incoming(others);
    assert |again| == |n.read.messages| == |m.read.messages| == |reports|;
    assert |n.Rows(others)| == |n.stored|;
    NoReportIsOwned(n, others);
    hide Reapplies, AnchorsIn, Merge.Plan, Merge.Rows, Merge.Incoming, Reconciliation.PlanOf, Replanning.Shows;
    hide Replanning.KeepsAgain, ChangesStand, Consistent, Reconciliation.ValidId, Reconciliation.DistinctStored;
    StoredIsValid(reports, rows);
    hide Reconciliation.ValidRows;
    Replanning.ShownIsValid(AnchorsIn(m, repeats), rows, Retains(m), m.context.newId, n.Rows(others));
    AgainIsValid(reports, again, rows, n.Rows(others));
  }

  lemma StoredIsValid(reports: seq<Identity.Row>, rows: seq<Reconciliation.Stored>)
    requires Reconciliation.ValidRows(reports, rows)
    ensures forall p :: 0 <= p < |rows| ==> Reconciliation.ValidId(rows[p].id)
  {
    assert forall p :: 0 <= p < |rows| ==> rows[p] in rows;
  }

  lemma AgainIsValid(reports: seq<Identity.Row>, again: seq<Identity.Row>, rows: seq<Reconciliation.Stored>,
                     shown: seq<Reconciliation.Stored>)
    requires Reconciliation.ValidRows(reports, rows) && |again| == |reports|
    requires forall row :: row in again ==> !row.locallyOwned
    requires Reconciliation.DistinctStored(shown) && forall x :: x in shown ==> Reconciliation.ValidId(x.id)
    requires |shown| <= Reconciliation.ROWS_LIMIT
    ensures Reconciliation.ValidRows(again, shown)
  {
  }

  lemma NoReportIsOwned(n: Merge, others: seq<Text>)
    ensures forall row :: row in n.Incoming(others) ==> !row.locallyOwned
  {
    hide Merge.Suspects;
  }

  /** Every report is known as the row made of it. */
  ghost predicate KnownAgain(m: Merge, repeats: seq<Text>, n: Merge, others: seq<Text>)
    requires n.read == m.read
  {
    Replanning.AllKnown(n.Incoming(others), AnchorsIn(m, repeats), m.Rows(repeats), m.context.newId, n.Rows(others))
  }

  /** The second plan is accepted, and moves nothing exactly when the first is repeatable. */
  lemma SecondPlan(m: Merge, repeats: seq<Text>, clashes: seq<Text>, n: Merge, others: seq<Text>)
    requires Reapplies(m, repeats, clashes, n) && Repeats(others, n.read, n.stored, n.context.epoch) && Head(m)
    requires ChangesStand(m, repeats, n, others) && |n.stored| <= Reconciliation.ROWS_LIMIT
    requires KnownAgain(m, repeats, n, others)
    ensures n.Ready(others)
    ensures Reconciliation.Ids(n.Plan(others).value.entries) == Reconciliation.Ids(m.Plan(repeats).value.entries)
       <==> Reconciliation.Repeatable(AnchorsIn(m, repeats), m.Rows(repeats), Retains(m))
    ensures var anchors, rows, newId := AnchorsIn(m, repeats), m.Rows(repeats), m.context.newId;
            && Reconciliation.Injective(anchors, |rows|)
            && Reconciliation.PlanOf(anchors, rows, false, Retains(m), newId).Ok?
            && Reconciliation.Rematched(anchors, rows, Retains(m), newId, AnchorsIn(n, others), n.Rows(others))
  {
    ResultShows(m, repeats, clashes, n, others);
    ResultIsValid(m, repeats, clashes, n, others);
    ReadyIsPlanned(m, repeats);
    MemoryIsCarried(m, repeats, clashes, n);
    RetiringIsValid(m.Gone(), m.Leavers(repeats, clashes));
    assert n.Gone() == n.retired.value && Head(n) && Retains(n) == Retains(m);
    hide Reapplies, Merge.Plan, Merge.Suspects, Merge.Prior, Reconciliation.PlanOf, Merge.Gone, Retiring;
    hide Reconciliation.HeadEntries, Replanning.AllKnown, Reconciliation.Repeatable, Reconciliation.Rematched;
    hide Merge.Rows, Merge.Incoming, Replanning.Shows, ChangesStand, Consistent, Reconciliation.ValidRows;
    var anchors, rows, shown, incoming := AnchorsIn(m, repeats), m.Rows(repeats), n.Rows(others), n.Incoming(others);
    PlanIsOfAnchors(n, others);
    Replanning.RematchedIffRecognized(incoming, anchors, rows, Retains(m), m.context.newId, shown);
    Reconciliation.PlanningIsAFixedPoint(anchors, rows, Retains(m), m.context.newId, AnchorsIn(n, others), shown,
                                         n.context.newId);
    ReadyIsPlanned(n, others);
  }

  // ----- what leaves -----

  /** A producer ID that nothing blocks, read by one assistant report and spoken for by one stored row, joins them. */
  lemma UnblockedIsMatched(m: Merge, repeats: seq<Text>, i: nat, p: nat, s: Text)
    requires m.Memory().Valid() && Repeats(repeats, m.read, m.stored, m.context.epoch)
    requires i < |m.read.messages| && p < |m.stored| && !m.Suspects(repeats).Blocks(s) && ValidSource(s)
    requires var raw := m.read.messages[i];
             raw.role == Identity.Assistant && raw.origin == Some(Provided) && raw.providedId == Some(s)
    requires SpeaksFor(m.stored[p], m.context.epoch, s) && m.stored[p].role == Identity.Assistant
    ensures AnchorsIn(m, repeats)[i] == Some(p)
  {
    var raw, incoming, rows := m.read.messages[i], m.Incoming(repeats), Reconciliation.Identities(m.Rows(repeats));
    SuspicionIsExact(m, repeats, s);
    assert raw in m.read.messages && !Contradicts(raw, m.stored, m.context.epoch);
    hide Merge.Suspects, Merge.Memory, Fits;
    assert incoming[i] == ReportRow(raw, m.context.epoch, false);
    assert rows[p] == DisplayedRow(m.stored[p]);
    assert Identity.SourceCompatible(incoming[i], rows[p]);
    SoleHolders(m, repeats, i, p, s);
    hide Identity.SourceCompatible, Identity.ShareUniqueKey, Contradicts, RepeatedInRead, RepeatedInRows;
    Identity.SourceRowsMatchExactly(incoming, rows, i, p);
    hide Identity.Matched;
  }

  lemma SoleHolders(m: Merge, repeats: seq<Text>, i: nat, p: nat, s: Text)
    requires i < |m.read.messages| && p < |m.stored| && !m.Suspects(repeats).Blocks(s) && ValidSource(s)
    requires m.read.messages[i].origin == Some(Provided) && m.read.messages[i].providedId == Some(s)
    requires SpeaksFor(m.stored[p], m.context.epoch, s)
    requires !RepeatedInRead(m.read.messages, s) && !RepeatedInRows(m.stored, m.context.epoch, s)
    ensures Identity.ShareUniqueKey(m.Incoming(repeats), Reconciliation.Identities(m.Rows(repeats)), i, p,
                                    Identity.SourceKey)
  {
    var incoming, rows := m.Incoming(repeats), Reconciliation.Identities(m.Rows(repeats));
    var key := Identity.Key(m.context.epoch, Identity.Provided, s);
    hide Merge.Suspects;
    forall k | 0 <= k < |incoming|
      ensures Identity.SourceKey(incoming[k]) == Some(key) <==> k == i
    {
      if Identity.SourceKey(incoming[k]) == Some(key) { assert m.read.messages[k].providedId == Some(s); }
    }
    forall q | 0 <= q < |rows|
      ensures Identity.SourceKey(rows[q]) == Some(key) <==> q == p
    {
      assert rows[q] == DisplayedRow(m.Prior(repeats)[q]);
      if Identity.SourceKey(rows[q]) == Some(key) { assert Application.Names(m.stored[q], m.context.epoch, s); }
    }
  }

  /** A finished row leaves a head only when no assistant report speaks for its producer ID. */
  lemma LeaverIsUnreported(m: Merge, repeats: seq<Text>, clashes: seq<Text>, s: Text, i: nat)
    requires Consistent(m, repeats, clashes) && Applicable(m, repeats, clashes) && Head(m) && i < |m.read.messages|
    requires var raw := m.read.messages[i];
             raw.role == Identity.Assistant && raw.origin == Some(Provided) && raw.providedId == Some(s)
    ensures s !in m.Leavers(repeats, clashes)
  {
    if s in m.Leavers(repeats, clashes) {
      var p := LeaverIsStored(m, repeats, clashes, s);
      assert m.Memory().Valid() && Repeats(repeats, m.read, m.stored, m.context.epoch) && m.Ready(repeats);
      hide *;
      UnblockedIsMatched(m, repeats, i, p, s);
      AnchoredIsShown(m, repeats, clashes, i, p);
    }
  }

  lemma LeaverIsStored(m: Merge, repeats: seq<Text>, clashes: seq<Text>, s: Text) returns (p: nat)
    requires Applicable(m, repeats, clashes) && s in m.Leavers(repeats, clashes)
    ensures ValidSource(s) && !m.Suspects(repeats).Blocks(s)
    ensures p < |m.stored| && m.stored[p].id !in RowIds(m.Messages(repeats, clashes))
    ensures SpeaksFor(m.stored[p], m.context.epoch, s) && m.stored[p].role == Identity.Assistant
  {
    assert m.Ready(repeats) && ValidSource(s);
    hide Merge.Messages, Merge.Suspects, Merge.Memory, Merge.Gone, Merge.Ready, Applicable, Merge.Plan, RowIds;
    hide Retiring, Merge.FinalMemory, Merge.Drafted;
    p := LeavingRow(m.Prior(repeats), RowIds(m.Messages(repeats, clashes)), m.context.epoch, s);
    assert m.Prior(repeats)[p] == Marked(m.stored[p], m.context.epoch, m.Suspects(repeats));
  }

  lemma LeavingRow(prior: seq<Displayed>, kept: set<Text>, epoch: Option<Id>, s: Text) returns (p: nat)
    requires s in LeavingSources(prior, kept, epoch)
    ensures p < |prior| && Leaving(prior[p], kept, epoch) && prior[p].providedId == Some(s)
  {
    var row :| row in prior && Leaving(row, kept, epoch) && row.providedId == Some(s);
    p :| 0 <= p < |prior| && prior[p] == row;
  }

  lemma AnchoredIsShown(m: Merge, repeats: seq<Text>, clashes: seq<Text>, i: nat, p: nat)
    requires m.Ready(repeats) && Head(m) && i < |m.read.messages| && AnchorsIn(m, repeats)[i] == Some(p)
    requires p < |m.stored|
    ensures m.stored[p].id in RowIds(m.Messages(repeats, clashes))
  {
    ReadyIsPlanned(m, repeats);
    var anchors, rows, newId := AnchorsIn(m, repeats), m.Rows(repeats), m.context.newId;
    assert rows[p].id == m.stored[p].id;
    hide Merge.Plan, Merge.Rows, AnchorsIn, Reconciliation.PlanOf, Reconciliation.HeadEntries, Merge.Messages;
    hide Merge.Prior, Merge.Ready;
    Reconciliation.HeadShowsTheRead(anchors, rows, Retains(m), newId);
    var e, entries := Reconciliation.HeadEntry(anchors, rows, newId, i), m.Plan(repeats).value.entries;
    assert e in entries && e.id == m.stored[p].id;
    var k :| 0 <= k < |entries| && entries[k] == e;
    MessagesMatchEntries(m, repeats, clashes);
    Entry(m, repeats, clashes, k);
    assert m.Messages(repeats, clashes)[k] in m.Messages(repeats, clashes);
  }

  /** What the dropped rows leave behind says nothing of the reports. */
  lemma RetiredAgain(m: Merge, repeats: seq<Text>, clashes: seq<Text>, n: Merge, i: nat)
    requires Reapplies(m, repeats, clashes, n) && Head(m) && i < |m.read.messages|
    requires m.read.messages[i].role == Identity.Assistant && m.read.messages[i].origin == Some(Provided)
    ensures Lists(n.Gone().sources, m.read.messages[i]) <==> Lists(m.Gone().sources, m.read.messages[i])
  {
    var raw := m.read.messages[i];
    RetiringIsValid(m.Gone(), m.Leavers(repeats, clashes));
    assert n.Gone() == n.retired.value;
    if raw.providedId.Some? { LeaverIsUnreported(m, repeats, clashes, raw.providedId.value, i); }
    hide Consistent, Merge.Messages, Merge.Leavers, Merge.Gone, Merge.FinalMemory;
  }

  // ----- the second application's rows -----

  /** A row made of a report is made of it again. */
  lemma MadeAgain(m: Merge, repeats: seq<Text>, clashes: seq<Text>, n: Merge, k: nat, e: Weaving.Entry)
    requires Reapplies(m, repeats, clashes, n) && Head(m) && Naming(m.context) && k < |n.stored|
    requires k < |m.Plan(repeats).value.entries| && e == m.Plan(repeats).value.entries[k] && e.History?
    requires e.index < |n.read.messages| && !Fixed(n.stored[k], n.read)
    ensures var final := m.FinalMemory(repeats, clashes);
            Marked(Updated(n.read.messages[e.index], n.stored[k].id, Some(n.stored[k]), n.read, final, n.Gone(),
                           n.context), n.context.epoch, final) == n.stored[k]
  {
    var final, raw := m.FinalMemory(repeats, clashes), m.read.messages[e.index];
    var _ := RowOf(m, repeats, clashes, k);
    EntryIsJoined(m, repeats, e);
    if raw.role == Identity.Assistant && raw.origin == Some(Provided) { RetiredAgain(m, repeats, clashes, n, e.index); }
    var previous, suspects := PreviousOf(m, repeats, e), m.Suspects(repeats);
    assert n.stored[k] == Marked(Updated(raw, e.id, previous, m.read, suspects, m.Gone(), m.context), m.context.epoch,
                                 final);
    assert previous.Some? && Owned(previous.value) ==> raw.role == Identity.User && raw.attribution.None?;
    hide Merge.Plan, Merge.Prior, Merge.Suspects, Merge.FinalMemory, Merge.Gone, Merge.Ready, Merge.Messages;
    hide Merge.Leavers, Retiring, Lists, Naming, Owned, Consistent, Applicable;
    MarkedKeeps(raw, e.id, previous, m.read, suspects, m.Gone(), m.context, final);
    hide Updated;
    UpdatedAgain(raw, e.id, previous, m.read, suspects, m.Gone(), m.context, final, n.Gone(), n.context);
  }

  lemma MarkedKeeps(raw: Report, id: Text, previous: Option<Displayed>, read: Read, memory: Ambiguity,
                    retired: Retired, context: Context, later: Ambiguity)
    ensures var made := Updated(raw, id, previous, read, memory, retired, context);
            var kept := Marked(made, context.epoch, later);
            kept.id == id && (Fixed(kept, read) <==> Fixed(made, read))
  {
    hide References, LivenessOf;
  }

  /**
   * The same head is applied again to its own result: every report is known as the row made of it, rows kept because
   * they changed still count as changed, and the rows are not too many to be read over.
   */
  ghost predicate ReadTwice(m: Merge, repeats: seq<Text>, clashes: seq<Text>, n: Merge, others: seq<Text>) {
    && Reapplies(m, repeats, clashes, n) && Repeats(others, n.read, n.stored, n.context.epoch) && Head(m)
    && Naming(m.context) && |n.stored| <= Reconciliation.ROWS_LIMIT
    && ChangesStand(m, repeats, n, others) && KnownAgain(m, repeats, n, others)
  }

  /** The entry behind a row the second time: the row itself, or the report it was made of. */
  lemma EntryAgain(m: Merge, repeats: seq<Text>, clashes: seq<Text>, n: Merge, others: seq<Text>, k: nat)
    requires ReadTwice(m, repeats, clashes, n, others) && k < |n.stored| && n.Plan(others).Ok?
    requires Reconciliation.Ids(n.Plan(others).value.entries) == Reconciliation.Ids(m.Plan(repeats).value.entries)
    ensures |n.Plan(others).value.entries| == |m.Plan(repeats).value.entries| == |n.stored|
    ensures var e, before := n.Plan(others).value.entries[k], m.Plan(repeats).value.entries[k];
            || e == Weaving.Preserved(k, n.stored[k].id)
            || (before.History? && e == Weaving.History(before.index, Some(k), n.stored[k].id)
                && !Fixed(n.stored[k], n.read))
  {
    SecondPlan(m, repeats, clashes, n, others);
    ResultShows(m, repeats, clashes, n, others);
    ReadyIsPlanned(m, repeats);
    ReadyIsPlanned(n, others);
    PriorAgain(m, repeats, clashes, n, others);
    RowsAre(n, others, k);
    MessagesMatchEntries(m, repeats, clashes);
    assert Retains(n) == Retains(m) && |n.stored| == |m.Plan(repeats).value.entries|;
    var ids := Reconciliation.Ids(n.Plan(others).value.entries);
    assert |ids| == |Reconciliation.Ids(m.Plan(repeats).value.entries)|;
    hide ReadTwice, Merge.Plan, Merge.Rows, Merge.Ready, AnchorsIn, Reconciliation.PlanOf, Reconciliation.HeadEntries;
    hide Reconciliation.Rematched, Replanning.KeepsAgain, Replanning.Shows, Reconciliation.Repeatable;
    Replanning.EntriesAgain(AnchorsIn(m, repeats), m.Rows(repeats), Retains(m), m.context.newId, AnchorsIn(n, others),
                            n.Rows(others), n.context.newId, k);
  }

  lemma DraftAgain(m: Merge, repeats: seq<Text>, clashes: seq<Text>, n: Merge, others: seq<Text>, k: nat)
    requires ReadTwice(m, repeats, clashes, n, others) && k < |n.stored| && n.Ready(others)
    requires Reconciliation.Ids(n.Plan(others).value.entries) == Reconciliation.Ids(m.Plan(repeats).value.entries)
    ensures |n.Drafted(others)| == |n.stored|
    ensures Marked(n.Drafted(others)[k], n.context.epoch, m.FinalMemory(repeats, clashes)) == n.stored[k]
  {
    EntryAgain(m, repeats, clashes, n, others, k);
    SuspicionSettles(m, repeats, clashes, n, others);
    PriorAgain(m, repeats, clashes, n, others);
    PlanIsSound(n, others);
    var e, before := n.Plan(others).value.entries[k], m.Plan(repeats).value.entries[k];
    var _ := RowOf(m, repeats, clashes, k);
    assert n.Drafted(others)[k]
        == Shown(e, n.read, n.Prior(others), n.Suspects(others), n.Gone(), n.context);
    hide Merge.Plan, Merge.Prior, Merge.Suspects, Merge.FinalMemory, Merge.Gone, Merge.Ready, Merge.Drafted;
    hide Merge.Messages, Merge.Leavers, Retiring, Updated, ChangesStand, KnownAgain, Consistent, Applicable;
    if e != Weaving.Preserved(k, n.stored[k].id) {
      MadeAgain(m, repeats, clashes, n, k, before);
    }
  }

  lemma LengthsAgain(m: Merge, repeats: seq<Text>, clashes: seq<Text>, n: Merge, others: seq<Text>)
    requires ReadTwice(m, repeats, clashes, n, others) && n.Ready(others)
    requires Reconciliation.Ids(n.Plan(others).value.entries) == Reconciliation.Ids(m.Plan(repeats).value.entries)
    ensures |n.Drafted(others)| == |n.stored| && Consistent(m, repeats, clashes)
  {
    MessagesMatchEntries(m, repeats, clashes);
    assert |Reconciliation.Ids(n.Plan(others).value.entries)| == |Reconciliation.Ids(m.Plan(repeats).value.entries)|;
    hide Merge.Plan, Merge.Messages, Merge.Suspects, Shown;
  }

  lemma DraftsAgain(m: Merge, repeats: seq<Text>, clashes: seq<Text>, n: Merge, others: seq<Text>)
    requires ReadTwice(m, repeats, clashes, n, others) && n.Ready(others)
    requires Reconciliation.Ids(n.Plan(others).value.entries) == Reconciliation.Ids(m.Plan(repeats).value.entries)
    ensures MarkAll(n.Drafted(others), n.context.epoch, m.FinalMemory(repeats, clashes)) == n.stored
  {
    hide Merge.Plan, Merge.Ready, Merge.Drafted, Marked, Merge.FinalMemory, ReadTwice, Merge.Messages;
    LengthsAgain(m, repeats, clashes, n, others);
    var final, drafted := m.FinalMemory(repeats, clashes), n.Drafted(others);
    forall k | 0 <= k < |n.stored|
      ensures Marked(drafted[k], n.context.epoch, final) == n.stored[k]
    {
      DraftAgain(m, repeats, clashes, n, others, k);
    }
  }

  /** Nothing clashes that did not, so the memory ends as it began. */
  lemma MemoryAgain(m: Merge, repeats: seq<Text>, clashes: seq<Text>, n: Merge, others: seq<Text>,
                    collisions: seq<Text>)
    requires ReadTwice(m, repeats, clashes, n, others) && n.Ready(others)
    requires Clashes(collisions, n.Drafted(others), n.context.epoch)
    requires Reconciliation.Ids(n.Plan(others).value.entries) == Reconciliation.Ids(m.Plan(repeats).value.entries)
    ensures n.FinalMemory(others, collisions) == m.FinalMemory(repeats, clashes)
  {
    var final, drafted, epoch := m.FinalMemory(repeats, clashes), n.Drafted(others), n.context.epoch;
    SuspicionSettles(m, repeats, clashes, n, others);
    MemoryIsCarried(m, repeats, clashes, n);
    DraftsAgain(m, repeats, clashes, n, others);
    assert n.stored == m.Messages(repeats, clashes) && epoch == m.context.epoch && Consistent(m, repeats, clashes);
    hide Merge.Plan, Merge.Ready, Merge.Drafted, Merge.Messages, ReadTwice, Merge.Leavers, Merge.Memory, Reapplies;
    hide Consistent, RepeatedInRows, Merge.Suspects, MarkAll;
    forall s | s in collisions
      ensures final.Blocks(s)
    {
      MarkedRepeats(drafted, epoch, final, s);
      RepeatedIsBlocked(m, repeats, clashes, s);
    }
    RememberKnown(final, collisions);
  }

  lemma MessagesAgain(m: Merge, repeats: seq<Text>, clashes: seq<Text>, n: Merge, others: seq<Text>,
                      collisions: seq<Text>)
    requires ReadTwice(m, repeats, clashes, n, others) && n.Ready(others)
    requires Clashes(collisions, n.Drafted(others), n.context.epoch)
    requires Reconciliation.Ids(n.Plan(others).value.entries) == Reconciliation.Ids(m.Plan(repeats).value.entries)
    ensures n.FinalMemory(others, collisions) == m.FinalMemory(repeats, clashes)
    ensures n.Messages(others, collisions) == n.stored
  {
    hide Merge.Plan, Merge.Ready, Merge.Drafted, Merge.Messages, ReadTwice, Merge.FinalMemory, Clashes;
    MemoryAgain(m, repeats, clashes, n, others, collisions);
    DraftsAgain(m, repeats, clashes, n, others);
    MessagesAre(n, others, collisions);
  }

  lemma NothingLeaves(rows: seq<Displayed>, epoch: Option<Id>)
    ensures LeavingSources(rows, RowIds(rows), epoch) == []
  {
    EmptyOrHeaded(LeavingSources(rows, RowIds(rows), epoch));
  }

  lemma NothingRetires(memory: Retired)
    requires memory.Valid()
    ensures Retiring(memory, []) == Some(memory)
  {
  }

  /** Different IDs are different rows. */
  lemma IdsAreShown(m: Merge, repeats: seq<Text>, clashes: seq<Text>, n: Merge, others: seq<Text>,
                    collisions: seq<Text>)
    requires m.Ready(repeats) && n.Ready(others)
    requires n.Messages(others, collisions) == m.Messages(repeats, clashes)
    ensures Reconciliation.Ids(n.Plan(others).value.entries) == Reconciliation.Ids(m.Plan(repeats).value.entries)
  {
    MessagesMatchEntries(m, repeats, clashes);
    MessagesMatchEntries(n, others, collisions);
    var first, second := m.Plan(repeats).value.entries, n.Plan(others).value.entries;
    hide Merge.Plan, Merge.Ready, Merge.Messages;
    forall k | 0 <= k < |first|
      ensures second[k].id == first[k].id
    {
      Entry(m, repeats, clashes, k);
      Entry(n, others, collisions, k);
    }
  }

  /**
   * Applying a head again to its own result, with anchors found anew and the memories carried over, shows the same rows
   * exactly when no row stood only by the retained prefix, or the first report had been matched. Then both memories
   * stay as they are as well, and no resource is let go.
   */
  lemma ReapplyingIsAFixedPoint(m: Merge, repeats: seq<Text>, clashes: seq<Text>, n: Merge, others: seq<Text>,
                                collisions: seq<Text>)
    requires ReadTwice(m, repeats, clashes, n, others) && Consistent(n, others, collisions)
    ensures n.Messages(others, collisions) == m.Messages(repeats, clashes)
       <==> Reconciliation.Repeatable(AnchorsIn(m, repeats), m.Rows(repeats), Retains(m))
    ensures n.Messages(others, collisions) == m.Messages(repeats, clashes) ==>
              && Applicable(n, others, collisions)
              && var first, second := Applied(m, repeats, clashes), Applied(n, others, collisions);
                 && second.messages == first.messages && second.ambiguity == first.ambiguity
                 && second.retired == first.retired && second.retiring == {}
  {
    SecondPlan(m, repeats, clashes, n, others);
    if Reconciliation.Ids(n.Plan(others).value.entries) == Reconciliation.Ids(m.Plan(repeats).value.entries) {
      MessagesAgain(m, repeats, clashes, n, others, collisions);
      PriorAgain(m, repeats, clashes, n, others);
      RetiringIsValid(m.Gone(), m.Leavers(repeats, clashes));
      assert n.Gone() == n.retired.value && n.stored == m.Messages(repeats, clashes);
      NothingLeaves(n.stored, n.context.epoch);
      NothingRetires(n.Gone());
      hide Merge.Messages, Merge.Plan, Merge.Ready, Merge.Prior, Merge.FinalMemory, Merge.Gone, Retiring;
      hide Merge.Drafted, ChangesStand, KnownAgain, LeavingSources;
    } else {
      hide Merge.Messages, Merge.Plan, Merge.Ready;
      if n.Messages(others, collisions) == m.Messages(repeats, clashes) {
        IdsAreShown(m, repeats, clashes, n, others, collisions);
      }
    }
  }
}
