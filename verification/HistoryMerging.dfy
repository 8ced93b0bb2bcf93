/** What applying reads guarantees: to rows of the user, to producer IDs, and to finished rows, over any run of them. */
module HistoryMerging {
  import opened Wrappers
  import opened HistoryTypes
  import opened HistoryMemories
  import opened HistoryApplication
  import Identity = HistoryIdentity
  import Weaving = HistoryWeave
  import Reconciliation = HistoryReconciliation

  // ----- where each row comes from -----

  /** The stored row an entry shows. */
  function StoredOf(e: Weaving.Entry): Option<nat> {
    match e
    case Preserved(p, _) => Some(p)
    case History(_, previous, _) => previous
  }

  /** How a row of the result stands to the stored row it shows. */
  predicate Continues(row: Displayed, was: Displayed) {
    && row.id == was.id
    && (Owned(row) <==> Owned(was))
    && (Owned(was) ==> row.media == was.media || was.media == [])
    && (was.liveness == Some(Terminal) ==> row.liveness == Some(Terminal))
  }

  /** What the plan says of an entry, in terms of the stored rows. */
  ghost predicate Joined(m: Merge, repeats: seq<Text>, e: Weaving.Entry) {
    && Sound(e, m.read, m.Prior(repeats))
    && (StoredOf(e).Some? ==> e.id == m.stored[StoredOf(e).value].id)
    && (StoredOf(e).None? ==> forall p :: 0 <= p < |m.stored| ==> m.stored[p].id != e.id)
    && (e.History? && e.previous.Some? && Owned(m.Prior(repeats)[e.previous.value]) ==>
          m.read.messages[e.index].role == Identity.User && m.read.messages[e.index].attribution.None?)
  }

  lemma EntryIsTraceable(m: Merge, repeats: seq<Text>, e: Weaving.Entry)
    requires m.Plan(repeats).Ok? && e in m.Plan(repeats).value.entries
    ensures Reconciliation.Traceable(m.Incoming(repeats), m.Rows(repeats), e)
  {
    hide Reconciliation.Traceable, Reconciliation.Planned, Merge.Incoming, Merge.Rows;
    Reconciliation.PlannedEntries(m.Incoming(repeats), m.Rows(repeats), m.context.earlier && m.read.byCursor,
                                  m.read.hasMore == Some(true), m.context.newId);
  }

  lemma RowsAreStored(m: Merge, repeats: seq<Text>)
    ensures |m.Rows(repeats)| == |m.stored| && |m.Incoming(repeats)| == |m.read.messages|
    ensures forall p :: 0 <= p < |m.stored| ==> m.Rows(repeats)[p].id == m.stored[p].id
  {
    hide Merge.Suspects;
  }

  lemma EntryIsJoined(m: Merge, repeats: seq<Text>, e: Weaving.Entry)
    requires m.Plan(repeats).Ok? && e in m.Plan(repeats).value.entries
    ensures Joined(m, repeats, e)
  {
    EntryIsTraceable(m, repeats, e);
    var rows := m.Rows(repeats);
    RowsAreStored(m, repeats);
    hide Merge.Plan, Merge.Suspects, Identity.Matched, Merge.Prior, Merge.Rows, Merge.Incoming;
    if e.History? && e.previous.Some? && Owned(m.Prior(repeats)[e.previous.value]) {
      EchoIsTheUsers(m, repeats, e.index, e.previous.value);
    } else {
      assert StoredOf(e).None? ==> !Reconciliation.StoredId(rows, e.id);
    }
  }

  /** Only an unattributed user row of the read is ever taken for a row of the user's own. */
  lemma EchoIsTheUsers(m: Merge, repeats: seq<Text>, i: nat, p: nat)
    requires i < |m.read.messages| && p < |m.stored| && Owned(m.Prior(repeats)[p])
    requires var found := Identity.Matched(m.Incoming(repeats), Reconciliation.Identities(m.Rows(repeats)), i);
             found.Some? && found.value.storedIndex == p
    ensures m.read.messages[i].role == Identity.User && m.read.messages[i].attribution.None?
  {
    var incoming, rows := m.Incoming(repeats), m.Rows(repeats);
    Identity.MatchingIsSound(incoming, Reconciliation.Identities(rows), i);
    hide Identity.Matched, Identity.ShareUniqueKey, Identity.SourceCompatible, Merge.Suspects;
    assert rows[p].identity == DisplayedRow(m.Prior(repeats)[p]);
    var blocked := Blocked(m.Suspects(repeats), m.read.messages[i].providedId);
    assert incoming[i] == ReportRow(m.read.messages[i], m.context.epoch, blocked);
  }

  /**
   * Ownership is never granted to a new row, and never lost or gained by a stored one: only exact evidence joins a row
   * to one of the user's.
   */
  lemma EntryContinues(m: Merge, repeats: seq<Text>, e: Weaving.Entry)
    requires m.Ready(repeats) && e in m.Plan(repeats).value.entries
    ensures Sound(e, m.read, m.Prior(repeats))
    ensures var row := Shown(e, m.read, m.Prior(repeats), m.Suspects(repeats), m.Gone(), m.context);
            && row.id == e.id
            && (StoredOf(e).Some? ==> Continues(row, m.stored[StoredOf(e).value]))
            && (StoredOf(e).None? ==> !Owned(row) && forall p :: 0 <= p < |m.stored| ==> m.stored[p].id != e.id)
  {
    EntryIsJoined(m, repeats, e);
    hide Merge.Plan, Merge.Ready, Merge.Suspects, Merge.Gone, References, LivenessOf;
    if e.History? && e.previous.Some? {
      MatchedContinues(m, repeats, e);
    }
  }

  lemma MatchedContinues(m: Merge, repeats: seq<Text>, e: Weaving.Entry)
    requires Joined(m, repeats, e) && e.History? && e.previous.Some?
    ensures Continues(Shown(e, m.read, m.Prior(repeats), m.Suspects(repeats), m.Gone(), m.context),
                      m.stored[e.previous.value])
  {
    var was, raw := m.Prior(repeats)[e.previous.value], m.read.messages[e.index];
    hide Merge.Suspects, Merge.Memory, Merge.Gone, Blocked, ReferenceFor;
  }

  // ----- the user's own rows -----

  ghost function OwnedIds(rows: seq<Displayed>): set<Text> {
    set r | r in rows && Owned(r) :: r.id
  }

  lemma Entry(m: Merge, repeats: seq<Text>, clashes: seq<Text>, k: nat)
    requires m.Ready(repeats) && k < |m.Plan(repeats).value.entries|
    ensures |m.Messages(repeats, clashes)| == |m.Plan(repeats).value.entries|
    ensures var e, row := m.Plan(repeats).value.entries[k], m.Messages(repeats, clashes)[k];
            && row.id == e.id
            && (StoredOf(e).Some? ==> StoredOf(e).value < |m.stored| && Continues(row, m.stored[StoredOf(e).value]))
            && (StoredOf(e).None? ==> !Owned(row) && forall p :: 0 <= p < |m.stored| ==> m.stored[p].id != e.id)
  {
    EntryContinues(m, repeats, m.Plan(repeats).value.entries[k]);
    hide Merge.Plan, Merge.Suspects, Merge.Gone, Shown, Merge.FinalMemory, Merge.Memory;
  }

  lemma OwnedRowIsPlanned(m: Merge, repeats: seq<Text>, p: nat)
    requires m.Plan(repeats).Ok? && p < |m.stored| && Owned(m.stored[p])
    ensures exists e :: e in m.Plan(repeats).value.entries && e.id == m.stored[p].id
  {
    var rows := m.Rows(repeats);
    assert rows[p].identity.locallyOwned && rows[p].id == m.stored[p].id;
    hide Merge.Rows, Merge.Suspects, Reconciliation.Planned;
    Reconciliation.FlaggedStays(m.Incoming(repeats), rows, m.context.earlier && m.read.byCursor,
                                m.read.hasMore == Some(true), m.context.newId, p);
  }

  /** A row of the user's own is in every result, under its own ID. */
  lemma OwnedRowStays(m: Merge, repeats: seq<Text>, clashes: seq<Text>, p: nat) returns (k: nat)
    requires m.Ready(repeats) && p < |m.stored| && Owned(m.stored[p])
    ensures k < |m.Messages(repeats, clashes)| && Continues(m.Messages(repeats, clashes)[k], m.stored[p])
  {
    hide Reconciliation.Planned, Merge.Suspects, Merge.Messages;
    StoredIdsAreDistinct(m, repeats);
    OwnedRowIsPlanned(m, repeats, p);
    var entries := m.Plan(repeats).value.entries;
    hide Merge.Messages, Merge.Plan, Merge.Ready, Owned;
    var e :| e in entries && e.id == m.stored[p].id;
    k :| 0 <= k < |entries| && entries[k] == e;
    Entry(m, repeats, clashes, k);
    assert StoredOf(e).Some? && m.stored[StoredOf(e).value].id == m.stored[p].id;
  }

  lemma StoredIdsAreDistinct(m: Merge, repeats: seq<Text>)
    requires m.Plan(repeats).Ok?
    ensures forall p, q :: 0 <= p < q < |m.stored| ==> m.stored[p].id != m.stored[q].id
  {
    var rows := m.Rows(repeats);
    assert forall p :: 0 <= p < |rows| ==> rows[p].id == m.stored[p].id;
    assert Reconciliation.ValidRows(m.Incoming(repeats), rows);
    hide Reconciliation.PlanOf;
    forall p, q | 0 <= p < q < |m.stored|
      ensures m.stored[p].id != m.stored[q].id
    {
      assert rows[p].id != rows[q].id;
    }
  }

  /** Applying a read never changes which rows are the user's own. */
  lemma OwnershipIsInvariant(m: Merge, repeats: seq<Text>, clashes: seq<Text>)
    requires m.Ready(repeats)
    ensures OwnedIds(m.Messages(repeats, clashes)) == OwnedIds(m.stored)
  {
    var messages := m.Messages(repeats, clashes);
    hide Merge.Messages, Merge.Ready, Merge.Plan, Owned;
    forall id | id in OwnedIds(messages)
      ensures id in OwnedIds(m.stored)
    {
      var row :| row in messages && Owned(row) && row.id == id;
      var k :| 0 <= k < |messages| && messages[k] == row;
      MessagesMatchEntries(m, repeats, clashes);
      Entry(m, repeats, clashes, k);
      var from := StoredOf(m.Plan(repeats).value.entries[k]);
      assert m.stored[from.value] in m.stored;
    }
    forall id | id in OwnedIds(m.stored)
      ensures id in OwnedIds(messages)
    {
      var row :| row in m.stored && Owned(row) && row.id == id;
      var p :| 0 <= p < |m.stored| && m.stored[p] == row;
      var k := OwnedRowStays(m, repeats, clashes, p);
      assert messages[k] in messages;
    }
  }

  lemma MessagesMatchEntries(m: Merge, repeats: seq<Text>, clashes: seq<Text>)
    requires m.Ready(repeats)
    ensures |m.Messages(repeats, clashes)| == |m.Plan(repeats).value.entries|
  {
    hide Merge.Plan, Merge.Suspects, Merge.Gone, Shown, Merge.FinalMemory, Merge.Memory;
  }

  /** Every row of the result has its own ID. */
  lemma ResultIdsAreDistinct(m: Merge, repeats: seq<Text>, clashes: seq<Text>, i: nat, j: nat)
    requires m.Ready(repeats) && i < j < |m.Messages(repeats, clashes)|
    ensures m.Messages(repeats, clashes)[i].id != m.Messages(repeats, clashes)[j].id
  {
    Reconciliation.PlannedEntries(m.Incoming(repeats), m.Rows(repeats), m.context.earlier && m.read.byCursor,
                                  m.read.hasMore == Some(true), m.context.newId);
    MessagesMatchEntries(m, repeats, clashes);
    assert Weaving.DistinctEntries(m.Plan(repeats).value.entries);
    hide Merge.Messages, Merge.Ready, Merge.Plan;
    Entry(m, repeats, clashes, i);
    Entry(m, repeats, clashes, j);
  }

  /** No file that a row of the user's own still needs is ever released. */
  lemma OwnedFilesAreKept(m: Merge, repeats: seq<Text>, clashes: seq<Text>, p: nat, x: Id)
    requires Applicable(m, repeats, clashes) && p < |m.stored| && Owned(m.stored[p]) && x in Strong(m.stored[p].media)
    ensures x !in Applied(m, repeats, clashes).retiring
  {
    var messages := m.Messages(repeats, clashes);
    hide Merge.Messages, Merge.Ready, Merge.Plan, Owned, Merge.Leavers;
    var k := OwnedRowStays(m, repeats, clashes, p);
    assert messages[k] in messages && x in Strong(messages[k].media);
  }

  // ----- producer IDs -----

  /** A row of this epoch speaks for a producer ID. */
  ghost predicate Authoritative(rows: seq<Displayed>, epoch: Option<Id>, source: Text) {
    exists k :: 0 <= k < |rows| && SpeaksFor(rows[k], epoch, source)
  }

  predicate SpeaksFor(row: Displayed, epoch: Option<Id>, source: Text) {
    row.epoch == epoch && row.origin == Some(Provided) && row.providedId == Some(source)
  }

  /** What the application finds suspicious. */
  ghost function Found(m: Merge, repeats: seq<Text>, clashes: seq<Text>): seq<Text> {
    AmbiguousStored(m.stored, m.context.epoch) + AmbiguousReports(m.read.messages) + repeats
    + Contradictions(m.read.messages, m.stored, m.context.epoch) + clashes
  }

  lemma FinalMemoryIs(m: Merge, repeats: seq<Text>, clashes: seq<Text>)
    ensures m.FinalMemory(repeats, clashes) == RememberAll(m.Memory(), Found(m, repeats, clashes))
  {
    RememberJoins(m.Memory(), AmbiguousStored(m.stored, m.context.epoch) + AmbiguousReports(m.read.messages) + repeats
                              + Contradictions(m.read.messages, m.stored, m.context.epoch), clashes);
  }

  /** There is evidence against a producer ID in the read, in the stored rows, between them, or in the result. */
  ghost predicate Suspicious(m: Merge, repeats: seq<Text>, s: Text)
    requires m.Ready(repeats)
  {
    || (exists r ::
          r in m.stored && r.epoch == m.context.epoch && r.origin == Some(AmbiguousProvided) && r.providedId == Some(s))
    || (exists r :: r in m.read.messages && r.origin == Some(AmbiguousProvided) && r.providedId == Some(s))
    || RepeatedInRead(m.read.messages, s) || RepeatedInRows(m.stored, m.context.epoch, s)
    || (exists r :: r in m.read.messages && r.providedId == Some(s) && Contradicts(r, m.stored, m.context.epoch))
    || RepeatedInRows(m.Drafted(repeats), m.context.epoch, s)
  }

  ghost predicate Consistent(m: Merge, repeats: seq<Text>, clashes: seq<Text>) {
    m.Ready(repeats) && Repeats(repeats, m.read, m.stored, m.context.epoch)
    && Clashes(clashes, m.Drafted(repeats), m.context.epoch)
  }

  lemma FoundIsSuspicious(m: Merge, repeats: seq<Text>, clashes: seq<Text>, s: Text)
    requires Consistent(m, repeats, clashes)
    ensures s in Found(m, repeats, clashes) <==> Suspicious(m, repeats, s)
  {
    hide Merge.Drafted, Merge.Ready, RepeatedInRows, RepeatedInRead, Contradicts;
    assert s in Found(m, repeats, clashes) <==>
      s in AmbiguousStored(m.stored, m.context.epoch) || s in AmbiguousReports(m.read.messages) || s in repeats
      || s in Contradictions(m.read.messages, m.stored, m.context.epoch) || s in clashes;
  }

  /**
   * A producer ID is blocked afterwards exactly when it was before, there is evidence against it, or the memory can no
   * longer hold all it must. The memory keeps its limit and forgets nothing.
   */
  lemma BlockingIsExact(m: Merge, repeats: seq<Text>, clashes: seq<Text>, s: Text)
    requires Consistent(m, repeats, clashes)
    ensures m.FinalMemory(repeats, clashes).Blocks(s)
       <==> m.Memory().Blocks(s) || Suspicious(m, repeats, s) || !Fits(m.Memory(), Found(m, repeats, clashes))
    ensures m.FinalMemory(repeats, clashes).Valid() && m.Memory().sources <= m.FinalMemory(repeats, clashes).sources
  {
    FinalMemoryIs(m, repeats, clashes);
    FoundIsSuspicious(m, repeats, clashes, s);
    FoundIsBlocked(m.Memory(), Found(m, repeats, clashes), s);
    MemoryIsExact(m.Memory(), Found(m, repeats, clashes));
  }

  /** No row of the result speaks for a blocked producer ID. */
  lemma BlockedHasNoAuthority(m: Merge, repeats: seq<Text>, clashes: seq<Text>, s: Text)
    requires m.Ready(repeats) && m.FinalMemory(repeats, clashes).Blocks(s)
    ensures !Authoritative(m.Messages(repeats, clashes), m.context.epoch, s)
  {
    hide Merge.Drafted, Merge.Ready, Merge.FinalMemory;
  }

  /** No two rows of the result speak for one producer ID. */
  lemma AuthorityIsUnique(m: Merge, repeats: seq<Text>, clashes: seq<Text>, s: Text, i: nat, j: nat)
    requires Consistent(m, repeats, clashes) && i < j < |m.Messages(repeats, clashes)|
    ensures !(SpeaksFor(m.Messages(repeats, clashes)[i], m.context.epoch, s)
              && SpeaksFor(m.Messages(repeats, clashes)[j], m.context.epoch, s))
  {
    var drafted, rows := m.Drafted(repeats), m.Messages(repeats, clashes);
    if SpeaksFor(rows[i], m.context.epoch, s) && SpeaksFor(rows[j], m.context.epoch, s) {
      assert Names(drafted[i], m.context.epoch, s) && Names(drafted[j], m.context.epoch, s);
      assert RepeatedInRows(drafted, m.context.epoch, s);
      BlockingIsExact(m, repeats, clashes, s);
      BlockedHasNoAuthority(m, repeats, clashes, s);
      assert false;
    }
  }

  lemma SuspectsStayBlocked(m: Merge, repeats: seq<Text>, clashes: seq<Text>, s: Text)
    requires m.Memory().Valid() && m.Suspects(repeats).Blocks(s)
    ensures m.FinalMemory(repeats, clashes).Blocks(s)
  {
    var found := AmbiguousStored(m.stored, m.context.epoch) + AmbiguousReports(m.read.messages) + repeats
                 + Contradictions(m.read.messages, m.stored, m.context.epoch);
    MemoryGrows(m.Memory(), found);
    MemoryGrows(m.Suspects(repeats), clashes);
  }

  /** A stored row that was matched is of this epoch. */
  lemma MatchedEpoch(m: Merge, repeats: seq<Text>, e: Weaving.Entry)
    requires m.Ready(repeats) && e in m.Plan(repeats).value.entries && e.History? && e.previous.Some?
    ensures e.previous.value < |m.stored| && m.Prior(repeats)[e.previous.value].epoch == m.context.epoch
    ensures e.index < |m.read.messages|
  {
    EntryIsTraceable(m, repeats, e);
    var incoming, rows := m.Incoming(repeats), m.Rows(repeats);
    hide Merge.Plan, Merge.Ready, Merge.Suspects;
    Identity.MatchingIsSound(incoming, Reconciliation.Identities(rows), e.index);
    hide Identity.Matched, Identity.ShareUniqueKey;
    assert rows[e.previous.value].identity == DisplayedRow(m.Prior(repeats)[e.previous.value]);
  }

  /** The entry behind a row of the result, and the row in terms of it. */
  lemma RowOf(m: Merge, repeats: seq<Text>, clashes: seq<Text>, k: nat) returns (e: Weaving.Entry)
    requires m.Ready(repeats) && k < |m.Messages(repeats, clashes)|
    ensures k < |m.Plan(repeats).value.entries| && e == m.Plan(repeats).value.entries[k]
    ensures Sound(e, m.read, m.Prior(repeats))
    ensures m.Messages(repeats, clashes)[k]
         == Marked(Shown(e, m.read, m.Prior(repeats), m.Suspects(repeats), m.Gone(), m.context), m.context.epoch,
                   m.FinalMemory(repeats, clashes))
  {
    PlanIsSound(m, repeats);
    e := m.Plan(repeats).value.entries[k];
    hide Merge.Plan, Merge.Suspects, Merge.Gone, Merge.FinalMemory, Shown;
  }

  // ----- finished rows -----

  /** A finished assistant row of this epoch that spoke for an unsuspected producer ID. */
  predicate Finished(row: Displayed, epoch: Option<Id>, source: Text) {
    SpeaksFor(row, epoch, source) && row.role == Identity.Assistant && !row.local && row.liveness == Some(Terminal)
  }

  /**
   * What a dropped finished row leaves behind. Its producer ID is remembered exactly when it was already, or when
   * nothing in the memory, the read or the stored rows blocks it; the row of an ID that this read blocks is forgotten.
   */
  lemma DroppedSourcesAreRetired(m: Merge, repeats: seq<Text>, clashes: seq<Text>)
    requires Applicable(m, repeats, clashes)
    ensures var p := Applied(m, repeats, clashes);
            && p.retired.Valid() && p.retired.epoch == m.context.epoch && m.Gone().sources <= p.retired.sources
            && (forall row, s | row in m.stored && Finished(row, m.context.epoch, s) && row.id !in RowIds(p.messages) ::
                  s in p.retired.sources <==> s in m.Gone().sources || !m.Suspects(repeats).Blocks(s))
  {
    var p := Applied(m, repeats, clashes);
    RetiringIsValid(m.Gone(), m.Leavers(repeats, clashes));
    hide Merge.Messages, Merge.Ready, Merge.Suspects, Retiring;
    forall row, s | row in m.stored && Finished(row, m.context.epoch, s) && row.id !in RowIds(p.messages)
      ensures s in p.retired.sources <==> s in m.Gone().sources || !m.Suspects(repeats).Blocks(s)
    {
      var k :| 0 <= k < |m.stored| && m.stored[k] == row;
      if m.Suspects(repeats).Blocks(s) {
        BlockedIsNotLeaving(m, repeats, clashes, s);
      } else {
        assert m.Prior(repeats)[k] == row;
        assert row in m.Prior(repeats) && Leaving(row, RowIds(p.messages), m.context.epoch)
               && row.providedId == Some(s);
        assert s in m.Leavers(repeats, clashes);
      }
    }
  }

  lemma BlockedIsNotLeaving(m: Merge, repeats: seq<Text>, clashes: seq<Text>, s: Text)
    requires m.Ready(repeats) && m.Suspects(repeats).Blocks(s)
    ensures s !in m.Leavers(repeats, clashes)
  {
    var prior := m.Prior(repeats);
    hide Merge.Messages, Merge.Ready, Merge.Suspects;
    forall row | row in prior && row.epoch == m.context.epoch && row.providedId == Some(s)
      ensures row.origin == Some(AmbiguousProvided)
    {
      var k :| 0 <= k < |prior| && prior[k] == row;
      assert row == Marked(m.stored[k], m.context.epoch, m.Suspects(repeats));
    }
  }

  /** What blocks a producer ID before the rows are planned: the memory, the read, the stored rows, or want of room. */
  lemma SuspicionIsExact(m: Merge, repeats: seq<Text>, s: Text)
    requires m.Memory().Valid() && Repeats(repeats, m.read, m.stored, m.context.epoch)
    ensures var found := AmbiguousStored(m.stored, m.context.epoch) + AmbiguousReports(m.read.messages) + repeats
                         + Contradictions(m.read.messages, m.stored, m.context.epoch);
            m.Suspects(repeats).Blocks(s) <==>
              (|| m.Memory().Blocks(s) || !Fits(m.Memory(), found)
               || (exists r ::
                     r in m.stored && r.epoch == m.context.epoch && r.origin == Some(AmbiguousProvided)
                     && r.providedId == Some(s))
               || (exists r :: r in m.read.messages && r.origin == Some(AmbiguousProvided) && r.providedId == Some(s))
               || RepeatedInRead(m.read.messages, s) || RepeatedInRows(m.stored, m.context.epoch, s)
               || (exists r ::
                     r in m.read.messages && r.providedId == Some(s) && Contradicts(r, m.stored, m.context.epoch)))
  {
    var found := AmbiguousStored(m.stored, m.context.epoch) + AmbiguousReports(m.read.messages) + repeats
                 + Contradictions(m.read.messages, m.stored, m.context.epoch);
    FoundIsBlocked(m.Memory(), found, s);
    hide RepeatedInRows, RepeatedInRead, Contradicts, Fits;
    assert s in found <==>
      s in AmbiguousStored(m.stored, m.context.epoch) || s in AmbiguousReports(m.read.messages) || s in repeats
      || s in Contradictions(m.read.messages, m.stored, m.context.epoch);
  }

  /** A complete head that reports one producer ID twice, over a stored finished row of that ID. */
  function TwiceReported(row: Displayed, raw: Report, context: Context): Merge {
    Merge(Read([raw, raw], Some(false), false, None, None), [row], context, None, None)
  }

  predicate PlainReport(raw: Report, s: Text) {
    raw.role == Identity.Assistant && raw.origin == Some(Provided) && raw.providedId == Some(s) && raw.position.None?
  }

  /** The input that shows it: the finished row is dropped, its producer ID blocked, and nothing remembers it. */
  lemma RepetitionForgets(row: Displayed, raw: Report, s: Text, context: Context)
    requires Finished(row, context.epoch, s) && !row.streaming && PlainReport(raw, s) && ValidSource(s)
    requires !context.earlier && context.snapshot == map[row.id := row]
    requires Reconciliation.ValidId(row.id) && Reconciliation.ValidId(context.newId(0))
             && Reconciliation.ValidId(context.newId(1))
    requires context.newId(0) != context.newId(1) && row.id !in {context.newId(0), context.newId(1)}
    ensures var m := TwiceReported(row, raw, context);
            && Applicable(m, [s], [s])
            && var p := Applied(m, [s], [s]);
               row.id !in RowIds(p.messages) && p.ambiguity.Blocks(s) && s !in p.retired.sources
  {
    var m := TwiceReported(row, raw, context);
    TwiceIsSuspect(m, s);
    var incoming, rows := m.Incoming([s]), m.Rows([s]);
    TwiceIsPlanned(m, s, incoming, rows);
    var anchors := Reconciliation.AnchorsOf(incoming, rows);
    Reconciliation.AnchorsAreInjective(incoming, rows);
    TwiceDrops(m, s, rows, anchors);
    BlockedIsNotLeaving(m, [s], [s], s);
    TwiceLeavesNothing(m, s);
    SuspicionStays(m, s);
  }

  lemma TwiceIsSuspect(m: Merge, s: Text)
    requires m.ambiguity.None? && |m.stored| == 1 && Finished(m.stored[0], m.context.epoch, s)
    ensures m.Memory().Valid() && (m.retired.None? ==> m.Gone().Valid())
    ensures m.Suspects([s]).Blocks(s)
  {
    var before := AmbiguousStored(m.stored, m.context.epoch) + AmbiguousReports(m.read.messages);
    var after := Contradictions(m.read.messages, m.stored, m.context.epoch);
    FoundIsBlocked(m.Memory(), before + [s] + after, s);
    hide AmbiguousStored, AmbiguousReports, Contradictions;
    assert s in before + [s] + after;
  }

  /** Blocked reports without positions match nothing. */
  lemma TwiceIsPlanned(m: Merge, s: Text, incoming: seq<Identity.Row>, rows: seq<Reconciliation.Stored>)
    requires |m.read.messages| == 2 && |m.stored| == 1 && incoming == m.Incoming([s]) && rows == m.Rows([s])
    requires forall raw :: raw in m.read.messages ==> PlainReport(raw, s)
    requires m.Suspects([s]).Blocks(s) && Reconciliation.ValidId(m.stored[0].id)
    ensures Reconciliation.AnchorsOf(incoming, rows) == [None, None]
    ensures Reconciliation.ValidRows(incoming, rows)
  {
    hide Merge.Suspects;
    forall i | 0 <= i < 2
      ensures Identity.SourceKey(incoming[i]).None? && Identity.SendKey(incoming[i]).None? && !incoming[i].locallyOwned
    {
      assert m.read.messages[i] in m.read.messages;
      assert incoming[i] == ReportRow(m.read.messages[i], m.context.epoch, true);
    }
  }

  lemma TwiceDrops(m: Merge, s: Text, rows: seq<Reconciliation.Stored>, anchors: Reconciliation.Anchors)
    requires |m.stored| == 1 && |m.read.messages| == 2 && m == TwiceReported(m.stored[0], m.read.messages[0], m.context)
    requires rows == m.Rows([s]) && !m.context.earlier
    requires anchors == Reconciliation.AnchorsOf(m.Incoming([s]), rows) == [None, None]
    requires Reconciliation.ValidRows(m.Incoming([s]), rows) && Reconciliation.Injective(anchors, 1)
    requires m.context.snapshot == map[m.stored[0].id := m.stored[0]] && !m.stored[0].streaming && !m.stored[0].local
    requires Reconciliation.ValidId(m.context.newId(0)) && Reconciliation.ValidId(m.context.newId(1))
    requires m.context.newId(0) != m.context.newId(1) && m.stored[0].id !in {m.context.newId(0), m.context.newId(1)}
    ensures m.Ready([s]) || !(m.Memory().Valid() && m.Gone().Valid())
    ensures m.Ready([s]) ==> m.stored[0].id !in RowIds(m.Messages([s], [s]))
  {
    hide Merge.Suspects;
    var newId := m.context.newId;
    assert rows[0].id == m.stored[0].id && !rows[0].changedAfterRead && !rows[0].preserveWhenAbsent
           && !rows[0].identity.locallyOwned;
    assert Reconciliation.Drawn(anchors, 0) == 0 && Reconciliation.Drawn(anchors, 1) == 1;
    assert Reconciliation.FreshIds(anchors, rows, newId, 2);
    assert Reconciliation.PlanOf(anchors, rows, false, false, newId).Ok?;
    Reconciliation.HeadShowsSurvivors(anchors, rows, false, newId, 0);
    assert m.Plan([s]) == Reconciliation.PlanOf(anchors, rows, false, false, newId);
    hide Reconciliation.PlanOf, Reconciliation.Planned, Merge.Plan;
    if m.Ready([s]) {
      MessagesMatchEntries(m, [s], [s]);
      var rows1, entries := m.Messages([s], [s]), m.Plan([s]).value.entries;
      forall k | 0 <= k < |rows1|
        ensures rows1[k].id == entries[k].id
      {
        Entry(m, [s], [s], k);
      }
    }
  }

  lemma TwiceLeavesNothing(m: Merge, s: Text)
    requires m.Ready([s]) && |m.stored| == 1 && m.stored[0].providedId == Some(s) && s !in m.Leavers([s], [s])
    requires m.retired.None?
    ensures m.Leavers([s], [s]) == [] && Applicable(m, [s], [s]) && s !in Applied(m, [s], [s]).retired.sources
  {
    hide Merge.Messages, Merge.Ready, Merge.Suspects;
    assert forall row :: row in m.Prior([s]) ==> row == m.Prior([s])[0] && row.providedId == Some(s);
    assert forall x :: x in m.Leavers([s], [s]) ==> x == s;
    EmptyOrHeaded(m.Leavers([s], [s]));
    RetiringIsValid(m.Gone(), []);
  }

  lemma EmptyOrHeaded(values: seq<Text>)
    ensures values == [] || values[0] in values
  {
  }

  lemma SuspicionStays(m: Merge, s: Text)
    requires m.Suspects([s]).Blocks(s)
    ensures m.FinalMemory([s], [s]).Blocks(s)
  {
    hide Merge.Suspects;
    assert RememberAll(m.Suspects([s]), [s][..0]) == m.Suspects([s]);
  }

  /** And from then on: a report of a producer ID that nothing remembers is shown as running, blocked or not. */
  lemma ForgottenSourceRunsAgain(m: Merge, repeats: seq<Text>, clashes: seq<Text>, k: nat, i: nat)
    requires m.Ready(repeats) && k < |m.Plan(repeats).value.entries| && k < |m.Messages(repeats, clashes)|
    requires var e := m.Plan(repeats).value.entries[k];
             e.History? && e.index == i && e.previous.None? && i < |m.read.messages|
    requires var raw := m.read.messages[i];
             && raw.role == Identity.Assistant && raw.origin == Some(Provided) && raw.providedId.Some?
             && m.read.activeRunEvidence == Some(true) && raw.runId.Some? && raw.runId == m.read.activeRunId
    ensures m.Messages(repeats, clashes)[k].liveness
         == Some(if m.read.messages[i].providedId.value in m.Gone().sources then Terminal else HistoryActive)
  {
    EntryContinues(m, repeats, m.Plan(repeats).value.entries[k]);
    hide Merge.Plan, Merge.Suspects, Merge.Gone, Merge.FinalMemory, Merge.Memory, References;
  }

  /** A retired producer ID never shows a running row again: a row made from it is finished. */
  lemma RetiredStaysFinished(m: Merge, repeats: seq<Text>, clashes: seq<Text>, k: nat, i: nat)
    requires m.Ready(repeats) && k < |m.Plan(repeats).value.entries| && k < |m.Messages(repeats, clashes)|
    requires var e := m.Plan(repeats).value.entries[k]; e.History? && e.index == i && i < |m.read.messages|
    requires var raw := m.read.messages[i];
             raw.role == Identity.Assistant && raw.origin == Some(Provided) && raw.providedId.Some?
             && raw.providedId.value in m.Gone().sources
    ensures m.Messages(repeats, clashes)[k].liveness == Some(Terminal)
  {
    EntryContinues(m, repeats, m.Plan(repeats).value.entries[k]);
    hide Merge.Plan, Merge.Suspects, Merge.Gone, Merge.FinalMemory, Merge.Memory, References;
  }

  /** A finished row stays finished while it is shown. */
  lemma FinishedStaysFinished(m: Merge, repeats: seq<Text>, clashes: seq<Text>, k: nat, p: nat)
    requires m.Ready(repeats) && k < |m.Messages(repeats, clashes)| && p < |m.stored|
    requires m.Messages(repeats, clashes)[k].id == m.stored[p].id && m.stored[p].liveness == Some(Terminal)
    ensures m.Messages(repeats, clashes)[k].liveness == Some(Terminal)
  {
    MessagesMatchEntries(m, repeats, clashes);
    assert m.Plan(repeats).Ok?;
    hide Merge.Messages, Merge.Ready, Merge.Plan, Owned, Merge.Suspects, Merge.Memory, Merge.Gone;
    StoredIdsAreDistinct(m, repeats);
    Entry(m, repeats, clashes, k);
    var from := StoredOf(m.Plan(repeats).value.entries[k]);
    assert from.Some? && m.stored[from.value].id == m.stored[p].id;
    assert from.value == p;
  }

  // ----- runs -----

  /** What a conversation holds between reads. */
  datatype Stage = Stage(messages: seq<Displayed>, ambiguity: Option<Ambiguity>, retired: Option<Retired>)

  /** One read is applied, with its duplicate groups in any order. */
  ghost predicate Applies(a: Stage, b: Stage, epoch: Option<Id>) {
    exists m: Merge, repeats, clashes :: Application(m, repeats, clashes, a, b, epoch)
  }

  ghost predicate Application(m: Merge, repeats: seq<Text>, clashes: seq<Text>, a: Stage, b: Stage, epoch: Option<Id>) {
    && m.stored == a.messages && m.ambiguity == a.ambiguity && m.retired == a.retired && m.context.epoch == epoch
    && Consistent(m, repeats, clashes) && Applicable(m, repeats, clashes)
    && var p := Applied(m, repeats, clashes); b == Stage(p.messages, Some(p.ambiguity), Some(p.retired))
  }

  /** Sends and live events: rows change in any way, suspicion may grow, the retired memory is left alone. */
  ghost predicate Lives(a: Stage, b: Stage, epoch: Option<Id>) {
    && b.retired == a.retired
    && (b.ambiguity == a.ambiguity
        || exists found :: b.ambiguity == Some(RememberAll(MemoryFor(a.ambiguity, epoch), found)))
  }

  ghost predicate Run(stages: seq<Stage>, epoch: Option<Id>) {
    forall k: nat :: k + 1 < |stages| ==> Follows(stages, epoch, k)
  }

  ghost predicate Follows(stages: seq<Stage>, epoch: Option<Id>, k: nat)
    requires k + 1 < |stages|
  {
    Applies(stages[k], stages[k + 1], epoch) || Lives(stages[k], stages[k + 1], epoch)
  }

  /** Every step of the run applies a read. */
  ghost predicate Reads(stages: seq<Stage>, epoch: Option<Id>) {
    forall k: nat :: k + 1 < |stages| ==> ReadsAt(stages, epoch, k)
  }

  ghost predicate ReadsAt(stages: seq<Stage>, epoch: Option<Id>, k: nat)
    requires k + 1 < |stages|
  {
    Applies(stages[k], stages[k + 1], epoch)
  }

  ghost predicate Healthy(s: Stage, epoch: Option<Id>)
  {
    MemoryFor(s.ambiguity, epoch).Valid() && RetiredFor(s.retired, epoch).Valid()
  }

  /** Over any run of reads, the user's own rows are the same. */
  lemma {:induction false} OwnershipSurvivesReads(stages: seq<Stage>, epoch: Option<Id>, n: nat)
    requires n < |stages| && Reads(stages, epoch)
    ensures OwnedIds(stages[n].messages) == OwnedIds(stages[0].messages)
  {
    hide Applies, OwnedIds;
    if n > 0 {
      OwnershipSurvivesReads(stages, epoch, n - 1);
      assert ReadsAt(stages, epoch, n - 1);
      ReadKeepsOwnership(stages[n - 1], stages[n], epoch);
    }
  }

  lemma ReadKeepsOwnership(a: Stage, b: Stage, epoch: Option<Id>)
    requires Applies(a, b, epoch)
    ensures OwnedIds(a.messages) == OwnedIds(b.messages)
  {
    var m: Merge, repeats, clashes :| Application(m, repeats, clashes, a, b, epoch);
    OwnershipIsInvariant(m, repeats, clashes);
  }

  /** One step forgets nothing and keeps both memories within their limits. */
  lemma StepRemembers(a: Stage, b: Stage, epoch: Option<Id>)
    requires Healthy(a, epoch) && (Applies(a, b, epoch) || Lives(a, b, epoch))
    ensures Healthy(b, epoch)
    ensures forall s :: MemoryFor(a.ambiguity, epoch).Blocks(s) ==> MemoryFor(b.ambiguity, epoch).Blocks(s)
    ensures RetiredFor(a.retired, epoch).sources <= RetiredFor(b.retired, epoch).sources
  {
    if Applies(a, b, epoch) {
      var m: Merge, repeats, clashes :| Application(m, repeats, clashes, a, b, epoch);
      ApplicationRemembers(m, repeats, clashes, a, b, epoch);
    } else if b.ambiguity != a.ambiguity {
      var found :| b.ambiguity == Some(RememberAll(MemoryFor(a.ambiguity, epoch), found));
      MemoryGrows(MemoryFor(a.ambiguity, epoch), found);
    }
  }

  lemma ApplicationRemembers(m: Merge, repeats: seq<Text>, clashes: seq<Text>, a: Stage, b: Stage, epoch: Option<Id>)
    requires Healthy(a, epoch) && Application(m, repeats, clashes, a, b, epoch)
    ensures Healthy(b, epoch)
    ensures forall s :: MemoryFor(a.ambiguity, epoch).Blocks(s) ==> MemoryFor(b.ambiguity, epoch).Blocks(s)
    ensures RetiredFor(a.retired, epoch).sources <= RetiredFor(b.retired, epoch).sources
  {
    hide Merge.Messages, Merge.Ready, Merge.Suspects, Retiring, Merge.Leavers, Merge.Plan, Ambiguity.Valid;
    hide Retired.Valid, Consistent, Applicable;
    FinalMemoryIs(m, repeats, clashes);
    MemoryIsHealthy(m);
    hide Merge.FinalMemory, Found;
    MemoryGrows(m.Memory(), Found(m, repeats, clashes));
    DroppedSourcesAreRetired(m, repeats, clashes);
    ScopedIsKept(b, epoch);
  }

  lemma MemoryIsHealthy(m: Merge)
    ensures m.Memory() == MemoryFor(m.ambiguity, m.context.epoch) && m.Gone() == RetiredFor(m.retired, m.context.epoch)
  {
    hide Merge.Ready;
  }

  lemma ScopedIsKept(b: Stage, epoch: Option<Id>)
    ensures b.ambiguity.Some? && b.ambiguity.value.epoch == epoch ==> MemoryFor(b.ambiguity, epoch) == b.ambiguity.value
    ensures b.retired.Some? && b.retired.value.epoch == epoch ==> RetiredFor(b.retired, epoch) == b.retired.value
  {
  }

  /**
   * Within one epoch, over any run of reads and live changes: a producer ID once blocked stays blocked, and every read
   * applied from then on leaves no row that speaks for it. Both memories stay within their limits, and a retired
   * producer ID stays retired.
   */
  lemma {:induction false} SuspicionIsForever(stages: seq<Stage>, epoch: Option<Id>, from: nat, at: nat, s: Text)
    requires Run(stages, epoch) && from <= at < |stages| && Healthy(stages[from], epoch)
    ensures Healthy(stages[at], epoch)
    ensures RetiredFor(stages[from].retired, epoch).sources <= RetiredFor(stages[at].retired, epoch).sources
    ensures MemoryFor(stages[from].ambiguity, epoch).Blocks(s) ==> MemoryFor(stages[at].ambiguity, epoch).Blocks(s)
    ensures (from < at && MemoryFor(stages[from].ambiguity, epoch).Blocks(s)
             && Applies(stages[at - 1], stages[at], epoch))
              ==> !Authoritative(stages[at].messages, epoch, s)
    decreases at
  {
    hide Applies, Lives, Healthy, MemoryFor, RetiredFor, Authoritative;
    if from < at {
      SuspicionIsForever(stages, epoch, from, at - 1, s);
      assert Follows(stages, epoch, at - 1);
      StepRemembers(stages[at - 1], stages[at], epoch);
      if MemoryFor(stages[from].ambiguity, epoch).Blocks(s) && Applies(stages[at - 1], stages[at], epoch) {
        BlockedAfterRead(stages[at - 1], stages[at], epoch, s);
      }
    }
  }

  lemma BlockedAfterRead(a: Stage, b: Stage, epoch: Option<Id>, s: Text)
    requires Applies(a, b, epoch) && MemoryFor(a.ambiguity, epoch).Blocks(s)
    ensures !Authoritative(b.messages, epoch, s)
  {
    var m: Merge, repeats, clashes :| Application(m, repeats, clashes, a, b, epoch);
    BlockingIsExact(m, repeats, clashes, s);
    BlockedHasNoAuthority(m, repeats, clashes, s);
  }
}
