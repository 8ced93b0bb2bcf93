/** What a caller sees of an applied read: each row in terms of the report or the stored row it stands for. */
module HistoryRows {
  import opened Wrappers
  import opened HistoryTypes
  import opened HistoryMemories
  import opened HistoryApplication
  import opened HistoryMerging
  import Evidence = HistoryEvidence
  import Identity = HistoryIdentity
  import Weaving = HistoryWeave
  import Reconciliation = HistoryReconciliation

  // ----- a row made of a report -----

  /** The stored row of this ID, if there is one. */
  ghost predicate StoredAs(stored: seq<Displayed>, id: Text, was: Option<Displayed>) {
    if was.Some? then was.value in stored && was.value.id == id else forall m :: m in stored ==> m.id != id
  }

  /** The report and the stored row do not name different runs. */
  predicate SameRun(raw: Report, was: Displayed) {
    raw.runId.Some? && was.runId.Some? ==> raw.runId == was.runId
  }

  /** The stored row is still being written by a run that the read does not say is over. */
  predicate StillLive(raw: Report, was: Option<Displayed>, read: Read) {
    && was.Some? && (was.value.streaming || was.value.liveness == Some(Active)) && was.value.segmentId.Some?
    && SameRun(raw, was.value) && read.activeRunEvidence != Some(false)
  }

  /** The reported text, unless the row is still being written: then its own. */
  predicate ShowsText(row: Displayed, raw: Report, was: Option<Displayed>, read: Read) {
    if StillLive(raw, was, read) then row.text == was.value.text && row.streaming == was.value.streaming
    else row.text == raw.text && !row.streaming
  }

  /** What is reported, or else what was known. */
  predicate Prefers<T(==)>(shown: Option<T>, reported: Option<T>, known: Option<T>) {
    if reported.Some? then shown == reported else shown == known
  }

  /** What the report says of itself, and what it leaves unsaid but was known. */
  predicate ShowsFacts(row: Displayed, raw: Report, was: Option<Displayed>, epoch: Option<Id>) {
    && row.remoteId == Some(raw.id) && row.role == raw.role && row.isWork == (raw.role == Identity.Tool)
    && row.attribution == raw.attribution && row.position == raw.position && row.boundary == raw.boundary
    && row.providedId == raw.providedId && row.epoch == epoch && row.revision == Some(raw.raw)
    && Prefers(row.runId, raw.runId, if was.Some? then was.value.runId else None)
    && Prefers(row.timestamp, raw.timestamp, if was.Some? then was.value.timestamp else None)
    && Prefers(row.turnId, raw.turnId, if was.Some? then was.value.turnId else None)
    && Prefers(row.inputMessageId, raw.inputMessageId, if was.Some? then was.value.inputMessageId else None)
    && Prefers(row.inputMessageKey, raw.inputMessageKey, if was.Some? then was.value.inputMessageKey else None)
    && row.segmentId == (if was.Some? && SameRun(raw, was.value) then was.value.segmentId else None)
  }

  /** The stored row is the user's own: local, of the user, attributed to nobody. */
  predicate Mine(was: Option<Displayed>) {
    was.Some? && was.value.local && was.value.role == Identity.User && was.value.attribution.None?
  }

  /** A row of the user's own stays it, and has been delivered. */
  predicate ShowsOwner(row: Displayed, raw: Report, was: Option<Displayed>) {
    && row.local == Mine(was) && row.delivery == (if Mine(was) then Some(Delivered) else None)
    && Prefers(row.idempotencyKey, raw.idempotencyKey, if Mine(was) then was.value.idempotencyKey else None)
    && (Mine(was) ==> raw.role == Identity.User && raw.attribution.None?)
  }

  /** A producer's assistant row is finished when the run is over or its ID is retired, and runs with the active run. */
  predicate ShowsLiveness(liveness: Option<Liveness>, raw: Report, was: Option<Displayed>, read: Read,
                          retired: seq<Text>)
  {
    var before := if was.Some? then was.value.liveness else None;
    var told := raw.role == Identity.Assistant && raw.origin == Some(Provided);
    var over := read.activeRunEvidence == Some(false) || (raw.providedId.Some? && raw.providedId.value in retired);
    var runs := read.activeRunEvidence == Some(true) && raw.runId.Some? && raw.runId == read.activeRunId;
    && (told && over ==> liveness == Some(Terminal))
    && (told && !over && runs && before in {None, Some(HistoryActive)} ==> liveness == Some(HistoryActive))
    && (!(told && over) && !(told && runs && before == None) ==> liveness == before)
  }

  /** The first file of this name in the stored row. */
  predicate FirstNamed(media: seq<Reference>, h: nat, id: Text) {
    h < |media| && media[h].id == id && forall j :: 0 <= j < h ==> media[j].id != id
  }

  /** A reported file; it has the local copy it had while the report is unchanged and describes the same file. */
  ghost predicate ShowsFile(shown: Reference, a: Attachment, raw: Report, was: Option<Displayed>) {
    && shown.artifact == a.artifact && shown.kind == a.kind && shown.mimeType == a.mimeType && shown.name == a.name
    && (shown.resource.Some? ==>
          && was.Some? && was.value.revision == Some(raw.raw)
          && exists h: nat :: FirstNamed(was.value.media, h, shown.id) && was.value.media[h].resource == shown.resource)
    && (forall h: nat | was.Some? && was.value.revision == Some(raw.raw) && FirstNamed(was.value.media, h, shown.id) ::
          var known := was.value.media[h];
          known.kind == a.kind && known.mimeType == a.mimeType && known.artifact == a.artifact ==>
            shown.resource == known.resource)
  }

  /** The user's own files as they are, else exactly the reported attachments. */
  ghost predicate FilesOf(media: seq<Reference>, id: Text, raw: Report, was: Option<Displayed>, context: Context) {
    if Mine(was) && was.value.media != [] then media == was.value.media
    else
      && |media| == |raw.attachments|
      && forall at | 0 <= at < |media| ::
           && media[at].id == context.referenceId(id, at, raw.attachments[at].artifact)
           && ShowsFile(media[at], raw.attachments[at], raw, was)
  }

  /** The producer ID has the reported authority, unless it is blocked, or was ambiguous in the stored row. */
  predicate ShowsOrigin(row: Displayed, raw: Report, was: Option<Displayed>, memory: Ambiguity) {
    var lost := (raw.providedId.Some? && memory.Blocks(raw.providedId.value))
                || (was.Some? && was.value.origin == Some(AmbiguousProvided) && was.value.providedId == raw.providedId);
    row.origin == if lost then Some(AmbiguousProvided) else raw.origin
  }

  ghost predicate ShowsReport(row: Displayed, raw: Report, was: Option<Displayed>, read: Read, context: Context,
                              memory: Ambiguity, retired: seq<Text>)
  {
    && ShowsText(row, raw, was, read) && ShowsFacts(row, raw, was, context.epoch) && ShowsOwner(row, raw, was)
    && ShowsLiveness(row.liveness, raw, was, read, retired) && FilesOf(row.media, row.id, raw, was, context)
    && ShowsOrigin(row, raw, was, memory)
  }

  lemma {:induction false} FirstReferenceIs(media: seq<Reference>, id: Text)
    ensures var found := FirstReference(media, id);
            && (found.None? ==> forall h: nat :: !FirstNamed(media, h, id))
            && (found.Some? ==> exists h: nat :: FirstNamed(media, h, id) && media[h] == found.value)
            && (forall h: nat :: FirstNamed(media, h, id) ==> found == Some(media[h]))
  {
    if media != [] {
      FirstReferenceIs(media[1..], id);
      if media[0].id == id {
        assert FirstNamed(media, 0, id);
      } else {
        var found := FirstReference(media[1..], id);
        if found.Some? {
          var h: nat :| FirstNamed(media[1..], h, id) && media[1..][h] == found.value;
          assert FirstNamed(media, h + 1, id);
        }
        forall h: nat | FirstNamed(media, h, id)
          ensures found == Some(media[h])
        {
          assert FirstNamed(media[1..], h - 1, id);
        }
      }
    }
  }

  lemma FileIsShown(raw: Report, at: nat, id: Text, was: Option<Displayed>, context: Context)
    requires at < |raw.attachments|
    ensures var shown := ReferenceFor(raw, at, id, was, context);
            && shown.id == context.referenceId(id, at, raw.attachments[at].artifact)
            && ShowsFile(shown, raw.attachments[at], raw, was)
  {
    var shown := ReferenceFor(raw, at, id, was, context);
    if was.Some? { FirstReferenceIs(was.value.media, shown.id); }
    hide FirstReference, FirstNamed;
  }

  lemma LivenessIsShown(raw: Report, was: Option<Displayed>, prior: Option<Displayed>, read: Read, retired: Retired)
    requires prior.Some? == was.Some? && (was.Some? ==> prior.value.liveness == was.value.liveness)
    ensures ShowsLiveness(LivenessOf(raw, prior, read, retired), raw, was, read, retired.sources)
  {
    assert was.Some? && was.value.liveness.Some? ==>
             var before := was.value.liveness.value; before == HistoryActive || before == Active || before == Terminal;
  }

  lemma TextIsShown(raw: Report, id: Text, was: Option<Displayed>, prior: Option<Displayed>, read: Read,
                    memory: Ambiguity, retired: Retired, context: Context, later: Ambiguity)
    requires prior == if was.Some? then Some(Marked(was.value, context.epoch, memory)) else None
    ensures ShowsText(Marked(Updated(raw, id, prior, read, memory, retired, context), context.epoch, later), raw, was,
                      read)
  {
    hide References, LivenessOf;
  }

  lemma FactsAreShown(raw: Report, id: Text, was: Option<Displayed>, prior: Option<Displayed>, read: Read,
                      memory: Ambiguity, retired: Retired, context: Context, later: Ambiguity)
    requires prior == if was.Some? then Some(Marked(was.value, context.epoch, memory)) else None
    ensures ShowsFacts(Updated(raw, id, prior, read, memory, retired, context), raw, was, context.epoch)
    ensures ShowsFacts(Marked(Updated(raw, id, prior, read, memory, retired, context), context.epoch, later), raw, was,
                       context.epoch)
  {
    hide References, LivenessOf, Blocked;
    MarkedFacts(Updated(raw, id, prior, read, memory, retired, context), raw, was, context.epoch, later);
  }

  lemma MarkedFacts(row: Displayed, raw: Report, was: Option<Displayed>, epoch: Option<Id>, later: Ambiguity)
    ensures ShowsFacts(row, raw, was, epoch) ==> ShowsFacts(Marked(row, epoch, later), raw, was, epoch)
  {
  }

  lemma OwnerIsShown(raw: Report, id: Text, was: Option<Displayed>, prior: Option<Displayed>, read: Read,
                     memory: Ambiguity, retired: Retired, context: Context, later: Ambiguity)
    requires prior == if was.Some? then Some(Marked(was.value, context.epoch, memory)) else None
    requires Mine(was) ==> raw.role == Identity.User && raw.attribution.None?
    ensures ShowsOwner(Marked(Updated(raw, id, prior, read, memory, retired, context), context.epoch, later), raw, was)
  {
    hide References, LivenessOf;
  }

  lemma OriginIsShown(raw: Report, id: Text, was: Option<Displayed>, prior: Option<Displayed>, read: Read,
                      memory: Ambiguity, retired: Retired, context: Context, later: Ambiguity)
    requires prior == if was.Some? then Some(Marked(was.value, context.epoch, memory)) else None
    requires was.Some? ==> was.value.epoch == context.epoch
    requires Blocked(memory, raw.providedId) ==> Blocked(later, raw.providedId)
    ensures ShowsOrigin(Marked(Updated(raw, id, prior, read, memory, retired, context), context.epoch, later), raw, was,
                        later)
  {
    hide References, LivenessOf;
  }

  /** An updated row, of the stored row before anything became ambiguous in this read. */
  lemma UpdatedShows(raw: Report, id: Text, was: Option<Displayed>, prior: Option<Displayed>, read: Read,
                     memory: Ambiguity, retired: Retired, context: Context, later: Ambiguity)
    requires prior == if was.Some? then Some(Marked(was.value, context.epoch, memory)) else None
    requires was.Some? ==> was.value.epoch == context.epoch
    requires Mine(was) ==> raw.role == Identity.User && raw.attribution.None?
    requires Blocked(memory, raw.providedId) ==> Blocked(later, raw.providedId)
    ensures var row := Marked(Updated(raw, id, prior, read, memory, retired, context), context.epoch, later);
            row.id == id && ShowsReport(row, raw, was, read, context, later, retired.sources)
  {
    var row := Marked(Updated(raw, id, prior, read, memory, retired, context), context.epoch, later);
    FilesAreShown(raw, id, was, prior, context);
    hide References, FilesOf;
    LivenessIsShown(raw, was, prior, read, retired);
    hide LivenessOf, ShowsLiveness;
    TextIsShown(raw, id, was, prior, read, memory, retired, context, later);
    FactsAreShown(raw, id, was, prior, read, memory, retired, context, later);
    OwnerIsShown(raw, id, was, prior, read, memory, retired, context, later);
    OriginIsShown(raw, id, was, prior, read, memory, retired, context, later);
    assert row.media == References(raw, id, prior, Mine(was), context);
    assert row.liveness == LivenessOf(raw, prior, read, retired) && row.id == id;
    hide Updated, ShowsText, ShowsFacts, ShowsOwner, ShowsOrigin, Marked, Mine;
  }

  lemma FilesAreShown(raw: Report, id: Text, was: Option<Displayed>, prior: Option<Displayed>, context: Context)
    requires prior.Some? == was.Some?
    requires was.Some? ==> prior.value.media == was.value.media && prior.value.revision == was.value.revision
    requires Mine(was) ==> raw.role == Identity.User
    ensures FilesOf(References(raw, id, prior, Mine(was), context), id, raw, was, context)
  {
    hide ShowsFile;
    forall at | 0 <= at < |raw.attachments|
      ensures var shown := ReferenceFor(raw, at, id, prior, context);
              && shown.id == context.referenceId(id, at, raw.attachments[at].artifact)
              && ShowsFile(shown, raw.attachments[at], raw, was)
    {
      FileIsShown(raw, at, id, prior, context);
      FileIsSame(ReferenceFor(raw, at, id, prior, context), raw.attachments[at], raw, prior, was);
    }
  }

  lemma FileIsSame(shown: Reference, a: Attachment, raw: Report, prior: Option<Displayed>, was: Option<Displayed>)
    requires ShowsFile(shown, a, raw, prior) && prior.Some? == was.Some?
    requires was.Some? ==> prior.value.media == was.value.media && prior.value.revision == was.value.revision
    ensures ShowsFile(shown, a, raw, was)
  {
    hide FirstNamed;
  }

  // ----- every row of a result -----

  /** A stored row that is shown as it is, but for the authority its producer ID may have lost. */
  predicate KeptAs(row: Displayed, was: Displayed, epoch: Option<Id>, memory: Ambiguity) {
    row == if was.epoch == epoch && was.providedId.Some? && memory.Blocks(was.providedId.value)
           then was.(origin := Some(AmbiguousProvided)) else was
  }

  /** The row shows report `i`, and what was stored under its ID. */
  ghost predicate IsOf(m: Merge, row: Displayed, i: nat, was: Option<Displayed>, memory: Ambiguity)
    requires i < |m.read.messages|
  {
    && StoredAs(m.stored, row.id, was)
    && ShowsReport(row, m.read.messages[i], was, m.read, m.context, memory, m.Gone().sources)
  }

  /** A kept entry of the plan is a stored row as it was. */
  lemma KeptEntryShows(m: Merge, repeats: seq<Text>, clashes: seq<Text>, k: nat)
    requires Consistent(m, repeats, clashes) && k < |m.Plan(repeats).value.entries|
    requires m.Plan(repeats).value.entries[k].Preserved?
    ensures |m.Messages(repeats, clashes)| == |m.Plan(repeats).value.entries|
    ensures var q, row := m.Plan(repeats).value.entries[k].index, m.Messages(repeats, clashes)[k];
            q < |m.stored| && row.id == m.stored[q].id
            && KeptAs(row, m.stored[q], m.context.epoch, m.FinalMemory(repeats, clashes))
  {
    MessagesMatchEntries(m, repeats, clashes);
    var e := RowOf(m, repeats, clashes, k);
    var source := m.stored[e.index].providedId;
    assert m.Memory().Valid();
    hide Consistent, Merge.Plan, Merge.Messages, Merge.Suspects, Merge.FinalMemory, Merge.Gone, Merge.Ready;
    if source.Some? && m.Suspects(repeats).Blocks(source.value) {
      SuspectsStayBlocked(m, repeats, clashes, source.value);
    }
  }

  /** An updated entry of the plan shows its report. */
  lemma UpdatedEntryShows(m: Merge, repeats: seq<Text>, clashes: seq<Text>, k: nat) returns (was: Option<Displayed>)
    requires Consistent(m, repeats, clashes) && k < |m.Plan(repeats).value.entries|
    requires m.Plan(repeats).value.entries[k].History?
    ensures |m.Messages(repeats, clashes)| == |m.Plan(repeats).value.entries|
    ensures var e, row := m.Plan(repeats).value.entries[k], m.Messages(repeats, clashes)[k];
            && e.index < |m.read.messages| && row.id == e.id
            && IsOf(m, row, e.index, was, m.FinalMemory(repeats, clashes))
  {
    MessagesMatchEntries(m, repeats, clashes);
    var e := RowOf(m, repeats, clashes, k);
    was := if e.previous.Some? then Some(m.stored[e.previous.value]) else None;
    var prior := if e.previous.Some? then Some(m.Prior(repeats)[e.previous.value]) else None;
    UpdatedIsOf(m, repeats, clashes, e);
    hide Consistent, Merge.Plan, Merge.Messages, Merge.Suspects, Merge.FinalMemory, Merge.Gone, Merge.Ready;
    hide Updated, ShowsReport, Merge.Prior, Mine, Blocked, Joined;
    UpdatedShows(m.read.messages[e.index], e.id, was, prior, m.read, m.Suspects(repeats), m.Gone(), m.context,
                 m.FinalMemory(repeats, clashes));
  }

  lemma UpdatedIsOf(m: Merge, repeats: seq<Text>, clashes: seq<Text>, e: Weaving.Entry)
    requires Consistent(m, repeats, clashes) && e in m.Plan(repeats).value.entries && e.History?
    ensures Sound(e, m.read, m.Prior(repeats))
    ensures var raw := m.read.messages[e.index];
            var was := if e.previous.Some? then Some(m.stored[e.previous.value]) else None;
            && StoredAs(m.stored, e.id, was)
            && (was.Some? ==>
                  && m.Prior(repeats)[e.previous.value] == Marked(was.value, m.context.epoch, m.Suspects(repeats))
                  && was.value.epoch == m.context.epoch)
            && (Mine(was) ==> raw.role == Identity.User && raw.attribution.None?)
            && (Blocked(m.Suspects(repeats), raw.providedId) ==>
                  Blocked(m.FinalMemory(repeats, clashes), raw.providedId))
  {
    assert m.Memory().Valid();
    EntryIsJoined(m, repeats, e);
    if e.previous.Some? { MatchedEpoch(m, repeats, e); }
    hide Consistent, Merge.Plan, Merge.Messages, Merge.Suspects, Merge.FinalMemory, Merge.Gone, Merge.Ready;
    var source := m.read.messages[e.index].providedId;
    if Blocked(m.Suspects(repeats), source) { SuspectsStayBlocked(m, repeats, clashes, source.value); }
  }

  // ----- the whole result -----

  /** The row differs from what it was when the read began. */
  predicate ChangedSince(was: Displayed, context: Context) {
    !(was.id in context.snapshot && context.snapshot[was.id] == was)
  }

  /** A row that a report matched to it does not overwrite: it changed meanwhile, or it is a finished live segment. */
  predicate Stands(was: Displayed, read: Read, context: Context) {
    ChangedSince(was, context)
    || (was.liveness == Some(Terminal) && was.segmentId.Some? && read.activeRunEvidence != Some(false))
  }

  function MatchIn(m: Merge, repeats: seq<Text>, i: nat): (p: Option<nat>)
    requires i < |m.read.messages|
    ensures p.Some? ==> p.value < |m.stored|
  {
    var found := Identity.Matched(m.Incoming(repeats), Reconciliation.Identities(m.Rows(repeats)), i);
    if found.Some? then Some(found.value.storedIndex) else None
  }

  /** Report `i` has a row of the result, which shows it. */
  ghost predicate IsShown(m: Merge, p: Projection, i: nat) {
    i < |m.read.messages| && i in p.accepted && exists k: nat, was :: IsShownAt(m, p, i, k, was)
  }

  ghost predicate IsShownAt(m: Merge, p: Projection, i: nat, k: nat, was: Option<Displayed>)
    requires i < |m.read.messages| && i in p.accepted
  {
    k < |p.messages| && p.messages[k].id == p.accepted[i] && IsOf(m, p.messages[k], i, was, p.ambiguity)
  }

  /** Row `k` of the result is a stored row as it was. */
  ghost predicate IsKept(m: Merge, p: Projection, k: nat) {
    && k < |p.messages|
    && exists q: nat :: q < |m.stored| && KeptAs(p.messages[k], m.stored[q], m.context.epoch, p.ambiguity)
  }

  /** Stored row `q` has a row of the result, which is as it was if it changed since the read began. */
  ghost predicate IsSafe(m: Merge, p: Projection, q: nat) {
    q < |m.stored| && exists k: nat :: IsSafeAt(m, p, q, k)
  }

  predicate IsSafeAt(m: Merge, p: Projection, q: nat, k: nat)
    requires q < |m.stored|
  {
    && k < |p.messages| && p.messages[k].id == m.stored[q].id
    && (ChangedSince(m.stored[q], m.context) ==> KeptAs(p.messages[k], m.stored[q], m.context.epoch, p.ambiguity))
  }

  predicate EarlierPage(m: Merge) { m.context.earlier && m.read.byCursor }

  /** What was planned was accepted as the projection says. */
  lemma AcceptedInPlan(m: Merge, repeats: seq<Text>)
    requires m.Plan(repeats).Ok?
    ensures Reconciliation.Accepts(m.Plan(repeats).value)
    ensures forall i: nat :: i in m.Plan(repeats).value.accepted <==> IsTaken(m, repeats, i)
  {
    hide Merge.Suspects, Identity.Matched, Reconciliation.Planned, Reconciliation.KeepsContent, Stands;
    hide Reconciliation.Accepts;
    var incoming, rows := m.Incoming(repeats), m.Rows(repeats);
    Reconciliation.AcceptedIs(incoming, rows, EarlierPage(m), m.read.hasMore == Some(true), m.context.newId);
    RowsAreStored(m, repeats);
    forall q | 0 <= q < |m.stored|
      ensures Reconciliation.KeepsContent(rows[q]) <==> Stands(m.stored[q], m.read, m.context)
    {
      ContentStands(m, repeats, q);
    }
    hide Merge.Rows, Merge.Incoming;
  }

  lemma ContentStands(m: Merge, repeats: seq<Text>, q: nat)
    requires q < |m.stored|
    ensures q < |m.Rows(repeats)|
    ensures Reconciliation.KeepsContent(m.Rows(repeats)[q]) <==> Stands(m.stored[q], m.read, m.context)
  {
    hide Merge.Suspects;
  }

  /**
   * The rows of a result and the reports accepted into it tell the same story. An accepted report has a row that shows
   * it; every other row is a stored one as it was. In a head a report is accepted unless it is matched to a row that
   * stands; in an earlier page, when it is matched to none. A row of the user's own, a streaming one and one that
   * changed since the read began is in the result, the changed one as it was. The resources let go are those that
   * stored rows needed and no row of the result needs.
   */
  ghost predicate Told(m: Merge, repeats: seq<Text>, p: Projection) {
    && (forall i: nat :: i in p.accepted ==> IsShown(m, p, i))
    && (forall k: nat :: k < |p.messages| ==> p.messages[k].id in p.accepted.Values || IsKept(m, p, k))
    && (forall i: nat :: i in p.accepted <==> IsTaken(m, repeats, i))
    && (forall q: nat :: q < |m.stored| && MustStay(m.stored[q], m.context) ==> IsSafe(m, p, q))
    && (forall x :: x in p.retiring <==> Needs(m.stored, x) && !Needs(p.messages, x))
  }

  /** Some row refers to a resource that no artifact can restore. */
  ghost predicate Needs(rows: seq<Displayed>, x: Id) {
    exists row, file ::
      row in rows && file in row.media && file.artifact.None? && file.resource == Some(x)
  }

  /** Report `i` is taken into the result. */
  predicate IsTaken(m: Merge, repeats: seq<Text>, i: nat) {
    && i < |m.read.messages|
    && var q := MatchIn(m, repeats, i);
       if EarlierPage(m) then q.None? else !(q.Some? && Stands(m.stored[q.value], m.read, m.context))
  }

  predicate MustStay(was: Displayed, context: Context) {
    Mine(Some(was)) || was.streaming || ChangedSince(was, context)
  }

  lemma EntryOfReport(plan: Reconciliation.Plan, i: nat) returns (k: nat)
    requires Reconciliation.Accepts(plan) && i in plan.accepted
    ensures k < |plan.entries| && plan.entries[k].History? && plan.entries[k].index == i
            && plan.entries[k].id == plan.accepted[i]
  {
    var e :| e in plan.entries && e.History? && e.index == i && e.id == plan.accepted[i];
    k :| 0 <= k < |plan.entries| && plan.entries[k] == e;
  }

  lemma ReportIsTold(m: Merge, repeats: seq<Text>, clashes: seq<Text>, i: nat)
    requires Consistent(m, repeats, clashes) && Applicable(m, repeats, clashes)
    requires i in Applied(m, repeats, clashes).accepted
    ensures IsShown(m, Applied(m, repeats, clashes), i)
  {
    assert m.Ready(repeats);
    hide Merge.Plan, Merge.Messages, Merge.FinalMemory, Consistent, Applicable, Merge.Gone, IsOf, Applied, IsTaken;
    hide Reconciliation.Accepts;
    var p := Applied(m, repeats, clashes);
    AppliedIs(m, repeats, clashes);
    AcceptedInPlan(m, repeats);
    var k := EntryOfReport(m.Plan(repeats).value, i);
    var was := UpdatedEntryShows(m, repeats, clashes, k);
    assert IsShownAt(m, p, i, k, was);
  }

  lemma AppliedIs(m: Merge, repeats: seq<Text>, clashes: seq<Text>)
    requires Applicable(m, repeats, clashes)
    ensures var p := Applied(m, repeats, clashes);
            && p.accepted == m.Plan(repeats).value.accepted && p.messages == m.Messages(repeats, clashes)
            && p.ambiguity == m.FinalMemory(repeats, clashes)
  {
    hide Merge.Plan, Merge.Messages, Merge.FinalMemory, Merge.Leavers, Retiring;
  }

  lemma RowIsTold(m: Merge, repeats: seq<Text>, clashes: seq<Text>, k: nat)
    requires Consistent(m, repeats, clashes) && Applicable(m, repeats, clashes)
    requires k < |m.Messages(repeats, clashes)|
    ensures k < |Applied(m, repeats, clashes).messages|
    ensures var p := Applied(m, repeats, clashes); p.messages[k].id in p.accepted.Values || IsKept(m, p, k)
  {
    var p, plan := Applied(m, repeats, clashes), m.Plan(repeats).value;
    AppliedIs(m, repeats, clashes);
    MessagesMatchEntries(m, repeats, clashes);
    AcceptedInPlan(m, repeats);
    hide Merge.Plan, Merge.Messages, Merge.FinalMemory, Consistent, Applicable, Merge.Gone, IsOf, KeptAs;
    hide Applied, IsTaken;
    assert plan.entries[k] in plan.entries;
    if plan.entries[k].History? {
      var was := UpdatedEntryShows(m, repeats, clashes, k);
      assert plan.entries[k].index in plan.accepted.Keys;
    } else {
      KeptEntryShows(m, repeats, clashes, k);
    }
  }

  /** What the plan does with a stored row's ID. */
  lemma EntryOfStored(m: Merge, repeats: seq<Text>, e: Weaving.Entry, q: nat)
    requires m.Ready(repeats) && e in m.Plan(repeats).value.entries && q < |m.stored| && e.id == m.stored[q].id
    ensures (e.Preserved? && e.index == q) || (e.History? && !Stands(m.stored[q], m.read, m.context))
  {
    assert m.Plan(repeats).Ok?;
    hide Merge.Ready, Merge.Plan, Stands, Merge.Prior, IsTaken, MatchIn;
    AcceptedInPlan(m, repeats);
    StoredEntryIs(m, repeats, e, q);
    if e.History? {
      EntryIsMatched(m, repeats, e);
      TakenDoesNotStand(m, repeats, e.index, q);
    }
  }

  lemma StoredEntryIs(m: Merge, repeats: seq<Text>, e: Weaving.Entry, q: nat)
    requires m.Plan(repeats).Ok? && e in m.Plan(repeats).value.entries && q < |m.stored| && e.id == m.stored[q].id
    ensures StoredOf(e) == Some(q)
  {
    hide Merge.Plan, Merge.Prior, Mine, Owned;
    EntryIsJoined(m, repeats, e);
    StoredIdsAreDistinct(m, repeats);
    var from := StoredOf(e);
    assert from.Some? && m.stored[from.value].id == m.stored[q].id;
  }

  lemma TakenDoesNotStand(m: Merge, repeats: seq<Text>, i: nat, q: nat)
    requires IsTaken(m, repeats, i) && MatchIn(m, repeats, i) == Some(q)
    ensures q < |m.stored| && !Stands(m.stored[q], m.read, m.context)
  {
    hide MatchIn, Stands;
  }

  /** A row that must stay is planned, and so is not lost; a changed one is no report's. */
  lemma RowIsSafe(m: Merge, repeats: seq<Text>, clashes: seq<Text>, q: nat)
    requires Consistent(m, repeats, clashes) && Applicable(m, repeats, clashes) && q < |m.stored|
    requires MustStay(m.stored[q], m.context)
    ensures IsSafe(m, Applied(m, repeats, clashes), q)
  {
    assert m.Ready(repeats) && m.Plan(repeats).Ok?;
    hide Merge.Plan, Merge.Messages, Merge.FinalMemory, Consistent, Applicable, Merge.Gone, IsOf, KeptAs;
    hide ChangedSince, StoredAs, Applied, Merge.Ready, Mine, MustStay, Stands;
    var p := Applied(m, repeats, clashes);
    AppliedIs(m, repeats, clashes);
    var k := FlaggedIsPlanned(m, repeats, q);
    var e := m.Plan(repeats).value.entries[k];
    EntryOfStored(m, repeats, e, q);
    if e.Preserved? {
      KeptEntryShows(m, repeats, clashes, k);
    } else {
      var was := UpdatedEntryShows(m, repeats, clashes, k);
      ChangedStands(m.stored[q], m.read, m.context);
    }
    assert IsSafeAt(m, p, q, k);
  }

  lemma ChangedStands(was: Displayed, read: Read, context: Context)
    ensures ChangedSince(was, context) ==> Stands(was, read, context)
  {
  }

  lemma FlaggedRow(m: Merge, repeats: seq<Text>, q: nat)
    requires q < |m.stored| && MustStay(m.stored[q], m.context)
    ensures Reconciliation.Flagged(m.Rows(repeats)[q]) && m.Rows(repeats)[q].id == m.stored[q].id
  {
    hide Merge.Suspects;
  }

  lemma FlaggedIsPlanned(m: Merge, repeats: seq<Text>, q: nat) returns (k: nat)
    requires m.Plan(repeats).Ok? && q < |m.stored|
    requires MustStay(m.stored[q], m.context)
    ensures k < |m.Plan(repeats).value.entries| && m.Plan(repeats).value.entries[k].id == m.stored[q].id
  {
    var rows := m.Rows(repeats);
    FlaggedRow(m, repeats, q);
    hide Merge.Rows, Merge.Suspects, Reconciliation.Planned, MustStay;
    Reconciliation.FlaggedStays(m.Incoming(repeats), rows, EarlierPage(m), m.read.hasMore == Some(true),
                                m.context.newId, q);
    var e :| e in m.Plan(repeats).value.entries && e.id == m.stored[q].id;
    k :| 0 <= k < |m.Plan(repeats).value.entries| && m.Plan(repeats).value.entries[k] == e;
  }

  /** A report joined to a stored row is matched to it. */
  lemma EntryIsMatched(m: Merge, repeats: seq<Text>, e: Weaving.Entry)
    requires m.Plan(repeats).Ok? && e in m.Plan(repeats).value.entries && e.History? && e.previous.Some?
    ensures e.index < |m.read.messages| && MatchIn(m, repeats, e.index) == e.previous
  {
    EntryIsTraceable(m, repeats, e);
    hide Merge.Plan, Merge.Suspects, Identity.Matched;
  }

  lemma ReportsAreTold(m: Merge, repeats: seq<Text>, clashes: seq<Text>, p: Projection)
    requires Consistent(m, repeats, clashes) && Applicable(m, repeats, clashes) && p == Applied(m, repeats, clashes)
    ensures forall i: nat :: i in p.accepted ==> IsShown(m, p, i)
    ensures forall i: nat :: i in p.accepted <==> IsTaken(m, repeats, i)
  {
    AppliedIs(m, repeats, clashes);
    assert m.Plan(repeats).Ok?;
    AcceptedInPlan(m, repeats);
    hide Consistent, Applicable, Applied, IsShown, IsTaken, Merge.Plan, Reconciliation.Accepts;
    forall i: nat | i in p.accepted
      ensures IsShown(m, p, i)
    {
      ReportIsTold(m, repeats, clashes, i);
    }
  }

  lemma RowsAreTold(m: Merge, repeats: seq<Text>, clashes: seq<Text>, p: Projection)
    requires Consistent(m, repeats, clashes) && Applicable(m, repeats, clashes) && p == Applied(m, repeats, clashes)
    ensures forall k: nat :: k < |p.messages| ==> p.messages[k].id in p.accepted.Values || IsKept(m, p, k)
    ensures forall q: nat :: q < |m.stored| && MustStay(m.stored[q], m.context) ==> IsSafe(m, p, q)
  {
    AppliedIs(m, repeats, clashes);
    hide Consistent, Applicable, Applied, IsKept, IsSafe, MustStay;
    forall k: nat | k < |p.messages|
      ensures p.messages[k].id in p.accepted.Values || IsKept(m, p, k)
    {
      RowIsTold(m, repeats, clashes, k);
    }
    forall q: nat | q < |m.stored| && MustStay(m.stored[q], m.context)
      ensures IsSafe(m, p, q)
    {
      RowIsSafe(m, repeats, clashes, q);
    }
  }

  lemma NeedsIsStrong(rows: seq<Displayed>, x: Id)
    ensures x in StrongResources(rows) <==> Needs(rows, x)
  {
    if Needs(rows, x) {
      var row, file :| row in rows && file in row.media && file.artifact.None? && file.resource == Some(x);
      assert x in Strong(row.media);
    }
  }

  lemma ResourcesAreTold(m: Merge, repeats: seq<Text>, clashes: seq<Text>, p: Projection)
    requires Applicable(m, repeats, clashes) && p == Applied(m, repeats, clashes)
    ensures forall x :: x in p.retiring <==> Needs(m.stored, x) && !Needs(p.messages, x)
  {
    assert p.retiring == StrongResources(m.stored) - StrongResources(p.messages);
    hide Applicable, Applied, StrongResources, Needs;
    forall x
      ensures x in p.retiring <==> Needs(m.stored, x) && !Needs(p.messages, x)
    {
      NeedsIsStrong(m.stored, x);
      NeedsIsStrong(p.messages, x);
    }
  }

  lemma ProjectionIsTold(m: Merge, repeats: seq<Text>, clashes: seq<Text>)
    requires Consistent(m, repeats, clashes) && Applicable(m, repeats, clashes)
    ensures Told(m, repeats, Applied(m, repeats, clashes))
  {
    hide Consistent, Applicable, Applied, IsShown, IsKept, IsSafe, IsTaken, MustStay, Needs;
    ResourcesAreTold(m, repeats, clashes, Applied(m, repeats, clashes));
    ReportsAreTold(m, repeats, clashes, Applied(m, repeats, clashes));
    RowsAreTold(m, repeats, clashes, Applied(m, repeats, clashes));
  }

  // ----- what a report is matched by -----

  /** Both name one producer ID, which nothing has put in doubt. */
  predicate ByProducer(raw: Report, was: Displayed, memory: Ambiguity) {
    && raw.origin == Some(Provided) && was.origin == Some(Provided)
    && raw.providedId.Some? && raw.providedId == was.providedId && !memory.Blocks(raw.providedId.value)
  }

  /** A producer ID that may speak for the report or the row. */
  predicate Trusted(origin: Option<Origin>, providedId: Option<Text>, memory: Ambiguity) {
    origin == Some(Provided) && providedId.Some? && !memory.Blocks(providedId.value)
  }

  /** Both stand at one place of the transcript, and no trusted producer ID says otherwise. */
  predicate ByPosition(raw: Report, was: Displayed, memory: Ambiguity) {
    && raw.position.Some? && raw.position == was.position
    && !Trusted(raw.origin, raw.providedId, memory) && !Trusted(was.origin, was.providedId, memory)
  }

  /** The report echoes the user's own message by its send key. */
  predicate ByEcho(raw: Report, was: Displayed, memory: Ambiguity) {
    && Mine(Some(was)) && raw.role == Identity.User && raw.attribution.None?
    && raw.idempotencyKey.Some? && raw.idempotencyKey == was.idempotencyKey
    && raw.origin != Some(AmbiguousProvided) && was.origin != Some(AmbiguousProvided)
    && (raw.providedId.Some? ==> !memory.Blocks(raw.providedId.value))
  }

  /**
   * A report is matched only to a row of its epoch and role that contradicts it in no run, turn, input or place, and
   * only by a producer ID, a place, or the send key of the user's own message. One's own message is never matched by
   * its place.
   */
  lemma MatchSays(m: Merge, repeats: seq<Text>, i: nat, q: nat)
    requires i < |m.read.messages| && MatchIn(m, repeats, i) == Some(q)
    ensures q < |m.stored|
    ensures var raw, was := m.read.messages[i], m.stored[q];
            && was.epoch == m.context.epoch && was.role == raw.role && SameRun(raw, was)
            && !Evidence.Differ(raw.turnId, was.turnId) && !Evidence.Differ(raw.inputMessageId, was.inputMessageId)
            && !Evidence.Differ(raw.inputMessageKey, was.inputMessageKey)
            && !Evidence.Differ(raw.position, was.position)
    ensures var raw, was, memory := m.read.messages[i], m.stored[q], m.Suspects(repeats);
            || ByProducer(raw, was, memory) || (ByPosition(raw, was, memory) && !Mine(Some(was)))
            || ByEcho(raw, was, memory)
  {
    MatchedRows(m, repeats, i, q);
    var raw, was, memory := m.read.messages[i], m.stored[q], m.Suspects(repeats);
    var row, prior := ReportRow(raw, m.context.epoch, Blocked(memory, raw.providedId)),
                      DisplayedRow(Marked(was, m.context.epoch, memory));
    hide Merge.Suspects, MatchIn;
    AgreementSays(raw, was, m.context.epoch, memory, row, prior);
    hide ReportRow, DisplayedRow, Marked, Evidence.SourceSpeaks, Evidence.SendSpeaks, Evidence.SameSource;
    hide Evidence.SameSend, ByProducer, ByPosition, ByEcho;
  }

  lemma MatchedRows(m: Merge, repeats: seq<Text>, i: nat, q: nat)
    requires i < |m.read.messages| && MatchIn(m, repeats, i) == Some(q)
    ensures q < |m.stored|
    ensures var raw, was, memory := m.read.messages[i], m.stored[q], m.Suspects(repeats);
            var row, prior := ReportRow(raw, m.context.epoch, Blocked(memory, raw.providedId)),
                              DisplayedRow(Marked(was, m.context.epoch, memory));
            && !Evidence.Deny(row, prior)
            && ((Evidence.SameSource(row, prior) && Evidence.SourceSpeaks(row, prior))
                || (Evidence.SameSend(row, prior) && Evidence.SendSpeaks(row, prior)))
  {
    var incoming, rows := m.Incoming(repeats), Reconciliation.Identities(m.Rows(repeats));
    var raw, was, memory := m.read.messages[i], m.stored[q], m.Suspects(repeats);
    Evidence.MatchIsDecided(incoming, rows, i, q);
    assert incoming[i] == ReportRow(raw, m.context.epoch, Blocked(memory, raw.providedId));
    assert rows[q] == DisplayedRow(Marked(was, m.context.epoch, memory));
    hide Merge.Suspects, Merge.Incoming, Merge.Rows, Identity.Matched, MatchIn, Evidence.Torn;
    PointingSays(incoming, rows, i, q);
    hide Evidence.PointsTo, Evidence.Deny, Evidence.SameSource, Evidence.SameSend, Evidence.SourceSpeaks;
    hide Evidence.SendSpeaks, ReportRow, DisplayedRow, Marked;
  }

  /** What rows that agree, and share evidence that speaks, say of the report and the stored row. */
  lemma AgreementSays(raw: Report, was: Displayed, epoch: Option<Id>, memory: Ambiguity, row: Identity.Row,
                      prior: Identity.Row)
    requires row == ReportRow(raw, epoch, Blocked(memory, raw.providedId))
             && prior == DisplayedRow(Marked(was, epoch, memory)) && !Evidence.Deny(row, prior)
    ensures was.epoch == epoch && was.role == raw.role && SameRun(raw, was)
            && !Evidence.Differ(raw.turnId, was.turnId) && !Evidence.Differ(raw.inputMessageId, was.inputMessageId)
            && !Evidence.Differ(raw.inputMessageKey, was.inputMessageKey)
            && !Evidence.Differ(raw.position, was.position)
    ensures Evidence.SameSource(row, prior) && Evidence.SourceSpeaks(row, prior) ==>
              ByProducer(raw, was, memory) || (ByPosition(raw, was, memory) && !Mine(Some(was)))
    ensures Evidence.SameSend(row, prior) && Evidence.SendSpeaks(row, prior) ==> ByEcho(raw, was, memory)
  {
  }

  lemma PointingSays(incoming: seq<Identity.Row>, rows: seq<Identity.Row>, i: nat, j: nat)
    requires i < |incoming| && j < |rows| && Evidence.PointsTo(incoming, rows, i, j)
    ensures !Evidence.Deny(incoming[i], rows[j])
    ensures || (Evidence.SameSource(incoming[i], rows[j]) && Evidence.SourceSpeaks(incoming[i], rows[j]))
            || (Evidence.SameSend(incoming[i], rows[j]) && Evidence.SendSpeaks(incoming[i], rows[j]))
  {
  }

  /** What a report and a stored row bring as evidence: a trusted ID, the place, and a key that no doubt attaches to. */
  lemma EvidenceOffered(m: Merge, repeats: seq<Text>, i: nat, q: nat)
    requires i < |m.read.messages| && q < |m.stored|
    ensures |m.Incoming(repeats)| == |m.read.messages| && |m.Rows(repeats)| == |m.stored|
    ensures var raw, row, memory := m.read.messages[i], m.Incoming(repeats)[i], m.Suspects(repeats);
            var doubted := raw.origin == Some(AmbiguousProvided)
                           || (raw.providedId.Some? && memory.Blocks(raw.providedId.value));
            && row.sourceId == (if Trusted(raw.origin, raw.providedId, memory) then raw.providedId else None)
            && row.sendKey == (if doubted then None else raw.idempotencyKey)
            && row.position == raw.position && row.role == raw.role && row.epoch == m.context.epoch
            && !row.locallyOwned
            && (row.author == Identity.Direct <==> raw.role != Identity.User || raw.attribution.None?)
    ensures var was, row, memory := m.stored[q], m.Rows(repeats)[q].identity, m.Suspects(repeats);
            var doubted := was.origin == Some(AmbiguousProvided)
                           || (was.epoch == m.context.epoch && was.providedId.Some?
                               && memory.Blocks(was.providedId.value));
            && row.sourceId == (if was.origin == Some(Provided) && !doubted then was.providedId else None)
            && row.sendKey == (if doubted then None else was.idempotencyKey)
            && row.position == was.position && row.role == was.role && row.epoch == was.epoch
            && row.locallyOwned == Mine(Some(was))
  {
    hide Merge.Suspects;
    assert m.Incoming(repeats)[i]
        == ReportRow(m.read.messages[i], m.context.epoch,
                     Blocked(m.Suspects(repeats), m.read.messages[i].providedId));
  }

  // ----- another epoch -----

  /** The same read, applied without what was remembered in another epoch. */
  ghost predicate Without(m: Merge, n: Merge) {
    && n.read == m.read && n.stored == m.stored && n.context == m.context
    && (n.ambiguity == m.ambiguity
        || (n.ambiguity == None && m.ambiguity.Some? && m.ambiguity.value.epoch != m.context.epoch))
    && (n.retired == m.retired
        || (n.retired == None && m.retired.Some? && m.retired.value.epoch != m.context.epoch))
  }

  lemma SameMemories(m: Merge, n: Merge)
    requires Without(m, n)
    ensures n.Memory() == m.Memory() && n.Gone() == m.Gone()
  {
  }

  lemma SamePlan(m: Merge, n: Merge, repeats: seq<Text>)
    requires Without(m, n)
    ensures n.Suspects(repeats) == m.Suspects(repeats) && n.Prior(repeats) == m.Prior(repeats)
    ensures n.Plan(repeats) == m.Plan(repeats) && (n.Ready(repeats) <==> m.Ready(repeats))
  {
    SameMemories(m, n);
    hide Suspected, Reconciliation.Planned, StoredRow, ReportRow, Without;
    assert n.Suspects(repeats) == m.Suspects(repeats);
    assert n.Prior(repeats) == m.Prior(repeats);
    assert n.Incoming(repeats) == m.Incoming(repeats);
    assert n.Rows(repeats) == m.Rows(repeats);
  }

  lemma SameMessages(m: Merge, n: Merge, repeats: seq<Text>, clashes: seq<Text>)
    requires Without(m, n) && m.Ready(repeats) && n.Ready(repeats)
    ensures n.FinalMemory(repeats, clashes) == m.FinalMemory(repeats, clashes)
    ensures n.Messages(repeats, clashes) == m.Messages(repeats, clashes)
    ensures n.Leavers(repeats, clashes) == m.Leavers(repeats, clashes)
  {
    SameMemories(m, n);
    SamePlan(m, n, repeats);
    hide Merge.Plan, Merge.Prior, Merge.Suspects, Merge.Memory, Merge.Gone, Updated, RememberAll, LeavingSources;
    hide Marked;
    assert n.FinalMemory(repeats, clashes) == m.FinalMemory(repeats, clashes);
    assert n.Drafted(repeats) == m.Drafted(repeats);
    assert n.Messages(repeats, clashes) == m.Messages(repeats, clashes);
  }

  /** What was remembered in another epoch makes no difference: a new physical session starts without doubts. */
  lemma OtherEpochsAreForgotten(m: Merge, n: Merge, repeats: seq<Text>, clashes: seq<Text>)
    requires Without(m, n)
    ensures Applicable(n, repeats, clashes) <==> Applicable(m, repeats, clashes)
    ensures Applicable(m, repeats, clashes) ==> Applied(n, repeats, clashes) == Applied(m, repeats, clashes)
  {
    SameMemories(m, n);
    SamePlan(m, n, repeats);
    if m.Ready(repeats) { SameMessages(m, n, repeats, clashes); }
    hide Merge.Plan, Merge.Messages, Merge.Leavers, Merge.FinalMemory, Merge.Gone, Merge.Ready, Without, Retiring;
    hide StrongResources;
  }
}
