/**
 * Applying a planned read to the displayed rows: who owns what, which producer IDs still have authority, what is
 * retired.
 */
module HistoryApplication {
  import opened Wrappers
  import opened HistoryTypes
  import opened HistoryMemories
  import Identity = HistoryIdentity
  import Weaving = HistoryWeave
  import Reconciliation = HistoryReconciliation

  datatype Origin = Provided | Synthetic | AmbiguousProvided
  datatype Liveness = HistoryActive | Active | Terminal

  datatype Attachment = Attachment(artifact: Option<Text>, kind: nat, mimeType: Text, name: Text)
  datatype Reference = Reference(
    id: Text, resource: Option<Id>, artifact: Option<Text>,
    kind: nat, mimeType: Text, name: Text)

  /** One message of a read. `raw` is its raw content; its hash is modelled as injective. */
  datatype Report = Report(
    id: Text, role: Identity.Role, text: Text, runId: Option<Text>,
    idempotencyKey: Option<Text>, timestamp: Option<int>,
    providedId: Option<Text>, origin: Option<Origin>, attribution: Option<Identity.Attribution>,
    position: Option<Identity.Position>, boundary: nat, turnId: Option<Text>,
    inputMessageId: Option<Text>, inputMessageKey: Option<Text>, attachments: seq<Attachment>, raw: nat)

  datatype Read = Read(
    messages: seq<Report>, hasMore: Option<bool>, byCursor: bool,
    activeRunEvidence: Option<bool>, activeRunId: Option<Text>)

  /** One displayed message. */
  datatype Displayed = Displayed(
    id: Text, remoteId: Option<Text>, role: Identity.Role, local: bool,
    text: Text, runId: Option<Text>, segmentId: Option<Text>,
    idempotencyKey: Option<Text>, timestamp: Option<int>, delivery: Option<Delivery>, streaming: bool, isWork: bool,
    media: seq<Reference>, providedId: Option<Text>, origin: Option<Origin>, attribution: Option<Identity.Attribution>,
    position: Option<Identity.Position>, boundary: nat, epoch: Option<Id>, revision: Option<nat>, turnId: Option<Text>,
    inputMessageId: Option<Text>, inputMessageKey: Option<Text>, liveness: Option<Liveness>)

  datatype Projection = Projection(
    messages: seq<Displayed>,
    accepted: map<nat, Text>,
    retiring: set<Id>,
    ambiguity: Ambiguity,
    retired: Retired)

  /** What surrounds one application: the rows seen when the read began, and the sources of fresh names. */
  datatype Context = Context(snapshot: map<Text, Displayed>, epoch: Option<Id>, earlier: bool, newId: nat -> Text,
                             referenceId: (Text, nat, Option<Text>) -> Text)

  predicate Owned(m: Displayed) { m.local && m.role == Identity.User && m.attribution.None? }

  // ----- rows as evidence -----

  function ReportRow(m: Report, epoch: Option<Id>, blocked: bool): Identity.Row {
    Identity.Row(m.role, if m.origin == Some(Provided) && !blocked then m.providedId else None, m.position,
                 if m.origin == Some(AmbiguousProvided) || blocked then None else m.idempotencyKey,
                 false, Identity.AuthorOf(m.attribution, m.role), epoch, m.runId, m.turnId,
                 m.inputMessageId, m.inputMessageKey, m.attribution)
  }

  function DisplayedRow(m: Displayed): Identity.Row {
    Identity.Row(m.role, if m.origin == Some(Provided) then m.providedId else None, m.position,
                 if m.origin == Some(AmbiguousProvided) then None else m.idempotencyKey,
                 Owned(m), Identity.AuthorOf(m.attribution, m.role), m.epoch, m.runId, m.turnId,
                 m.inputMessageId, m.inputMessageKey, m.attribution)
  }

  // ----- what becomes ambiguous -----

  function AmbiguousReports(reports: seq<Report>): (found: seq<Text>)
    ensures forall s :: s in found <==>
              exists m :: m in reports && m.origin == Some(AmbiguousProvided) && m.providedId == Some(s)
  {
    if reports == [] then []
    else
      var last := reports[|reports| - 1];
      AmbiguousReports(reports[..|reports| - 1])
      + if last.origin == Some(AmbiguousProvided) && last.providedId.Some? then [last.providedId.value] else []
  }

  function AmbiguousStored(stored: seq<Displayed>, epoch: Option<Id>): (found: seq<Text>)
    ensures forall s :: s in found <==>
              exists m ::
                m in stored && m.epoch == epoch && m.origin == Some(AmbiguousProvided) && m.providedId == Some(s)
  {
    if stored == [] then []
    else
      var last := stored[|stored| - 1];
      AmbiguousStored(stored[..|stored| - 1], epoch)
      + if last.epoch == epoch && last.origin == Some(AmbiguousProvided) && last.providedId.Some?
          then [last.providedId.value]
          else []
  }

  predicate RepeatedInRead(reports: seq<Report>, s: Text) {
    exists i, j :: 0 <= i < j < |reports| && reports[i].providedId == Some(s) && reports[j].providedId == Some(s)
  }

  /** The row holds a producer ID of this epoch. */
  predicate Names(m: Displayed, epoch: Option<Id>, s: Text) { m.epoch == epoch && m.providedId == Some(s) }

  predicate RepeatedInRows(rows: seq<Displayed>, epoch: Option<Id>, s: Text) {
    exists i, j :: 0 <= i < j < |rows| && Names(rows[i], epoch, s) && Names(rows[j], epoch, s)
  }

  /** A row of the read contradicts a stored row of the same source. */
  predicate Contradicts(m: Report, stored: seq<Displayed>, epoch: Option<Id>) {
    && m.origin == Some(Provided) && m.providedId.Some?
    && exists p ::
         0 <= p < |stored| && Names(stored[p], epoch, m.providedId.value) && stored[p].origin == Some(Provided)
                   && !Identity.SourceCompatible(ReportRow(m, epoch, false), DisplayedRow(stored[p]))
  }

  function Contradictions(reports: seq<Report>, stored: seq<Displayed>, epoch: Option<Id>): (found: seq<Text>)
    ensures forall s :: s in found <==>
              exists m :: m in reports && m.providedId == Some(s) && Contradicts(m, stored, epoch)
  {
    if reports == [] then []
    else
      var last := reports[|reports| - 1];
      Contradictions(reports[..|reports| - 1], stored, epoch)
      + if Contradicts(last, stored, epoch) then [last.providedId.value] else []
  }

  /** The producer IDs repeated within the read or within the stored rows, in whatever order the groups come. */
  ghost predicate Repeats(repeats: seq<Text>, read: Read, stored: seq<Displayed>, epoch: Option<Id>) {
    forall s :: s in repeats <==> RepeatedInRead(read.messages, s) || RepeatedInRows(stored, epoch, s)
  }

  function Suspected(memory: Ambiguity, read: Read, stored: seq<Displayed>, epoch: Option<Id>,
                     repeats: seq<Text>): Ambiguity {
    RememberAll(memory, AmbiguousStored(stored, epoch) + AmbiguousReports(read.messages) + repeats
                        + Contradictions(read.messages, stored, epoch))
  }

  predicate Blocked(memory: Ambiguity, source: Option<Text>) {
    source.Some? && memory.Blocks(source.value)
  }

  /** A row of this epoch whose producer ID is blocked loses its authority. */
  function Marked(m: Displayed, epoch: Option<Id>, memory: Ambiguity): Displayed {
    if m.epoch == epoch && Blocked(memory, m.providedId) then m.(origin := Some(AmbiguousProvided)) else m
  }

  function MarkAll(rows: seq<Displayed>, epoch: Option<Id>, memory: Ambiguity): (r: seq<Displayed>)
    ensures |r| == |rows| && forall i :: 0 <= i < |rows| ==> r[i] == Marked(rows[i], epoch, memory)
  {
    seq(|rows|, i requires 0 <= i < |rows| => Marked(rows[i], epoch, memory))
  }

  // ----- planning the rows -----

  function IncomingRows(read: Read, epoch: Option<Id>, memory: Ambiguity): (rows: seq<Identity.Row>)
    ensures |rows| == |read.messages|
    ensures forall i :: 0 <= i < |rows| ==>
              rows[i] == ReportRow(read.messages[i], epoch, Blocked(memory, read.messages[i].providedId))
  {
    seq(|read.messages|, i requires 0 <= i < |read.messages| =>
      ReportRow(read.messages[i], epoch, Blocked(memory, read.messages[i].providedId)))
  }

  function StoredRows(prior: seq<Displayed>, stored: seq<Displayed>, read: Read,
                      context: Context): (rows: seq<Reconciliation.Stored>)
    requires |prior| == |stored|
    ensures |rows| == |stored|
    ensures forall p :: 0 <= p < |rows| ==> rows[p] == StoredRow(prior[p], stored[p], read, context)
  {
    seq(|stored|, p requires 0 <= p < |stored| => StoredRow(prior[p], stored[p], read, context))
  }

  function StoredRow(prior: Displayed, stored: Displayed, read: Read, context: Context): Reconciliation.Stored {
    Reconciliation.Stored(prior.id, DisplayedRow(prior), prior.streaming,
                          !(prior.id in context.snapshot && context.snapshot[prior.id] == stored),
                          prior.liveness == Some(Terminal) && prior.segmentId.Some?
                          && read.activeRunEvidence != Some(false))
  }

  // ----- what a row becomes -----

  function Fallback<T>(value: Option<T>, other: Option<T>): Option<T> {
    if value.Some? then value else other
  }

  function FirstReference(media: seq<Reference>, id: Text): Option<Reference> {
    if media == [] then None else if media[0].id == id then Some(media[0]) else FirstReference(media[1..], id)
  }

  function ReferenceFor(raw: Report, at: nat, id: Text, previous: Option<Displayed>, context: Context): Reference
    requires at < |raw.attachments|
  {
    var a := raw.attachments[at];
    var name := context.referenceId(id, at, a.artifact);
    var found := if previous.Some? && previous.value.revision == Some(raw.raw)
                 then FirstReference(previous.value.media, name)
                 else None;
    var kept := found.Some? && found.value.kind == a.kind && found.value.mimeType == a.mimeType
                && found.value.artifact == a.artifact;
    Reference(name, if kept then found.value.resource else None, a.artifact, a.kind, a.mimeType, a.name)
  }

  /** A proven local echo keeps its own input files; any other row refers to the attachments reported. */
  function References(raw: Report, id: Text, previous: Option<Displayed>, owned: bool,
                      context: Context): seq<Reference> {
    if owned && raw.role == Identity.User && previous.Some? && previous.value.media != [] then previous.value.media
    else seq(|raw.attachments|, at requires 0 <= at < |raw.attachments| => ReferenceFor(raw, at, id, previous, context))
  }

  function LivenessOf(raw: Report, previous: Option<Displayed>, read: Read, retired: Retired): Option<Liveness> {
    var before := if previous.Some? then previous.value.liveness else None;
    if raw.role == Identity.Assistant && raw.origin == Some(Provided) then
      if read.activeRunEvidence == Some(false) || (raw.providedId.Some? && raw.providedId.value in retired.sources) then
        Some(Terminal)
      else if before != Some(Terminal) && read.activeRunEvidence == Some(true) && raw.runId.Some?
           && raw.runId == read.activeRunId then
        if before != Some(Active) then Some(HistoryActive) else before
      else before
    else before
  }

  function Updated(raw: Report, id: Text, previous: Option<Displayed>, read: Read, memory: Ambiguity, retired: Retired,
                   context: Context): Displayed {
    var owned := previous.Some? && Owned(previous.value);
    var compatibleRun := previous.Some? ==> Identity.Agree(raw.runId, previous.value.runId);
    var keepLiveText := previous.Some? && (previous.value.streaming || previous.value.liveness == Some(Active))
                        && previous.value.segmentId.Some? && compatibleRun && read.activeRunEvidence != Some(false);
    var inherited := previous.Some? && previous.value.origin == Some(AmbiguousProvided)
                     && previous.value.providedId == raw.providedId;
    var was := if previous.Some? then previous.value else Nothing(id);
    Displayed(id, Some(raw.id), raw.role, owned,
              if keepLiveText then was.text else raw.text,
              Fallback(raw.runId, was.runId),
              if compatibleRun then was.segmentId else None,
              Fallback(raw.idempotencyKey, if owned then was.idempotencyKey else None),
              Fallback(raw.timestamp, was.timestamp),
              if owned then Some(Delivered) else None,
              was.streaming && keepLiveText,
              raw.role == Identity.Tool,
              References(raw, id, previous, owned, context),
              raw.providedId,
              if Blocked(memory, raw.providedId) || inherited then Some(AmbiguousProvided) else raw.origin,
              raw.attribution, raw.position, raw.boundary, context.epoch, Some(raw.raw),
              Fallback(raw.turnId, was.turnId), Fallback(raw.inputMessageId, was.inputMessageId),
              Fallback(raw.inputMessageKey, was.inputMessageKey),
              LivenessOf(raw, previous, read, retired))
  }

  /** A row with nothing in it, for a row of the read that had none before. */
  function Nothing(id: Text): Displayed {
    Displayed(id, None, Identity.System, false, [], None, None, None, None, None, false, false, [], None, None, None,
              None, 0, None, None,
              None, None, None, None)
  }

  predicate Sound(e: Weaving.Entry, read: Read, prior: seq<Displayed>) {
    match e
    case Preserved(p, _) => p < |prior|
    case History(i, previous, _) => i < |read.messages| && (previous.Some? ==> previous.value < |prior|)
  }

  function Shown(e: Weaving.Entry, read: Read, prior: seq<Displayed>, memory: Ambiguity, retired: Retired,
                 context: Context): Displayed
    requires Sound(e, read, prior)
  {
    match e
    case Preserved(p, _) => prior[p]
    case History(i, previous, id) =>
      Updated(read.messages[i], id, if previous.Some? then Some(prior[previous.value]) else None, read, memory, retired,
              context)
  }

  function ShowAll(entries: seq<Weaving.Entry>, read: Read, prior: seq<Displayed>, memory: Ambiguity, retired: Retired,
                   context: Context): (rows: seq<Displayed>)
    requires forall e :: e in entries ==> Sound(e, read, prior)
    ensures |rows| == |entries|
    ensures forall k :: 0 <= k < |rows| ==> rows[k] == Shown(entries[k], read, prior, memory, retired, context)
  {
    seq(|entries|, k requires 0 <= k < |entries| => Shown(entries[k], read, prior, memory, retired, context))
  }

  /** The producer IDs that end up on several rows, in whatever order the groups come. */
  ghost predicate Clashes(clashes: seq<Text>, rows: seq<Displayed>, epoch: Option<Id>) {
    forall s :: s in clashes <==> RepeatedInRows(rows, epoch, s)
  }

  // ----- what is retired -----

  /** A finished assistant row with its own producer ID that the plan dropped. */
  predicate Leaving(m: Displayed, kept: set<Text>, epoch: Option<Id>) {
    && m.epoch == epoch && m.role == Identity.Assistant && !m.local && m.origin == Some(Provided)
       && m.liveness == Some(Terminal)
    && m.id !in kept && m.providedId.Some?
  }

  function LeavingSources(prior: seq<Displayed>, kept: set<Text>, epoch: Option<Id>): (found: seq<Text>)
    ensures forall s :: s in found <==> exists m :: m in prior && Leaving(m, kept, epoch) && m.providedId == Some(s)
  {
    if prior == [] then []
    else
      var last := prior[|prior| - 1];
      LeavingSources(prior[..|prior| - 1], kept, epoch)
      + if Leaving(last, kept, epoch) then [last.providedId.value] else []
  }

  function RowIds(rows: seq<Displayed>): set<Text> {
    set m | m in rows :: m.id
  }

  /** The resources of a message that nothing else can restore: those of references without an artifact. */
  function Strong(media: seq<Reference>): set<Id> {
    set r | r in media && r.artifact.None? && r.resource.Some? :: r.resource.value
  }

  function StrongResources(rows: seq<Displayed>): (held: set<Id>)
    ensures forall x :: x in held <==> exists m :: m in rows && x in Strong(m.media)
  {
    set m, x | m in rows && x in Strong(m.media) :: x
  }

  // ----- the whole application -----

  function MemoryFor(memory: Option<Ambiguity>, epoch: Option<Id>): Ambiguity {
    if memory.Some? then memory.value.Scoped(epoch) else Ambiguity(epoch, [], false)
  }

  function RetiredFor(retired: Option<Retired>, epoch: Option<Id>): Retired {
    if retired.Some? then retired.value.Scoped(epoch) else Retired(epoch, [])
  }

  /** A read together with everything its application reads. */
  datatype Merge = Merge(
    read: Read, stored: seq<Displayed>, context: Context, ambiguity: Option<Ambiguity>,
    retired: Option<Retired>) {
    function Memory(): Ambiguity { MemoryFor(ambiguity, context.epoch) }

    function Gone(): Retired { RetiredFor(retired, context.epoch) }

    /** The memory once the read and the stored rows are examined. */
    function Suspects(repeats: seq<Text>): Ambiguity { Suspected(Memory(), read, stored, context.epoch, repeats) }

    function Prior(repeats: seq<Text>): (prior: seq<Displayed>)
      ensures |prior| == |stored|
    {
      MarkAll(stored, context.epoch, Suspects(repeats))
    }

    function Incoming(repeats: seq<Text>): seq<Identity.Row> { IncomingRows(read, context.epoch, Suspects(repeats)) }

    function Rows(repeats: seq<Text>): seq<Reconciliation.Stored> { StoredRows(Prior(repeats), stored, read, context) }

    function Plan(repeats: seq<Text>): Result<Reconciliation.Plan, Failure> {
      Reconciliation.Planned(Incoming(repeats), Rows(repeats), context.earlier
                             && read.byCursor, read.hasMore == Some(true), context.newId)
    }

    ghost predicate Ready(repeats: seq<Text>) {
      Memory().Valid() && Gone().Valid() && Plan(repeats).Ok?
    }

    /** The rows before repeated producer IDs lose their authority. */
    function Drafted(repeats: seq<Text>): seq<Displayed>
      requires Ready(repeats)
    {
      PlanIsSound(this, repeats);
      ShowAll(Plan(repeats).value.entries, read, Prior(repeats), Suspects(repeats), Gone(), context)
    }

    function FinalMemory(repeats: seq<Text>, clashes: seq<Text>): Ambiguity { RememberAll(Suspects(repeats), clashes) }

    function Messages(repeats: seq<Text>, clashes: seq<Text>): seq<Displayed>
      requires Ready(repeats)
    {
      MarkAll(Drafted(repeats), context.epoch, FinalMemory(repeats, clashes))
    }

    function Leavers(repeats: seq<Text>, clashes: seq<Text>): seq<Text>
      requires Ready(repeats)
    {
      LeavingSources(Prior(repeats), RowIds(Messages(repeats, clashes)), context.epoch)
    }
  }

  /** Every entry of an accepted plan points into the rows it was planned from. */
  lemma PlanIsSound(m: Merge, repeats: seq<Text>)
    requires m.Plan(repeats).Ok?
    ensures forall e :: e in m.Plan(repeats).value.entries ==> Sound(e, m.read, m.Prior(repeats))
  {
    Reconciliation.PlannedEntries(m.Incoming(repeats), m.Rows(repeats), m.context.earlier && m.read.byCursor,
                                  m.read.hasMore == Some(true), m.context.newId);
    hide Reconciliation.Planned, Reconciliation.StoredId, Identity.Matched;
  }

  /** The read can be applied. */
  ghost predicate Applicable(m: Merge, repeats: seq<Text>, clashes: seq<Text>) {
    m.Ready(repeats) && Retiring(m.Gone(), m.Leavers(repeats, clashes)).Some?
  }

  ghost function Applied(m: Merge, repeats: seq<Text>, clashes: seq<Text>): Projection
    requires Applicable(m, repeats, clashes)
  {
    var messages := m.Messages(repeats, clashes);
    Projection(messages, m.Plan(repeats).value.accepted, StrongResources(m.stored) - StrongResources(messages),
               m.FinalMemory(repeats, clashes), Retiring(m.Gone(), m.Leavers(repeats, clashes)).value)
  }
}
