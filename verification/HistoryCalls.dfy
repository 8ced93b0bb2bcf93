/** What one call of the store may do: from one state of the process to another, through images a crash may leave. */
module HistoryCalls {
  import opened Wrappers
  import opened HistoryTypes
  import opened HistoryDisk
  import opened HistoryProtocol
  import opened HistoryRecovery
  import opened HistoryRollover
  import opened ConversationWrites
  import opened HistorySteps

  /** The durable state, and what the process keeps beside it. */
  datatype Process = Process(disk: Disk, work: seq<nat>, unavailable: bool, latest: map<Scope, int>)

  function Now(p: Process): Image {
    Image(p.disk, p.work, 0)
  }

  datatype Op =
    | Writing(document: Conversation, scope: Scope)
    | Loading(scope: Scope)
    | BindingSession(binding: Binding)
    | Establishing(founding: Founding)
    | RollingOver(request: Request, id: Id, now: int)

  // ----- recovery -----

  /** Completing an intent notes the revision it installs. */
  function Caught(p: Process): map<Scope, int> {
    var pending := Pending(p.disk.files);
    if pending.Ok? && pending.value.Some? && Staged(p.disk.files, pending.value.value).Ok? then
      Raised(p.latest, pending.value.value.archive.scope, pending.value.value.archive.sourceRevision + 1)
    else p.latest
  }

  lemma CaughtIsStaged(p: Process, i: Intent)
    requires Pending(p.disk.files) == Ok(Some(i)) && Staged(p.disk.files, i).Ok?
    ensures Staged(p.disk.files, i).value.payload.Chat?
    ensures Caught(p) == Raised(p.latest, i.archive.scope, Staged(p.disk.files, i).value.payload.chat.revision)
  {
    hide ValidConversation;
  }

  /** Recovery either reaches its goal and notes what it installed, or poisons the process wherever it stopped. */
  ghost predicate Recovers(size: Encoder, p: Process, q: Process, steps: seq<Image>) {
    && (forall s :: s in steps ==> Underway(size, p.disk, p.work, s))
    && (Now(q) == Now(p) || Now(q) in steps)
    && (q.latest == p.latest || q.latest == Caught(p))
    && (!q.unavailable ==> Recover(size, p.disk, p.work) == Ok(q.disk) && q.work == [] && q.latest == Caught(p))
  }

  // ----- documents -----

  /** An ordinary write may not move a document to another epoch or physical session. */
  predicate SameSession(d: Disk, scope: Scope, c: Conversation) {
    var previous := Document(d, scope);
    previous.Ok? && previous.value.Some? ==>
      previous.value.value.value.epoch == c.epoch && previous.value.value.value.physicalSession == c.physicalSession
  }

  /** The images an ordinary write passes through, once it has decided to write. */
  ghost predicate DuringWrite(size: Encoder, d: Disk, scope: Scope, c: Conversation, s: Image) {
    && SameSession(d, scope, c) && Document(d, scope).Ok?
    && 0 < size(Chat(c)) <= RECORD_BYTES
    && (s.disk == d || s.disk == BackedUp(d, scope) || s.disk == Written(d, scope, Encode(size, Chat(c))))
    && s.work == [] && Weight(s, scope) <= PHYSICAL_BYTES
  }

  /** A document is written over what the process knows; the revision is noted before anything is written. */
  ghost predicate Stores(size: Encoder, m: Process, c: Conversation, scope: Scope, q: Process, steps: seq<Image>,
                         ok: bool) {
    && q.unavailable == m.unavailable
    && (forall s :: s in steps ==> DuringWrite(size, m.disk, scope, c, s))
    && (Now(q) == Now(m) || Now(q) in steps)
    && (q.latest == m.latest || (q.latest == m.latest[scope := c.revision] && c.revision >= Latest(m.latest, scope)))
    && (steps != [] ==> q.latest == m.latest[scope := c.revision] && c.revision >= Latest(m.latest, scope))
    && (ok ==> SameSession(m.disk, scope, c))
    && (ok && c.revision >= Latest(m.latest, scope) ==>
          q.disk == Written(m.disk, scope, Encode(size, Chat(c))) && q.work == m.work
          && q.latest == m.latest[scope := c.revision] && size(Chat(c)) <= RECORD_BYTES)
    && (c.revision < Latest(m.latest, scope) ==> q == m)
  }

  /** What a restart makes of a document that was being sent from. */
  function Settling(c: Conversation): Conversation {
    var settled := c.(messages := ResumedAll(c.messages));
    if exists m :: m in c.messages && Resumes(m) then settled.(revision := c.revision + 1) else settled
  }

  ghost predicate Loads(size: Encoder, m: Process, scope: Scope, q: Process, steps: seq<Image>, ok: bool) {
    var found := Document(m.disk, scope);
    || (q == m && steps == [] && (ok ==> found == Ok(None)))
    || (&& found.Ok? && found.value.Some?
        && var c := found.value.value.value;
           var noted := m.(latest := Raised(m.latest, scope, c.revision));
           if Settling(c).revision == c.revision then q == noted && steps == []
           else Stores(size, noted, Settling(c), scope, q, steps, ok))
  }

  /**
   * What a read returns and leaves: the settled document, stored before it is returned when settling changed a
   * delivery, unless this process has already noted a revision beyond it.
   */
  ghost predicate ReadAs(size: Encoder, d: Disk, noted: map<Scope, int>, scope: Scope, value: Option<Conversation>,
                         e: Disk) {
    var found := Document(d, scope);
    && found.Ok?
    && if found.value.None? then value == None && e == d
       else
         var c := found.value.value.value;
         && value == Some(Settling(c))
         && if Settling(c).revision == c.revision || Latest(noted, scope) > c.revision + 1 then e == d
            else e == Written(d, scope, Encode(size, Chat(Settling(c)))) && size(Chat(Settling(c))) <= RECORD_BYTES
  }

  // ----- binding and founding -----

  ghost predicate DuringBind(patch: Patcher, d: Disk, b: Binding, s: Image) {
    && Bound(patch, d, b).Ok? && s.work == [] && Weight(s, b.scope) <= PHYSICAL_BYTES
    && (|| s.disk == d || s.disk == Bound(patch, d, b).value.0
        || s.disk == d.(rollback := d.rollback[b.scope := BindingSource(d, b).value.0]))
  }

  /** A binding happens, is refused without a trace, or poisons the process. */
  ghost predicate Binds(patch: Patcher, m: Process, b: Binding, q: Process, steps: seq<Image>, ok: bool) {
    && (forall s :: s in steps ==> DuringBind(patch, m.disk, b, s))
    && (Now(q) == Now(m) || Now(q) in steps)
    && (!ok ==> q.latest == m.latest && (q.unavailable || (q == m && steps == [])))
    && (ok ==> && !q.unavailable && q.work == []
               && Bound(patch, m.disk, b).Ok? && q.disk == Bound(patch, m.disk, b).value.0
               && (q.latest == m.latest[b.scope := b.expectedRevision + 1]
                   || q.latest == Raised(m.latest, b.scope, b.expectedRevision + 1)))
  }

  ghost predicate DuringFound(size: Encoder, d: Disk, f: Founding, s: Image) {
    && Founded(size, d, f).Ok? && s.work == [] && Weight(s, f.scope) <= PHYSICAL_BYTES
    && (|| s.disk == d || s.disk == Founded(size, d, f).value.0
        || s.disk == Saved(d, f.scope, FoundingSource(d, f).value.0))
  }

  ghost predicate Founds(size: Encoder, m: Process, f: Founding, q: Process, steps: seq<Image>, ok: bool) {
    && (forall s :: s in steps ==> DuringFound(size, m.disk, f, s))
    && (Now(q) == Now(m) || Now(q) in steps)
    && (!ok ==> q.latest == m.latest && (q.unavailable || (q == m && steps == [])))
    && (ok ==> && !q.unavailable && q.work == []
               && Founded(size, m.disk, f).Ok? && q.disk == Founded(size, m.disk, f).value.0
               && (q == m || q.latest == m.latest[f.scope := f.expectedRevision + 1]))
  }

  // ----- rollover -----

  /**
   * A rollover is refused, found done, or carried out; it is abandoned only before its intent, and poisons the process
   * after.
   */
  ghost predicate Rolls(size: Encoder, m: Process, request: Request, id: Id, now: int, q: Process, steps: seq<Image>,
                        ok: bool) {
    var plan := Planned(size, m.disk, request, id, now);
    if plan.Err? || plan.value.Replay? then q == m && steps == [] && (ok ==> plan.Ok?)
    else
      var raised := Raised(m.latest, request.scope, request.expectedRevision + 1);
      && (forall s :: s in steps ==> Rolling(size, m.disk, plan.value, s))
      && (Now(q) == Now(m) || Now(q) in steps)
      && (q.latest == m.latest || q.latest == raised)
      && (ok ==> Meta(id) !in m.disk.files && q == Process(Committed(size, m.disk, plan.value), [], false, raised))
      && (!ok && !q.unavailable ==>
            q.latest == m.latest && (q.disk == m.disk || q.disk == Prepared(m.disk, plan.value)))
  }

  lemma RollsAsPlanned(size: Encoder, m: Process, request: Request, id: Id, now: int, c: Step, q: Process,
                       steps: seq<Image>, ok: bool)
    requires PlannedCommit(size, m.disk, request, id, now, c)
    requires forall s :: s in steps ==> Rolling(size, m.disk, c, s)
    requires Now(q) == Now(m) || Now(q) in steps
    requires var raised := Raised(m.latest, request.scope, request.expectedRevision + 1);
             && (q.latest == m.latest || q.latest == raised)
             && (ok ==> Meta(id) !in m.disk.files && q == Process(Committed(size, m.disk, c), [], false, raised))
             && (!ok && !q.unavailable ==> q.latest == m.latest && (q.disk == m.disk || q.disk == Prepared(m.disk, c)))
    ensures Rolls(size, m, request, id, now, q, steps, ok)
  {
    hide Planned, Rolling, Committed;
  }

  /** A rollover that returned did exactly what its plan says. */
  ghost predicate Performed(size: Encoder, d: Disk, request: Request, id: Id, now: int, value: (Archive, Conversation),
                            e: Disk) {
    var p := Planned(size, d, request, id, now);
    && p.Ok?
    && match p.value
       case Replay(archive, current) => value == (archive, current) && e == d
       case Commit(intent, original, _) =>
         && value == (intent.archive, Replacement(original.payload.chat, request))
         && Meta(id) !in d.files && e == Committed(size, d, p.value)
  }

  /** Nothing but a discardable stage was added. */
  ghost predicate Unharmed(d: Disk, e: Disk) {
    e.current == d.current && e.rollback == d.rollback && IntentFile !in e.files && Swept(e.files) == d.files
  }

  // ----- calls -----

  ghost predicate Performs(size: Encoder, patch: Patcher, op: Op, m: Process, q: Process, steps: seq<Image>, ok: bool) {
    match op
    case Writing(c, scope) => Stores(size, m, c, scope, q, steps, ok)
    case Loading(scope) => Loads(size, m, scope, q, steps, ok)
    case BindingSession(b) => Binds(patch, m, b, q, steps, ok)
    case Establishing(f) => Founds(size, m, f, q, steps, ok)
    case RollingOver(request, id, now) => Rolls(size, m, request, id, now, q, steps, ok)
  }

  /** Every call recovers first, and goes no further when that fails. */
  ghost predicate CallsVia(size: Encoder, patch: Patcher, op: Op, p: Process, m: Process, q: Process,
                           before: seq<Image>, after: seq<Image>, ok: bool)
  {
    && Recovers(size, p, m, before)
    && (if m.unavailable then q == m && after == [] && !ok else Performs(size, patch, op, m, q, after, ok))
  }

  /** A poisoned process does nothing; another may refuse at once. */
  ghost predicate Calls(size: Encoder, patch: Patcher, op: Op, p: Process, q: Process, steps: seq<Image>, ok: bool) {
    || (q == p && steps == [] && !ok)
    || (!p.unavailable
        && exists m, before, after :: CallsVia(size, patch, op, p, m, q, before, after, ok) && steps == before + after)
  }
}
