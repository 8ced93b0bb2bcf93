/** Runs of the store: calls on any conversations, crashes inside and between them, restarts. */
module HistoryRuns {
  import opened Wrappers
  import opened HistoryTypes
  import opened HistoryDisk
  import opened HistoryProtocol
  import opened HistoryRecovery
  import opened HistoryRollover
  import opened ConversationWrites
  import opened HistorySteps
  import opened HistoryCalls

  /** A process, and the conversations it has read. */
  datatype State = State(process: Process, seen: set<Scope>)

  datatype Event =
    | Called(op: Op, steps: seq<Image>, ok: bool)
    | CrashedInside(op: Op, steps: seq<Image>, ok: bool, end: Process, at: nat)
    | Crashed

  /** A new process on what a crash left. */
  function Restarted(s: Image): State {
    State(Process(s.disk, s.work, false, map[]), {})
  }

  function Seen(s: State, op: Op, ok: bool): set<Scope> {
    if op.Loading? && ok then s.seen + {op.scope} else s.seen
  }

  ghost predicate Next(size: Encoder, patch: Patcher, s: State, e: Event, t: State) {
    match e
    case Called(op, steps, ok) =>
      Calls(size, patch, op, s.process, t.process, steps, ok) && t.seen == Seen(s, op, ok)
    case CrashedInside(op, steps, ok, end, at) =>
      Calls(size, patch, op, s.process, end, steps, ok) && at < |steps| && t == Restarted(steps[at])
    case Crashed => t == Restarted(Now(s.process))
  }

  /** The archive ID a rollover draws is not the name of an archive yet, nor of the one that is pending. */
  ghost predicate FreshId(size: Encoder, d: Disk, op: Op) {
    op.RollingOver? && Goal(size, d).Ok? ==> Meta(op.id) !in Goal(size, d).value.files
  }

  ghost predicate Fresh(size: Encoder, s: State, e: Event) {
    !e.Crashed? ==> FreshId(size, s.process.disk, e.op)
  }

  ghost predicate Start(s: State) {
    Settled(s.process.disk) && s == Restarted(Image(s.process.disk, [], 0))
  }

  ghost predicate Run(size: Encoder, patch: Patcher, states: seq<State>, events: seq<Event>) {
    && |states| == |events| + 1 && Start(states[0])
    && forall k: nat :: k < |events| ==> Follows(size, patch, states, events, k)
  }

  ghost predicate Follows(size: Encoder, patch: Patcher, states: seq<State>, events: seq<Event>, k: nat)
    requires |states| == |events| + 1 && k < |events|
  {
    Next(size, patch, states[k], events[k], states[k + 1])
  }

  // ----- what holds in every reachable state -----

  /** Recovery leads somewhere from here. */
  ghost predicate Recoverable(size: Encoder, s: Image) {
    Goal(size, s.disk).Ok? && Sized(s.work)
  }

  /**
   * A rollover is pending under an ID that names another archive: the stage and the document are in order, but the
   * manifest that stands there is not the one to be written.
   */
  predicate Stranded(size: Encoder, d: Disk) {
    var pending := Pending(d.files);
    && pending.Ok? && pending.value.Some?
    && var i := pending.value.value;
       && Replacing(d, i) && Meta(i.archive.id) in d.files
       && d.files[Meta(i.archive.id)] != Encode(size, Manifest(i.archive))
  }

  /**
   * The disk recovers, unless a rollover drew an ID that was taken. A process that is not poisoned and has read
   * something has nothing pending, and knows the revision of everything it has read.
   */
  ghost predicate Inv(size: Encoder, s: State) {
    && (Recoverable(size, Now(s.process)) || Stranded(size, s.process.disk))
    && (!s.process.unavailable && s.seen != {} ==>
          && IntentFile !in s.process.disk.files
          && forall k :: k in s.seen ==> Known(s.process.latest, s.process.disk, k))
  }

  // ----- disks on which nothing is pending -----

  lemma SettledIsItsGoal(size: Encoder, d: Disk)
    requires Settled(d)
    ensures Goal(size, d) == Ok(d)
  {
    assert Swept(d.files) == d.files;
  }

  /** Whatever replaces documents leaves a settled directory settled. */
  lemma SettledStays(size: Encoder, d: Disk, x: Disk)
    requires Settled(d) && x.files == d.files
    ensures Settled(x) && Goal(size, x) == Ok(x)
  {
    SettledIsItsGoal(size, x);
  }

  lemma UnderwayRecovers(size: Encoder, d: Disk, work: seq<nat>, s: Image)
    requires Goal(size, d).Ok? && Sized(work) && Underway(size, d, work, s)
    ensures Recoverable(size, s) && Goal(size, s.disk) == Goal(size, d)
  {
    hide OnTheWay, Goal, Underway;
    UnderwayIsOnTheWay(size, d, work, s);
    GoalIsKept(size, d, s.disk);
  }

  // ----- disks under a taken ID -----

  lemma StrandedNeverRecovers(size: Encoder, d: Disk)
    requires Stranded(size, d)
    ensures Finished(size, d, Pending(d.files).value.value).Err?
    ensures Goal(size, d).Err? && forall work :: Recover(size, d, work).Err?
  {
    var i := Pending(d.files).value.value;
    var raw := Original(d, i);
    hide CurrentBytes, Staged, Derived, ValidArchive, Archived;
    if Archived(size, d.files, i.archive, raw).Ok? {
      ArchivedIsIdempotent(size, d.files, i.archive, raw);
      assert false;
    }
  }

  /** Recovery leaves such a disk as it is but for a body. */
  lemma StrandedStays(size: Encoder, d: Disk, work: seq<nat>, s: Image)
    requires Stranded(size, d) && Underway(size, d, work, s)
    ensures Stranded(size, s.disk)
  {
    var i := Pending(d.files).value.value;
    var raw := Original(d, i);
    StrandedNeverRecovers(size, d);
    hide Finished, Derived, ValidArchive, Decode, Archived, ReadBody;
    if Archived(size, d.files, i.archive, raw).Ok? {
      ArchivedIsIdempotent(size, d.files, i.archive, raw);
      assert false;
    }
    if s.disk != d {
      assert s.disk == WithFile(d, Body(i.archive.id), raw);
      SameStaged(s.disk.files, d.files, i);
    }
  }

  /** A rollover under a taken ID leads back to where it began, or is stranded once its intent is published. */
  lemma TakenStrands(size: Encoder, d: Disk, request: Request, id: Id, now: int, c: Step, s: Image)
    requires PlannedCommit(size, d, request, id, now, c) && Meta(id) in d.files && Rolling(size, d, c, s)
    ensures (Goal(size, s.disk) == Ok(d) && Sized(s.work)) || Stranded(size, s.disk)
  {
    PlannedFacts(size, d, request, id, now, c);
    IntendedReplaces(size, d, request, id, now, c);
    IntendedIsStranded(size, d, request, id, now, c);
    hide Planned, PlannedCommit, OnTheWay, Underway, Stranded, Goal, Decode, Pending;
    RollingIsOnTheWay(size, d, c, s);
    if s.disk == d || s.disk == Prepared(d, c) {
      PlannedIsSettled(size, d, request, id, now, c);
      PreparedIsDiscarded(size, d, c, s.disk);
    } else if Underway(size, Intended(size, d, c), [], s) {
      StrandedStays(size, Intended(size, d, c), [], s);
    }
  }

  lemma PlannedIsSettled(size: Encoder, d: Disk, request: Request, id: Id, now: int, c: Step)
    requires PlannedCommit(size, d, request, id, now, c)
    ensures Settled(d)
  {
  }

  lemma IntendedIsStranded(size: Encoder, d: Disk, request: Request, id: Id, now: int, c: Step)
    requires PlannedCommit(size, d, request, id, now, c) && Meta(id) in d.files
    ensures Stranded(size, Intended(size, d, c))
  {
    PlannedFacts(size, d, request, id, now, c);
    IntendedReplaces(size, d, request, id, now, c);
    TakenIsAnother(size, d, request, id, now, c);
    hide Planned, PlannedCommit, Replacing, Pending, Decode;
  }

  // ----- every image of every call recovers -----

  /** The disks a performance passes through leave the directory alone, or are those of a rollover. */
  lemma PerformedImages(size: Encoder, patch: Patcher, op: Op, m: Process, q: Process, steps: seq<Image>, ok: bool,
                        s: Image)
    requires Performs(size, patch, op, m, q, steps, ok) && s in steps
    ensures || (s.disk.files == m.disk.files && s.work == [])
            || (&& op.RollingOver? && Planned(size, m.disk, op.request, op.id, op.now).Ok?
                && var c := Planned(size, m.disk, op.request, op.id, op.now).value;
                   c.Commit? && Rolling(size, m.disk, c, s))
  {
    hide Planned, Rolling, Weight, Document, Bound, Founded, BindingSource, FoundingSource;
    match op
    case Writing(c, scope) => StoredFiles(size, m, c, scope, q, steps, ok, s);
    case Loading(scope) => LoadedFiles(size, m, scope, q, steps, ok, s);
    case BindingSession(b) => BoundFiles(patch, m.disk, b, s);
    case Establishing(f) => FoundedFiles(size, m.disk, f, s);
    case RollingOver(_, _, _) =>
  }

  lemma StoredFiles(size: Encoder, m: Process, c: Conversation, scope: Scope, q: Process, steps: seq<Image>, ok: bool,
                    s: Image)
    requires Stores(size, m, c, scope, q, steps, ok) && s in steps
    ensures s.disk.files == m.disk.files && s.work == []
  {
    hide Document, Weight;
  }

  lemma LoadedFiles(size: Encoder, m: Process, scope: Scope, q: Process, steps: seq<Image>, ok: bool, s: Image)
    requires Loads(size, m, scope, q, steps, ok) && s in steps
    ensures s.disk.files == m.disk.files && s.work == []
  {
    hide Document, Weight, Stores;
    var c := Document(m.disk, scope).value.value.value;
    StoredFiles(size, m.(latest := Raised(m.latest, scope, c.revision)), Settling(c), scope, q, steps, ok, s);
  }

  lemma BoundFiles(patch: Patcher, d: Disk, b: Binding, s: Image)
    requires DuringBind(patch, d, b, s)
    ensures s.disk.files == d.files && s.work == []
  {
    hide Weight, CurrentBytes, Decode;
  }

  lemma FoundedFiles(size: Encoder, d: Disk, f: Founding, s: Image)
    requires DuringFound(size, d, f, s)
    ensures s.disk.files == d.files && s.work == []
  {
    hide Weight, CurrentBytes, Decode;
  }

  lemma PerformanceRecovers(size: Encoder, patch: Patcher, op: Op, m: Process, q: Process, steps: seq<Image>, ok: bool,
                            s: Image)
    requires Settled(m.disk) && Performs(size, patch, op, m, q, steps, ok) && s in steps
    ensures Recoverable(size, s) || (op.RollingOver? && Meta(op.id) in m.disk.files && Stranded(size, s.disk))
  {
    PerformedImages(size, patch, op, m, q, steps, ok, s);
    hide Performs, Planned, Rolling, Goal, Recover, Settled, Stranded;
    if s.disk.files == m.disk.files && s.work == [] {
      SettledStays(size, m.disk, s.disk);
    } else {
      var c := Planned(size, m.disk, op.request, op.id, op.now).value;
      if Meta(op.id) in m.disk.files {
        TakenStrands(size, m.disk, op.request, op.id, op.now, c, s);
      } else {
        RollingRecovers(size, m.disk, op.request, op.id, op.now, c, s);
        RecoveryNeedsRoom(size, s.disk, s.work);
      }
    }
  }

  /**
   * Every image of every call leads to a disk recovery reaches, unless the call is a rollover under a taken ID, and has
   * published its intent.
   */
  lemma CallRecovers(size: Encoder, patch: Patcher, op: Op, p: Process, q: Process, steps: seq<Image>, ok: bool,
                     s: Image)
    requires Recoverable(size, Now(p))
    requires Calls(size, patch, op, p, q, steps, ok) && (s in steps || s == Now(q))
    ensures Recoverable(size, s) || (!FreshId(size, p.disk, op) && Stranded(size, s.disk))
  {
    hide CallsVia, Goal, Stranded;
    if q == p && steps == [] {
    } else {
      var m, before, after :| CallsVia(size, patch, op, p, m, q, before, after, ok) && steps == before + after;
      ViaRecovers(size, patch, op, p, m, q, before, after, ok, s);
    }
  }

  lemma ViaRecovers(size: Encoder, patch: Patcher, op: Op, p: Process, m: Process, q: Process,
                    before: seq<Image>, after: seq<Image>, ok: bool, s: Image)
    requires Recoverable(size, Now(p))
    requires CallsVia(size, patch, op, p, m, q, before, after, ok) && (s in before + after || s == Now(q))
    ensures Recoverable(size, s) || (!FreshId(size, p.disk, op) && Stranded(size, s.disk))
  {
    hide Goal, Performs, Underway, Recover, Stranded;
    if s in before || s == Now(p) {
      if s in before { UnderwayRecovers(size, p.disk, p.work, s); }
    } else if !m.unavailable {
      RecoveryNeedsRoom(size, p.disk, p.work);
      RecoveredIsSettled(size, p.disk, p.work);
      assert Goal(size, p.disk) == Ok(m.disk);
      SettledIsItsGoal(size, m.disk);
      if s != Now(m) {
        PerformanceEnds(size, patch, op, m, q, after, ok);
        PerformanceRecovers(size, patch, op, m, q, after, ok, s);
      }
    } else if s == Now(q) && Now(q) in before {
      UnderwayRecovers(size, p.disk, p.work, s);
    }
  }

  /** Where a rollover is stranded, no call does more than add its body. */
  lemma CallStrands(size: Encoder, patch: Patcher, op: Op, p: Process, q: Process, steps: seq<Image>, ok: bool,
                    s: Image)
    requires Stranded(size, p.disk)
    requires Calls(size, patch, op, p, q, steps, ok) && (s in steps || s == Now(q))
    ensures Stranded(size, s.disk) && (q == p || q.unavailable)
  {
    hide CallsVia, Stranded;
    if !(q == p && steps == []) {
      var m, before, after :| CallsVia(size, patch, op, p, m, q, before, after, ok) && steps == before + after;
      ViaStrands(size, patch, op, p, m, q, before, after, ok, s);
    }
  }

  lemma ViaStrands(size: Encoder, patch: Patcher, op: Op, p: Process, m: Process, q: Process,
                   before: seq<Image>, after: seq<Image>, ok: bool, s: Image)
    requires Stranded(size, p.disk)
    requires CallsVia(size, patch, op, p, m, q, before, after, ok) && (s in before + after || s == Now(q))
    ensures Stranded(size, s.disk) && q.unavailable
  {
    StrandedNeverRecovers(size, p.disk);
    hide Stranded, Performs, Underway, Recover;
    assert m.unavailable && q == m && after == [];
    if s in before { StrandedStays(size, p.disk, p.work, s); }
    if Now(q) in before { StrandedStays(size, p.disk, p.work, Now(q)); }
  }

  /** A performance ends where it began or at one of its images. */
  lemma PerformanceEnds(size: Encoder, patch: Patcher, op: Op, m: Process, q: Process, steps: seq<Image>, ok: bool)
    requires Performs(size, patch, op, m, q, steps, ok)
    ensures Now(q) == Now(m) || Now(q) in steps
  {
    hide Planned, Rolling, Weight, Document, Bound, Founded, DuringWrite, DuringBind, DuringFound;
  }

  // ----- what a call leaves to be read -----

  /** A read of `x` finds a revision no older than a read of `d` would. */
  predicate NotOlder(d: Disk, x: Disk, k: Scope) {
    Persisted(d, k).Some? ==> Persisted(x, k).Some? && Persisted(x, k).value >= Persisted(d, k).value
  }

  lemma StoredIsNotOlder(size: Encoder, m: Process, c: Conversation, scope: Scope, q: Process, steps: seq<Image>,
                         ok: bool, k: Scope)
    requires Stores(size, m, c, scope, q, steps, ok) && Known(m.latest, m.disk, k)
    ensures forall s :: s in steps ==> NotOlder(m.disk, s.disk, k)
    ensures Known(q.latest, q.disk, k) && q.disk.files == m.disk.files
  {
    hide Weight, Document, Parse;
    forall s | s in steps
      ensures NotOlder(m.disk, s.disk, k) && Known(m.latest[scope := c.revision], s.disk, k)
              && s.disk.files == m.disk.files
    {
      assert DuringWrite(size, m.disk, scope, c, s);
      assert Parse(Encode(size, Chat(c))).Ok? by { EncodedParses(size, c); }
      WriteIsAtomic(m.disk, scope, Encode(size, Chat(c)));
      BackedUpElsewhere(m.disk, scope);
    }
  }

  lemma EncodedParses(size: Encoder, c: Conversation)
    requires size(Chat(c)) <= RECORD_BYTES
    ensures Parse(Encode(size, Chat(c))) == Ok(c)
  {
    assert size(Chat(c)) > 0;
  }

  lemma BackedUpElsewhere(d: Disk, scope: Scope)
    ensures forall k :: k != scope ==> Document(BackedUp(d, scope), k) == Document(d, k)
  {
  }

  lemma LoadedIsNotOlder(size: Encoder, m: Process, scope: Scope, q: Process, steps: seq<Image>, ok: bool, k: Scope)
    requires Loads(size, m, scope, q, steps, ok) && (Known(m.latest, m.disk, k) || (ok && k == scope))
    ensures forall s :: s in steps ==> NotOlder(m.disk, s.disk, k)
    ensures Known(q.latest, q.disk, k) && q.disk.files == m.disk.files
  {
    hide Document, Stores;
    var found := Document(m.disk, scope);
    if found.Ok? && found.value.Some? {
      var c := found.value.value.value;
      var noted := m.(latest := Raised(m.latest, scope, c.revision));
      assert Known(noted.latest, m.disk, k) || (q == m && steps == []);
      if Settling(c).revision != c.revision && Stores(size, noted, Settling(c), scope, q, steps, ok) {
        StoredIsNotOlder(size, noted, Settling(c), scope, q, steps, ok, k);
      }
    }
  }

  /** A document the transactions accept is the one an ordinary read finds. */
  lemma CurrentIsDocument(d: Disk, scope: Scope)
    requires CurrentBytes(d, scope).Ok?
    ensures CurrentBytes(d, scope).value.None? ==> Persisted(d, scope) == None
    ensures CurrentBytes(d, scope).value.Some? ==> CurrentBytes(d, scope).value.value.payload.Chat?
    ensures CurrentBytes(d, scope).value.Some? ==>
              Persisted(d, scope) == Some(CurrentBytes(d, scope).value.value.payload.chat.revision)
  {
    hide ValidConversation;
  }

  lemma DocumentsElsewhere(d: Disk, x: Disk, scope: Scope)
    requires forall k :: k != scope ==>
               && (k in x.current <==> k in d.current) && (k in d.current ==> x.current[k] == d.current[k])
               && (k in x.rollback <==> k in d.rollback) && (k in d.rollback ==> x.rollback[k] == d.rollback[k])
    ensures forall k :: k != scope ==> Document(x, k) == Document(d, k)
  {
  }

  /** Keeping what is current as the rollback changes no read. */
  lemma SavedReadsAlike(d: Disk, scope: Scope, raw: Bytes)
    requires CurrentBytes(d, scope) == Ok(Some(raw))
    ensures forall k :: Persisted(d.(rollback := d.rollback[scope := raw]), k) == Persisted(d, k)
  {
    var x := d.(rollback := d.rollback[scope := raw]);
    CurrentIsDocument(d, scope);
    SameCurrent(x, d, scope, raw);
    CurrentIsDocument(x, scope);
    DocumentsElsewhere(d, x, scope);
    hide Document, CurrentBytes;
  }

  /** Replacing what is current is read as the replacement, and nothing else is read differently. */
  lemma ReplacedReads(d: Disk, scope: Scope, replacement: Bytes, rollback: map<Scope, Bytes>)
    requires Decode(replacement).Ok?
    requires rollback == d.rollback || (scope in rollback && rollback == d.rollback[scope := rollback[scope]])
    ensures var x := d.(current := d.current[scope := replacement], rollback := rollback);
            && Persisted(x, scope) == Some(replacement.payload.chat.revision)
            && forall k :: k != scope ==> Persisted(x, k) == Persisted(d, k)
  {
    var x := d.(current := d.current[scope := replacement], rollback := rollback);
    DocumentsElsewhere(d, x, scope);
    hide ValidConversation;
  }

  lemma BoundIsNotOlder(patch: Patcher, m: Process, b: Binding, q: Process, steps: seq<Image>, ok: bool, k: Scope)
    requires Binds(patch, m, b, q, steps, ok) && Known(m.latest, m.disk, k)
    ensures forall s :: s in steps ==> NotOlder(m.disk, s.disk, k)
    ensures !q.unavailable ==> Known(q.latest, q.disk, k) && q.disk.files == m.disk.files
  {
    hide Weight;
    if Bound(patch, m.disk, b).Ok? {
      BoundReads(patch, m.disk, b, k);
      hide Bound, BindingSource, Persisted;
      assert forall s :: s in steps ==> DuringBind(patch, m.disk, b, s);
    } else {
      assert forall s :: s in steps ==> DuringBind(patch, m.disk, b, s);
    }
  }

  /** Between a binding's writes the document reads as before; after them it is one revision on. */
  lemma BoundReads(patch: Patcher, d: Disk, b: Binding, k: Scope)
    requires Bound(patch, d, b).Ok?
    ensures var e := Bound(patch, d, b).value.0;
            var middle := d.(rollback := d.rollback[b.scope := BindingSource(d, b).value.0]);
            && e.files == d.files
            && (e != d ==> Persisted(middle, k) == Persisted(d, k))
            && NotOlder(d, e, k) && NotOlder(d, middle, k)
            && Persisted(e, b.scope) == Some(b.expectedRevision + 1)
            && (k != b.scope ==> Persisted(e, k) == Persisted(d, k))
  {
    var original, raw := BindingSource(d, b).value.0, BindingSource(d, b).value.1;
    BoundDecodes(patch, original, b);
    var replacement := patch(original, BoundConversation(original.payload.chat, b));
    CurrentIsDocument(d, b.scope);
    hide ValidConversation, ValidBinding, Persisted, Inventory;
    if Digest(raw) == b.expectedCurrent {
      SavedReadsAlike(d, b.scope, original);
      ReplacedReads(d, b.scope, replacement, d.rollback[b.scope := original]);
    } else {
      assert d.rollback[b.scope := original] == d.rollback;
    }
  }

  lemma FoundedIsNotOlder(size: Encoder, m: Process, f: Founding, q: Process, steps: seq<Image>, ok: bool, k: Scope)
    requires Founds(size, m, f, q, steps, ok) && Known(m.latest, m.disk, k)
    ensures forall s :: s in steps ==> NotOlder(m.disk, s.disk, k)
    ensures !q.unavailable ==> Known(q.latest, q.disk, k) && q.disk.files == m.disk.files
  {
    hide Weight;
    if Founded(size, m.disk, f).Ok? {
      FoundedReads(size, m.disk, f, k);
      hide Founded, FoundingSource, Persisted;
      assert forall s :: s in steps ==> DuringFound(size, m.disk, f, s);
    } else {
      assert forall s :: s in steps ==> DuringFound(size, m.disk, f, s);
    }
  }

  lemma FoundedReads(size: Encoder, d: Disk, f: Founding, k: Scope)
    requires Founded(size, d, f).Ok?
    ensures var e, middle := Founded(size, d, f).value.0, Saved(d, f.scope, FoundingSource(d, f).value.0);
            && e.files == d.files
            && NotOlder(d, e, k) && NotOlder(d, middle, k)
            && (e == d || Persisted(e, f.scope) == Some(f.expectedRevision + 1))
            && (k != f.scope ==> Persisted(e, k) == Persisted(d, k))
  {
    var found, current := FoundingSource(d, f).value.0, FoundingSource(d, f).value.1;
    CurrentIsDocument(d, f.scope);
    if found.Some? { SavedReadsAlike(d, f.scope, found.value); }
    if !AlreadyFounded(current, f) {
      FoundedDecodes(size, d, f);
      hide ValidConversation, ValidFounding, Persisted, Inventory;
      ReplacedReads(d, f.scope, Encode(size, Chat(FoundedConversation(current, f))), Saved(d, f.scope, found).rollback);
    }
  }

  /** On the way of an intent a document reads as before, or as the replacement, one revision on. */
  lemma WayReads(size: Encoder, y: Disk, i: Intent, x: Disk, k: Scope)
    requires Pending(y.files) == Ok(Some(i)) && Replacing(y, i) && OnTheWay(size, y, x)
    ensures k != i.archive.scope ==> Persisted(x, k) == Persisted(y, k)
    ensures Persisted(x, i.archive.scope) == Persisted(y, i.archive.scope)
         || Persisted(x, i.archive.scope) == Some(i.archive.sourceRevision + 1)
    ensures Persisted(y, i.archive.scope) == Some(i.archive.sourceRevision)
  {
    var a, raw := i.archive, Original(y, i);
    CurrentIsDocument(y, a.scope);
    SavedReadsAlike(y, a.scope, raw);
    hide Persisted, CurrentBytes, Publish, Archived, ReadBody, Staged, Pending;
    if x != y && !Archiving(size, y, a, x) {
      InstalledReads(size, y, i, k);
      SameReads(x, Finished(size, y, i).value);
    } else {
      SameReads(x, if x.rollback == y.rollback then y else y.(rollback := y.rollback[a.scope := raw]));
    }
  }

  lemma SameReads(x: Disk, y: Disk)
    requires x.current == y.current && x.rollback == y.rollback
    ensures forall k :: Persisted(x, k) == Persisted(y, k)
  {
  }

  lemma InstalledReads(size: Encoder, y: Disk, i: Intent, k: Scope)
    requires Replacing(y, i) && Finished(size, y, i).Ok?
    ensures Persisted(Finished(size, y, i).value, i.archive.scope) == Some(i.archive.sourceRevision + 1)
    ensures k != i.archive.scope ==> Persisted(Finished(size, y, i).value, k) == Persisted(y, k)
  {
    var a, raw, replacement := i.archive, Original(y, i), Successor(y, i);
    assert Decode(replacement).Ok?
    && replacement.payload.chat.revision == a.sourceRevision + 1 by { hide ValidConversation; }
    hide Persisted, CurrentBytes, Publish, Archived, ReadBody, Staged, Derived, Decode, ValidArchive;
    ReplacedReads(y, a.scope, replacement, y.rollback[a.scope := raw]);
    SameReads(Finished(size, y, i).value,
              y.(current := y.current[a.scope := replacement], rollback := y.rollback[a.scope := raw]));
  }

  lemma RolledIsNotOlder(size: Encoder, m: Process, request: Request, id: Id, now: int, q: Process, steps: seq<Image>,
                         ok: bool, k: Scope)
    requires Settled(m.disk) && Rolls(size, m, request, id, now, q, steps, ok) && Known(m.latest, m.disk, k)
    ensures forall s :: s in steps ==> NotOlder(m.disk, s.disk, k)
    ensures !q.unavailable ==> Known(q.latest, q.disk, k) && IntentFile !in q.disk.files
  {
    var plan := Planned(size, m.disk, request, id, now);
    if plan.Ok? && plan.value.Commit? {
      var c := plan.value;
      assert PlannedCommit(size, m.disk, request, id, now, c);
      hide Planned, Persisted, Rolling, PlannedCommit;
      forall s | s in steps
        ensures NotOlder(m.disk, s.disk, k)
      {
        RollingReads(size, m.disk, request, id, now, c, s, k);
      }
      if !q.unavailable {
        if ok {
          CommittedReads(size, m.disk, request, id, now, c, k);
        } else {
          SameReads(q.disk, m.disk);
        }
      }
    }
  }

  lemma RollingReads(size: Encoder, d: Disk, request: Request, id: Id, now: int, c: Step, s: Image, k: Scope)
    requires PlannedCommit(size, d, request, id, now, c) && Rolling(size, d, c, s)
    ensures NotOlder(d, s.disk, k)
  {
    PlannedFacts(size, d, request, id, now, c);
    IntendedReplaces(size, d, request, id, now, c);
    hide Planned, PlannedCommit, OnTheWay, Rolling, Persisted, Pending, Replacing, Decode;
    RollingIsOnTheWay(size, d, c, s);
    var y := Intended(size, d, c);
    SameReads(y, d);
    if s.disk == d || s.disk == Prepared(d, c) {
      SameReads(s.disk, d);
    } else {
      WayReads(size, y, c.intent, s.disk, k);
    }
  }

  lemma CommittedReads(size: Encoder, d: Disk, request: Request, id: Id, now: int, c: Step, k: Scope)
    requires PlannedCommit(size, d, request, id, now, c)
    ensures Persisted(Committed(size, d, c), request.scope) == Some(request.expectedRevision + 1)
    ensures k != request.scope ==> Persisted(Committed(size, d, c), k) == Persisted(d, k)
    ensures IntentFile !in Committed(size, d, c).files
  {
    assert c.Commit? && IntentFile !in d.files;
    hide Planned, PlannedCommit, Persisted, CurrentBytes, ValidConversation, Manifests, Accounted;
    PlannedFacts(size, d, request, id, now, c);
    ReplacementDecodes(size, c.original.payload.chat, request);
    hide Decode;
    ReplacedReads(d, request.scope, c.replacement, d.rollback[request.scope := c.original]);
    SameReads(Committed(size, d, c),
              d.(current := d.current[request.scope := c.replacement],
                 rollback := d.rollback[request.scope := c.original]));
  }

  /** Over one performance: no image reads as older, and what was known stays known. */
  lemma PerformanceKnows(size: Encoder, patch: Patcher, op: Op, m: Process, q: Process, steps: seq<Image>, ok: bool,
                         k: Scope)
    requires Settled(m.disk) && Performs(size, patch, op, m, q, steps, ok)
    requires Known(m.latest, m.disk, k) || (op.Loading? && ok && k == op.scope)
    ensures forall s :: s in steps ==> NotOlder(m.disk, s.disk, k)
    ensures !q.unavailable ==> Known(q.latest, q.disk, k) && IntentFile !in q.disk.files
  {
    hide Known, NotOlder, Stores, Loads, Binds, Founds, Rolls;
    match op
    case Writing(c, scope) => StoredIsNotOlder(size, m, c, scope, q, steps, ok, k);
    case Loading(scope) => LoadedIsNotOlder(size, m, scope, q, steps, ok, k);
    case BindingSession(b) => BoundIsNotOlder(patch, m, b, q, steps, ok, k);
    case Establishing(f) => FoundedIsNotOlder(size, m, f, q, steps, ok, k);
    case RollingOver(request, id, now) => RolledIsNotOlder(size, m, request, id, now, q, steps, ok, k);
  }

  /** The same over a call, with the recovery before it. */
  lemma CallKnows(size: Encoder, patch: Patcher, op: Op, p: Process, q: Process, steps: seq<Image>, ok: bool, k: Scope)
    requires Calls(size, patch, op, p, q, steps, ok)
    requires (IntentFile !in p.disk.files && Known(p.latest, p.disk, k)) || (op.Loading? && ok && k == op.scope)
    ensures IntentFile !in p.disk.files ==> forall s :: s in steps ==> NotOlder(p.disk, s.disk, k)
    ensures IntentFile !in p.disk.files ==> NotOlder(p.disk, q.disk, k)
    ensures !q.unavailable ==> Known(q.latest, q.disk, k) && IntentFile !in q.disk.files
  {
    hide CallsVia, NotOlder;
    assert NotOlder(p.disk, p.disk, k) by { NotOlderIsAnOrder(p.disk, p.disk, p.disk, k); }
    if !(q == p && steps == [] && !ok) {
      var m, before, after :| CallsVia(size, patch, op, p, m, q, before, after, ok) && steps == before + after;
      ViaKnows(size, patch, op, p, m, q, before, after, ok, k);
      assert Now(q).disk == q.disk;
    }
  }

  lemma NotOlderIsAnOrder(d: Disk, x: Disk, y: Disk, k: Scope)
    ensures NotOlder(d, d, k)
    ensures NotOlder(d, x, k) && NotOlder(x, y, k) ==> NotOlder(d, y, k)
  {
    hide Persisted;
  }

  lemma ViaKnows(size: Encoder, patch: Patcher, op: Op, p: Process, m: Process, q: Process,
                 before: seq<Image>, after: seq<Image>, ok: bool, k: Scope)
    requires CallsVia(size, patch, op, p, m, q, before, after, ok)
    requires (IntentFile !in p.disk.files && Known(p.latest, p.disk, k)) || (op.Loading? && ok && k == op.scope)
    ensures IntentFile !in p.disk.files ==>
              forall s :: s in before + after || s == Now(q) ==> NotOlder(p.disk, s.disk, k)
    ensures !q.unavailable ==> Known(q.latest, q.disk, k) && IntentFile !in q.disk.files
  {
    hide Performs, Persisted, Recover;
    if IntentFile !in p.disk.files {
      forall s | s in before || s == Now(p)
        ensures s.disk.current == p.disk.current && s.disk.rollback == p.disk.rollback
        ensures forall j :: Persisted(s.disk, j) == Persisted(p.disk, j)
      {
        SameReads(s.disk, p.disk);
      }
      assert Caught(p) == p.latest;
      assert Now(m).disk == m.disk;
    }
    if !m.unavailable {
      RecoveredIsSettled(size, p.disk, p.work);
      hide Settled, Underway, Caught, Known;
      PerformanceEnds(size, patch, op, m, q, after, ok);
      if IntentFile !in p.disk.files { KnownAlike(p, m, k); }
      PerformanceKnows(size, patch, op, m, q, after, ok, k);
      assert Now(q).disk == q.disk;
    }
  }

  lemma KnownAlike(p: Process, m: Process, k: Scope)
    requires Persisted(m.disk, k) == Persisted(p.disk, k) && m.latest == p.latest
    ensures Known(m.latest, m.disk, k) <==> Known(p.latest, p.disk, k)
  {
    hide Persisted;
  }

  // ----- every step, every run -----

  /** The invariant survives every call, every crash inside one, and every restart. */
  lemma EveryStepKeeps(size: Encoder, patch: Patcher, s: State, e: Event, t: State)
    requires Inv(size, s) && Next(size, patch, s, e, t)
    ensures Inv(size, t)
  {
    StepRecovers(size, patch, s, e, t);
    hide Recoverable, Calls, Known, Stranded;
    if e.Called? {
      forall k | k in t.seen && !t.process.unavailable
        ensures IntentFile !in t.process.disk.files && Known(t.process.latest, t.process.disk, k)
      {
        CallKnows(size, patch, e.op, s.process, t.process, e.steps, e.ok, k);
      }
    }
  }

  /** A step keeps the disk recoverable, unless it strands a rollover under a taken ID; a stranded one it keeps so. */
  lemma StepRecovers(size: Encoder, patch: Patcher, s: State, e: Event, t: State)
    requires Recoverable(size, Now(s.process)) || Stranded(size, s.process.disk)
    requires Next(size, patch, s, e, t)
    ensures Stranded(size, s.process.disk) ==> Stranded(size, t.process.disk)
    ensures Recoverable(size, Now(s.process)) ==>
              Recoverable(size, Now(t.process)) || (!Fresh(size, s, e) && Stranded(size, t.process.disk))
  {
    hide Recoverable, Calls, FreshId, Stranded;
    match e
    case Called(op, steps, ok) =>
      if Recoverable(size, Now(s.process)) {
        CallRecovers(size, patch, op, s.process, t.process, steps, ok, Now(t.process));
      }
      if Stranded(size, s.process.disk) {
        CallStrands(size, patch, op, s.process, t.process, steps, ok, Now(t.process));
      }
    case CrashedInside(op, steps, ok, end, at) =>
      RestartIsRecoverable(size, steps[at]);
      if Recoverable(size, Now(s.process)) {
        CallRecovers(size, patch, op, s.process, end, steps, ok, steps[at]);
      }
      if Stranded(size, s.process.disk) {
        CallStrands(size, patch, op, s.process, end, steps, ok, steps[at]);
      }
    case Crashed =>
      RestartIsRecoverable(size, Now(s.process));
  }

  lemma RestartIsRecoverable(size: Encoder, s: Image)
    ensures Recoverable(size, Now(Restarted(s).process)) <==> Recoverable(size, s)
  {
  }

  lemma PoisonedIsStill(size: Encoder, patch: Patcher, op: Op, p: Process, q: Process, steps: seq<Image>, ok: bool)
    requires p.unavailable && Calls(size, patch, op, p, q, steps, ok)
    ensures q == p && steps == [] && !ok
  {
  }

  lemma StartHolds(size: Encoder, s: State)
    requires Start(s)
    ensures Inv(size, s) && Goal(size, s.process.disk).Ok?
  {
    SettledIsItsGoal(size, s.process.disk);
  }

  lemma RunStep(size: Encoder, patch: Patcher, states: seq<State>, events: seq<Event>, n: nat)
    requires Run(size, patch, states, events) && n < |events|
    ensures |states| == |events| + 1
    ensures Next(size, patch, states[n], events[n], states[n + 1])
  {
    hide Next, Start;
    assert Follows(size, patch, states, events, n);
  }

  lemma {:induction false} RunsKeep(size: Encoder, patch: Patcher, states: seq<State>, events: seq<Event>, n: nat)
    requires Run(size, patch, states, events) && n < |states|
    ensures Inv(size, states[n])
  {
    hide Inv, Next, Start;
    if n == 0 {
      StartHolds(size, states[0]);
    } else {
      RunStep(size, patch, states, events, n - 1);
      RunsKeep(size, patch, states, events, n - 1);
      EveryStepKeeps(size, patch, states[n - 1], events[n - 1], states[n]);
    }
  }

  /**
   * Over any run of calls on any conversations, with any archive IDs, crashes inside and between them and recoveries
   * interrupted any number of times: a restart has somewhere to recover to if and only if no rollover is stranded under
   * a taken ID, and then it recovers exactly when the directory can be listed, and otherwise refuses for want of room.
   */
  lemma RunsRecover(size: Encoder, patch: Patcher, states: seq<State>, events: seq<Event>, n: nat)
    requires Run(size, patch, states, events) && n < |states|
    ensures var p := states[n].process;
            && (Goal(size, p.disk).Ok? <==> !Stranded(size, p.disk))
            && (Stranded(size, p.disk) ==> Recover(size, p.disk, p.work).Err?)
            && (!Stranded(size, p.disk) ==>
                  Recover(size, p.disk, p.work)
                    == if Listing(size, p.disk) + |p.work| <= INVENTORY_LIMIT then Goal(size, p.disk) else Err(Full))
  {
    RunsKeep(size, patch, states, events, n);
    var p := states[n].process;
    if Stranded(size, p.disk) { StrandedNeverRecovers(size, p.disk); }
    RecoveryNeedsRoom(size, p.disk, p.work);
    hide Goal, Recover, Listing, Known, Stranded;
  }

  /** Once a rollover is stranded, no restart ever recovers again. */
  lemma {:induction false} StrandedForever(size: Encoder, patch: Patcher, states: seq<State>, events: seq<Event>,
                                           i: nat, j: nat)
    requires Run(size, patch, states, events) && i <= j < |states| && Stranded(size, states[i].process.disk)
    ensures Stranded(size, states[j].process.disk)
    decreases j
  {
    hide Inv, Next, Stranded;
    if i < j {
      StrandedForever(size, patch, states, events, i, j - 1);
      RunStep(size, patch, states, events, j - 1);
      RunsKeep(size, patch, states, events, j - 1);
      StepStrands(size, patch, states[j - 1], events[j - 1], states[j]);
    }
  }

  /** None is stranded while every ID is fresh. */
  lemma {:induction false} FreshRunsRecover(size: Encoder, patch: Patcher, states: seq<State>, events: seq<Event>,
                                            n: nat)
    requires Run(size, patch, states, events) && n < |states|
    requires forall k: nat :: k < n ==> Fresh(size, states[k], events[k])
    ensures Goal(size, states[n].process.disk).Ok? && !Stranded(size, states[n].process.disk)
  {
    hide Inv, Next, Stranded, Fresh, Start, Goal, Recover, Listing;
    if n == 0 {
      StartHolds(size, states[0]);
      StartIsNotStranded(size, states[0]);
    } else {
      FreshRunsRecover(size, patch, states, events, n - 1);
      RunStep(size, patch, states, events, n - 1);
      RunsKeep(size, patch, states, events, n - 1);
      StepStrands(size, patch, states[n - 1], events[n - 1], states[n]);
      RunsRecover(size, patch, states, events, n);
    }
  }

  lemma StartIsNotStranded(size: Encoder, s: State)
    requires Start(s)
    ensures !Stranded(size, s.process.disk)
  {
    hide Replacing;
  }

  lemma StepStrands(size: Encoder, patch: Patcher, s: State, e: Event, t: State)
    requires Inv(size, s) && Next(size, patch, s, e, t)
    ensures Stranded(size, s.process.disk) ==> Stranded(size, t.process.disk)
    ensures !Stranded(size, s.process.disk) && Fresh(size, s, e) ==> !Stranded(size, t.process.disk)
  {
    StepRecovers(size, patch, s, e, t);
    if Stranded(size, t.process.disk) { StrandedNeverRecovers(size, t.process.disk); }
    hide Stranded, Next, Fresh, Goal, Known;
  }

  /**
   * In every reachable state with an intent on disk, the intent is valid, its stage is there and matches it, and the
   * document stands: it is still the original or already the replacement.
   */
  lemma PendingIsSound(size: Encoder, patch: Patcher, states: seq<State>, events: seq<Event>, n: nat)
    requires Run(size, patch, states, events) && n < |states| && IntentFile in states[n].process.disk.files
    ensures var d := states[n].process.disk;
            && Pending(d.files).Ok? && Pending(d.files).value.Some?
            && var i := Pending(d.files).value.value;
               && ValidIntent(i) && Staged(d.files, i).Ok?
               && CurrentBytes(d, i.archive.scope).Ok? && CurrentBytes(d, i.archive.scope).value.Some?
               && Digest(CurrentBytes(d, i.archive.scope).value.value) in {i.archive.sha, i.archive.replacementSha}
  {
    RunsKeep(size, patch, states, events, n);
    hide Known, ValidArchive, Derived, Decode, ReadBody, Verified, Installed;
  }

  /**
   * Once a process has read a conversation, no later instant of it, nor a crash of it, leaves an older revision on
   * disk.
   */
  lemma {:induction false} RevisionsNeverDecrease(size: Encoder, patch: Patcher, states: seq<State>, events: seq<Event>,
                                                  i: nat, j: nat, k: Scope)
    requires Run(size, patch, states, events) && i <= j < |states| && k in states[i].seen
    requires forall n :: i <= n < j - 1 ==> events[n].Called?
    ensures NotOlder(states[i].process.disk, states[j].process.disk, k)
    ensures i < j && events[j - 1].Called? ==> k in states[j].seen
    decreases j
  {
    hide Inv, Next, NotOlder;
    if i == j {
      NotOlderIsAnOrder(states[i].process.disk, states[i].process.disk, states[i].process.disk, k);
    } else {
      RunStep(size, patch, states, events, j - 1);
      RunsKeep(size, patch, states, events, j - 1);
      RevisionsNeverDecrease(size, patch, states, events, i, j - 1, k);
      StepIsNotOlder(size, patch, states[j - 1], events[j - 1], states[j], k);
      NotOlderIsAnOrder(states[i].process.disk, states[j - 1].process.disk, states[j].process.disk, k);
    }
  }

  lemma StepIsNotOlder(size: Encoder, patch: Patcher, s: State, e: Event, t: State, k: Scope)
    requires Inv(size, s) && Next(size, patch, s, e, t) && k in s.seen
    ensures NotOlder(s.process.disk, t.process.disk, k)
    ensures e.Called? ==> k in t.seen
  {
    hide Recoverable, Calls, Known, NotOlder;
    NotOlderIsAnOrder(s.process.disk, s.process.disk, s.process.disk, k);
    if s.process.unavailable {
      if !e.Crashed? {
        PoisonedIsStill(size, patch, e.op, s.process, if e.Called? then t.process else e.end, e.steps, e.ok);
      }
    } else if !e.Crashed? {
      CallKnows(size, patch, e.op, s.process, if e.Called? then t.process else e.end, e.steps, e.ok, k);
    }
  }

  // ----- a run that fills the directory -----

  function Zeros(n: nat): seq<nat> {
    seq(n, _ => 0)
  }

  lemma RunExtends(size: Encoder, patch: Patcher, states: seq<State>, events: seq<Event>, e: Event, t: State)
    requires Run(size, patch, states, events) && Next(size, patch, states[|states| - 1], e, t)
    ensures Run(size, patch, states + [t], events + [e])
  {
    hide Next, Start;
    var more, all := states + [t], events + [e];
    forall k: nat | k < |all|
      ensures Follows(size, patch, more, all, k)
    {
      if k < |events| { assert Follows(size, patch, states, events, k); }
    }
  }

  /** A rollover is cut off just when its intent has been published. */
  lemma RolloverIsCutOff(size: Encoder, patch: Patcher, d: Disk, request: Request, id: Id, now: int, c: Step)
    requires PlannedCommit(size, d, request, id, now, c)
    ensures var cut := Image(Intended(size, d, c), [], 0);
            Calls(size, patch, RollingOver(request, id, now), Process(d, [], false, map[]),
                  Process(cut.disk, [], true, map[]), [cut], false)
  {
    var cut, p := Image(Intended(size, d, c), [], 0), Process(d, [], false, map[]);
    var q, op := Process(cut.disk, [], true, map[]), RollingOver(request, id, now);
    PlannedIsRoomy(size, d, request, id, now, c);
    SettledIsItsGoal(size, d);
    RecoveryNeedsRoom(size, d, []);
    hide Planned, Intended, Goal, Recover, Tidy;
    assert Rolling(size, d, c, cut);
    assert Recovers(size, p, p, []);
    RollsAsPlanned(size, p, request, id, now, c, q, [cut], false);
    assert CallsVia(size, patch, op, p, p, q, [], [cut], false) && [cut] == [] + [cut];
  }

  lemma BodyIsUnderway(size: Encoder, y: Disk, work: seq<nat>, i: Intent)
    requires Pending(y.files) == Ok(Some(i)) && Replacing(y, i) && Body(i.archive.id) !in y.files
    ensures Underway(size, y, work, Image(y, work + [0], 0))
  {
    var cut, raw := Image(y, work + [0], 0), Original(y, i);
    hide Pending, Replacing, Original;
    assert Publishing(y, work, Body(i.archive.id), raw, cut) by { assert 0 <= raw.count && 0 <= RECORD_BYTES; }
    assert Installing(size, y, work, i.archive, raw, Successor(y, i), cut);
    hide Publishing, Installing, Finished;
  }

  /** A recovery is cut off while it publishes the body, and leaves one more temporary. */
  lemma RecoveryIsCutOff(size: Encoder, patch: Patcher, y: Disk, work: seq<nat>, i: Intent, scope: Scope)
    requires Pending(y.files) == Ok(Some(i)) && Replacing(y, i) && Body(i.archive.id) !in y.files
    ensures var cut := Image(y, work + [0], 0);
            Calls(size, patch, Loading(scope), Process(y, work, false, map[]), Process(y, cut.work, true, map[]), [cut],
                  false)
  {
    var cut, p := Image(y, work + [0], 0), Process(y, work, false, map[]);
    var m := Process(y, cut.work, true, map[]);
    BodyIsUnderway(size, y, work, i);
    hide Underway, Recover, Caught, Pending, Replacing;
    assert Recovers(size, p, m, [cut]);
    RefusedCalls(size, patch, Loading(scope), p, m, [cut]);
  }

  /** A call whose recovery fails goes no further. */
  lemma RefusedCalls(size: Encoder, patch: Patcher, op: Op, p: Process, m: Process, steps: seq<Image>)
    requires !p.unavailable && m.unavailable && Recovers(size, p, m, steps)
    ensures Calls(size, patch, op, p, m, steps, false)
  {
    hide Recovers, Performs;
    assert CallsVia(size, patch, op, p, m, m, steps, [], false) && steps == steps + [];
  }

  lemma {:induction false} TemporariesPileUp(size: Encoder, patch: Patcher, d: Disk, request: Request, id: Id,
                                             now: int, c: Step, n: nat)
      returns (states: seq<State>, events: seq<Event>)
    requires PlannedCommit(size, d, request, id, now, c) && Meta(id) !in d.files
    ensures Run(size, patch, states, events) && |states| == n + 2
    ensures states[n + 1] == Restarted(Image(Intended(size, d, c), Zeros(n), 0))
  {
    assert c.Commit?;
    hide Calls, Run, Start, PlannedCommit, Intended, Next, Zeros, Restarted;
    var y := Intended(size, d, c);
    if n == 0 {
      var start, cut := Restarted(Image(d, [], 0)), Restarted(Image(y, [], 0));
      var e := CutOffAtFirst(size, patch, d, request, id, now, c);
      RunBegins(size, patch, d, request, id, now, c);
      RunExtends(size, patch, [start], [], e, cut);
      states, events := [start] + [cut], [] + [e];
      NoZeros();
    } else {
      states, events := TemporariesPileUp(size, patch, d, request, id, now, c, n - 1);
      OneZeroMore(n);
      var cut := Restarted(Image(y, Zeros(n), 0));
      var e := CutOffAgain(size, patch, d, request, id, now, c, Zeros(n - 1));
      RunExtends(size, patch, states, events, e, cut);
      states, events := states + [cut], events + [e];
    }
  }

  /** The rollover itself is cut off. */
  lemma CutOffAtFirst(size: Encoder, patch: Patcher, d: Disk, request: Request, id: Id, now: int, c: Step)
    returns (e: Event)
    requires PlannedCommit(size, d, request, id, now, c)
    ensures Next(size, patch, Restarted(Image(d, [], 0)), e, Restarted(Image(Intended(size, d, c), [], 0)))
  {
    RolloverIsCutOff(size, patch, d, request, id, now, c);
    hide PlannedCommit, Intended, Calls;
    e := CutOff(size, patch, Restarted(Image(d, [], 0)), RollingOver(request, id, now),
                Image(Intended(size, d, c), [], 0));
  }

  /** Another recovery of a rollover's intent is cut off. */
  lemma CutOffAgain(size: Encoder, patch: Patcher, d: Disk, request: Request, id: Id, now: int, c: Step, work: seq<nat>)
    returns (e: Event)
    requires PlannedCommit(size, d, request, id, now, c) && Meta(id) !in d.files
    ensures var y := Intended(size, d, c);
            Next(size, patch, Restarted(Image(y, work, 0)), e, Restarted(Image(y, work + [0], 0)))
  {
    var y := Intended(size, d, c);
    FreshArchives(size, d, request, id, now, c);
    IntendedReplaces(size, d, request, id, now, c);
    hide PlannedCommit, Intended, Pending, Replacing, Archived, Calls;
    RecoveryIsCutOff(size, patch, y, work, c.intent, request.scope);
    e := CutOff(size, patch, Restarted(Image(y, work, 0)), Loading(request.scope), Image(y, work + [0], 0));
  }

  lemma NoZeros()
    ensures Zeros(0) == []
  {
  }

  lemma OneZeroMore(n: nat)
    requires n > 0
    ensures Zeros(n) == Zeros(n - 1) + [0] && |Zeros(n)| == n
  {
  }

  /**
   * A rollover is cut off when its intent stands, and then `n` recoveries in a row while they publish its body, each of
   * which leaves a temporary. The next restart commits it, or finds the directory full: always after 513 of them.
   */
  lemma RunsMayFill(size: Encoder, patch: Patcher, d: Disk, request: Request, id: Id, now: int, c: Step, n: nat)
    returns (states: seq<State>, events: seq<Event>)
    requires PlannedCommit(size, d, request, id, now, c) && Meta(id) !in d.files
    ensures Run(size, patch, states, events) && |states| == n + 2
    ensures states[n + 1] == Restarted(Image(Intended(size, d, c), Zeros(n), 0))
    ensures Recover(size, Intended(size, d, c), Zeros(n))
         == if Listing(size, Intended(size, d, c)) + n <= INVENTORY_LIMIT then Ok(Committed(size, d, c)) else Err(Full)
    ensures n > INVENTORY_LIMIT ==> Recover(size, Intended(size, d, c), Zeros(n)) == Err(Full)
  {
    assert c.Commit?;
    hide Run, PlannedCommit, Intended, Recover, Listing, Goal, Committed;
    states, events := TemporariesPileUp(size, patch, d, request, id, now, c, n);
    IntentCommitsIffFresh(size, d, request, id, now, c);
    RecoveryNeedsRoom(size, Intended(size, d, c), Zeros(n));
  }

  /** The event of a crash at the one image of a call that goes no further. */
  lemma CutOff(size: Encoder, patch: Patcher, s: State, op: Op, cut: Image) returns (e: Event)
    requires Calls(size, patch, op, s.process, Process(cut.disk, cut.work, true, map[]), [cut], false)
    ensures Next(size, patch, s, e, Restarted(cut))
  {
    hide Calls;
    e := CrashedInside(op, [cut], false, Process(cut.disk, cut.work, true, map[]), 0);
  }

  lemma RunBegins(size: Encoder, patch: Patcher, d: Disk, request: Request, id: Id, now: int, c: Step)
    requires PlannedCommit(size, d, request, id, now, c)
    ensures Run(size, patch, [Restarted(Image(d, [], 0))], [])
  {
    hide Planned, Settled;
  }

  // ----- archives -----

  predicate ArchiveFile(n: FileName) {
    n.Body? || n.Meta?
  }

  /** Every archived body and every manifest is still there, byte for byte. */
  predicate KeepsArchives(d: Disk, x: Disk) {
    forall n :: n in d.files && ArchiveFile(n) ==> n in x.files && x.files[n] == d.files[n]
  }

  lemma WayKeepsArchives(size: Encoder, d: Disk, x: Disk)
    requires OnTheWay(size, d, x)
    ensures KeepsArchives(d, x)
  {
    hide Finished, Begun;
    var pending := Pending(d.files);
    if x != d && pending.Ok? && pending.value.Some? {
      var i := pending.value.value;
      if Begun(d, i) && Archiving(size, d, i.archive, x) {
        ArchivingKeepsArchives(size, d, i.archive, x);
      } else {
        FinishedFiles(size, d, i);
      }
    }
  }

  lemma ArchivingKeepsArchives(size: Encoder, d: Disk, a: Archive, x: Disk)
    requires Archiving(size, d, a, x)
    ensures KeepsArchives(d, x)
  {
    var raw := CurrentBytes(d, a.scope).value.value;
    PublishIsIdempotent(d.files, Body(a.id), raw);
    if Archived(size, d.files, a, raw).Ok? { ArchivedIsIdempotent(size, d.files, a, raw); }
    if x == WithArchive(size, d, a, raw)
       && Publish(d.files[Body(a.id) := raw], Meta(a.id), Encode(size, Manifest(a))).Ok?
    {
      PublishIsIdempotent(d.files[Body(a.id) := raw], Meta(a.id), Encode(size, Manifest(a)));
    }
    hide CurrentBytes, ReadBody, Archived, Publish;
  }

  lemma RollingKeepsArchives(size: Encoder, d: Disk, c: Step, s: Image)
    requires c.Commit? && Rolling(size, d, c, s) && IntentFile !in d.files
    ensures KeepsArchives(d, s.disk)
  {
    hide OnTheWay, Underway;
    if Underway(size, Intended(size, d, c), [], s) {
      UnderwayIsOnTheWay(size, Intended(size, d, c), [], s);
      WayKeepsArchives(size, Intended(size, d, c), s.disk);
    }
  }

  /** No call, at any of its images, loses or changes an archive. */
  lemma CallKeepsArchives(size: Encoder, patch: Patcher, op: Op, p: Process, q: Process, steps: seq<Image>, ok: bool,
                          s: Image)
    requires Calls(size, patch, op, p, q, steps, ok) && (s in steps || s == Now(q))
    ensures KeepsArchives(p.disk, s.disk)
  {
    hide CallsVia;
    if !(q == p && steps == []) {
      var m, before, after :| CallsVia(size, patch, op, p, m, q, before, after, ok) && steps == before + after;
      forall x | x in before || x == Now(p)
        ensures KeepsArchives(p.disk, x.disk)
      {
        if x in before { BeforeKeepsArchives(size, patch, op, p, m, q, before, after, ok, x); }
      }
      ViaEnds(size, patch, op, p, m, q, before, after, ok);
      if s in after {
        AfterKeepsArchives(size, patch, op, p, m, q, before, after, ok, s);
      }
    }
  }

  lemma ViaEnds(size: Encoder, patch: Patcher, op: Op, p: Process, m: Process, q: Process,
                before: seq<Image>, after: seq<Image>, ok: bool)
    requires CallsVia(size, patch, op, p, m, q, before, after, ok)
    ensures (Now(m) == Now(p) || Now(m) in before) && (Now(q) == Now(m) || Now(q) in after)
  {
    hide Underway, Recover;
    if !m.unavailable {
      PerformanceEnds(size, patch, op, m, q, after, ok);
    }
  }

  lemma BeforeKeepsArchives(size: Encoder, patch: Patcher, op: Op, p: Process, m: Process, q: Process,
                            before: seq<Image>, after: seq<Image>, ok: bool, s: Image)
    requires CallsVia(size, patch, op, p, m, q, before, after, ok) && s in before
    ensures KeepsArchives(p.disk, s.disk)
  {
    hide Underway, Performs;
    UnderwayIsOnTheWay(size, p.disk, p.work, s);
    WayKeepsArchives(size, p.disk, s.disk);
  }

  lemma AfterKeepsArchives(size: Encoder, patch: Patcher, op: Op, p: Process, m: Process, q: Process,
                           before: seq<Image>, after: seq<Image>, ok: bool, s: Image)
    requires CallsVia(size, patch, op, p, m, q, before, after, ok) && s in after && KeepsArchives(p.disk, m.disk)
    ensures KeepsArchives(p.disk, s.disk)
  {
    hide Underway, Performs, Recover, Rolling;
    RecoveredIsSettled(size, p.disk, p.work);
    PerformedImages(size, patch, op, m, q, after, ok, s);
    if s.disk.files != m.disk.files {
      RollingKeepsArchives(size, m.disk, Planned(size, m.disk, op.request, op.id, op.now).value, s);
    }
  }

  lemma StepKeepsArchives(size: Encoder, patch: Patcher, s: State, e: Event, t: State)
    requires Next(size, patch, s, e, t)
    ensures KeepsArchives(s.process.disk, t.process.disk)
  {
    hide Calls;
    match e
    case Called(op, steps, ok) =>
      CallKeepsArchives(size, patch, op, s.process, t.process, steps, ok, Now(t.process));
    case CrashedInside(op, steps, ok, end, at) =>
      CallKeepsArchives(size, patch, op, s.process, end, steps, ok, steps[at]);
    case Crashed =>
  }

  /** Over any run, with any archive IDs, no archived transcript is ever lost or changed. */
  lemma {:induction false} ArchivesAreForever(size: Encoder, patch: Patcher, states: seq<State>, events: seq<Event>,
                                              i: nat, j: nat)
    requires Run(size, patch, states, events) && i <= j < |states|
    ensures KeepsArchives(states[i].process.disk, states[j].process.disk)
    decreases j
  {
    if i < j {
      hide Next;
      RunStep(size, patch, states, events, j - 1);
      ArchivesAreForever(size, patch, states, events, i, j - 1);
      StepKeepsArchives(size, patch, states[j - 1], events[j - 1], states[j]);
    }
  }

  // ----- one rollover -----

  /**
   * A rollover is atomic. A crash at any image the call passes through, in the recovery it begins with or after, leaves
   * a disk that leads where the disk before the call led, or to exactly the committed one.
   */
  lemma RolloverIsAtomic(size: Encoder, patch: Patcher, request: Request, id: Id, now: int,
                         p: Process, q: Process, steps: seq<Image>, ok: bool, s: Image)
    requires Recoverable(size, Now(p)) && Meta(id) !in Goal(size, p.disk).value.files
    requires Calls(size, patch, RollingOver(request, id, now), p, q, steps, ok) && (s in steps || s == Now(q))
    ensures var base := Goal(size, p.disk).value;
            || Goal(size, s.disk) == Ok(base)
            || (&& Planned(size, base, request, id, now).Ok? && Planned(size, base, request, id, now).value.Commit?
                && Goal(size, s.disk) == Ok(Committed(size, base, Planned(size, base, request, id, now).value)))
  {
    var op := RollingOver(request, id, now);
    hide CallsVia, Goal, Planned;
    if !(q == p && steps == []) {
      var m, before, after :| CallsVia(size, patch, op, p, m, q, before, after, ok) && steps == before + after;
      ViaEnds(size, patch, op, p, m, q, before, after, ok);
      if s in before {
        BeforeLeadsAlike(size, patch, op, p, m, q, before, after, ok, s);
      } else if s in after {
        AfterIsAtomic(size, patch, request, id, now, p, m, q, before, after, ok, s);
      }
      if Now(m) in before { BeforeLeadsAlike(size, patch, op, p, m, q, before, after, ok, Now(m)); }
    }
  }

  lemma BeforeLeadsAlike(size: Encoder, patch: Patcher, op: Op, p: Process, m: Process, q: Process,
                         before: seq<Image>, after: seq<Image>, ok: bool, s: Image)
    requires Recoverable(size, Now(p)) && CallsVia(size, patch, op, p, m, q, before, after, ok) && s in before
    ensures Goal(size, s.disk) == Goal(size, p.disk)
  {
    hide Underway, Performs, Goal;
    UnderwayRecovers(size, p.disk, p.work, s);
  }

  lemma AfterIsAtomic(size: Encoder, patch: Patcher, request: Request, id: Id, now: int,
                      p: Process, m: Process, q: Process, before: seq<Image>, after: seq<Image>, ok: bool, s: Image)
    requires Recoverable(size, Now(p)) && Meta(id) !in Goal(size, p.disk).value.files
    requires CallsVia(size, patch, RollingOver(request, id, now), p, m, q, before, after, ok) && s in after
    ensures var base := Goal(size, p.disk).value;
            && Planned(size, base, request, id, now).Ok? && Planned(size, base, request, id, now).value.Commit?
            && var c := Planned(size, base, request, id, now).value;
               && Rolling(size, base, c, s)
               && (Goal(size, s.disk) == Ok(base) || Goal(size, s.disk) == Ok(Committed(size, base, c)))
  {
    hide Underway, Goal, Recover, Rolling, Planned;
    RecoveryNeedsRoom(size, p.disk, p.work);
    RecoveredIsSettled(size, p.disk, p.work);
    RollingRecovers(size, m.disk, request, id, now, Planned(size, m.disk, request, id, now).value, s);
  }

  /** Every image of a rollover keeps the original and weighs at most the limit, from when its recovery is done. */
  lemma RolloverIsBounded(size: Encoder, patch: Patcher, request: Request, id: Id, now: int, p: Process, m: Process,
                          q: Process,
                          before: seq<Image>, after: seq<Image>, ok: bool, s: Image)
    requires CallsVia(size, patch, RollingOver(request, id, now), p, m, q, before, after, ok)
    ensures s in before ==> Afforded(size, p.disk, p.work, s)
    ensures s in after ==>
              && Planned(size, m.disk, request, id, now).Ok? && Planned(size, m.disk, request, id, now).value.Commit?
              && Survives(s.disk, request.scope, id, Planned(size, m.disk, request, id, now).value.original)
              && Weight(s, request.scope) <= PHYSICAL_BYTES
  {
    hide Underway, Recover, Rolling, Planned, Afforded, Weight, Survives;
    if s in before { UnderwayIsAfforded(size, p.disk, p.work, s); }
    if s in after {
      RecoveredIsSettled(size, p.disk, p.work);
      var c := Planned(size, m.disk, request, id, now).value;
      RollingKeepsOriginal(size, m.disk, request, id, now, c, s);
      RollingWeighs(size, m.disk, request, id, now, c, s);
    }
  }

  // ----- what the fences are for -----

  /**
   * Why a failed binding poisons the process. Its current write may have landed without being noted. Were the process
   * to go on, it could write a document of the revision it last noted over the newer one.
   */
  lemma WithoutPoisonRevisionsFall(size: Encoder, patch: Patcher, d: Disk, b: Binding, latest: map<Scope, int>)
    requires Bound(patch, d, b).Ok? && Known(latest, d, b.scope) && Latest(latest, b.scope) <= b.expectedRevision
    requires BindingSource(d, b).value.0 == BindingSource(d, b).value.1
    requires var e, stale := Bound(patch, d, b).value.0, Bound(patch, d, b).value.1.(revision := b.expectedRevision);
             && size(Chat(stale)) <= RECORD_BYTES && Weight(Image(e, [], 0), b.scope) <= PHYSICAL_BYTES
             && Weight(Image(Written(e, b.scope, Encode(size, Chat(stale))), [], 0), b.scope) <= PHYSICAL_BYTES
    ensures var e, stale := Bound(patch, d, b).value.0, Bound(patch, d, b).value.1.(revision := b.expectedRevision);
            var cleared := Process(e, [], false, latest);
            var after := Written(e, b.scope, Encode(size, Chat(stale)));
            && Binds(patch, Process(d, [], false, latest), b, cleared.(unavailable := true), [Image(e, [], 0)], false)
            && !Known(latest, e, b.scope)
            && Stores(size, cleared, stale, b.scope, Process(after, [], false, latest[b.scope := b.expectedRevision]),
                      [Image(after, [], 0)], true)
            && Persisted(e, b.scope) == Some(b.expectedRevision + 1)
               && Persisted(after, b.scope) == Some(b.expectedRevision)
  {
    var e, next := Bound(patch, d, b).value.0, Bound(patch, d, b).value.1;
    var stale := next.(revision := b.expectedRevision);
    BoundReads(patch, d, b, b.scope);
    BoundDocument(patch, d, b);
    EncodedParses(size, stale);
    hide Weight, Bound, Parse, Document;
    WriteIsAtomic(e, b.scope, Encode(size, Chat(stale)));
  }

  lemma BoundDocument(patch: Patcher, d: Disk, b: Binding)
    requires Bound(patch, d, b).Ok?
    ensures Document(Bound(patch, d, b).value.0, b.scope) == Ok(Some(Stored(Bound(patch, d, b).value.1, false)))
  {
    BoundDecodes(patch, BindingSource(d, b).value.0, b);
    hide ValidConversation, ValidBinding, Inventory;
  }

  /**
   * Why every call recovers first. A document written while an intent is pending is neither the original nor the
   * replacement, and every later recovery is refused.
   */
  lemma UnfencedWriteIsFatal(size: Encoder, d: Disk, request: Request, id: Id, now: int, c: Step, other: Bytes,
                             left: seq<nat>)
    requires PlannedCommit(size, d, request, id, now, c) && other != c.original && other != c.replacement
    ensures Recover(size, Written(Intended(size, d, c), request.scope, other), left).Err?
  {
    PlannedFacts(size, d, request, id, now, c);
    IntendedReplaces(size, d, request, id, now, c);
    var x := Written(Intended(size, d, c), request.scope, other);
    assert x.files == Intended(size, d, c).files;
    hide Planned, PlannedCommit, Accounted, Manifests, ValidArchive, Derived, Installed, Verified, Decode, Parse;
    assert CurrentBytes(x, request.scope).Ok? ==> CurrentBytes(x, request.scope) == Ok(Some(other));
  }
}
