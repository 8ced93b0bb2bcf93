/** A rollover is atomic: a crash anywhere leaves a disk that recovers to the original or to the whole replacement. */
module HistoryRollover {
  import opened Wrappers
  import opened HistoryTypes
  import opened HistoryDisk
  import opened HistoryProtocol
  import opened HistoryRecovery

  // ----- retained messages -----

  lemma {:induction false} RetainIsIdempotent(messages: seq<Message>, ids: set<Text>)
    ensures Retain(messages, IdsOf(Retain(messages, ids))) == Retain(messages, ids)
  {
    RetainDependsOnMembers(messages, ids, IdsOf(Retain(messages, ids)));
  }

  lemma {:induction false} RetainDependsOnMembers(messages: seq<Message>, ids: set<Text>, other: set<Text>)
    requires forall m :: m in messages ==> (m.id in ids <==> m.id in other)
    ensures Retain(messages, other) == Retain(messages, ids)
  {
    if messages != [] {
      RetainDependsOnMembers(messages[1..], ids, other);
    }
  }

  lemma {:induction false} RetainKeepsDistinct(messages: seq<Message>, ids: set<Text>)
    requires DistinctIds(messages)
    ensures DistinctIds(Retain(messages, ids))
  {
    if messages != [] {
      RetainKeepsDistinct(messages[1..], ids);
      var rest := Retain(messages[1..], ids);
      assert forall m :: m in rest ==> m in messages[1..];
      assert forall k :: 0 <= k < |rest| ==> rest[k].id != messages[0].id;
    }
  }

  lemma ReplacementIsValid(current: Conversation, r: Request)
    requires ValidConversation(current) && ValidRequest(r) && current.revision == r.expectedRevision
    ensures ValidConversation(Replacement(current, r))
  {
    RetainKeepsDistinct(current.messages, r.retaining);
  }

  // ----- recovered disks -----

  /** Recovery's result needs no more recovery. */
  lemma RecoveryIsIdempotent(size: Encoder, d: Disk, work: seq<nat>)
    requires Recover(size, d, work).Ok?
    ensures var e := Recover(size, d, work).value;
            && Recover(size, e, []) == Ok(e)
            && IntentFile !in e.files
            && forall n :: n in e.files ==> !n.Next?
  {
    hide Completed;
    var e := Recover(size, d, work).value;
    var pending := Pending(d.files).value;
    if pending.None? {
      assert IntentFile !in d.files;
      SubsetFits(e.files.Keys, d.files.Keys);
    } else {
      var done := Completed(size, d, pending.value).value;
      assert IntentFile !in done.files by { CompletedClears(size, d, pending.value); }
      SubsetFits(e.files.Keys, done.files.Keys);
    }
    assert Swept(e.files) == e.files;
  }

  lemma CompletedClears(size: Encoder, d: Disk, i: Intent)
    requires Completed(size, d, i).Ok?
    ensures IntentFile !in Completed(size, d, i).value.files
  {
    hide Finished;
  }

  predicate Settled(d: Disk) {
    IntentFile !in d.files && (forall n :: n in d.files ==> !n.Next?) && Tidy(d.files, [])
  }

  lemma RecoveredIsSettled(size: Encoder, d: Disk, work: seq<nat>)
    requires Recover(size, d, work).Ok?
    ensures Settled(Recover(size, d, work).value)
  {
    RecoveryIsIdempotent(size, d, work);
  }

  // ----- the two writes before the protocol is committed to -----

  function Prepared(d: Disk, c: Step): Disk
    requires c.Commit?
  {
    WithFile(d, Next(c.intent.archive.id), c.replacement)
  }

  function Intended(size: Encoder, d: Disk, c: Step): Disk
    requires c.Commit?
  {
    WithFile(Prepared(d, c), IntentFile, Encode(size, Plan(c.intent)))
  }

  ghost predicate PlannedCommit(size: Encoder, d: Disk, r: Request, id: Id, now: int, c: Step) {
    Settled(d) && Planned(size, d, r, id, now) == Ok(c) && c.Commit?
  }

  /** Before its intent is published, a rollover has no effect. */
  lemma PreparedIsDiscarded(size: Encoder, d: Disk, c: Step, x: Disk)
    requires Settled(d) && c.Commit? && c.replacement.count <= RECORD_BYTES
    requires x == d || x == Prepared(d, c)
    ensures Goal(size, x) == Ok(d)
    ensures Listing(size, x) <= |d.files| + 1
  {
    assert Swept(x.files) == d.files;
  }

  lemma PlannedFacts(size: Encoder, d: Disk, r: Request, id: Id, now: int, c: Step)
    requires PlannedCommit(size, d, r, id, now, c)
    ensures CurrentBytes(d, r.scope) == Ok(Some(c.original))
    ensures ValidRequest(r)
    ensures Decode(c.original).Ok? && c.original.payload.Chat?
    ensures c.original.payload.chat.revision == r.expectedRevision
    ensures c.replacement == Encode(size, Chat(Replacement(c.original.payload.chat, r)))
    ensures 0 < c.replacement.count <= RECORD_BYTES
    ensures c.intent.archive == NewArchive(r, c.original.payload.chat, c.original, c.replacement, id, now)
    ensures c.intent == Intent(1, c.intent.archive, c.intent.archive.sha, c.replacement.count)
    ensures ValidIntent(c.intent)
    ensures forall m :: m in Replacement(c.original.payload.chat, r).messages ==> Retainable(m)
    ensures Manifests(d.files).Ok?
    ensures Accounted(d.files) && |ManifestIds(d.files)| < PHYSICAL_RECORDS
    ensures forall a :: a in Catalog(d.files) ==> !(a.scope == r.scope && a.toEpoch == r.toEpoch)
    ensures Footprint(d, r.scope, c.original, c.replacement) <= PHYSICAL_BYTES
  {
    hide ValidConversation;
  }

  lemma PlannedStages(size: Encoder, d: Disk, r: Request, id: Id, now: int, c: Step, x: Disk)
    requires PlannedCommit(size, d, r, id, now, c)
    requires Next(id) in x.files && x.files[Next(id)] == c.replacement
    ensures Staged(x.files, c.intent) == Ok(c.replacement)
    ensures Derived(c.original.payload.chat, c.replacement.payload.chat, c.intent.archive)
  {
    PlannedFacts(size, d, r, id, now, c);
    hide Planned, Manifests, Catalog, Accounted, Settled;
    var current := c.original.payload.chat;
    ReplacementIsValid(current, r);
    RetainIsIdempotent(current.messages, r.retaining);
  }

  lemma IntentIsPending(size: Encoder, d: Disk, c: Step)
    requires c.Commit? && ValidIntent(c.intent)
    ensures Pending(Intended(size, d, c).files) == Ok(Some(c.intent))
  {
    assert size(Plan(c.intent)) <= MANIFEST_BYTES;
  }

  /** What stands under an ID already taken is the manifest of another archive. */
  lemma TakenIsAnother(size: Encoder, d: Disk, r: Request, id: Id, now: int, c: Step)
    requires PlannedCommit(size, d, r, id, now, c) && Meta(id) in d.files
    ensures d.files[Meta(id)] != Encode(size, Manifest(c.intent.archive))
  {
    PlannedFacts(size, d, r, id, now, c);
    hide Planned, Manifests;
    assert Meta(id) in d.files.Keys && id in ManifestIds(d.files);
    assert ManifestReads(d.files, id);
    assert d.files[Meta(id)].payload.archive in Catalog(d.files);
  }

  /** An archive under an ID already taken is refused: its manifest cannot be the one on disk. */
  lemma CollisionIsRefused(size: Encoder, d: Disk, r: Request, id: Id, now: int, c: Step)
    requires PlannedCommit(size, d, r, id, now, c) && Meta(id) in d.files
    ensures Archived(size, Intended(size, d, c).files, c.intent.archive, c.original).Err?
  {
    PlannedFacts(size, d, r, id, now, c);
    TakenIsAnother(size, d, r, id, now, c);
    hide Planned, PlannedCommit, Manifests, Archived, Publish;
    if Archived(size, Intended(size, d, c).files, c.intent.archive, c.original).Ok? {
      ArchivedIsIdempotent(size, Intended(size, d, c).files, c.intent.archive, c.original);
      assert false;
    }
  }

  /** Under a fresh ID the archive can be written. */
  lemma FreshArchives(size: Encoder, d: Disk, r: Request, id: Id, now: int, c: Step)
    requires PlannedCommit(size, d, r, id, now, c) && Meta(id) !in d.files
    ensures Archived(size, Intended(size, d, c).files, c.intent.archive, c.original).Ok?
    ensures Body(id) !in d.files
  {
    PlannedFacts(size, d, r, id, now, c);
    hide Planned, Manifests, Archived, Decode, ValidArchive;
    assert Body(id) in d.files ==> Body(id) in d.files.Keys && id !in ManifestIds(d.files);
    ArchiveIsWritten(size, Intended(size, d, c).files, c.intent.archive, c.original);
  }

  lemma ArchiveIsWritten(size: Encoder, files: Directory, a: Archive, original: Bytes)
    requires Body(a.id) !in files && Meta(a.id) !in files && ValidArchive(a)
    requires Decode(original).Ok? && a.byteCount == original.count && a.sha == Digest(original)
    requires var chat := original.payload.chat;
             && chat.revision == a.sourceRevision && chat.epoch == a.fromEpoch
             && chat.physicalSession == a.physicalSession && Resources(chat) == a.resources
    ensures Archived(size, files, a, original).Ok?
  {
    assert size(Manifest(a)) <= MANIFEST_BYTES;
    hide ValidConversation, ValidArchive;
  }

  lemma FreshFinishes(size: Encoder, d: Disk, c: Step)
    requires c.Commit? && ValidIntent(c.intent)
    requires var x, a := Intended(size, d, c), c.intent.archive;
             && Staged(x.files, c.intent) == Ok(c.replacement)
             && CurrentBytes(x, a.scope) == Ok(Some(c.original))
             && c.original.payload.Chat? && c.replacement.payload.Chat?
             && Derived(c.original.payload.chat, c.replacement.payload.chat, a)
             && Archived(size, x.files, a, c.original).Ok?
             && Digest(c.original) == a.sha
             && c.replacement.count <= RECORD_BYTES
    ensures Finished(size, Intended(size, d, c), c.intent)
         == Ok(WithRollback(size, Intended(size, d, c), c.intent.archive, c.original)
               .(current := d.current[c.intent.archive.scope := c.replacement]))
  {
    hide Staged, CurrentBytes, Derived, ValidArchive, Decode;
    InstalledVerifies(size, Intended(size, d, c), c.intent.archive, c.original, c.replacement);
  }

  /**
   * Once its intent is published, a rollover can be completed by recovery exactly when its archive ID is fresh.
   * The code draws that ID at random and never checks it: with a manifest already under it every recovery is refused.
   */
  lemma IntentCommitsIffFresh(size: Encoder, d: Disk, r: Request, id: Id, now: int, c: Step)
    requires PlannedCommit(size, d, r, id, now, c)
    ensures Goal(size, Intended(size, d, c)).Ok? <==> Meta(id) !in d.files
    ensures Meta(id) !in d.files ==> Goal(size, Intended(size, d, c)) == Ok(Committed(size, d, c))
    ensures Meta(id) !in d.files ==> Listing(size, Intended(size, d, c)) <= |d.files| + 2
    ensures Meta(id) in d.files ==> forall left :: Recover(size, Intended(size, d, c), left).Err?
  {
    PlannedFacts(size, d, r, id, now, c);
    var x, a := Intended(size, d, c), c.intent.archive;
    PlannedStages(size, d, r, id, now, c, x);
    SameCurrent(x, d, r.scope, c.original);
    IntentIsPending(size, d, c);
    if Meta(id) in d.files {
      CollisionIsRefused(size, d, r, id, now, c);
      hide Planned, Manifests, Derived, Staged, CurrentBytes, ValidArchive, Archived, Decode;
      assert Finished(size, x, c.intent).Err?;
    } else {
      FreshArchives(size, d, r, id, now, c);
      FreshFinishes(size, d, c);
      hide Planned, Manifests, Finished, Derived, Staged, CurrentBytes, ValidArchive, Archived, Decode, PlannedCommit;
      FreshEnds(size, d, c);
    }
  }

  lemma FreshEnds(size: Encoder, d: Disk, c: Step)
    requires Settled(d) && c.Commit?
    requires Pending(Intended(size, d, c).files) == Ok(Some(c.intent))
    requires ValidIntent(c.intent) && c.original.count <= RECORD_BYTES
    requires Finished(size, Intended(size, d, c), c.intent)
          == Ok(WithRollback(size, Intended(size, d, c), c.intent.archive, c.original)
                .(current := d.current[c.intent.archive.scope := c.replacement]))
    ensures Goal(size, Intended(size, d, c)) == Ok(Committed(size, d, c))
    ensures Listing(size, Intended(size, d, c)) <= |d.files| + 2
  {
    assert size(Manifest(c.intent.archive)) <= MANIFEST_BYTES;
    hide Finished, ValidArchive;
    GrownIsTidy(size, d, c);
  }

  lemma GrownIsTidy(size: Encoder, d: Disk, c: Step)
    requires Settled(d) && c.Commit?
    requires size(Manifest(c.intent.archive)) <= RECORD_BYTES && c.original.count <= RECORD_BYTES
    ensures var a := c.intent.archive;
            var less := Intended(size, d, c).files[Body(a.id) := c.original][Meta(a.id) := Encode(size, Manifest(a))]
                        - {IntentFile, Next(a.id)};
            && less == Committed(size, d, c).files
            && Swept(less) == less
            && Named(less)
            && |less| <= |d.files| + 2
  {
    var a := c.intent.archive;
    assert Swept(d.files) == d.files && Named(d.files);
    ScaffoldingDrops(d.files, Body(a.id), c.original, Meta(a.id), Encode(size, Manifest(a)),
                     Next(a.id), c.replacement, IntentFile, Encode(size, Plan(c.intent)));
    TwoMore(d.files, Body(a.id), c.original, Meta(a.id), Encode(size, Manifest(a)));
    hide Encode, Swept, Named;
    TwoMoreAreTidy(d.files, Body(a.id), c.original, Meta(a.id), Encode(size, Manifest(a)));
  }

  lemma TwoMoreAreTidy(files: Directory, n0: FileName, b0: Bytes, n1: FileName, b1: Bytes)
    requires Named(files) && Swept(files) == files && !n0.Next? && !n1.Next? && !n0.Foreign? && !n1.Foreign?
    requires b0.count <= RECORD_BYTES && b1.count <= RECORD_BYTES
    ensures Named(files[n0 := b0][n1 := b1]) && Swept(files[n0 := b0][n1 := b1]) == files[n0 := b0][n1 := b1]
  {
    assert forall n :: n in files ==> !n.Next? by { assert forall n :: n in files ==> n in Swept(files); }
  }

  lemma TwoMore(files: Directory, n0: FileName, b0: Bytes, n1: FileName, b1: Bytes)
    ensures |files[n0 := b0][n1 := b1]| <= |files| + 2
  {
  }

  lemma ScaffoldingDrops(files: Directory, n0: FileName, b0: Bytes, n1: FileName, b1: Bytes,
                         s0: FileName, t0: Bytes, s1: FileName, t1: Bytes)
    requires s0 !in files && s1 !in files && s0 != n0 && s0 != n1 && s1 != n0 && s1 != n1
    ensures files[s0 := t0][s1 := t1][n0 := b0][n1 := b1] - {s1, s0} == files[n0 := b0][n1 := b1]
  {
  }

  // ----- what every instant of a rollover guarantees -----

  /** A store that can take another archive has room for the protocol's own files, and for many temporaries. */
  lemma PlannedIsRoomy(size: Encoder, d: Disk, r: Request, id: Id, now: int, c: Step)
    requires PlannedCommit(size, d, r, id, now, c)
    ensures |d.files| <= 2 * PHYSICAL_RECORDS - 2
  {
    PlannedFacts(size, d, r, id, now, c);
    hide Planned, Manifests, Accounted;
    CatalogIsSmall(d.files);
  }

  /** After the intent is published, every crash image leads to the committed disk. */
  lemma IntendedConverges(size: Encoder, d: Disk, r: Request, id: Id, now: int, c: Step, x: Disk)
    requires PlannedCommit(size, d, r, id, now, c) && Meta(id) !in d.files
    requires OnTheWay(size, Intended(size, d, c), x)
    ensures Goal(size, x) == Ok(Committed(size, d, c))
    ensures Listing(size, x) <= |d.files| + 3
  {
    hide Planned, OnTheWay, Goal, Listing, Intended;
    IntentCommitsIffFresh(size, d, r, id, now, c);
    GoalIsKept(size, Intended(size, d, c), x);
  }

  /** The original document is on disk in one of its three homes. */
  predicate Survives(x: Disk, scope: Scope, id: Id, original: Bytes) {
    || (scope in x.current && x.current[scope] == original)
    || (scope in x.rollback && x.rollback[scope] == original)
    || (Body(id) in x.files && x.files[Body(id)] == original)
  }

  lemma CurrentSurvives(x: Disk, scope: Scope, id: Id, original: Bytes)
    requires CurrentBytes(x, scope) == Ok(Some(original))
    ensures Survives(x, scope, id, original)
  {
  }

  /** At no instant of a rollover are the original bytes gone. */
  lemma OriginalSurvives(size: Encoder, d: Disk, r: Request, id: Id, now: int, c: Step, x: Disk)
    requires PlannedCommit(size, d, r, id, now, c)
    requires x == d || x == Prepared(d, c) || OnTheWay(size, Intended(size, d, c), x)
    ensures Survives(x, r.scope, id, c.original)
  {
    assert c.Commit?;
    hide PlannedCommit, Finished, ValidArchive, Derived, Staged, Archived, Publish, Decode, CurrentBytes;
    PlannedFacts(size, d, r, id, now, c);
    var y := Intended(size, d, c);
    SameCurrent(Prepared(d, c), d, r.scope, c.original);
    SameCurrent(y, d, r.scope, c.original);
    IntentIsPending(size, d, c);
    PlannedStages(size, d, r, id, now, c, y);
    if x == d || x == Prepared(d, c) || x == y {
      CurrentSurvives(x, r.scope, id, c.original);
    } else {
      hide Prepared, Intended;
      OnTheWaySurvives(size, y, c.intent, c.original, x);
    }
  }

  /** Nor at any instant of any number of interrupted recoveries after it. */
  lemma OriginalSurvivesRecoveries(size: Encoder, d: Disk, r: Request, id: Id, now: int, c: Step, crashes: seq<Crash>)
    requires PlannedCommit(size, d, r, id, now, c) && Interrupted(size, crashes)
    requires var x := crashes[0].disk; x == d || x == Prepared(d, c) || OnTheWay(size, Intended(size, d, c), x)
    ensures Survives(crashes[|crashes| - 1].disk, r.scope, id, c.original)
  {
    var x, y := crashes[0].disk, crashes[|crashes| - 1].disk;
    CrashesAreOnTheWay(size, crashes);
    if OnTheWay(size, Intended(size, d, c), x) {
      WaysJoin(size, Intended(size, d, c), x, y);
      hide OnTheWay, PlannedCommit;
      OriginalSurvives(size, d, r, id, now, c, y);
    } else {
      assert Pending(x.files) == Ok(None);
      hide PlannedCommit;
      OriginalSurvives(size, d, r, id, now, c, x);
      PlannedFacts(size, d, r, id, now, c);
      SameCurrent(x, d, r.scope, c.original);
      SameCurrent(y, x, r.scope, c.original);
      CurrentSurvives(y, r.scope, id, c.original);
    }
  }

  lemma OnTheWaySurvives(size: Encoder, y: Disk, i: Intent, original: Bytes, x: Disk)
    requires Pending(y.files) == Ok(Some(i)) && OnTheWay(size, y, x) && x != y
    requires CurrentBytes(y, i.archive.scope) == Ok(Some(original)) && Digest(original) == i.archive.sha
    ensures Survives(x, i.archive.scope, i.archive.id, original)
  {
    hide Finished, ValidArchive, Derived, Staged, Archived, Publish, Decode, CurrentBytes, Pending;
    if Archiving(size, y, i.archive, x) {
      assert x.files[Body(i.archive.id)] == original;
    } else {
      FinishedKeepsBody(size, y, i, original);
    }
  }

  lemma FinishedKeepsBody(size: Encoder, y: Disk, i: Intent, original: Bytes)
    requires Finished(size, y, i).Ok? && CurrentBytes(y, i.archive.scope) == Ok(Some(original))
    requires Digest(original) == i.archive.sha
    ensures var done := Finished(size, y, i).value;
            Body(i.archive.id) in done.files && done.files[Body(i.archive.id)] == original
  {
    hide ReadBody, Staged, Derived, Verified, ValidArchive, CurrentBytes, Archived;
    ArchivedIsIdempotent(size, y.files, i.archive, original);
  }

  /** Adding an archive under a fresh ID adds it to the catalog and disturbs no other. */
  lemma CatalogGrows(files: Directory, a: Archive, original: Bytes, manifest: Bytes)
    requires Accounted(files) && IntentFile !in files && Meta(a.id) !in files
    requires ValidArchive(a) && manifest.payload == Manifest(a) && 0 < manifest.count <= MANIFEST_BYTES
    requires original.count == a.byteCount
    ensures Body(a.id) !in files
    ensures Catalog(files[Body(a.id) := original][Meta(a.id) := manifest]) == Catalog(files) + {a}
  {
    assert Body(a.id) in files ==> Body(a.id) in files.Keys;
    var grown := files[Body(a.id) := original][Meta(a.id) := manifest];
    forall n | n in files.Keys && n.Meta?
      ensures ManifestReads(grown, n.id) && ManifestReads(files, n.id) && grown[n] == files[n]
    {
      assert n.id in ManifestIds(files);
      assert n == Meta(n.id);
    }
    assert ManifestReads(grown, a.id);
    forall b | b in Catalog(grown)
      ensures b in Catalog(files) + {a}
    {
      var n :| n in grown.Keys && n.Meta? && ManifestReads(grown, n.id) && grown[n].payload.archive == b;
      assert n.id != a.id ==> n in files.Keys;
    }
    forall b | b in Catalog(files) + {a}
      ensures b in Catalog(grown)
    {
      if b == a {
        assert Meta(a.id) in grown.Keys;
      } else {
        var n :| n in files.Keys && n.Meta? && ManifestReads(files, n.id) && files[n].payload.archive == b;
        assert n in grown.Keys;
      }
    }
  }

  lemma BodyUndisturbed(files: Directory, a: Archive, b: Archive, original: Bytes, manifest: Bytes)
    requires b.id != a.id
    ensures ReadBody(files[Body(a.id) := original][Meta(a.id) := manifest], b) == ReadBody(files, b)
  {
  }

  lemma ReplacementDecodes(size: Encoder, current: Conversation, r: Request)
    requires ValidConversation(current) && ValidRequest(r) && current.revision == r.expectedRevision
    requires size(Chat(Replacement(current, r))) <= RECORD_BYTES
    ensures Decode(Encode(size, Chat(Replacement(current, r)))) == Ok(Replacement(current, r))
  {
    ReplacementIsValid(current, r);
  }

  /** What a committed rollover means: the replacement is current, the original archived, everything else untouched. */
  lemma CommittedMeaning(size: Encoder, d: Disk, r: Request, id: Id, now: int, c: Step)
    requires PlannedCommit(size, d, r, id, now, c) && Meta(id) !in d.files
    ensures c.original.payload.Chat?
    ensures var e := Committed(size, d, c);
            && CurrentBytes(e, r.scope) == Ok(Some(c.replacement))
            && Decode(c.replacement) == Ok(Replacement(c.original.payload.chat, r))
            && ReadBody(e.files, c.intent.archive) == Ok(c.original)
            && e.rollback == d.rollback[r.scope := c.original]
            && Catalog(e.files) == Catalog(d.files) + {c.intent.archive}
            && (forall a :: a in Catalog(d.files) ==> ReadBody(e.files, a) == ReadBody(d.files, a))
            && (forall s :: s != r.scope ==> CurrentBytes(e, s) == CurrentBytes(d, s))
  {
    PlannedFacts(size, d, r, id, now, c);
    CommittedArchives(size, d, r, id, now, c);
    CommittedDocuments(size, d, r, id, now, c);
    hide PlannedCommit, Catalog, CurrentBytes, Decode, ReadBody;
  }

  lemma CommittedDocuments(size: Encoder, d: Disk, r: Request, id: Id, now: int, c: Step)
    requires PlannedCommit(size, d, r, id, now, c)
    ensures var e := Committed(size, d, c);
            && CurrentBytes(e, r.scope) == Ok(Some(c.replacement))
            && Decode(c.replacement) == Ok(Replacement(c.original.payload.chat, r))
            && (forall s :: s != r.scope ==> CurrentBytes(e, s) == CurrentBytes(d, s))
  {
    PlannedFacts(size, d, r, id, now, c);
    PlannedStages(size, d, r, id, now, c, Prepared(d, c));
    ReplacementDecodes(size, c.original.payload.chat, r);
    hide Planned, PlannedCommit, Manifests, Derived, Accounted, ValidConversation, Staged;
  }

  /** The catalog has gained the new archive, and every body reads as it did. */
  lemma CommittedArchives(size: Encoder, d: Disk, r: Request, id: Id, now: int, c: Step)
    requires PlannedCommit(size, d, r, id, now, c) && Meta(id) !in d.files
    ensures var e := Committed(size, d, c);
            && ReadBody(e.files, c.intent.archive) == Ok(c.original)
            && Catalog(e.files) == Catalog(d.files) + {c.intent.archive}
            && (forall a :: a in Catalog(d.files) ==> ReadBody(e.files, a) == ReadBody(d.files, a))
  {
    PlannedFacts(size, d, r, id, now, c);
    PlannedStages(size, d, r, id, now, c, Prepared(d, c));
    var a, e := c.intent.archive, Committed(size, d, c);
    assert size(Manifest(a)) <= MANIFEST_BYTES;
    CatalogGrows(d.files, a, c.original, Encode(size, Manifest(a)));
    forall b | b in Catalog(d.files)
      ensures ReadBody(e.files, b) == ReadBody(d.files, b)
    {
      BodyUndisturbed(d.files, a, b, c.original, Encode(size, Manifest(a)));
    }
    hide Planned, PlannedCommit, Manifests, Derived, Catalog, Accounted, ValidConversation, Staged, CurrentBytes;
  }

  /** The protocol run to its end produces the committed disk, and only under a fresh ID. */
  lemma CompletedIsCommitted(size: Encoder, d: Disk, r: Request, id: Id, now: int, c: Step)
    requires PlannedCommit(size, d, r, id, now, c)
    requires Completed(size, Intended(size, d, c), c.intent).Ok?
    ensures Meta(id) !in d.files
    ensures Completed(size, Intended(size, d, c), c.intent).value == Committed(size, d, c)
  {
    PlannedFacts(size, d, r, id, now, c);
    PlannedStages(size, d, r, id, now, c, Intended(size, d, c));
    SameCurrent(Intended(size, d, c), d, r.scope, c.original);
    assert size(Manifest(c.intent.archive)) <= MANIFEST_BYTES;
    hide Planned, Manifests, Derived, Staged, CurrentBytes, ValidArchive, Archived, Decode;
    if Meta(id) in d.files {
      CollisionIsRefused(size, d, r, id, now, c);
      assert false;
    }
    FreshArchives(size, d, r, id, now, c);
    FreshFinishes(size, d, c);
    hide Finished;
    GrownIsTidy(size, d, c);
  }
}
