/** What each write of the store may leave behind: where it recovers to, what it keeps, what it weighs. */
module HistorySteps {
  import opened Wrappers
  import opened HistoryTypes
  import opened HistoryDisk
  import opened HistoryProtocol
  import opened HistoryRecovery
  import opened HistoryRollover
  import opened ConversationWrites

  /** An image on the way of publishing one file: the file is there or not, and a temporary may be. */
  ghost predicate Publishing(d: Disk, work: seq<nat>, name: FileName, bytes: Bytes, s: Image) {
    && s.inflight == 0
    && (s.disk == d || s.disk == WithFile(d, name, bytes))
    && (s.work == work || exists part: nat :: part <= bytes.count && part <= RECORD_BYTES && s.work == work + [part])
  }

  /** Publishing costs at most twice the file: once as temporary, once linked. */
  lemma PublishingWeighs(d: Disk, work: seq<nat>, name: FileName, bytes: Bytes, s: Image, scope: Scope)
    requires Publishing(d, work, name, bytes, s)
    ensures Weight(s, scope) <= Weight(Image(d, work, 0), scope) + 2 * bytes.count
  {
    TotalAdds(d.files, name, bytes);
    if s.work != work {
      var part: nat :| part <= bytes.count && s.work == work + [part];
      SumAppends(work, part);
    }
  }

  lemma LeanerWeighs(d: Disk, work: seq<nat>, s: Image, scope: Scope)
    requires Sweeping(d, work, s)
    ensures Weight(s, scope) <= Weight(Image(d, work, 0), scope)
  {
    TotalShrinks(s.disk.files, d.files);
    SumShrinks(s.work, work);
  }

  lemma {:induction false} SumShrinks(less: seq<nat>, sizes: seq<nat>)
    requires less <= sizes
    ensures Sum(less) <= Sum(sizes)
  {
    if less != [] {
      SumShrinks(less[1..], sizes[1..]);
    }
  }

  // ----- the images of recovery -----

  /** Preparation files and temporaries go, one at a time. */
  ghost predicate Sweeping(d: Disk, work: seq<nat>, s: Image) {
    Leaner(s.disk, d) && s.work <= work && s.inflight == 0
  }

  /** The writes of body, manifest, rollback and current, in this order; a file that is there is not published again. */
  ghost predicate Installing(size: Encoder, d: Disk, work: seq<nat>, a: Archive, raw: Bytes, replacement: Bytes,
                             s: Image) {
    var archived := WithFile(d, Body(a.id), raw);
    || (Body(a.id) !in d.files && Publishing(d, work, Body(a.id), raw, s))
    || (&& Publish(d.files, Body(a.id), raw).Ok? && Meta(a.id) !in d.files
        && Publishing(archived, work, Meta(a.id), Encode(size, Manifest(a)), s))
    || (&& Archived(size, d.files, a, raw).Ok?
        && (|| s == Image(WithArchive(size, d, a, raw), work, raw.count)
            || s == Image(WithRollback(size, d, a, raw), work, 0)
            || s == Image(WithRollback(size, d, a, raw), work, replacement.count)))
  }

  /** The checks have passed and the current document is still the original. */
  predicate Replacing(d: Disk, i: Intent) {
    Begun(d, i) && Digest(CurrentBytes(d, i.archive.scope).value.value) == i.archive.sha
  }

  function Original(d: Disk, i: Intent): Bytes
    requires Replacing(d, i)
  {
    CurrentBytes(d, i.archive.scope).value.value
  }

  function Successor(d: Disk, i: Intent): Bytes
    requires Replacing(d, i)
  {
    Staged(d.files, i).value
  }

  ghost predicate Completing(size: Encoder, d: Disk, work: seq<nat>, i: Intent, s: Image) {
    || (&& Replacing(d, i)
        && Installing(size, d, work, i.archive, Original(d, i), Successor(d, i), s))
    || (&& Finished(size, d, i).Ok?
        && (s == Image(Finished(size, d, i).value, work, 0) || Sweeping(Finished(size, d, i).value, work, s)))
  }

  /** Every image a recovery may pass through that starts from this disk with these temporaries. */
  ghost predicate Underway(size: Encoder, d: Disk, work: seq<nat>, s: Image) {
    var pending := Pending(d.files);
    || s == Image(d, work, 0)
    || (pending == Ok(None) && Sweeping(d, work, s))
    || (pending.Ok? && pending.value.Some? && Completing(size, d, work, pending.value.value, s))
  }

  ghost predicate Extra(temporaries: seq<nat>, left: seq<nat>) {
    left <= temporaries || exists part: nat :: part <= RECORD_BYTES && left == temporaries + [part]
  }

  lemma ExtraIsSized(temporaries: seq<nat>, left: seq<nat>)
    requires Extra(temporaries, left) && Sized(temporaries)
    ensures Sized(left) && |left| <= |temporaries| + 1
  {
    if left <= temporaries {
      assert forall w :: w in left ==> w in temporaries;
    }
  }

  lemma InstallingIsArchiving(size: Encoder, d: Disk, work: seq<nat>, i: Intent, s: Image)
    requires Replacing(d, i)
    requires Installing(size, d, work, i.archive, Original(d, i), Successor(d, i), s)
    ensures (s.disk == d || Archiving(size, d, i.archive, s.disk)) && Extra(work, s.work)
  {
    var a, raw := i.archive, Original(d, i);
    assert size(Manifest(a)) <= MANIFEST_BYTES;
    CurrentDecodes(d, a.scope);
    if Archived(size, d.files, a, raw).Ok? { ArchivedIsIdempotent(size, d.files, a, raw); }
    hide CurrentBytes, ReadBody, ValidConversation, ValidArchive, Staged, Derived;
  }

  /** Sweeping what an intent left, or a disk with nothing pending, is part of the recovery. */
  lemma SweepingIsUnderway(size: Encoder, d: Disk, work: seq<nat>, done: Disk, s: Image)
    requires Sweeping(done, work, s) && Pending(d.files).Ok?
    requires var pending := Pending(d.files).value;
             if pending.None? then done == d
             else Finished(size, d, pending.value).Ok? && Leaner(done, Finished(size, d, pending.value).value)
    ensures Underway(size, d, work, s)
  {
    var pending := Pending(d.files).value;
    hide Finished, Replacing, Installing, Pending;
    if pending.Some? { LeanerTrans(s.disk, done, Finished(size, d, pending.value).value); }
  }

  /** An image of recovery is on the way, with at most one temporary more. */
  lemma UnderwayIsOnTheWay(size: Encoder, d: Disk, work: seq<nat>, s: Image)
    requires Underway(size, d, work, s)
    ensures OnTheWay(size, d, s.disk) && Extra(work, s.work)
    ensures Sized(work) ==> Sized(s.work) && |s.work| <= |work| + 1
  {
    hide Finished, Installing, Archiving, Begun;
    var pending := Pending(d.files);
    if pending.Ok? && pending.value.Some? {
      var i := pending.value.value;
      if Replacing(d, i) && Installing(size, d, work, i.archive, Original(d, i), Successor(d, i), s) {
        InstallingIsArchiving(size, d, work, i, s);
      }
    }
    if Sized(work) { ExtraIsSized(work, s.work); }
  }

  // ----- what they weigh -----

  function Max(a: nat, b: nat): nat {
    if a < b then b else a
  }

  /**
   * The most that carrying out an intent weighs: with the rollback or the current in flight, or while its manifest is
   * published.
   */
  ghost function Peak(size: Encoder, d: Disk, work: seq<nat>, a: Archive, raw: Bytes, replacement: Bytes): nat {
    var body := if Body(a.id) in d.files then 0 else raw.count;
    var meta := if Meta(a.id) in d.files then 0 else size(Manifest(a));
    var rollback := SizeOf(d.rollback, a.scope);
    Total(d.files) + Sum(work) + SizeOf(d.current, a.scope) + body + meta
    + Max(raw.count + Max(rollback, replacement.count), rollback + meta)
  }

  lemma InstallingWeighs(size: Encoder, d: Disk, work: seq<nat>, a: Archive, raw: Bytes, replacement: Bytes, s: Image)
    requires Installing(size, d, work, a, raw, replacement, s)
    ensures Weight(s, a.scope) <= Peak(size, d, work, a, raw, replacement)
  {
    hide Publish, Archived, Publishing, Total, Sum;
    var archived, manifest := WithFile(d, Body(a.id), raw), Encode(size, Manifest(a));
    TotalAdds(d.files, Body(a.id), raw);
    if Body(a.id) !in d.files && Publishing(d, work, Body(a.id), raw, s) {
      PublishingWeighs(d, work, Body(a.id), raw, s, a.scope);
    } else {
      TotalAdds(archived.files, Meta(a.id), manifest);
      if Meta(a.id) !in d.files && Publish(d.files, Body(a.id), raw).Ok?
         && Publishing(archived, work, Meta(a.id), manifest, s)
      {
        PublishIsIdempotent(d.files, Body(a.id), raw);
        PublishingWeighs(archived, work, Meta(a.id), manifest, s, a.scope);
      } else {
        ArchivedIsIdempotent(size, d.files, a, raw);
      }
    }
  }

  /** The image at which the peak is reached. */
  lemma PeakIsReached(size: Encoder, d: Disk, work: seq<nat>, a: Archive, raw: Bytes, replacement: Bytes)
    returns (s: Image)
    requires Archived(size, d.files, a, raw).Ok? && size(Manifest(a)) <= RECORD_BYTES
    ensures Installing(size, d, work, a, raw, replacement, s)
    ensures Weight(s, a.scope) == Peak(size, d, work, a, raw, replacement)
  {
    var archived, manifest := WithFile(d, Body(a.id), raw), Encode(size, Manifest(a));
    var rollback := SizeOf(d.rollback, a.scope);
    TotalAdds(d.files, Body(a.id), raw);
    TotalAdds(archived.files, Meta(a.id), manifest);
    ArchivedIsIdempotent(size, d.files, a, raw);
    if Meta(a.id) !in d.files && raw.count + Max(rollback, replacement.count) < rollback + manifest.count {
      s := Image(WithFile(archived, Meta(a.id), manifest), work + [manifest.count], 0);
      SumAppends(work, manifest.count);
      assert Publishing(archived, work, Meta(a.id), manifest, s);
    } else if rollback >= replacement.count {
      s := Image(WithArchive(size, d, a, raw), work, raw.count);
    } else {
      s := Image(WithRollback(size, d, a, raw), work, replacement.count);
    }
  }

  lemma SingletonIs<T>(s: set<T>, t: T)
    requires |s| == 1 && t in s
    ensures forall u :: u in s ==> u == t
  {
    forall u | u in s
      ensures u == t
    {
      SubsetFits({t, u}, s);
    }
  }

  // ----- weight over a whole recovery -----

  lemma InstalledWeighs(size: Encoder, d: Disk, work: seq<nat>, i: Intent)
    requires Replacing(d, i) && Finished(size, d, i).Ok?
    ensures var raw, replacement := Original(d, i), Successor(d, i);
            && Archived(size, d.files, i.archive, raw).Ok?
            && Weight(Image(Finished(size, d, i).value, work, 0), i.archive.scope)
                 <= Peak(size, d, work, i.archive, raw, replacement)
  {
    var a := i.archive;
    var raw, replacement := Original(d, i), Successor(d, i);
    hide CurrentBytes, Staged, Derived, ReadBody, ValidArchive, Verified, Publish;
    TotalAdds(d.files, Body(a.id), raw);
    TotalAdds(d.files[Body(a.id) := raw], Meta(a.id), Encode(size, Manifest(a)));
    ArchivedIsIdempotent(size, d.files, a, raw);
    hide Archived;
  }

  /** No image of a recovery weighs more than this allows: the peak of what is pending, or what was there before. */
  ghost predicate Afforded(size: Encoder, d: Disk, work: seq<nat>, s: Image) {
    var pending := Pending(d.files);
    if pending.Ok? && pending.value.Some? && Replacing(d, pending.value.value) then
      var i := pending.value.value;
      Weight(s, i.archive.scope)
        <= Peak(size, d, work, i.archive, Original(d, i), Successor(d, i))
    else forall scope :: Weight(s, scope) <= Weight(Image(d, work, 0), scope)
  }

  lemma UnderwayIsAfforded(size: Encoder, d: Disk, work: seq<nat>, s: Image)
    requires Underway(size, d, work, s)
    ensures Afforded(size, d, work, s)
  {
    hide Installing, Begun, Sweeping, Weight, Peak;
    var pending := Pending(d.files);
    if pending.Ok? && pending.value.Some? {
      var i := pending.value.value;
      if Replacing(d, i) {
        ReplacingIsAfforded(size, d, work, i, s);
      } else if Finished(size, d, i).Ok? {
        ReplacedAlready(size, d, i);
        if Sweeping(d, work, s) { SweepingWeighs(d, work, s); }
      }
    } else if Sweeping(d, work, s) {
      SweepingWeighs(d, work, s);
    }
  }

  lemma SweepingWeighs(d: Disk, work: seq<nat>, s: Image)
    requires Sweeping(d, work, s)
    ensures forall scope :: Weight(s, scope) <= Weight(Image(d, work, 0), scope)
  {
    forall scope { LeanerWeighs(d, work, s, scope); }
  }

  lemma ReplacedAlready(size: Encoder, d: Disk, i: Intent)
    requires Finished(size, d, i).Ok? && !Replacing(d, i)
    ensures Finished(size, d, i).value == d
  {
    hide Derived, ReadBody, Archived, ValidArchive, Verified;
    CurrentDecodes(d, i.archive.scope);
    StagedDecodes(d.files, i);
    hide CurrentBytes, Staged;
  }

  lemma ReplacingIsAfforded(size: Encoder, d: Disk, work: seq<nat>, i: Intent, s: Image)
    requires Pending(d.files) == Ok(Some(i)) && Replacing(d, i) && Underway(size, d, work, s)
    ensures Weight(s, i.archive.scope)
         <= Peak(size, d, work, i.archive, Original(d, i), Successor(d, i))
  {
    var raw, replacement := Original(d, i), Successor(d, i);
    hide Installing, Begun, CurrentBytes, Finished, Pending;
    if Installing(size, d, work, i.archive, raw, replacement, s) {
      InstallingWeighs(size, d, work, i.archive, raw, replacement, s);
    } else if s != Image(d, work, 0) {
      InstalledWeighs(size, d, work, i);
      if Sweeping(Finished(size, d, i).value, work, s) {
        LeanerWeighs(Finished(size, d, i).value, work, s, i.archive.scope);
      }
    }
  }

  /** The peak is exactly the most any image of the recovery weighs: above it nothing, and it is reached. */
  lemma RecoveryPeaks(size: Encoder, d: Disk, work: seq<nat>, i: Intent)
    requires Pending(d.files) == Ok(Some(i)) && Replacing(d, i)
    requires Archived(size, d.files, i.archive, Original(d, i)).Ok?
    ensures var peak := Peak(size, d, work, i.archive, Original(d, i), Successor(d, i));
            && (forall s :: Underway(size, d, work, s) ==> Weight(s, i.archive.scope) <= peak)
            && (exists s :: Underway(size, d, work, s) && Weight(s, i.archive.scope) == peak)
  {
    forall s | Underway(size, d, work, s)
      ensures Weight(s, i.archive.scope)
           <= Peak(size, d, work, i.archive, Original(d, i), Successor(d, i))
    {
      ReplacingIsAfforded(size, d, work, i, s);
    }
    var s := RecoveryReachesPeak(size, d, work, i);
  }

  lemma RecoveryReachesPeak(size: Encoder, d: Disk, work: seq<nat>, i: Intent) returns (s: Image)
    requires Pending(d.files) == Ok(Some(i)) && Replacing(d, i)
    requires Archived(size, d.files, i.archive, Original(d, i)).Ok?
    ensures Underway(size, d, work, s)
    ensures Weight(s, i.archive.scope)
         == Peak(size, d, work, i.archive, Original(d, i), Successor(d, i))
  {
    assert size(Manifest(i.archive)) <= MANIFEST_BYTES;
    hide Pending, CurrentBytes, Staged, Archived, Installing, ValidArchive, Weight, Peak;
    s := PeakIsReached(size, d, work, i.archive, Original(d, i), Successor(d, i));
  }

  // ----- the images of a rollover -----

  /** Every image a rollover passes through once it is planned: staging, publishing the intent, and carrying it out. */
  ghost predicate Rolling(size: Encoder, d: Disk, c: Step, s: Image)
    requires c.Commit?
  {
    || Publishing(d, [], Next(c.intent.archive.id), c.replacement, s)
    || Publishing(Prepared(d, c), [], IntentFile, Encode(size, Plan(c.intent)), s)
    || Underway(size, Intended(size, d, c), [], s)
  }

  lemma PlannedWeighs(size: Encoder, d: Disk, request: Request, id: Id, now: int, c: Step)
    requires PlannedCommit(size, d, request, id, now, c)
    ensures SizeOf(d.current, request.scope) <= c.original.count
    ensures Total(Prepared(d, c).files) == Total(d.files) + c.replacement.count
    ensures Total(Intended(size, d, c).files) == Total(d.files) + c.replacement.count + size(Plan(c.intent))
    ensures size(Plan(c.intent)) <= MANIFEST_BYTES && size(Manifest(c.intent.archive)) <= MANIFEST_BYTES
    ensures Footprint(d, request.scope, c.original, c.replacement) <= PHYSICAL_BYTES
    ensures c.intent.archive.scope == request.scope && c.intent.archive.id == id
  {
    PlannedFacts(size, d, request, id, now, c);
    hide Planned, Manifests, ValidArchive, Decode;
    assert size(Plan(c.intent)) <= MANIFEST_BYTES && size(Manifest(c.intent.archive)) <= MANIFEST_BYTES;
    TotalAdds(d.files, Next(id), c.replacement);
    TotalAdds(Prepared(d, c).files, IntentFile, Encode(size, Plan(c.intent)));
  }

  /** What the intent of a planned rollover finds: its stage, the original, and all checks passed. */
  lemma IntendedReplaces(size: Encoder, d: Disk, request: Request, id: Id, now: int, c: Step)
    requires PlannedCommit(size, d, request, id, now, c)
    ensures var y := Intended(size, d, c);
            && Pending(y.files) == Ok(Some(c.intent)) && Replacing(y, c.intent)
            && Original(y, c.intent) == c.original && Successor(y, c.intent) == c.replacement
            && c.intent.archive.scope == request.scope && c.intent.archive.id == id
            && (Body(id) in y.files <==> Body(id) in d.files) && (Meta(id) in y.files <==> Meta(id) in d.files)
  {
    var y := Intended(size, d, c);
    PlannedFacts(size, d, request, id, now, c);
    PlannedStages(size, d, request, id, now, c, y);
    SameCurrent(y, d, request.scope, c.original);
    IntentIsPending(size, d, c);
    hide Planned, Manifests, ValidArchive, Decode, Staged, CurrentBytes, Derived, Replacement;
  }

  lemma PlannedStageIsFresh(size: Encoder, d: Disk, request: Request, id: Id, now: int, c: Step)
    requires PlannedCommit(size, d, request, id, now, c)
    ensures Publish(d.files, Next(id), c.replacement) == Ok(Prepared(d, c).files)
    ensures c.intent.archive.id == id
  {
    PlannedFacts(size, d, request, id, now, c);
    hide Planned;
  }

  lemma UnstagingIsRolling(size: Encoder, d: Disk, request: Request, id: Id, now: int, c: Step, left: Image)
    requires PlannedCommit(size, d, request, id, now, c)
    requires left == Image(d, [], 0) || Publishing(d, [], Next(id), c.replacement, left)
    ensures left.disk == d || left.disk == Prepared(d, c)
    ensures left.disk.files - {Next(id)} == d.files
    ensures Rolling(size, d, c, Image(d, left.work, 0))
  {
    hide Planned, Publish, Tidy, Encode;
    PlannedStageIsFresh(size, d, request, id, now, c);
    StageComesAway(d.files, Next(id), c.replacement);
  }

  lemma StageComesAway(files: Directory, name: FileName, bytes: Bytes)
    requires name !in files
    ensures files - {name} == files && files[name := bytes] - {name} == files
  {
  }

  /**
   * Where an image of a rollover is: before the intent nothing but a stage is there, after it recovery is on its way.
   */
  lemma RollingIsOnTheWay(size: Encoder, d: Disk, c: Step, s: Image)
    requires c.Commit? && Rolling(size, d, c, s) && c.replacement.count <= RECORD_BYTES
    ensures s.disk == d || s.disk == Prepared(d, c) || OnTheWay(size, Intended(size, d, c), s.disk)
    ensures Sized(s.work) && |s.work| <= 1
  {
    hide Underway, Archiving, Finished, Begun, Pending;
    if Underway(size, Intended(size, d, c), [], s) {
      UnderwayIsOnTheWay(size, Intended(size, d, c), [], s);
    }
  }

  /** Every image of a rollover under a fresh ID recovers, to the disk as it was or to the committed one. */
  lemma RollingRecovers(size: Encoder, d: Disk, request: Request, id: Id, now: int, c: Step, s: Image)
    requires PlannedCommit(size, d, request, id, now, c) && Meta(id) !in d.files && Rolling(size, d, c, s)
    ensures Goal(size, s.disk) == Ok(d) || Goal(size, s.disk) == Ok(Committed(size, d, c))
    ensures Recover(size, s.disk, s.work) == Goal(size, s.disk)
  {
    PlannedFacts(size, d, request, id, now, c);
    PlannedIsRoomy(size, d, request, id, now, c);
    hide Planned, Goal, Listing, Recover, OnTheWay, ValidArchive, Decode, Rolling;
    RollingIsOnTheWay(size, d, c, s);
    if s.disk == d || s.disk == Prepared(d, c) {
      PreparedIsDiscarded(size, d, c, s.disk);
    } else {
      IntendedConverges(size, d, request, id, now, c, s.disk);
    }
    RecoveryNeedsRoom(size, s.disk, s.work);
  }

  /** At every image of a rollover the original is in one of its three homes. */
  lemma RollingKeepsOriginal(size: Encoder, d: Disk, request: Request, id: Id, now: int, c: Step, s: Image)
    requires PlannedCommit(size, d, request, id, now, c) && Rolling(size, d, c, s)
    ensures Survives(s.disk, request.scope, id, c.original)
  {
    PlannedFacts(size, d, request, id, now, c);
    hide Planned, OnTheWay, Rolling, Survives;
    RollingIsOnTheWay(size, d, c, s);
    OriginalSurvives(size, d, request, id, now, c, s.disk);
  }

  lemma IntendedPeak(size: Encoder, d: Disk, request: Request, id: Id, now: int, c: Step)
    requires PlannedCommit(size, d, request, id, now, c)
    ensures Peak(size, Intended(size, d, c), [], c.intent.archive, c.original, c.replacement) <= PHYSICAL_BYTES
  {
    PlannedWeighs(size, d, request, id, now, c);
    hide Planned, PlannedCommit;
  }

  /** No image of a rollover that was accepted weighs more than the limit. */
  lemma RollingWeighs(size: Encoder, d: Disk, request: Request, id: Id, now: int, c: Step, s: Image)
    requires PlannedCommit(size, d, request, id, now, c) && Rolling(size, d, c, s)
    ensures Weight(s, request.scope) <= PHYSICAL_BYTES
  {
    PlannedWeighs(size, d, request, id, now, c);
    hide Planned, PlannedCommit, Underway, Replacing, Peak;
    var scope := request.scope;
    if Publishing(d, [], Next(id), c.replacement, s) {
      PublishingWeighs(d, [], Next(id), c.replacement, s, scope);
    } else if Publishing(Prepared(d, c), [], IntentFile, Encode(size, Plan(c.intent)), s) {
      PublishingWeighs(Prepared(d, c), [], IntentFile, Encode(size, Plan(c.intent)), s, scope);
    } else {
      IntendedReplaces(size, d, request, id, now, c);
      IntendedPeak(size, d, request, id, now, c);
      ReplacingIsAfforded(size, Intended(size, d, c), [], c.intent, s);
    }
  }

  // ----- weight of the recovery after a crash -----

  /** The most that recovery may weigh after one crash of a rollover, in sizes known when it is planned. */
  ghost function WorstRecovery(size: Encoder, d: Disk, c: Step): nat
    requires c.Commit?
  {
    var a, o, r := c.intent.archive, c.original.count, c.replacement.count;
    var manifest, plan, rollback := size(Manifest(a)), size(Plan(c.intent)), SizeOf(d.rollback, a.scope);
    Total(d.files) + r + plan + SizeOf(d.current, a.scope) + o + manifest
    + Max(o + Max(rollback, r), rollback + manifest) + Max(o, Max(manifest, plan))
  }

  /**
   * The limit over the recovery that follows a crash. The check made before a rollover does not count the temporary
   * that the crash leaves beside the one its own retry writes; what does is this sum, and it is exact.
   */
  lemma RecoveryWeighs(size: Encoder, d: Disk, request: Request, id: Id, now: int, c: Step)
    requires PlannedCommit(size, d, request, id, now, c) && Meta(id) !in d.files
    ensures c.Commit?
    ensures (forall s, t :: Rolling(size, d, c, s) && Underway(size, s.disk, s.work, t) ==>
               Weight(t, request.scope) <= PHYSICAL_BYTES)
       <==> WorstRecovery(size, d, c) <= PHYSICAL_BYTES
  {
    assert c.Commit?;
    hide PlannedCommit, Rolling, Underway, Weight, WorstRecovery;
    if WorstRecovery(size, d, c) <= PHYSICAL_BYTES {
      forall s, t | Rolling(size, d, c, s) && Underway(size, s.disk, s.work, t)
        ensures Weight(t, request.scope) <= PHYSICAL_BYTES
      {
        RecoveryStaysBelow(size, d, request, id, now, c, s, t);
      }
    } else {
      var s, t := RecoveryReachesWorst(size, d, request, id, now, c);
    }
  }

  /** Once the archive writes have begun, what recovery replaces is the same. */
  lemma ReplacingPersists(size: Encoder, d: Disk, i: Intent, x: Disk)
    requires Replacing(d, i) && Archiving(size, d, i.archive, x)
    ensures Replacing(x, i) && Original(x, i) == Original(d, i) && Successor(x, i) == Successor(d, i)
    ensures Pending(x.files) == Pending(d.files)
    ensures Archived(size, x.files, i.archive, Original(d, i)) == Archived(size, d.files, i.archive, Original(d, i))
  {
    ArchivingResumes(size, d, i, x);
    ArchivedAgain(size, d, i.archive, x);
    SameStaged(x.files, d.files, i);
    hide CurrentBytes, Staged, Archived, Finished, Publish, Derived;
  }

  /** The disks on which the original is still to be replaced, with the temporaries a crash may leave there. */
  predicate Halfway(size: Encoder, y: Disk, a: Archive, original: Bytes, plan: nat, x: Disk, left: seq<nat>) {
    || (x == y && Sum(left) <= Max(original.count, plan))
    || (x == WithFile(y, Body(a.id), original) && Sum(left) <= Max(original.count, size(Manifest(a))))
    || (x == WithArchive(size, y, a, original) && Sum(left) <= size(Manifest(a)))
    || (x == WithRollback(size, y, a, original) && left == [])
  }

  lemma HalfwaySizes(size: Encoder, y: Disk, a: Archive, original: Bytes, plan: nat, x: Disk, left: seq<nat>)
    requires Halfway(size, y, a, original, plan, x, left) && Body(a.id) !in y.files && Meta(a.id) !in y.files
    ensures var body := if Body(a.id) in x.files then 0 else original.count;
            var meta := if Meta(a.id) in x.files then 0 else size(Manifest(a));
            && Total(x.files) + body + meta == Total(y.files) + original.count + size(Manifest(a))
            && SizeOf(x.current, a.scope) == SizeOf(y.current, a.scope)
            && Sum(left) <= Max(original.count, Max(size(Manifest(a)), plan))
            && (SizeOf(x.rollback, a.scope) == SizeOf(y.rollback, a.scope)
                || (SizeOf(x.rollback, a.scope) == original.count && left == []))
            && (left == [] && SizeOf(x.rollback, a.scope) != SizeOf(y.rollback, a.scope) ==> meta == 0)
  {
    TotalAdds(y.files, Body(a.id), original);
    TotalAdds(y.files[Body(a.id) := original], Meta(a.id), Encode(size, Manifest(a)));
    SumOfOne(left);
    hide Total, Sum;
  }

  lemma HalfwayPeak(size: Encoder, d: Disk, c: Step, x: Disk, left: seq<nat>)
    requires c.Commit?
             && Total(Intended(size, d, c).files) == Total(d.files) + c.replacement.count + size(Plan(c.intent))
    requires Body(c.intent.archive.id) !in d.files && Meta(c.intent.archive.id) !in d.files
    requires Halfway(size, Intended(size, d, c), c.intent.archive, c.original, size(Plan(c.intent)), x, left)
    ensures Peak(size, x, left, c.intent.archive, c.original, c.replacement) <= WorstRecovery(size, d, c)
  {
    hide Total, Sum, Halfway, SizeOf, Intended;
    IntendedIs(size, d, c);
    SumOfOne(left);
    HalfwaySizes(size, Intended(size, d, c), c.intent.archive, c.original, size(Plan(c.intent)), x, left);
  }

  lemma IntendedIs(size: Encoder, d: Disk, c: Step)
    requires c.Commit?
    ensures var y := Intended(size, d, c);
            && y.current == d.current && y.rollback == d.rollback
            && forall n :: n in y.files <==> n in d.files || n == IntentFile || n == Next(c.intent.archive.id)
  {
  }

  /**
   * Where a crash may leave a rollover: before its intent, while the original is still to be replaced, or after that.
   */
  predicate Left(size: Encoder, y: Disk, i: Intent, original: Bytes, s: Image) {
    || (&& Halfway(size, y, i.archive, original, size(Plan(i)), s.disk, s.work)
        && (s.disk == y || Archiving(size, y, i.archive, s.disk)))
    || (s.inflight == 0 && Pending(s.disk.files) == Ok(None))
    || (s.inflight == 0 && Finished(size, y, i).Ok? && s.disk == Finished(size, y, i).value)
  }

  lemma RollingCases(size: Encoder, d: Disk, request: Request, id: Id, now: int, c: Step, s: Image)
    requires PlannedCommit(size, d, request, id, now, c) && Rolling(size, d, c, s)
    ensures Left(size, Intended(size, d, c), c.intent, c.original, s)
  {
    assert c.Commit? && IntentFile !in d.files;
    hide PlannedCommit, Underway, Replacing, Left, Pending;
    IntendedReplaces(size, d, request, id, now, c);
    var y := Intended(size, d, c);
    if Underway(size, y, [], s) {
      UnderwayCases(size, y, c.intent, s);
    } else {
      StagingCases(size, d, c, s);
    }
  }

  lemma StagingCases(size: Encoder, d: Disk, c: Step, s: Image)
    requires c.Commit? && IntentFile !in d.files
    requires || Publishing(d, [], Next(c.intent.archive.id), c.replacement, s)
             || Publishing(Prepared(d, c), [], IntentFile, Encode(size, Plan(c.intent)), s)
    ensures Left(size, Intended(size, d, c), c.intent, c.original, s)
  {
    SumOfOne(s.work);
    hide Archiving, Finished, CurrentBytes, Staged, ValidArchive;
    if s.disk != Intended(size, d, c) { assert Pending(s.disk.files) == Ok(None); }
  }

  lemma UnderwayCases(size: Encoder, y: Disk, i: Intent, s: Image)
    requires Pending(y.files) == Ok(Some(i)) && Replacing(y, i) && Underway(size, y, [], s)
    ensures Left(size, y, i, Original(y, i), s)
  {
    hide Begun, CurrentBytes, Staged, Finished, Archiving, Installing;
    SumOfOne(s.work);
    if Installing(size, y, [], i.archive, Original(y, i), Successor(y, i), s) {
      InstallingIsArchiving(size, y, [], i, s);
      InstallingCases(size, y, i.archive, Original(y, i), Successor(y, i), s);
    }
  }

  lemma SumOfOne(sizes: seq<nat>)
    ensures sizes == [] ==> Sum(sizes) == 0
    ensures |sizes| == 1 ==> Sum(sizes) == sizes[0]
  {
  }

  lemma InstallingCases(size: Encoder, y: Disk, a: Archive, original: Bytes, replacement: Bytes, s: Image)
    requires Installing(size, y, [], a, original, replacement, s)
    ensures Halfway(size, y, a, original, 0, s.disk, s.work)
  {
    SumOfOne(s.work);
    hide Publish, Archived;
  }

  lemma RecoveryStaysBelow(size: Encoder, d: Disk, request: Request, id: Id, now: int, c: Step, s: Image, t: Image)
    requires PlannedCommit(size, d, request, id, now, c) && Meta(id) !in d.files
    requires Rolling(size, d, c, s) && Underway(size, s.disk, s.work, t)
    ensures Weight(t, request.scope) <= PHYSICAL_BYTES || Weight(t, request.scope) <= WorstRecovery(size, d, c)
  {
    var y := Intended(size, d, c);
    IntendedReplaces(size, d, request, id, now, c);
    FreshArchives(size, d, request, id, now, c);
    RollingCases(size, d, request, id, now, c, s);
    hide PlannedCommit, Rolling, Underway, Weight, Peak, WorstRecovery, Installing, Archiving, Archived, Finished;
    hide Pending, Replacing;
    hide Halfway;
    if Halfway(size, y, c.intent.archive, c.original, size(Plan(c.intent)), s.disk, s.work)
       && (s.disk == y || Archiving(size, y, c.intent.archive, s.disk)) {
      if s.disk != y { ReplacingPersists(size, y, c.intent, s.disk); }
      ReplacingIsAfforded(size, s.disk, s.work, c.intent, t);
      PlannedWeighs(size, d, request, id, now, c);
      HalfwayPeak(size, d, c, s.disk, s.work);
    } else {
      RollingWeighs(size, d, request, id, now, c, s);
      assert s == Image(s.disk, s.work, 0);
      UnderwayIsAfforded(size, s.disk, s.work, t);
      if Pending(s.disk.files) != Ok(None) {
        InstalledIsReplaced(size, y, c.intent);
      }
    }
  }

  lemma InstalledIsReplaced(size: Encoder, d: Disk, i: Intent)
    requires Pending(d.files) == Ok(Some(i)) && Finished(size, d, i).Ok?
    ensures Pending(Finished(size, d, i).value.files) == Ok(Some(i)) && !Replacing(Finished(size, d, i).value, i)
  {
    InstalledIsNotOriginal(size, d, i);
    FinishedFiles(size, d, i);
    hide Finished, CurrentBytes, Staged;
  }

  lemma RecoveryReachesWorst(size: Encoder, d: Disk, request: Request, id: Id, now: int, c: Step)
    returns (s: Image, t: Image)
    requires PlannedCommit(size, d, request, id, now, c) && Meta(id) !in d.files
    ensures Rolling(size, d, c, s) && Underway(size, s.disk, s.work, t)
    ensures Weight(t, request.scope) == WorstRecovery(size, d, c)
  {
    assert c.Commit?;
    hide PlannedCommit, Rolling, Underway, Weight, Archived, Archiving, Pending, Replacing, Total, Sum, Peak;
    hide WorstRecovery, Max, Intended;
    PlannedWeighs(size, d, request, id, now, c);
    IntendedReplaces(size, d, request, id, now, c);
    FreshArchives(size, d, request, id, now, c);
    s := WorstCrash(size, d, request, id, now, c);
    if s.disk != Intended(size, d, c) { ReplacingPersists(size, Intended(size, d, c), c.intent, s.disk); }
    t := RecoveryReachesPeak(size, s.disk, s.work, c.intent);
    PeakIsWorst(size, d, c, s.disk, s.work);
  }

  lemma PeakIsWorst(size: Encoder, d: Disk, c: Step, x: Disk, left: seq<nat>)
    requires c.Commit?
             && Total(Intended(size, d, c).files) == Total(d.files) + c.replacement.count + size(Plan(c.intent))
    requires Body(c.intent.archive.id) !in d.files && Meta(c.intent.archive.id) !in d.files
    requires var y := Intended(size, d, c); x == y || x == WithFile(y, Body(c.intent.archive.id), c.original)
    requires Sum(left) == Max(c.original.count, Max(size(Manifest(c.intent.archive)), size(Plan(c.intent))))
    ensures Peak(size, x, left, c.intent.archive, c.original, c.replacement) == WorstRecovery(size, d, c)
  {
    hide Total, Sum, Max, Intended;
    IntendedIs(size, d, c);
    TotalAdds(Intended(size, d, c).files, Body(c.intent.archive.id), c.original);
  }

  /** Crashes that leave the whole temporary of the body, of the intent, and of the manifest. */
  lemma BodyCrash(size: Encoder, d: Disk, c: Step, left: nat)
    requires c.Commit? && Pending(Intended(size, d, c).files) == Ok(Some(c.intent))
             && Replacing(Intended(size, d, c), c.intent)
    requires Original(Intended(size, d, c), c.intent) == c.original
             && Body(c.intent.archive.id) !in Intended(size, d, c).files
    requires left == c.original.count <= RECORD_BYTES
    ensures Rolling(size, d, c, Image(Intended(size, d, c), [left], 0))
  {
    var y := Intended(size, d, c);
    hide Replacing, Publish, Archived, Pending;
    assert [left] == [] + [left];
    assert Publishing(y, [], Body(c.intent.archive.id), c.original, Image(y, [left], 0));
  }

  lemma IntentCrash(size: Encoder, d: Disk, c: Step, left: nat)
    requires c.Commit? && left == size(Plan(c.intent)) <= RECORD_BYTES
    ensures Rolling(size, d, c, Image(Intended(size, d, c), [left], 0))
  {
    assert [left] == [] + [left];
    hide Underway;
    assert Publishing(Prepared(d, c), [], IntentFile, Encode(size, Plan(c.intent)),
                      Image(Intended(size, d, c), [left], 0));
  }

  lemma ManifestCrash(size: Encoder, d: Disk, c: Step, left: nat)
    requires c.Commit? && Pending(Intended(size, d, c).files) == Ok(Some(c.intent))
             && Replacing(Intended(size, d, c), c.intent)
    requires Original(Intended(size, d, c), c.intent) == c.original
    requires Body(c.intent.archive.id) !in Intended(size, d, c).files
             && Meta(c.intent.archive.id) !in Intended(size, d, c).files
    requires left == size(Manifest(c.intent.archive)) <= RECORD_BYTES
    requires Publish(Intended(size, d, c).files, Body(c.intent.archive.id), c.original).Ok?
    ensures var x := WithFile(Intended(size, d, c), Body(c.intent.archive.id), c.original);
            Rolling(size, d, c, Image(x, [left], 0)) && Archiving(size, Intended(size, d, c), c.intent.archive, x)
  {
    var y, a := Intended(size, d, c), c.intent.archive;
    var s := Image(WithFile(y, Body(a.id), c.original), [left], 0);
    hide Replacing, Publish, Archived, Pending;
    assert [left] == [] + [left];
    assert Publishing(s.disk, [], Meta(a.id), Encode(size, Manifest(a)), s);
    assert Installing(size, y, [], a, c.original, Successor(y, c.intent), s);
    InstallingIsArchiving(size, y, [], c.intent, s);
    assert Body(a.id) in s.disk.files;
  }

  /** The crash that leaves the largest temporary. */
  lemma WorstCrash(size: Encoder, d: Disk, request: Request, id: Id, now: int, c: Step) returns (s: Image)
    requires PlannedCommit(size, d, request, id, now, c) && Meta(id) !in d.files && Body(id) !in d.files
    requires Archived(size, Intended(size, d, c).files, c.intent.archive, c.original).Ok?
    ensures var y, a := Intended(size, d, c), c.intent.archive;
            && Rolling(size, d, c, s)
            && Sum(s.work) == Max(c.original.count, Max(size(Manifest(a)), size(Plan(c.intent))))
            && (s.disk == y || (s.disk == WithFile(y, Body(id), c.original) && Archiving(size, y, a, s.disk)))
  {
    assert c.Commit?;
    hide PlannedCommit, Replacing, Rolling, Archiving, Pending, Replacement, ValidConversation, Manifests;
    PlannedFacts(size, d, request, id, now, c);
    PlannedWeighs(size, d, request, id, now, c);
    IntendedReplaces(size, d, request, id, now, c);
    var y, o := Intended(size, d, c), c.original.count;
    var manifest, plan := size(Manifest(c.intent.archive)), size(Plan(c.intent));
    if o >= manifest && o >= plan {
      BodyCrash(size, d, c, o);
      s := Image(y, [o], 0);
    } else if plan >= manifest {
      IntentCrash(size, d, c, plan);
      s := Image(y, [plan], 0);
    } else {
      ManifestCrash(size, d, c, manifest);
      s := Image(WithFile(y, Body(id), c.original), [manifest], 0);
    }
    SumOfOne(s.work);
  }

  /** The input that shows it: the accepted size to the byte, and an original that outweighs its replacement. */
  lemma RecoveryCanExceedTheLimit(size: Encoder, d: Disk, request: Request, id: Id, now: int, c: Step)
    requires PlannedCommit(size, d, request, id, now, c) && Meta(id) !in d.files
    requires Footprint(d, request.scope, c.original, c.replacement) == PHYSICAL_BYTES
    requires SizeOf(d.current, request.scope) == c.original.count > c.replacement.count + METADATA_RESERVE
    ensures var y := Intended(size, d, c);
            var left := Image(y, [c.original.count], 0);
            var again := Image(WithFile(y, Body(id), c.original), [c.original.count, c.original.count], 0);
            && Rolling(size, d, c, left) && Underway(size, y, left.work, again)
            && Weight(again, request.scope) > PHYSICAL_BYTES
  {
    assert c.Commit?;
    hide PlannedCommit, Replacing, Rolling, Archived, Pending, Replacement, ValidConversation, Manifests, Total, Sum;
    hide Footprint;
    PlannedFacts(size, d, request, id, now, c);
    PlannedWeighs(size, d, request, id, now, c);
    IntendedReplaces(size, d, request, id, now, c);
    FreshArchives(size, d, request, id, now, c);
    BodyCrash(size, d, c, c.original.count);
    AgainWeighs(size, d, request.scope, c);
  }

  lemma AgainWeighs(size: Encoder, d: Disk, scope: Scope, c: Step)
    requires c.Commit? && Pending(Intended(size, d, c).files) == Ok(Some(c.intent))
             && Replacing(Intended(size, d, c), c.intent)
    requires Original(Intended(size, d, c), c.intent) == c.original
             && Body(c.intent.archive.id) !in Intended(size, d, c).files
    requires c.original.count <= RECORD_BYTES
    ensures var y, o, a := Intended(size, d, c), c.original.count, c.intent.archive;
            var again := Image(WithFile(y, Body(a.id), c.original), [o, o], 0);
            && Underway(size, y, [o], again)
            && Weight(again, scope) == Total(y.files) + 3 * o + SizeOf(d.current, scope) + SizeOf(d.rollback, scope)
  {
    var y, o, a := Intended(size, d, c), c.original.count, c.intent.archive;
    var again := Image(WithFile(y, Body(a.id), c.original), [o, o], 0);
    hide Replacing, Publish, Archived, Pending;
    assert [o, o] == [o] + [o];
    assert Publishing(y, [o], Body(a.id), c.original, again);
    TotalAdds(y.files, Body(a.id), c.original);
    SumOfOne([o]);
    SumAppends([o], o);
    hide Total, Sum;
  }
}
