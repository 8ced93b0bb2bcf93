/** Every disk that recovery passes through recovers to the same place, however often it is interrupted. */
module HistoryRecovery {
  import opened Wrappers
  import opened HistoryTypes
  import opened HistoryDisk
  import opened HistoryProtocol

  // ----- the disks on the way -----

  function WithFile(d: Disk, name: FileName, bytes: Bytes): Disk {
    d.(files := d.files[name := bytes])
  }

  function WithArchive(size: Encoder, d: Disk, a: Archive, original: Bytes): Disk {
    WithFile(WithFile(d, Body(a.id), original), Meta(a.id), Encode(size, Manifest(a)))
  }

  function WithRollback(size: Encoder, d: Disk, a: Archive, original: Bytes): Disk {
    WithArchive(size, d, a, original).(rollback := d.rollback[a.scope := original])
  }

  /** `x` is `d` with none of its settled files touched and some preparation files gone; nothing is pending. */
  predicate Leaner(x: Disk, d: Disk) {
    && x.current == d.current && x.rollback == d.rollback
    && IntentFile !in x.files
    && x.files.Keys <= d.files.Keys
    && (forall n :: n in x.files ==> x.files[n] == d.files[n])
    && (forall n :: n in d.files && !n.Next? && n != IntentFile ==> n in x.files)
  }

  /**
   * The archive, manifest and rollback writes, in their order; only when the current document is still the original.
   */
  predicate Archiving(size: Encoder, d: Disk, a: Archive, x: Disk) {
    var found := CurrentBytes(d, a.scope);
    && found.Ok? && found.value.Some? && Digest(found.value.value) == a.sha
    && Publish(d.files, Body(a.id), found.value.value).Ok?
    && (|| x == WithFile(d, Body(a.id), found.value.value)
        || (&& Publish(d.files[Body(a.id) := found.value.value], Meta(a.id), Encode(size, Manifest(a))).Ok?
            && x == WithArchive(size, d, a, found.value.value))
        || (&& Archived(size, d.files, a, found.value.value).Ok?
            && x == WithRollback(size, d, a, found.value.value)))
  }

  /** Everything checked before the first write. */
  predicate Begun(d: Disk, i: Intent) {
    var found, staged := CurrentBytes(d, i.archive.scope), Staged(d.files, i);
    && ValidIntent(i) && staged.Ok? && found.Ok? && found.value.Some?
    && found.value.value.payload.Chat? && staged.value.payload.Chat?
    && Derived(found.value.value.payload.chat, staged.value.payload.chat, i.archive)
  }

  /** The disks recovery of `d` passes through, in the order of its writes. */
  predicate OnTheWay(size: Encoder, d: Disk, x: Disk) {
    var pending := Pending(d.files);
    || x == d
    || (pending == Ok(None) && Leaner(x, d))
    || (&& pending.Ok? && pending.value.Some?
        && var i := pending.value.value;
           || (Begun(d, i) && Archiving(size, d, i.archive, x))
           || (Finished(size, d, i).Ok? && (x == Finished(size, d, i).value || Leaner(x, Finished(size, d, i).value))))
  }

  // ----- they all finish alike -----

  lemma InstalledVerifies(size: Encoder, d: Disk, a: Archive, original: Bytes, replacement: Bytes)
    requires ValidArchive(a) && replacement.count <= RECORD_BYTES
    requires Installed(size, d, a, original, replacement).Ok?
    ensures Verified(size, Installed(size, d, a, original, replacement).value, a, replacement)
    ensures Installed(size, d, a, original, replacement).value
         == WithRollback(size, d, a, original).(current := d.current[a.scope := replacement])
  {
    assert size(Manifest(a)) <= MANIFEST_BYTES;
  }

  lemma PublishIsIdempotent(files: Directory, name: FileName, bytes: Bytes)
    requires Publish(files, name, bytes).Ok?
    ensures Publish(files, name, bytes).value == files[name := bytes]
    ensures Publish(files[name := bytes], name, bytes) == Ok(files[name := bytes])
    ensures name in files ==> files[name] == bytes
  {
  }

  lemma ArchivedIsIdempotent(size: Encoder, files: Directory, a: Archive, original: Bytes)
    requires Archived(size, files, a, original).Ok?
    ensures var body, meta :=
              files[Body(a.id) := original], files[Body(a.id) := original][Meta(a.id) := Encode(size, Manifest(a))];
            && Archived(size, files, a, original) == Ok(meta)
            && Archived(size, body, a, original) == Ok(meta)
            && Archived(size, meta, a, original) == Ok(meta)
    ensures Body(a.id) in files ==> files[Body(a.id)] == original
    ensures Meta(a.id) in files ==> files[Meta(a.id)] == Encode(size, Manifest(a))
  {
    hide ReadBody;
    var body := files[Body(a.id) := original];
    PublishIsIdempotent(files, Body(a.id), original);
    PublishIsIdempotent(body, Meta(a.id), Encode(size, Manifest(a)));
    var meta := body[Meta(a.id) := Encode(size, Manifest(a))];
    assert Publish(meta, Body(a.id), original) == Ok(meta);
  }

  lemma SameCurrent(x: Disk, d: Disk, scope: Scope, raw: Bytes)
    requires CurrentBytes(d, scope) == Ok(Some(raw))
    requires x.current == d.current && (x.rollback == d.rollback || x.rollback == d.rollback[scope := raw])
    ensures CurrentBytes(x, scope) == Ok(Some(raw))
  {
  }

  lemma CurrentInstalled(d: Disk, scope: Scope, raw: Bytes)
    requires Decode(raw).Ok? && scope in d.current && d.current[scope] == raw
    ensures CurrentBytes(d, scope) == Ok(Some(raw))
  {
  }

  lemma SameStaged(x: Directory, files: Directory, i: Intent)
    requires Next(i.archive.id) in files ==>
               Next(i.archive.id) in x && x[Next(i.archive.id)] == files[Next(i.archive.id)]
    requires Staged(files, i).Ok?
    ensures Staged(x, i) == Staged(files, i)
  {
  }

  /** A staged replacement decodes, and is never its own original. */
  lemma StagedFacts(d: Disk, i: Intent, raw: Bytes)
    requires Staged(d.files, i).Ok?
    ensures var replacement := Staged(d.files, i).value;
            && Decode(replacement).Ok?
            && Digest(replacement) == i.archive.replacementSha
            && (Derived(raw.payload.chat, replacement.payload.chat, i.archive) ==> replacement != raw)
    requires raw.payload.Chat?
  {
  }

  lemma StagedDecodes(files: Directory, i: Intent)
    requires Staged(files, i).Ok?
    ensures Staged(files, i).value.payload.Chat? && Staged(files, i).value.count <= RECORD_BYTES
  {
  }

  lemma CurrentDecodes(d: Disk, scope: Scope)
    requires CurrentBytes(d, scope).Ok? && CurrentBytes(d, scope).value.Some?
    ensures CurrentBytes(d, scope).value.value.payload.Chat?
    ensures Decode(CurrentBytes(d, scope).value.value).Ok?
  {
  }

  lemma ArchivedAgain(size: Encoder, d: Disk, a: Archive, x: Disk)
    requires Archiving(size, d, a, x)
    ensures var raw := CurrentBytes(d, a.scope).value.value;
            && x.files[Body(a.id) := raw] == x.files
            && Archived(size, x.files, a, raw) == Archived(size, d.files, a, raw)
            && Publish(x.files, Meta(a.id), Encode(size, Manifest(a)))
               == Publish(d.files[Body(a.id) := raw], Meta(a.id), Encode(size, Manifest(a)))
  {
    hide Decode, ReadBody, CurrentBytes;
    var raw := CurrentBytes(d, a.scope).value.value;
    PublishIsIdempotent(d.files, Body(a.id), raw);
    if Publish(d.files[Body(a.id) := raw], Meta(a.id), Encode(size, Manifest(a))).Ok? {
      PublishIsIdempotent(d.files[Body(a.id) := raw], Meta(a.id), Encode(size, Manifest(a)));
    }
  }

  /** Redoing the archive writes finds them done. */
  lemma ArchivingResumes(size: Encoder, d: Disk, i: Intent, x: Disk)
    requires Begun(d, i) && Archiving(size, d, i.archive, x)
    ensures Finished(size, x, i) == Finished(size, d, i)
    ensures Pending(x.files) == Pending(d.files)
    ensures CurrentBytes(x, i.archive.scope) == CurrentBytes(d, i.archive.scope)
  {
    hide Decode, ReadBody, CurrentBytes, Staged, Derived, Verified, ValidArchive, Archived, Publish;
    var a := i.archive;
    var raw, replacement := CurrentBytes(d, a.scope).value.value, Staged(d.files, i).value;
    SameCurrent(x, d, a.scope, raw);
    SameStaged(x.files, d.files, i);
    ArchivedAgain(size, d, a, x);
    assert d.rollback[a.scope := raw] == d.rollback[a.scope := raw][a.scope := raw];
    assert Installed(size, x, a, raw, replacement) == Installed(size, d, a, raw, replacement);
  }

  /** Once installed, only verification is left. */
  lemma InstalledResumes(size: Encoder, d: Disk, i: Intent)
    requires ValidIntent(i) && Finished(size, d, i).Ok?
    ensures Finished(size, Finished(size, d, i).value, i) == Finished(size, d, i)
  {
    hide Decode, ReadBody, Publish, CurrentBytes, Staged, Derived, Verified, Archived, ValidArchive;
    var a := i.archive;
    var done := Finished(size, d, i).value;
    var raw, replacement := CurrentBytes(d, a.scope).value.value, Staged(d.files, i).value;
    if Digest(raw) == a.sha {
      CurrentDecodes(d, a.scope);
      StagedFacts(d, i, raw);
      ArchivedIsIdempotent(size, d.files, a, raw);
      SameStaged(done.files, d.files, i);
      CurrentInstalled(done, a.scope, replacement);
    }
  }

  /** Once installed, the current document is not the original any more. */
  lemma InstalledIsNotOriginal(size: Encoder, d: Disk, i: Intent)
    requires Finished(size, d, i).Ok?
    ensures CurrentBytes(Finished(size, d, i).value, i.archive.scope) == Ok(Some(Staged(d.files, i).value))
    ensures Digest(Staged(d.files, i).value) != i.archive.sha
  {
    hide ReadBody, Publish, Archived, ValidArchive;
    var a := i.archive;
    var raw, replacement := CurrentBytes(d, a.scope).value.value, Staged(d.files, i).value;
    CurrentDecodes(d, a.scope);
    StagedFacts(d, i, raw);
    if Digest(raw) == a.sha {
      CurrentInstalled(Finished(size, d, i).value, a.scope, replacement);
    }
  }

  lemma {:induction false} SubsetFits<T>(small: set<T>, large: set<T>)
    requires small <= large
    ensures |small| <= |large|
  {
    if small != {} {
      var t :| t in small;
      SubsetFits(small - {t}, large - {t});
    }
  }

  lemma FinishedFiles(size: Encoder, d: Disk, i: Intent)
    requires Finished(size, d, i).Ok?
    ensures var done := Finished(size, d, i).value;
            && (forall n :: n in done.files ==> n in d.files || n == Body(i.archive.id) || n == Meta(i.archive.id))
            && (forall n :: n in d.files ==> n in done.files && done.files[n] == d.files[n])
  {
    hide Decode, ReadBody, CurrentBytes, Staged, Derived, Publish, Archived, Verified;
    var a := i.archive;
    var raw := CurrentBytes(d, a.scope).value.value;
    if Digest(raw) == a.sha {
      ArchivedIsIdempotent(size, d.files, a, raw);
    }
  }

  /** Finishing adds at most a body and a manifest. */
  lemma FinishedFits(size: Encoder, d: Disk, i: Intent)
    requires Finished(size, d, i).Ok?
    ensures |Finished(size, d, i).value.files| <= |d.files| + 2
    ensures IntentFile in d.files ==> IntentFile in Finished(size, d, i).value.files
  {
    var done := Finished(size, d, i).value;
    var names := {Body(i.archive.id), Meta(i.archive.id)};
    FinishedFiles(size, d, i);
    SubsetFits(done.files.Keys, d.files.Keys + names);
    assert |d.files.Keys + names| <= |d.files.Keys| + |names|;
  }

  lemma LeanerSweeps(x: Disk, d: Disk, less: Disk)
    requires Leaner(x, d) && Leaner(less, d)
    ensures x.(files := Swept(x.files)) == less.(files := Swept(less.files))
    ensures |x.files| <= |d.files|
  {
    SubsetFits(x.files.Keys, d.files.Keys);
  }

  lemma LeanerTrans(x: Disk, y: Disk, z: Disk)
    requires Leaner(x, y) && Leaner(y, z)
    ensures Leaner(x, z)
  {
  }

  // ----- where recovery leads -----

  /** Every entry is one of the store's own and within the record limit. */
  predicate Named(files: Directory) {
    forall n :: n in files ==> !n.Foreign? && files[n].count <= RECORD_BYTES
  }

  predicate Sized(work: seq<nat>) {
    forall w :: w in work ==> w <= RECORD_BYTES
  }

  /** The disk once what is pending is completed. */
  function Ended(size: Encoder, d: Disk): Result<Disk, Failure> {
    var pending :- Pending(d.files);
    if pending.None? then Ok(d) else Completed(size, d, pending.value)
  }

  /** The disk recovery leads to, whenever it can list the directory. */
  function Goal(size: Encoder, d: Disk): Result<Disk, Failure> {
    var ended :- Ended(size, d);
    if Named(ended.files) then Ok(ended.(files := Swept(ended.files))) else Err(Invalid)
  }

  /** How many entries, beside temporaries, recovery finds when it lists the directory. */
  function Listing(size: Encoder, d: Disk): nat {
    if Ended(size, d).Ok? then |Ended(size, d).value.files| else |d.files|
  }

  /** Recovery fails for its own reasons, or exactly when the directory holds too many entries. */
  lemma RecoveryNeedsRoom(size: Encoder, d: Disk, work: seq<nat>)
    ensures Recover(size, d, work).Ok?
       <==> Goal(size, d).Ok? && Sized(work) && Listing(size, d) + |work| <= INVENTORY_LIMIT
    ensures Recover(size, d, work).Ok? ==> Recover(size, d, work) == Goal(size, d)
    ensures Goal(size, d).Ok? && Listing(size, d) + |work| > INVENTORY_LIMIT ==> Recover(size, d, work) == Err(Full)
  {
    hide Completed;
  }

  /** No disk on the way has lost the goal, and one has at most one entry more to list. */
  lemma GoalIsKept(size: Encoder, d: Disk, x: Disk)
    requires Goal(size, d).Ok? && OnTheWay(size, d, x)
    ensures Goal(size, x) == Goal(size, d)
    ensures Listing(size, x) <= Listing(size, d) + 1
    ensures Pending(x.files) == Pending(d.files) ==> Listing(size, x) <= Listing(size, d)
  {
    hide Finished, ValidArchive, Archiving, Staged;
    var pending := Pending(d.files).value;
    if pending.None? {
      assert Leaner(d, d);
      LeanerSweeps(x, d, d);
    } else {
      var i := pending.value;
      var done := Finished(size, d, i).value;
      FinishedFiles(size, d, i);
      CompletedSweeps(size, d, i);
      if Leaner(x, done) {
        LeanerIsKept(size, d, i, x);
      } else {
        if x == done {
          InstalledResumes(size, d, i);
        } else if x != d {
          ArchivingResumes(size, d, i, x);
        }
        assert Finished(size, x, i) == Ok(done);
        assert Pending(x.files) == Ok(Some(i));
      }
    }
  }

  /** What is left when an intent has been finished and some of its files are gone. */
  lemma LeanerIsKept(size: Encoder, d: Disk, i: Intent, x: Disk)
    requires Goal(size, d).Ok? && Pending(d.files) == Ok(Some(i)) && Finished(size, d, i).Ok?
    requires Leaner(x, Finished(size, d, i).value)
    ensures Goal(size, x) == Goal(size, d)
    ensures Listing(size, x) <= Listing(size, d) + 1
    ensures IntentFile !in x.files && Pending(x.files) != Pending(d.files)
  {
    hide Finished, Goal;
    var done := Finished(size, d, i).value;
    CompletedSweeps(size, d, i);
    LeanerSweeps(x, done, Stripped(done, i));
    SubsetFits(x.files.Keys, Stripped(done, i).files.Keys + {Next(i.archive.id)});
    LeanerEnds(size, x);
    assert Named(x.files);
  }

  /** With nothing pending a disk leads to itself without its preparation files. */
  lemma LeanerEnds(size: Encoder, x: Disk)
    requires IntentFile !in x.files
    ensures Ended(size, x) == Ok(x) && Listing(size, x) == |x.files|
    ensures Named(x.files) ==> Goal(size, x) == Ok(x.(files := Swept(x.files)))
  {
  }

  /**
   * Convergence: from any disk recovery passes through, with any temporaries, recovery reaches the same disk as if it
   * had never been interrupted, exactly when the directory can still be listed; otherwise it refuses for want of room.
   */
  lemma RecoveryConverges(size: Encoder, d: Disk, x: Disk, left: seq<nat>)
    requires Goal(size, d).Ok? && OnTheWay(size, d, x) && Sized(left)
    ensures Recover(size, x, left) == if Listing(size, x) + |left| <= INVENTORY_LIMIT then Goal(size, d) else Err(Full)
  {
    hide OnTheWay, Recover, Goal;
    GoalIsKept(size, d, x);
    RecoveryNeedsRoom(size, x, left);
  }

  lemma ArchivingTwice(size: Encoder, d: Disk, a: Archive, x: Disk, y: Disk)
    requires Archiving(size, d, a, x) && Archiving(size, x, a, y)
    requires CurrentBytes(x, a.scope) == CurrentBytes(d, a.scope)
    ensures Archiving(size, d, a, y)
  {
    var raw := CurrentBytes(d, a.scope).value.value;
    ArchivedAgain(size, d, a, x);
    hide Archived, Publish, CurrentBytes;
    assert WithFile(x, Body(a.id), raw) == x;
    if x == WithRollback(size, d, a, raw) {
      assert WithArchive(size, x, a, raw) == x && WithRollback(size, x, a, raw) == x;
    } else {
      assert WithArchive(size, x, a, raw) == WithArchive(size, d, a, raw);
    }
    hide WithArchive, WithRollback, WithFile;
  }

  lemma ArchivingJoins(size: Encoder, d: Disk, i: Intent, x: Disk, y: Disk)
    requires Pending(d.files) == Ok(Some(i)) && Begun(d, i) && Archiving(size, d, i.archive, x) && OnTheWay(size, x, y)
             && y != x
    ensures OnTheWay(size, d, y)
  {
    ArchivingResumes(size, d, i, x);
    hide Finished, Pending, Leaner, Begun, Archiving, CurrentBytes;
    if Begun(x, i) && Archiving(size, x, i.archive, y) {
      ArchivingTwice(size, d, i.archive, x, y);
    }
  }

  lemma InstalledJoins(size: Encoder, d: Disk, i: Intent, y: Disk)
    requires Pending(d.files) == Ok(Some(i)) && Finished(size, d, i).Ok?
             && OnTheWay(size, Finished(size, d, i).value, y)
    ensures OnTheWay(size, d, y)
  {
    var done := Finished(size, d, i).value;
    InstalledResumes(size, d, i);
    FinishedFiles(size, d, i);
    InstalledIsNotOriginal(size, d, i);
    hide Finished, Begun, Archiving, Leaner;
  }

  /** What is on the way from a disk on the way is on the way. */
  lemma WaysJoin(size: Encoder, d: Disk, x: Disk, y: Disk)
    requires OnTheWay(size, d, x) && OnTheWay(size, x, y)
    ensures OnTheWay(size, d, y)
  {
    hide Finished, Archiving, Begun;
    if x != d && y != x {
      if Pending(d.files) == Ok(None) {
        LeanerTrans(y, x, d);
      } else {
        var i := Pending(d.files).value.value;
        if Begun(d, i) && Archiving(size, d, i.archive, x) {
          ArchivingJoins(size, d, i, x, y);
        } else if x == Finished(size, d, i).value {
          InstalledJoins(size, d, i, y);
        } else {
          LeanerTrans(y, x, Finished(size, d, i).value);
        }
      }
    }
  }

  /**
   * Recovery that refuses an intent has overwritten nothing: a current document it does not recognise, or an archive it
   * would contradict, stays as it was.
   */
  lemma RefusalOverwritesNothing(size: Encoder, d: Disk, i: Intent, x: Disk)
    requires Pending(d.files) == Ok(Some(i)) && Finished(size, d, i).Err?
    requires OnTheWay(size, d, x)
    ensures x.current == d.current && x.rollback == d.rollback
    ensures forall n :: n in d.files ==> n in x.files && x.files[n] == d.files[n]
  {
    hide Finished, CurrentBytes, Derived, ReadBody, Decode, ValidArchive, Archived;
    var a := i.archive;
    if x != d {
      var raw := CurrentBytes(d, a.scope).value.value;
      PublishIsIdempotent(d.files, Body(a.id), raw);
      if Archived(size, d.files, a, raw).Ok? {
        ArchivedFinishes(size, d, i);
        assert false;
      }
      if Publish(d.files[Body(a.id) := raw], Meta(a.id), Encode(size, Manifest(a))).Ok? {
        PublishIsIdempotent(d.files[Body(a.id) := raw], Meta(a.id), Encode(size, Manifest(a)));
      }
    }
  }

  /** Nothing but the archive can fail once everything has been checked. */
  lemma ArchivedFinishes(size: Encoder, d: Disk, i: Intent)
    requires Begun(d, i) && Digest(CurrentBytes(d, i.archive.scope).value.value) == i.archive.sha
    requires Archived(size, d.files, i.archive, CurrentBytes(d, i.archive.scope).value.value).Ok?
    ensures Finished(size, d, i).Ok?
  {
    hide CurrentBytes, Derived, ReadBody, Decode, ValidArchive, Archived, Verified;
    StagedDecodes(d.files, i);
    InstalledVerifies(size, d, i.archive, CurrentBytes(d, i.archive.scope).value.value, Staged(d.files, i).value);
  }

  /** A disk and the temporaries on it, as each crash in a row of interrupted recoveries left them. */
  datatype Crash = Crash(disk: Disk, work: seq<nat>)

  predicate Interrupted(size: Encoder, crashes: seq<Crash>) {
    |crashes| > 0 && forall i :: 0 <= i < |crashes| - 1 ==> OnTheWay(size, crashes[i].disk, crashes[i + 1].disk)
  }

  lemma {:induction false} CrashesAreOnTheWay(size: Encoder, crashes: seq<Crash>)
    requires Interrupted(size, crashes)
    ensures OnTheWay(size, crashes[0].disk, crashes[|crashes| - 1].disk)
    decreases |crashes|
  {
    if |crashes| > 1 {
      var before := crashes[..|crashes| - 1];
      CrashesAreOnTheWay(size, before);
      WaysJoin(size, crashes[0].disk, before[|before| - 1].disk, crashes[|crashes| - 1].disk);
    }
  }

  /**
   * However many recoveries are interrupted, the next one reaches the first one's goal exactly when it can list the
   * directory.
   */
  lemma RepeatedCrashesConverge(size: Encoder, crashes: seq<Crash>)
    requires Interrupted(size, crashes) && Goal(size, crashes[0].disk).Ok? && Sized(crashes[|crashes| - 1].work)
    ensures var last := crashes[|crashes| - 1];
            Recover(size, last.disk, last.work)
              == if Listing(size, last.disk) + |last.work| <= INVENTORY_LIMIT then Goal(size, crashes[0].disk)
                 else Err(Full)
  {
    hide OnTheWay, Goal, Listing, Recover;
    CrashesAreOnTheWay(size, crashes);
    RecoveryConverges(size, crashes[0].disk, crashes[|crashes| - 1].disk, crashes[|crashes| - 1].work);
  }

  function Stripped(done: Disk, i: Intent): Disk {
    done.(files := done.files - {IntentFile, Next(i.archive.id)})
  }

  /** What completing leaves is what finishing leaves without the intent and the stage, and sweeps to the goal. */
  lemma CompletedSweeps(size: Encoder, d: Disk, i: Intent)
    requires Goal(size, d).Ok? && Pending(d.files) == Ok(Some(i))
    ensures Finished(size, d, i).Ok? && ValidIntent(i)
    ensures var done := Finished(size, d, i).value;
            && Leaner(Stripped(done, i), done)
            && Ended(size, d) == Ok(Stripped(done, i))
            && Goal(size, d) == Ok(Stripped(done, i).(files := Swept(Stripped(done, i).files)))
            && (forall n :: n in done.files && n != IntentFile ==> !n.Foreign? && done.files[n].count <= RECORD_BYTES)
  {
    hide ValidArchive, Archived, CurrentBytes, Derived, Verified;
    var done := Finished(size, d, i).value;
    FinishedFiles(size, d, i);
    forall n | n in done.files && n != IntentFile
      ensures !n.Foreign? && done.files[n].count <= RECORD_BYTES
    {
      if n != Next(i.archive.id) {
        assert n in Stripped(done, i).files;
      }
    }
  }
}
