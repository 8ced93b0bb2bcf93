/** The store itself: every write is a step a crash or an I/O failure may follow. */
module HistoryStore {
  import opened Wrappers
  import opened HistoryTypes
  import opened HistoryDisk
  import opened HistoryProtocol
  import opened HistoryRecovery
  import opened HistoryRollover
  import opened ConversationWrites
  import opened HistorySteps
  import opened HistoryCalls
  import opened HistoryAnswers

  class HistoryStore {
    const size: Encoder
    const patch: Patcher
    /** What outlives the process. */
    var disk: Disk
    var work: seq<nat>
    /** What does not. */
    var unavailable: bool
    var latest: map<Scope, int>

    /** A process starts on whatever an earlier one left. */
    constructor (size: Encoder, patch: Patcher, found: Disk, leftovers: seq<nat>)
      ensures this.size == size && this.patch == patch && disk == found && work == leftovers && !unavailable
              && latest == map[]
    {
      this.size, this.patch := size, patch;
      disk, work, unavailable, latest := found, leftovers, false, map[];
    }

    ghost function Now(): Image
      reads this
    {
      Image(disk, work, 0)
    }

    ghost function View(): Process
      reads this
    {
      Process(disk, work, unavailable, latest)
    }

    // ----- primitives: each returns the images it passed through -----

    /** Publish an immutable file through a temporary and a no-replace link; any step may fail or be the last. */
    method Put(name: FileName, bytes: Bytes) returns (r: Result<(), Failure>, ghost steps: seq<Image>)
      modifies this`disk, this`work
      ensures r.Ok? ==>
                Publish(old(disk.files), name, bytes) == Ok(disk.files) && disk == old(disk).(files := disk.files)
                && work == old(work)
      ensures Publish(old(disk.files), name, bytes).Err? ==> r.Err?
      ensures name in old(disk.files) || Publish(old(disk.files), name, bytes).Err? ==>
                steps == [] && Now() == old(Now())
      ensures forall s :: s in steps ==> Publishing(old(disk), old(work), name, bytes, s)
      ensures Now() == old(Now()) || Now() in steps
    {
      steps := [];
      if !(0 < bytes.count <= RECORD_BYTES) { return Err(Invalid), []; }
      var existing := Read(disk.files, name, RECORD_BYTES);
      if existing.Err? { return Err(existing.error), []; }
      if existing.value.Some? {
        return if existing.value.value == bytes then Ok(()) else Err(Changed), [];
      }
      if * { return Err(Unavailable), []; }
      var part: nat := *;
      if part > bytes.count { part := bytes.count; }
      work := work + [part];
      steps := steps + [Now()];
      if * {
        // The failed attempt tries to take its temporary away.
        if * { work := work[..|work| - 1]; steps := steps + [Now()]; }
        return Err(Unavailable), steps;
      }
      work := work[..|work| - 1] + [bytes.count];
      steps := steps + [Now()];
      disk := WithFile(disk, name, bytes);
      steps := steps + [Now()];
      if * { return Err(Unavailable), steps; }
      work := work[..|work| - 1];
      steps := steps + [Now()];
      if * { return Err(Unavailable), steps; }
      return Ok(()), steps;
    }

    method Remove(name: FileName) returns (r: Result<(), Failure>, ghost steps: seq<Image>)
      modifies this`disk
      ensures r.Ok? ==> disk == old(disk).(files := old(disk.files) - {name})
      ensures forall s :: s in steps ==> s == Image(old(disk).(files := old(disk.files) - {name}), work, 0)
      ensures Now() == old(Now()) || Now() in steps
    {
      steps := [];
      if name !in disk.files {
        assert disk.files - {name} == disk.files;
        return Ok(()), [];
      }
      if * { return Err(Unavailable), []; }
      disk := disk.(files := disk.files - {name});
      steps := [Now()];
      if * { return Err(Unavailable), steps; }
      return Ok(()), steps;
    }

    /** An atomic replacement of the rollback file. */
    method WriteRollback(scope: Scope, bytes: Bytes) returns (r: Result<(), Failure>, ghost steps: seq<Image>)
      modifies this`disk
      ensures r.Ok? ==>
                disk == old(disk).(rollback := old(disk.rollback)[scope := bytes]) && bytes.count <= RECORD_BYTES
      ensures forall s :: s in steps ==>
        || s == Image(old(disk), work, bytes.count)
        || s == Image(old(disk).(rollback := old(disk.rollback)[scope := bytes]), work, 0)
      ensures Now() == old(Now()) || Now() in steps
      ensures r.Err? ==> r.error == Unavailable || bytes.count > RECORD_BYTES
    {
      if bytes.count > RECORD_BYTES { return Err(Full), []; }
      steps := [Image(disk, work, bytes.count)];
      if * { return Err(Unavailable), steps; }
      disk := disk.(rollback := disk.rollback[scope := bytes]);
      steps := steps + [Now()];
      if * { return Err(Unavailable), steps; }
      return Ok(()), steps;
    }

    /** An atomic replacement of the current file. */
    method WriteCurrent(scope: Scope, bytes: Bytes) returns (r: Result<(), Failure>, ghost steps: seq<Image>)
      modifies this`disk
      ensures r.Ok? ==> disk == old(disk).(current := old(disk.current)[scope := bytes]) && bytes.count <= RECORD_BYTES
      ensures forall s :: s in steps ==>
        || s == Image(old(disk), work, bytes.count)
        || s == Image(old(disk).(current := old(disk.current)[scope := bytes]), work, 0)
      ensures Now() == old(Now()) || Now() in steps
      ensures r.Err? ==> r.error == Unavailable || bytes.count > RECORD_BYTES
    {
      if bytes.count > RECORD_BYTES { return Err(Full), []; }
      steps := [Image(disk, work, bytes.count)];
      if * { return Err(Unavailable), steps; }
      disk := disk.(current := disk.current[scope := bytes]);
      steps := steps + [Now()];
      if * { return Err(Unavailable), steps; }
      return Ok(()), steps;
    }

    // ----- the protocol -----

    /** The intent goes before the stage it names. */
    method Unscaffold(id: Id) returns (r: Result<(), Failure>, ghost steps: seq<Image>)
      modifies this`disk
      ensures r.Ok? ==> disk == old(disk).(files := old(disk.files) - {IntentFile, Next(id)})
      ensures forall s :: s in steps ==> Leaner(s.disk, old(disk)) && s.work == work && s.inflight == 0
      ensures Now() == old(Now()) || Now() in steps
    {
      steps := [];
      var gone, removed := Remove(IntentFile);
      steps := steps + removed;
      if gone.Err? { return Err(gone.error), steps; }
      gone, removed := Remove(Next(id));
      steps := steps + removed;
      if gone.Err? { return Err(gone.error), steps; }
      assert disk.files == old(disk.files) - {IntentFile, Next(id)};
      return Ok(()), steps;
    }

    /** Publish the original as an archive body, then the manifest that names it, and read the pair back. */
    method ArchiveOriginal(a: Archive, raw: Bytes, ghost replacement: Bytes)
      returns (r: Result<(), Failure>, ghost steps: seq<Image>)
      requires Decode(raw).Ok? && ValidArchive(a)
      modifies this`disk, this`work
      ensures r.Ok? ==> Archived(size, old(disk.files), a, raw) == Ok(disk.files)
      ensures r.Ok? ==> disk == WithArchive(size, old(disk), a, raw) && work == old(work)
      ensures forall s :: s in steps ==> Installing(size, old(disk), old(work), a, raw, replacement, s)
      ensures Now() == old(Now()) || Now() in steps
    {
      assert size(Manifest(a)) <= MANIFEST_BYTES;
      hide Decode, ReadBody, Publish, CurrentBytes, ValidArchive;
      steps := [];
      ghost var d := disk;
      var body, put := Put(Body(a.id), raw);
      steps := steps + put;
      if body.Err? { return Err(body.error), steps; }
      PublishIsIdempotent(d.files, Body(a.id), raw);
      var meta;
      meta, put := Put(Meta(a.id), Encode(size, Manifest(a)));
      steps := steps + put;
      if meta.Err? { return Err(meta.error), steps; }
      PublishIsIdempotent(d.files[Body(a.id) := raw], Meta(a.id), Encode(size, Manifest(a)));
      var check := ReadBody(disk.files, a);
      if check.Err? { return Err(check.error), steps; }
      return Ok(()), steps;
    }

    /** Archive the original, keep it as rollback, then install the replacement: in that order. */
    method Install(a: Archive, raw: Bytes, replacement: Bytes) returns (r: Result<(), Failure>, ghost steps: seq<Image>)
      requires Decode(raw).Ok? && ValidArchive(a)
      modifies this`disk, this`work
      ensures r.Ok? ==> Installed(size, old(disk), a, raw, replacement) == Ok(disk) && work == old(work)
      ensures forall s :: s in steps ==>
        || Installing(size, old(disk), old(work), a, raw, replacement, s)
        || (Installed(size, old(disk), a, raw, replacement) == Ok(s.disk) && s == Image(s.disk, old(work), 0))
      ensures Now() == old(Now()) || Now() in steps
    {
      hide Decode, ReadBody, Publish, CurrentBytes, ValidArchive;
      ghost var d := disk;
      var archived, put := ArchiveOriginal(a, raw, replacement);
      steps := put;
      if archived.Err? { return Err(archived.error), steps; }
      ArchivedIsIdempotent(size, d.files, a, raw);
      hide Archived, Publishing;
      var kept, wrote := WriteRollback(a.scope, raw);
      steps := steps + wrote;
      if kept.Err? { return Err(kept.error), steps; }
      assert disk == WithRollback(size, d, a, raw);
      var installed;
      installed, wrote := WriteCurrent(a.scope, replacement);
      steps := steps + wrote;
      if installed.Err? { return Err(installed.error), steps; }
      return Ok(()), steps;
    }

    /** Only a verified installation retires its intent. Its revision is noted first. */
    method Conclude(a: Archive, replacement: Bytes) returns (r: Result<(), Failure>, ghost steps: seq<Image>)
      requires replacement.payload.Chat?
      modifies this`disk, this`latest
      ensures r.Ok? ==> Verified(size, old(disk), a, replacement)
                        && disk == old(disk).(files := old(disk.files) - {IntentFile, Next(a.id)})
                        && latest == Raised(old(latest), a.scope, replacement.payload.chat.revision)
      ensures latest == old(latest) || latest == Raised(old(latest), a.scope, replacement.payload.chat.revision)
      ensures !Verified(size, old(disk), a, replacement) ==> steps == []
      ensures forall s :: s in steps ==> Sweeping(old(disk), work, s)
      ensures Now() == old(Now()) || Now() in steps
    {
      hide ReadBody;
      steps := [];
      if !(&& ReadBody(disk.files, a).Ok?
           && Required(disk.files, Meta(a.id), MANIFEST_BYTES) == Ok(Encode(size, Manifest(a)))
           && ReadValue(disk.current, a.scope) == Ok(Some(replacement))) { return Err(Unavailable), steps; }
      var next := replacement.payload.chat.revision;
      latest := latest[a.scope := if Latest(latest, a.scope) > next then Latest(latest, a.scope) else next];
      r, steps := Unscaffold(a.id);
    }

    /** Carry out the intent on disk, from wherever an earlier attempt stopped. */
    method CompleteHistory(intent: Intent)
      returns (r: Result<(Archive, Conversation), Failure>, ghost steps: seq<Image>)
      requires Pending(disk.files) == Ok(Some(intent))
      modifies this`disk, this`work, this`latest
      ensures r.Ok? ==>
                Completed(size, old(disk), intent) == Ok(disk) && work == old(work) && latest == Caught(old(View()))
      ensures r.Ok? ==> r.value.0 == intent.archive && Staged(old(disk.files), intent).Ok?
                        && Staged(old(disk.files), intent).value.payload == Chat(r.value.1)
      ensures latest == old(latest) || latest == Caught(old(View()))
      ensures forall s :: s in steps ==> Underway(size, old(disk), old(work), s)
      ensures Now() == old(Now()) || Now() in steps
    {
      hide Decode, ValidArchive, ReadBody, Derived, Publish, Archived, Verified, Installing;
      steps := [];
      ghost var d := disk;
      if !ValidIntent(intent) { return Err(Invalid), steps; }
      var a := intent.archive;
      var staged := Staged(disk.files, intent);
      if staged.Err? { return Err(staged.error), steps; }
      var replacement := staged.value;
      StagedDecodes(disk.files, intent);
      CaughtIsStaged(View(), intent);
      hide Caught;
      var found := CurrentBytes(disk, a.scope);
      if found.Err? { return Err(found.error), steps; }
      if found.value.None? { return Err(Changed), steps; }
      var raw := found.value.value;
      if Digest(raw) != a.sha && Digest(raw) != a.replacementSha { return Err(Changed), steps; }
      if Digest(raw) == a.sha {
        CurrentDecodes(disk, a.scope);
        if !Derived(raw.payload.chat, replacement.payload.chat, a) { return Err(Invalid), steps; }
        r, steps := ReplaceOriginal(intent, raw, replacement);
      } else {
        var cleaned, removed := Conclude(a, replacement);
        steps := removed;
        r := if cleaned.Err? then Err(cleaned.error) else Ok((a, replacement.payload.chat));
      }
    }

    /** The current document is still the original: replace it and retire the intent. */
    method ReplaceOriginal(intent: Intent, raw: Bytes, replacement: Bytes)
      returns (r: Result<(Archive, Conversation), Failure>, ghost steps: seq<Image>)
      requires Pending(disk.files) == Ok(Some(intent)) && Replacing(disk, intent)
      requires raw == Original(disk, intent) && replacement == Successor(disk, intent)
      modifies this`disk, this`work, this`latest
      ensures r.Ok? ==>
                Completed(size, old(disk), intent) == Ok(disk) && work == old(work) && latest == Caught(old(View()))
      ensures r.Ok? ==> replacement.payload.Chat? && r.value == (intent.archive, replacement.payload.chat)
      ensures latest == old(latest) || latest == Caught(old(View()))
      ensures forall s :: s in steps ==> Underway(size, old(disk), old(work), s)
      ensures Now() == old(Now()) || Now() in steps
    {
      hide Decode, ValidArchive, ReadBody, Derived, Publish, Archived, Verified, CurrentBytes, Staged, Installed;
      hide Installing, Caught;
      ghost var d := disk;
      var a := intent.archive;
      CurrentDecodes(d, a.scope);
      StagedDecodes(d.files, intent);
      CaughtIsStaged(View(), intent);
      if Installed(size, d, a, raw, replacement).Ok? {
        InstalledVerifies(size, d, a, raw, replacement);
      }
      var installed, wrote := Install(a, raw, replacement);
      steps := wrote;
      if installed.Err? { return Err(installed.error), steps; }
      assert Finished(size, d, intent) == Ok(disk);
      var cleaned, removed := Conclude(a, replacement);
      steps := steps + removed;
      if cleaned.Err? { return Err(cleaned.error), steps; }
      return Ok((a, replacement.payload.chat)), steps;
    }

    /** Remove the preparation files and temporaries, one at a time. */
    method Sweep() returns (r: Result<(), Failure>, ghost steps: seq<Image>)
      requires IntentFile !in disk.files
      modifies this`disk, this`work
      ensures r.Ok? ==> disk == old(disk).(files := Swept(old(disk.files))) && work == []
      ensures forall s :: s in steps ==> Sweeping(old(disk), old(work), s)
      ensures Now() == old(Now()) || Now() in steps
    {
      steps := [];
      var names := set n | n in disk.files && n.Next?;
      while names != {}
        invariant disk.current == old(disk.current) && disk.rollback == old(disk.rollback)
        invariant Leaner(disk, old(disk)) && work == old(work)
        invariant forall n :: n in disk.files && n.Next? ==> n in names
        invariant forall s :: s in steps ==> Sweeping(old(disk), old(work), s)
        invariant Now() == old(Now()) || Now() in steps
      {
        var n :| n in names;
        var gone, removed := Remove(n);
        steps := steps + removed;
        if gone.Err? { return Err(gone.error), steps; }
        names := names - {n};
      }
      assert disk.files == Swept(old(disk.files));
      while work != []
        invariant disk == old(disk).(files := Swept(old(disk.files))) && work <= old(work)
        invariant forall s :: s in steps ==> Sweeping(old(disk), old(work), s)
        invariant Now() == old(Now()) || Now() in steps
        decreases |work|
      {
        if * { return Err(Unavailable), steps; }
        work := work[..|work| - 1];
        steps := steps + [Now()];
        if * { return Err(Unavailable), steps; }
      }
      return Ok(()), steps;
    }

    /** Finish what a crash interrupted, then sweep preparation files; any failure poisons this process. */
    method RecoverHistory() returns (r: Result<(), Failure>, ghost steps: seq<Image>)
      modifies this
      ensures old(unavailable) ==> r == Err(CommitUncertain) && View() == old(View()) && steps == []
      ensures !old(unavailable) ==> Recovers(size, old(View()), View(), steps)
      ensures r.Ok? <==> !unavailable
      ensures forall s :: s in steps ==> Afforded(size, old(disk), old(work), s)
    {
      hide Finished, ValidArchive, Staged, Completing, Caught, Afforded, Tidy;
      steps := [];
      if unavailable { return Err(CommitUncertain), steps; }
      var pending := Pending(disk.files);
      if pending.Err? { unavailable := true; return Err(pending.error), steps; }
      if pending.value.Some? {
        var completed, taken := CompleteHistory(pending.value.value);
        steps := steps + taken;
        UnderwaysAreAfforded(old(disk), old(work), steps);
        if completed.Err? { unavailable := true; return Err(completed.error), steps; }
      } else {
        assert latest == Caught(old(View())) by { CaughtNothing(old(View())); }
      }
      ghost var done := disk;
      var listed := Inventory(disk.files, work);
      if listed.Err? { unavailable := true; return Err(listed.error), steps; }
      assert Recover(size, old(disk), old(work)) == Ok(done.(files := Swept(done.files)));
      if pending.value.Some? {
        RecoveryNeedsRoom(size, old(disk), old(work));
        CompletedSweeps(size, old(disk), pending.value.value);
      }
      var swept, cleared := Sweep();
      forall s | s in cleared
        ensures Underway(size, old(disk), old(work), s)
      {
        SweepingIsUnderway(size, old(disk), old(work), done, s);
      }
      steps := steps + cleared;
      UnderwaysAreAfforded(old(disk), old(work), steps);
      if swept.Err? { unavailable := true; return Err(swept.error), steps; }
      return Ok(()), steps;
    }

    static lemma CaughtNothing(p: Process)
      requires Pending(p.disk.files) == Ok(None)
      ensures Caught(p) == p.latest
    {
    }

    lemma UnderwaysAreAfforded(d: Disk, temporaries: seq<nat>, steps: seq<Image>)
      requires forall s :: s in steps ==> Underway(size, d, temporaries, s)
      ensures forall s :: s in steps ==> Afforded(size, d, temporaries, s)
    {
      hide Underway, Afforded;
      forall s | s in steps
        ensures Afforded(size, d, temporaries, s)
      {
        UnderwayIsAfforded(size, d, temporaries, s);
      }
    }

    // ----- rollover -----

    method LoadManifests() returns (r: Result<set<Archive>, Failure>)
      requires work == []
      ensures r == Manifests(disk.files)
    {
      var listed := Inventory(disk.files, work);
      if listed.Err? { return Err(listed.error); }
      var total := SumSizes(disk.files);
      if total > PHYSICAL_BYTES || |ManifestIds(disk.files)| > PHYSICAL_RECORDS { return Err(Full); }
      return if Accounted(disk.files) then Ok(Catalog(disk.files)) else Err(Invalid);
    }

    /** Recognise a request that has already been carried out. */
    method FindReplay(request: Request, original: Bytes) returns (r: Result<Step, Failure>)
      requires work == [] && original.payload.Chat?
      ensures var catalog := Manifests(disk.files);
              r == if catalog.Err? then Err(catalog.error)
                   else Replayed(disk.files, catalog.value, request, original.payload.chat, original)
    {
      var current := original.payload.chat;
      var catalog := LoadManifests();
      if catalog.Err? { return Err(catalog.error); }
      var matches := set a | a in catalog.value && a.scope == request.scope && a.toEpoch == request.toEpoch
                             && a.fromEpoch == request.fromEpoch && a.sourceRevision == request.expectedRevision;
      if |matches| != 1 { return Err(Changed); }
      var a :| a in matches;
      SingletonIs(matches, a);
      if a.replacementSha != Digest(original) || current.physicalSession != request.physicalSession
         || IdsOf(current.messages) != request.retaining
         || !(request.expectedCurrent.None? || request.expectedCurrent == Some(a.sha)) { return Err(Changed); }
      var body := ReadBody(disk.files, a);
      return if body.Err? then Err(body.error) else Ok(Replay(a, current));
    }

    /** Draw up the archive and intent of a new rollover. */
    method Draft(request: Request, original: Bytes, id: Id, now: int) returns (r: Result<Step, Failure>)
      requires work == [] && original.payload.Chat?
      ensures r == Drafted(size, disk, request, original, id, now)
    {
      var current := original.payload.chat;
      if current.revision != request.expectedRevision || current.epoch != request.fromEpoch
         || !(request.expectedCurrent.None? || request.expectedCurrent == Some(Digest(original)))
      { return Err(Changed); }
      var retained := Retain(current.messages, request.retaining);
      if |retained| != |request.retaining| || !(forall m :: m in retained ==> Retainable(m)) { return Err(Invalid); }
      var replacement := Encode(size, Chat(Replacement(current, request)));
      if replacement.count > RECORD_BYTES { return Err(Full); }
      var catalog := LoadManifests();
      if catalog.Err? { return Err(catalog.error); }
      if exists a :: a in catalog.value && a.scope == request.scope && a.toEpoch == request.toEpoch {
        return Err(Changed);
      }
      if |ManifestIds(disk.files)| >= PHYSICAL_RECORDS { return Err(Full); }
      var rollback := ReadValue(disk.rollback, request.scope);
      if rollback.Err? { return Err(rollback.error); }
      var total := SumSizes(disk.files);
      var footprint := total + original.count + SizeOf(disk.rollback, request.scope) + 2 * original.count
                       + 2 * replacement.count + METADATA_RESERVE;
      if footprint > PHYSICAL_BYTES { return Err(Full); }
      var archive := NewArchive(request, current, original, replacement, id, now);
      if !ValidArchive(archive) { return Err(Invalid); }
      return Ok(Commit(Intent(1, archive, archive.sha, replacement.count), original, replacement));
    }

    method PlanRollover(request: Request, id: Id, now: int) returns (r: Result<Step, Failure>)
      requires work == []
      ensures r == Planned(size, disk, request, id, now)
    {
      if !ValidRequest(request) { return Err(Invalid); }
      var found := CurrentBytes(disk, request.scope);
      if found.Err? { return Err(found.error); }
      if found.value.None? { return Err(Missing); }
      var original := found.value.value;
      if original.payload.chat.epoch == Some(request.toEpoch) {
        r := FindReplay(request, original);
      } else {
        r := Draft(request, original, id, now);
      }
    }

    /** Write the stage; if that fails, take it away again as far as possible. Nothing is committed to yet. */
    method StageReplacement(ghost request: Request, id: Id, ghost now: int, c: Step)
      returns (r: Result<(), Failure>, ghost steps: seq<Image>)
      requires PlannedCommit(size, disk, request, id, now, c) && work == []
      modifies this`disk, this`work
      ensures r.Ok? ==> disk == Prepared(old(disk), c) && work == []
      ensures disk == old(disk) || disk == Prepared(old(disk), c)
      ensures forall s :: s in steps ==> Rolling(size, old(disk), c, s)
      ensures Now() == old(Now()) || Now() in steps
    {
      ghost var d := disk;
      PlannedStageIsFresh(size, d, request, id, now, c);
      hide PlannedCommit, Publish, Publishing, Underway;
      // Cancellation is honoured until the first write.
      if * { return Err(Unavailable), []; }
      var staged, put := Put(Next(id), c.replacement);
      steps := put;
      if staged.Ok? { return Ok(()), steps; }
      ghost var left := Now();
      UnstagingIsRolling(size, d, request, id, now, c, left);
      var _, removed := Remove(Next(id));
      return staged, steps + removed;
    }

    /** The write-ahead protocol: stage, intent, then everything the intent promises. */
    method CommitPlanned(request: Request, id: Id, ghost now: int, c: Step)
      returns (r: Result<(Archive, Conversation), Failure>, ghost steps: seq<Image>)
      requires PlannedCommit(size, disk, request, id, now, c) && work == [] && !unavailable
      modifies this
      ensures c.Commit?
      ensures r.Ok? ==> r.value == (c.intent.archive, Replacement(c.original.payload.chat, request))
      ensures Rolls(size, old(View()), request, id, now, View(), steps, r.Ok?)
      ensures unavailable ==> r == Err(CommitUncertain)
    {
      assert c.Commit?;
      hide PlannedCommit, Rolls, Rolling, Raised, Replacement;
      ghost var m := View();
      var staged, put := StageReplacement(request, id, now, c);
      steps := put;
      if staged.Err? {
        RollsAsPlanned(size, m, request, id, now, c, View(), steps, false);
        return Err(staged.error), steps;
      }
      var done, taken := IntendPlanned(m.disk, request, id, now, c);
      steps := steps + taken;
      if done.Err? { unavailable := true; }
      RollsAsPlanned(size, m, request, id, now, c, View(), steps, done.Ok?);
      return if done.Ok? then Ok(done.value) else Err(CommitUncertain), steps;
    }

    /** From the staged replacement on, nothing that fails can be taken back. */
    method IntendPlanned(ghost d: Disk, ghost request: Request, ghost id: Id, ghost now: int, c: Step)
      returns (r: Result<(Archive, Conversation), Failure>, ghost steps: seq<Image>)
      requires PlannedCommit(size, d, request, id, now, c) && disk == Prepared(d, c) && work == []
      modifies this`disk, this`work, this`latest
      ensures r.Ok? ==> r.value == (c.intent.archive, Replacement(c.original.payload.chat, request))
                        && Meta(id) !in d.files && disk == Committed(size, d, c) && work == []
                        && latest == Raised(old(latest), request.scope, request.expectedRevision + 1)
      ensures latest == old(latest) || latest == Raised(old(latest), request.scope, request.expectedRevision + 1)
      ensures forall s :: s in steps ==> Rolling(size, d, c, s)
      ensures Now() == old(Now()) || Now() in steps
    {
      assert c.Commit?;
      hide PlannedCommit, Underway, Completed, Pending, CurrentBytes, Publishing, Replacing, Committed, Intended;
      hide Replacement, Caught, Raised;
      IntentFollowsStage(d, request, id, now, c);
      var intended;
      intended, steps := Put(IntentFile, Encode(size, Plan(c.intent)));
      if intended.Err? { return Err(CommitUncertain), steps; }
      assert disk == Intended(size, d, c);
      CaughtIntended(d, request, id, now, c, View());
      ReplacementIs(d, request, id, now, c);
      var done, taken := CompleteHistory(c.intent);
      steps := steps + taken;
      if done.Err? { return Err(CommitUncertain), steps; }
      CompletedIsCommitted(size, d, request, id, now, c);
      return Ok(done.value), steps;
    }

    lemma IntentFollowsStage(d: Disk, request: Request, id: Id, now: int, c: Step)
      requires PlannedCommit(size, d, request, id, now, c)
      ensures c.Commit? && IntentFile !in Prepared(d, c).files
      ensures WithFile(Prepared(d, c), IntentFile, Encode(size, Plan(c.intent))) == Intended(size, d, c)
    {
      hide Planned;
    }

    lemma CaughtIntended(d: Disk, request: Request, id: Id, now: int, c: Step, p: Process)
      requires PlannedCommit(size, d, request, id, now, c) && c.Commit? && p.disk == Intended(size, d, c)
      ensures Pending(p.disk.files) == Ok(Some(c.intent))
      ensures Caught(p) == Raised(p.latest, request.scope, request.expectedRevision + 1)
      ensures Staged(p.disk.files, c.intent) == Ok(c.replacement)
    {
      hide PlannedCommit, Replacing, Caught, Pending, Staged, Raised, Intended;
      PlannedArchive(d, request, id, now, c);
      IntendedReplaces(size, d, request, id, now, c);
      CaughtReplacing(p, c.intent);
    }

    static lemma CaughtReplacing(p: Process, i: Intent)
      requires Pending(p.disk.files) == Ok(Some(i)) && Replacing(p.disk, i)
      ensures Caught(p) == Raised(p.latest, i.archive.scope, i.archive.sourceRevision + 1)
      ensures Staged(p.disk.files, i) == Ok(Successor(p.disk, i))
    {
      hide Pending, Staged, CurrentBytes, Derived;
    }

    lemma PlannedArchive(d: Disk, request: Request, id: Id, now: int, c: Step)
      requires PlannedCommit(size, d, request, id, now, c)
      ensures c.Commit? && c.intent.archive.scope == request.scope && c.intent.archive.id == id
      ensures c.intent.archive.sourceRevision == request.expectedRevision && ValidIntent(c.intent)
    {
      assert c.Commit?;
      hide PlannedCommit;
      PlannedFacts(size, d, request, id, now, c);
    }

    lemma ReplacementIs(d: Disk, request: Request, id: Id, now: int, c: Step)
      requires PlannedCommit(size, d, request, id, now, c)
      ensures c.Commit? && c.original.payload.Chat?
      ensures c.replacement.payload == Chat(Replacement(c.original.payload.chat, request))
    {
      assert c.Commit?;
      hide PlannedCommit, Replacement;
      PlannedFacts(size, d, request, id, now, c);
    }

    method RolloverRecovered(request: Request, id: Id, now: int)
      returns (r: Result<(Archive, Conversation), Failure>, ghost steps: seq<Image>)
      requires Settled(disk) && work == [] && !unavailable
      modifies this
      ensures unavailable ==> r == Err(CommitUncertain)
      ensures Rolls(size, old(View()), request, id, now, View(), steps, r.Ok?)
      ensures r.Ok? ==> Performed(size, old(disk), request, id, now, r.value, disk)
      ensures r.Ok? ==>
                FoundDone(old(disk), request, r.value, disk) || MovedOn(old(disk), request, id, now, r.value, disk)
      ensures r.Err? && !unavailable ==> Unharmed(old(disk), disk)
    {
      ghost var d := disk;
      steps := [];
      var plan := PlanRollover(request, id, now);
      assert Swept(d.files) == d.files;
      hide Planned, Decode, ValidArchive, Committed, Completed, Accounted, Tidy, Rolling, FoundDone, MovedOn;
      if plan.Err? { return Err(plan.error), steps; }
      if plan.value.Replay? {
        RolloverAnswers(size, d, request, id, now, (plan.value.archive, plan.value.current), d);
        return Ok((plan.value.archive, plan.value.current)), steps;
      }
      assert Swept(Prepared(d, plan.value).files) == d.files;
      r, steps := CommitPlanned(request, id, now, plan.value);
      PlannedStageIsFresh(size, d, request, id, now, plan.value);
      if r.Ok? { RolloverAnswers(size, d, request, id, now, r.value, disk); }
    }

    /** Archive the current document and install its replacement, whatever an earlier crash left. */
    method Rollover(request: Request, id: Id, now: int)
      returns (r: Result<(Archive, Conversation), Failure>, ghost steps: seq<Image>)
      modifies this
      ensures Calls(size, patch, RollingOver(request, id, now), old(View()), View(), steps, r.Ok?)
      ensures old(unavailable) ==> r == Err(CommitUncertain)
      ensures unavailable ==> r.Err?
      ensures var base := Recover(size, old(disk), old(work));
              && (r.Ok? ==> base.Ok? && Performed(size, base.value, request, id, now, r.value, disk)
                            && (|| FoundDone(base.value, request, r.value, disk)
                                || MovedOn(base.value, request, id, now, r.value, disk)))
              && (r.Err? && !unavailable ==> base.Ok? && Unharmed(base.value, disk))
    {
      hide Recover, Underway, Rolls, Performed, Unharmed, Caught, FoundDone, MovedOn;
      var recovered, taken := RecoverHistory();
      steps := taken;
      ghost var m := View();
      if recovered.Err? {
        Goes(RollingOver(request, id, now), old(View()), m, m, taken, [], false); return Err(recovered.error), steps;
      }
      RecoveredIsSettled(size, old(disk), old(work));
      ghost var after;
      r, after := RolloverRecovered(request, id, now);
      Goes(RollingOver(request, id, now), old(View()), m, View(), taken, after, r.Ok?);
      steps := steps + after;
    }

    /** Recovery, then what the call performs. */
    lemma Goes(op: Op, p: Process, m: Process, q: Process, before: seq<Image>, after: seq<Image>, ok: bool)
      ensures (p.unavailable && q == p && before == after == [] && !ok)
              || (!p.unavailable && CallsVia(size, patch, op, p, m, q, before, after, ok))
          ==> Calls(size, patch, op, p, q, before + after, ok)
    {
      hide CallsVia;
    }

    // ----- ordinary reads and writes -----

    /** A document write: a readable current becomes the rollback before it is replaced. */
    method ReplaceDocument(scope: Scope, replacement: Bytes) returns (r: Result<(), Failure>, ghost steps: seq<Image>)
      requires work == [] && Document(disk, scope).Ok?
      requires WriteFootprint(Total(disk.files), disk, scope, Document(disk, scope).value, replacement)
                 <= PHYSICAL_BYTES
      modifies this`disk
      ensures r.Ok? ==> disk == Written(old(disk), scope, replacement)
      ensures forall s :: s in steps ==>
                && s.work == []
                && (|| s.disk == old(disk) || s.disk == BackedUp(old(disk), scope)
                    || s.disk == Written(old(disk), scope, replacement))
                && Weight(s, scope) <= PHYSICAL_BYTES
      ensures Now() == old(Now()) || Now() in steps
      ensures r.Err? ==> r.error == Unavailable || replacement.count > RECORD_BYTES
    {
      steps := [];
      WriteImagesWeigh(disk, scope, replacement);
      hide Document, Weight, WriteFootprint;
      if scope in disk.current && Parse(disk.current[scope]).Ok? {
        var kept, backed := WriteRollback(scope, disk.current[scope]);
        steps := steps + backed;
        if kept.Err? { return Err(kept.error), steps; }
      }
      var written, replaced := WriteCurrent(scope, replacement);
      steps := steps + replaced;
      if written.Err? { return Err(written.error), steps; }
      return Ok(()), steps;
    }

    static lemma WriteImagesWeigh(d: Disk, scope: Scope, replacement: Bytes)
      requires Document(d, scope).Ok?
      requires WriteFootprint(Total(d.files), d, scope, Document(d, scope).value, replacement) <= PHYSICAL_BYTES
      ensures scope in d.current && Parse(d.current[scope]).Ok? ==>
                && Weight(Image(d, [], d.current[scope].count), scope) <= PHYSICAL_BYTES
                && Weight(Image(BackedUp(d, scope), [], 0), scope) <= PHYSICAL_BYTES
      ensures Weight(Image(BackedUp(d, scope), [], replacement.count), scope) <= PHYSICAL_BYTES
      ensures Weight(Image(Written(d, scope, replacement), [], 0), scope) <= PHYSICAL_BYTES
    {
      assert Sum([]) == 0;
      hide Total, Sum;
    }

    /** Write a document over the one this process knows; an older revision is quietly dropped. */
    method WriteLocked(c: Conversation, scope: Scope) returns (r: Result<(), Failure>, ghost steps: seq<Image>)
      requires work == []
      modifies this`disk, this`latest
      ensures Stores(size, old(View()), c, scope, View(), steps, r.Ok?)
      ensures r.Ok? ==> Admits(size, old(disk), old(latest), scope, c)
      ensures r.Err? ==> r.error == Unavailable || !Admits(size, old(disk), old(latest), scope, c)
    {
      steps := [];
      if !ValidConversation(c) || scope.connection == [] || scope.agent == [] || scope.session == [] {
        return Err(Invalid), steps;
      }
      var previous := Document(disk, scope);
      if previous.Err? { return Err(previous.error), steps; }
      hide Document, Parse, ValidConversation, Tidy, Weight;
      if previous.value.Some? && !(previous.value.value.value.epoch == c.epoch
                                   && previous.value.value.value.physicalSession
                                        == c.physicalSession) { return Err(Changed), steps; }
      if c.revision < Latest(latest, scope) { return Ok(()), steps; }
      var replacement := Encode(size, Chat(c));
      if replacement.count > RECORD_BYTES { return Err(Full), steps; }
      // Reading the document has already read the current file.
      var rollback := ReadValue(disk.rollback, scope);
      if rollback.Err? { return Err(rollback.error), steps; }
      var listed := Inventory(disk.files, work);
      if listed.Err? { return Err(listed.error), steps; }
      var history := SumSizes(disk.files);
      if WriteFootprint(history, disk, scope, previous.value, replacement) > PHYSICAL_BYTES { return Err(Full), steps; }
      if * { return Err(Unavailable), steps; }
      latest := latest[scope := c.revision];
      r, steps := ReplaceDocument(scope, replacement);
    }

    /** Recover, then write. A newer revision that the process has noted keeps an older document out. */
    method Write(c: Conversation, scope: Scope) returns (r: Result<(), Failure>, ghost steps: seq<Image>)
      modifies this
      ensures Calls(size, patch, Writing(c, scope), old(View()), View(), steps, r.Ok?)
      ensures var base := Recover(size, old(disk), old(work));
              r.Ok? ==> && base.Ok? && SameSession(base.value, scope, c)
                        && (if c.revision >= Latest(Caught(old(View())), scope)
                            then disk == Written(base.value, scope, Encode(size, Chat(c)))
                            && Latest(latest, scope) == c.revision
                            else disk == base.value && latest == Caught(old(View())))
    {
      hide Recover, Underway, DuringWrite, ValidConversation, Written, SameSession, Weight, Caught;
      steps := [];
      if !ValidConversation(c) { return Err(Invalid), steps; }
      var recovered, taken := RecoverHistory();
      steps := steps + taken;
      ghost var m := View();
      if recovered.Err? {
        Goes(Writing(c, scope), old(View()), m, m, taken, [], false); return Err(recovered.error), steps;
      }
      ghost var after;
      r, after := WriteLocked(c, scope);
      Goes(Writing(c, scope), old(View()), m, View(), taken, after, r.Ok?);
      steps := steps + after;
    }

    /** Settle each message in place, and say whether any delivery changed. */
    static method Settle(found: Conversation) returns (c: Conversation)
      ensures c == Settling(found)
    {
      var messages, changed := found.messages, false;
      for i := 0 to |messages|
        invariant |messages| == |found.messages|
        invariant forall j :: 0 <= j < |messages| ==>
                    messages[j] == if j < i then Resumed(found.messages[j]) else found.messages[j]
        invariant changed <==> exists j :: 0 <= j < i && Resumes(found.messages[j])
      {
        if messages[i].ownedUser && messages[i].delivery == Some(Sending) {
          messages := messages[i := messages[i].(delivery := Some(Uncertain))];
          changed := true;
        }
        if messages[i].ownedUser && messages[i].delivery == Some(Queued) {
          messages := messages[i := messages[i].(delivery := Some(Held))];
          changed := true;
        }
        messages := messages[i := messages[i].(streaming := false)];
      }
      assert messages == ResumedAll(found.messages);
      c := found.(messages := messages);
      if changed { c := c.(revision := c.revision + 1); }
    }

    /** Read a document as a restarted process must, and store what settling changed. */
    method ReadLocked(scope: Scope) returns (r: Result<Option<Conversation>, Failure>, ghost steps: seq<Image>)
      requires work == [] && !unavailable
      modifies this
      ensures Loads(size, old(View()), scope, View(), steps, r.Ok?)
      ensures r.Ok? ==> ReadAs(size, old(disk), old(latest), scope, r.value, disk)
    {
      steps := [];
      if scope.connection == [] || scope.agent == [] || scope.session == [] { return Err(Invalid), steps; }
      var found := Document(disk, scope);
      if found.Err? { return Err(found.error), steps; }
      if found.value.None? { return Ok(None), steps; }
      var c := found.value.value.value;
      if c.revision < 0 || !DistinctIds(c.messages) { return Err(Invalid), steps; }
      hide Document, DuringWrite, ValidConversation, Written, SameSession, Weight, Parse;
      latest := latest[scope := if Latest(latest, scope) > c.revision then Latest(latest, scope) else c.revision];
      var settled := Settle(c);
      if settled.revision != c.revision {
        var written;
        written, steps := WriteLocked(settled, scope);
        if written.Err? { return Err(written.error), steps; }
      }
      return Ok(Some(settled)), steps;
    }

    method Load(scope: Scope) returns (r: Result<Option<Conversation>, Failure>, ghost steps: seq<Image>)
      modifies this
      ensures Calls(size, patch, Loading(scope), old(View()), View(), steps, r.Ok?)
      ensures r.Ok? ==> Recover(size, old(disk), old(work)).Ok?
                        && ReadAs(size, Recover(size, old(disk), old(work)).value, Caught(old(View())), scope, r.value,
                                  disk)
    {
      hide Recover, Underway, Loads, ReadAs, Caught;
      var recovered, taken := RecoverHistory();
      steps := taken;
      ghost var m := View();
      if recovered.Err? {
        Goes(Loading(scope), old(View()), m, m, taken, [], false); return Err(recovered.error), steps;
      }
      ghost var after;
      r, after := ReadLocked(scope);
      Goes(Loading(scope), old(View()), m, View(), taken, after, r.Ok?);
      steps := steps + after;
    }

    // ----- binding -----

    /** Give a just-reset document its first physical session; a retry recognises its own earlier write. */
    method BindRecovered(b: Binding) returns (r: Result<Conversation, Failure>, ghost steps: seq<Image>)
      requires work == [] && !unavailable
      modifies this
      ensures Binds(patch, old(View()), b, View(), steps, r.Ok?)
      ensures r.Ok? ==> Bound(patch, old(disk), b) == Ok((disk, r.value))
      ensures Bound(patch, old(disk), b).Err? ==> r == Err(Bound(patch, old(disk), b).error) && View() == old(View())
      ensures unavailable ==> r == Err(CommitUncertain)
    {
      steps := [];
      if !ValidBinding(b) { return Err(Invalid), steps; }
      var found := CurrentBytes(disk, b.scope);
      if found.Err? { return Err(found.error), steps; }
      if found.value.None? { return Err(Missing), steps; }
      var raw := found.value.value;
      var original := raw;
      var isRetry := Digest(raw) != b.expectedCurrent;
      if isRetry {
        var rollback := ReadValue(disk.rollback, b.scope);
        if rollback.Err? { return Err(rollback.error), steps; }
        if rollback.value.None? || Digest(rollback.value.value) != b.expectedCurrent { return Err(Changed), steps; }
        original := rollback.value.value;
      }
      var previous := Decode(original);
      if previous.Err? { return Err(previous.error), steps; }
      if !Bindable(previous.value, b) { return Err(Changed), steps; }
      var next := BoundConversation(previous.value, b);
      var replacement := patch(original, next);
      if replacement.count > RECORD_BYTES { return Err(Full), steps; }
      if isRetry {
        if raw != replacement { return Err(Changed), steps; }
        var known := Latest(latest, b.scope);
        latest := latest[b.scope := if known > next.revision then known else next.revision];
        return Ok(next), steps;
      }
      var rollback := ReadValue(disk.rollback, b.scope);
      if rollback.Err? { return Err(rollback.error), steps; }
      var listed := Inventory(disk.files, work);
      if listed.Err? { return Err(listed.error), steps; }
      var history := SumSizes(disk.files);
      if history + 2 * original.count + SizeOf(disk.rollback, b.scope) + replacement.count + METADATA_RESERVE
           > PHYSICAL_BYTES
      {
        return Err(Full), steps;
      }
      if * { return Err(Unavailable), steps; }
      r, steps := BindWrites(b.scope, original, replacement, next);
    }

    method BindWrites(scope: Scope, original: Bytes, replacement: Bytes, next: Conversation)
      returns (r: Result<Conversation, Failure>, ghost steps: seq<Image>)
      requires work == [] && !unavailable
      requires CurrentBytes(disk, scope) == Ok(Some(original))
      requires BindFootprint(disk, scope, original, replacement) <= PHYSICAL_BYTES
      modifies this
      ensures var saved := old(disk).(rollback := old(disk.rollback)[scope := original]);
              var e := saved.(current := saved.current[scope := replacement]);
              && (r.Ok? ==> r.value == next && disk == e && work == [] && latest == old(latest)[scope := next.revision])
              && (r.Err? ==> unavailable && latest == old(latest))
              && (forall s :: s in steps ==> s.work == [] && Weight(s, scope) <= PHYSICAL_BYTES
                                             && (s.disk == old(disk) || s.disk == saved || s.disk == e))
      ensures unavailable ==> r == Err(CommitUncertain)
      ensures Now() == old(Now()) || Now() in steps
    {
      ghost var d := disk;
      ghost var saved := d.(rollback := d.rollback[scope := original]);
      BindImagesWeigh(d, scope, original, replacement);
      hide Decode, CurrentBytes, Weight;
      var kept, wrote := WriteRollback(scope, original);
      steps := wrote;
      if kept.Err? { unavailable := true; return Err(CommitUncertain), steps; }
      kept, wrote := WriteCurrent(scope, replacement);
      steps := steps + wrote;
      if kept.Err? { unavailable := true; return Err(CommitUncertain), steps; }
      latest := latest[scope := next.revision];
      return Ok(next), steps;
    }

    /** What a binding's footprint counts covers both of its writes. */
    static lemma BindImagesWeigh(d: Disk, scope: Scope, original: Bytes, replacement: Bytes)
      requires CurrentBytes(d, scope) == Ok(Some(original))
      requires BindFootprint(d, scope, original, replacement) <= PHYSICAL_BYTES
      ensures var saved := d.(rollback := d.rollback[scope := original]);
              var e := saved.(current := saved.current[scope := replacement]);
              && Weight(Image(d, [], original.count), scope) <= PHYSICAL_BYTES
              && Weight(Image(saved, [], 0), scope) <= PHYSICAL_BYTES
              && Weight(Image(saved, [], replacement.count), scope) <= PHYSICAL_BYTES
              && Weight(Image(e, [], 0), scope) <= PHYSICAL_BYTES
    {
      assert SizeOf(d.current, scope) <= original.count && Sum([]) == 0;
      hide CurrentBytes, Total, Sum;
    }

    /** Recovery, then the binding of the recovered disk. */
    method Bind(b: Binding) returns (r: Result<Conversation, Failure>, ghost steps: seq<Image>)
      modifies this
      ensures Calls(size, patch, BindingSession(b), old(View()), View(), steps, r.Ok?)
      ensures old(unavailable) ==> r == Err(CommitUncertain)
      ensures r.Ok? ==> Recover(size, old(disk), old(work)).Ok?
                        && Bound(patch, Recover(size, old(disk), old(work)).value, b) == Ok((disk, r.value))
    {
      hide Recover, Underway, Bound, Binds, Caught;
      var recovered, taken := RecoverHistory();
      steps := taken;
      ghost var m := View();
      if recovered.Err? {
        Goes(BindingSession(b), old(View()), m, m, taken, [], false); return Err(recovered.error), steps;
      }
      ghost var after;
      r, after := BindRecovered(b);
      Goes(BindingSession(b), old(View()), m, View(), taken, after, r.Ok?);
      steps := steps + after;
    }

    // ----- founding -----

    /** Give a conversation without a transcript its first epoch. */
    method EstablishRecovered(f: Founding) returns (r: Result<Conversation, Failure>, ghost steps: seq<Image>)
      requires work == [] && !unavailable
      modifies this
      ensures Founds(size, old(View()), f, View(), steps, r.Ok?)
      ensures r.Ok? ==> Founded(size, old(disk), f) == Ok((disk, r.value))
      ensures Founded(size, old(disk), f).Err? ==> r == Err(Founded(size, old(disk), f).error) && View() == old(View())
      ensures unavailable ==> r == Err(CommitUncertain)
    {
      steps := [];
      if !ValidFounding(f) { return Err(Invalid), steps; }
      var source := FoundingSource(disk, f);
      if source.Err? { return Err(source.error), steps; }
      var found, current := source.value.0, source.value.1;
      if AlreadyFounded(current, f) { return Ok(current), steps; }
      if !Foundable(found, current, f) { return Err(Changed), steps; }
      var next := FoundedConversation(current, f);
      var replacement := Encode(size, Chat(next));
      if replacement.count > RECORD_BYTES { return Err(Full), steps; }
      var rollback := ReadValue(disk.rollback, f.scope);
      if rollback.Err? { return Err(rollback.error), steps; }
      var listed := Inventory(disk.files, work);
      if listed.Err? { return Err(listed.error), steps; }
      var history := SumSizes(disk.files);
      var held := if found.Some? then found.value.count else 0;
      if history + 2 * held + SizeOf(disk.rollback, f.scope) + replacement.count + METADATA_RESERVE > PHYSICAL_BYTES {
        return Err(Full), steps;
      }
      if * { return Err(Unavailable), steps; }
      r, steps := FoundWrites(f, found, replacement, next);
    }

    /** Keep what was found, if anything, as the rollback. */
    method SaveFound(f: Founding, found: Option<Bytes>, ghost room: nat)
      returns (r: Result<(), Failure>, ghost steps: seq<Image>)
      requires work == []
      requires Weight(Now(), f.scope) + (if found.Some? then found.value.count else 0) + room <= PHYSICAL_BYTES
      modifies this`disk
      ensures r.Ok? ==> disk == Saved(old(disk), f.scope, found)
      ensures disk == old(disk) || disk == Saved(old(disk), f.scope, found)
      ensures forall s :: s in steps ==>
                && s.work == [] && Weight(s, f.scope) <= PHYSICAL_BYTES
                && (s.disk == old(disk) || s.disk == Saved(old(disk), f.scope, found))
      ensures r.Ok? ==> Weight(Now(), f.scope) + room <= PHYSICAL_BYTES
      ensures Now() == old(Now()) || Now() in steps
    {
      if found.None? { return Ok(()), []; }
      r, steps := WriteRollback(f.scope, found.value);
    }

    method FoundWrites(f: Founding, found: Option<Bytes>, replacement: Bytes, next: Conversation)
      returns (r: Result<Conversation, Failure>, ghost steps: seq<Image>)
      requires work == [] && !unavailable
      requires CurrentBytes(disk, f.scope) == Ok(found)
               && FoundFootprint(disk, f.scope, found, replacement) <= PHYSICAL_BYTES
      modifies this
      ensures var saved := Saved(old(disk), f.scope, found);
              var e := saved.(current := old(disk.current)[f.scope := replacement]);
              && (r.Ok? ==>
                    r.value == next && disk == e && work == [] && latest == old(latest)[f.scope := next.revision])
              && (r.Err? ==> unavailable && latest == old(latest))
              && (forall s :: s in steps ==> s.work == [] && Weight(s, f.scope) <= PHYSICAL_BYTES
                                             && (s.disk == old(disk) || s.disk == saved || s.disk == e))
      ensures unavailable ==> r == Err(CommitUncertain)
      ensures Now() == old(Now()) || Now() in steps
    {
      FoundImagesWeigh(disk, f.scope, found, replacement);
      hide CurrentBytes, Weight;
      var kept, saved := SaveFound(f, found, replacement.count);
      steps := saved;
      if kept.Err? { unavailable := true; return Err(CommitUncertain), steps; }
      var written, wrote := WriteCurrent(f.scope, replacement);
      steps := steps + wrote;
      if written.Err? { unavailable := true; return Err(CommitUncertain), steps; }
      latest := latest[f.scope := next.revision];
      return Ok(next), steps;
    }

    /** What an establishing's footprint counts covers its writes. */
    static lemma FoundImagesWeigh(d: Disk, scope: Scope, found: Option<Bytes>, replacement: Bytes)
      requires CurrentBytes(d, scope) == Ok(found) && FoundFootprint(d, scope, found, replacement) <= PHYSICAL_BYTES
      ensures var saved, held := Saved(d, scope, found), if found.Some? then found.value.count else 0;
              && Weight(Image(d, [], 0), scope) + held + replacement.count <= PHYSICAL_BYTES
              && Weight(Image(saved, [], replacement.count), scope) <= PHYSICAL_BYTES
              && Weight(Image(saved.(current := d.current[scope := replacement]), [], 0), scope) <= PHYSICAL_BYTES
    {
      assert SizeOf(d.current, scope) <= (if found.Some? then found.value.count else 0) && Sum([]) == 0;
      hide CurrentBytes, Total, Sum;
    }

    /** Recovery, then the establishing on the recovered disk. */
    method Establish(f: Founding) returns (r: Result<Conversation, Failure>, ghost steps: seq<Image>)
      modifies this
      ensures Calls(size, patch, Establishing(f), old(View()), View(), steps, r.Ok?)
      ensures old(unavailable) ==> r == Err(CommitUncertain)
      ensures r.Ok? ==> Recover(size, old(disk), old(work)).Ok?
                        && Founded(size, Recover(size, old(disk), old(work)).value, f) == Ok((disk, r.value))
    {
      hide Recover, Underway, Founded, Founds, Caught;
      var recovered, taken := RecoverHistory();
      steps := taken;
      ghost var m := View();
      if recovered.Err? {
        Goes(Establishing(f), old(View()), m, m, taken, [], false); return Err(recovered.error), steps;
      }
      ghost var after;
      r, after := EstablishRecovered(f);
      Goes(Establishing(f), old(View()), m, View(), taken, after, r.Ok?);
      steps := steps + after;
    }
  }
}
