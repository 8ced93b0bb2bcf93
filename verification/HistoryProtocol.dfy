/** What the write-ahead protocol means for the disk: recovery, and the plan of a rollover. */
module HistoryProtocol {
  import opened Wrappers
  import opened HistoryTypes
  import opened HistoryDisk

  // ----- recovery -----

  /** The staged replacement that an intent names. */
  function Staged(files: Directory, intent: Intent): Result<Bytes, Failure> {
    var a := intent.archive;
    var replacement :- Required(files, Next(a.id), RECORD_BYTES);
    if replacement.count != intent.replacementBytes || Digest(replacement) != a.replacementSha then Err(Invalid) else
    var next :- Decode(replacement);
    if next.revision == a.sourceRevision + 1 && next.epoch == Some(a.toEpoch) && next.nextCursor == None
    && !next.hasMore
    then Ok(replacement) else Err(Invalid)
  }

  /** The archived document really is what the replacement was made from. */
  predicate Derived(prior: Conversation, next: Conversation, a: Archive) {
    && prior.revision == a.sourceRevision
    && prior.epoch == a.fromEpoch
    && prior.physicalSession == a.physicalSession
    && Resources(prior) == a.resources
    && prior.draft == next.draft
    && prior.draftResources == next.draftResources
    && Retain(prior.messages, IdsOf(next.messages)) == next.messages
    && forall m :: m in next.messages ==> Retainable(m)
  }

  /** The files once the original is archived under its manifest. */
  function Archived(size: Encoder, files: Directory, a: Archive, original: Bytes): Result<Directory, Failure> {
    var withBody :- Publish(files, Body(a.id), original);
    var withMeta :- Publish(withBody, Meta(a.id), Encode(size, Manifest(a)));
    var _ :- ReadBody(withMeta, a);
    Ok(withMeta)
  }

  /** Archive the original, keep it as rollback, and install the replacement. */
  function Installed(size: Encoder, d: Disk, a: Archive, original: Bytes, replacement: Bytes): Result<Disk, Failure> {
    var files :- Archived(size, d.files, a, original);
    Ok(Disk(files, d.current[a.scope := replacement], d.rollback[a.scope := original]))
  }

  /** The commit point: archive, manifest and current all read back as intended. */
  predicate Verified(size: Encoder, d: Disk, a: Archive, replacement: Bytes) {
    && ReadBody(d.files, a).Ok?
    && Required(d.files, Meta(a.id), MANIFEST_BYTES) == Ok(Encode(size, Manifest(a)))
    && ReadValue(d.current, a.scope) == Ok(Some(replacement))
  }

  /** Finish the work an intent describes, leaving the intent and its stage behind. */
  function Finished(size: Encoder, d: Disk, intent: Intent): Result<Disk, Failure> {
    if !ValidIntent(intent) then Err(Invalid) else
    var a := intent.archive;
    var replacement :- Staged(d.files, intent);
    var found :- CurrentBytes(d, a.scope);
    if found.None? then Err(Changed) else
    var raw := found.value;
    if Digest(raw) == a.sha then
      if !Derived(raw.payload.chat, replacement.payload.chat, a) then Err(Invalid) else
      var done :- Installed(size, d, a, raw, replacement);
      if Verified(size, done, a, replacement) then Ok(done) else Err(Unavailable)
    else if Digest(raw) == a.replacementSha then
      if Verified(size, d, a, replacement) then Ok(d) else Err(Unavailable)
    else Err(Changed)
  }

  function Completed(size: Encoder, d: Disk, intent: Intent): Result<Disk, Failure> {
    var done :- Finished(size, d, intent);
    Ok(done.(files := done.files - {IntentFile, Next(intent.archive.id)}))
  }

  /** The intent on disk, if there is one. */
  function Pending(files: Directory): Result<Option<Intent>, Failure> {
    var raw :- Read(files, IntentFile, MANIFEST_BYTES);
    if raw.None? then Ok(None)
    else if raw.value.payload.Plan? then Ok(Some(raw.value.payload.intent))
    else Err(Invalid)
  }

  function Swept(files: Directory): Directory {
    map n | n in files && !n.Next? :: files[n]
  }

  /** Opening the store: complete a pending rollover, then discard preparation files and temporaries. */
  function Recover(size: Encoder, d: Disk, work: seq<nat>): Result<Disk, Failure> {
    var pending :- Pending(d.files);
    var done :- if pending.None? then Ok(d) else Completed(size, d, pending.value);
    var listed :- Inventory(done.files, work);
    Ok(done.(files := Swept(listed)))
  }

  // ----- planning a rollover -----

  datatype Request = Request(
    scope: Scope,
    expectedRevision: int,
    fromEpoch: Option<Id>,
    toEpoch: Id,
    physicalSession: Option<Text>,
    retaining: set<Text>,
    expectedCurrent: Option<Digest>)

  /** Either the rollover has already happened, or here is what it must write. */
  datatype Step =
    | Replay(archive: Archive, current: Conversation)
    | Commit(intent: Intent, original: Bytes, replacement: Bytes)

  predicate ValidRequest(r: Request) {
    && ValidScope(r.scope)
    && 0 <= r.expectedRevision < MAX_COUNTER - 1
    && Some(r.toEpoch) != r.fromEpoch
    && ValidSession(r.physicalSession)
  }

  function Replacement(current: Conversation, r: Request): Conversation {
    current.(messages := Retain(current.messages, r.retaining),
             revision := current.revision + 1,
             epoch := Some(r.toEpoch),
             physicalSession := r.physicalSession,
             nextCursor := None,
             hasMore := false)
  }

  function NewArchive(r: Request, current: Conversation, original: Bytes, replacement: Bytes, id: Id,
                      now: int): Archive {
    Archive(1, id, r.scope, r.fromEpoch, r.toEpoch, current.physicalSession, now, original.count,
            Digest(original), Digest(replacement), current.revision, Resources(current))
  }

  /** An earlier call with the same request already committed: its manifest and exact bytes say so. */
  ghost function Replayed(files: Directory, catalog: set<Archive>, r: Request, current: Conversation,
                          original: Bytes): Result<Step, Failure> {
    var matches := set a | a in catalog && a.scope == r.scope && a.toEpoch == r.toEpoch && a.fromEpoch == r.fromEpoch
                           && a.sourceRevision == r.expectedRevision;
    if |matches| != 1 then Err(Changed) else
    var a: Archive :| a in matches;
    if a.replacementSha != Digest(original) || current.physicalSession != r.physicalSession
       || IdsOf(current.messages) != r.retaining
          || !(r.expectedCurrent.None? || r.expectedCurrent == Some(a.sha)) then Err(Changed) else
    var _ :- ReadBody(files, a);
    Ok(Replay(a, current))
  }

  /** The bytes a rollover may use at its worst instant. */
  ghost function Footprint(d: Disk, scope: Scope, original: Bytes, replacement: Bytes): nat {
    Total(d.files) + original.count + SizeOf(d.rollback, scope) + 2 * original.count + 2 * replacement.count
    + METADATA_RESERVE
  }

  /** The commit a rollover of this conversation would make. */
  ghost function Drafted(size: Encoder, d: Disk, r: Request, original: Bytes, id: Id, now: int): Result<Step, Failure>
    requires original.payload.Chat?
  {
    var current := original.payload.chat;
    if !(current.revision == r.expectedRevision && current.epoch == r.fromEpoch
         && (r.expectedCurrent.None? || r.expectedCurrent == Some(Digest(original)))) then Err(Changed) else
    var retained := Retain(current.messages, r.retaining);
    if !(|retained| == |r.retaining| && forall m :: m in retained ==> Retainable(m)) then Err(Invalid) else
    var replacement := Encode(size, Chat(Replacement(current, r)));
    if replacement.count > RECORD_BYTES then Err(Full) else
    var catalog :- Manifests(d.files);
    if exists a :: a in catalog && a.scope == r.scope && a.toEpoch == r.toEpoch then Err(Changed)
    else if |ManifestIds(d.files)| >= PHYSICAL_RECORDS then Err(Full) else
    var _ :- ReadValue(d.rollback, r.scope);
    if Footprint(d, r.scope, original, replacement) > PHYSICAL_BYTES then Err(Full) else
    var archive := NewArchive(r, current, original, replacement, id, now);
    if !ValidArchive(archive) then Err(Invalid)
    else Ok(Commit(Intent(1, archive, archive.sha, replacement.count), original, replacement))
  }

  /** Everything `rollover` decides before it writes, on a recovered disk. */
  ghost function Planned(size: Encoder, d: Disk, r: Request, id: Id, now: int): Result<Step, Failure> {
    if !ValidRequest(r) then Err(Invalid) else
    var found :- CurrentBytes(d, r.scope);
    if found.None? then Err(Missing) else
    var original := found.value;
    if original.payload.chat.epoch == Some(r.toEpoch) then
      var catalog :- Manifests(d.files);
      Replayed(d.files, catalog, r, original.payload.chat, original)
    else Drafted(size, d, r, original, id, now)
  }

  /** The disk a rollover leaves behind. */
  function Committed(size: Encoder, d: Disk, c: Step): Disk
    requires c.Commit?
  {
    var a := c.intent.archive;
    Disk(d.files[Body(a.id) := c.original][Meta(a.id) := Encode(size, Manifest(a))],
         d.current[a.scope := c.replacement], d.rollback[a.scope := c.original])
  }
}
