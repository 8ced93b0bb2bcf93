/** Ordinary reads and writes, and the binding of a physical session, as functions of the disk. */
module ConversationWrites {
  import opened Wrappers
  import opened HistoryTypes
  import opened HistoryDisk

  // ----- documents -----

  /** An ordinary read decodes without the media checks. */
  function Parse(raw: Bytes): Result<Conversation, Failure> {
    if 0 < raw.count <= RECORD_BYTES && raw.payload.Chat? then Ok(raw.payload.chat) else Err(Invalid)
  }

  datatype Stored = Stored(value: Conversation, fromRollback: bool)

  /** The stored document: current when it decodes, else a rollback that must. */
  function Document(d: Disk, scope: Scope): Result<Option<Stored>, Failure> {
    var current :- ReadValue(d.current, scope);
    if current.Some? && Parse(current.value).Ok? then Ok(Some(Stored(Parse(current.value).value, false))) else
    var rollback :- ReadValue(d.rollback, scope);
    if rollback.Some? then
      var value :- Parse(rollback.value);
      Ok(Some(Stored(value, true)))
    else if current.Some? then Err(Invalid)
    else Ok(None)
  }

  /** The disk after one document write: a readable current becomes the rollback first. */
  function Written(d: Disk, scope: Scope, replacement: Bytes): Disk {
    BackedUp(d, scope).(current := d.current[scope := replacement])
  }

  function BackedUp(d: Disk, scope: Scope): Disk {
    if scope in d.current && Parse(d.current[scope]).Ok?
    then d.(rollback := d.rollback[scope := d.current[scope]])
    else d
  }

  /** The worst instant of a document write: the larger of the two atomic temporaries. */
  function WriteFootprint(history: nat, d: Disk, scope: Scope, previous: Option<Stored>, replacement: Bytes): nat {
    var current, rollback := SizeOf(d.current, scope), SizeOf(d.rollback, scope);
    if previous.Some? && !previous.value.fromRollback
    then history + 2 * current + (if rollback > replacement.count then rollback else replacement.count)
    else history + current + rollback + replacement.count
  }

  /** The revision a read of this disk would find. */
  function Persisted(d: Disk, scope: Scope): Option<int> {
    var found := Document(d, scope);
    if found.Ok? && found.value.Some? then Some(found.value.value.value.revision) else None
  }

  function Latest(latest: map<Scope, int>, scope: Scope): int {
    if scope in latest then latest[scope] else 0
  }

  function Raised(latest: map<Scope, int>, scope: Scope, revision: int): map<Scope, int> {
    latest[scope := if Latest(latest, scope) > revision then Latest(latest, scope) else revision]
  }

  /** This process has seen everything on disk for the scope. */
  predicate Known(latest: map<Scope, int>, d: Disk, scope: Scope) {
    Persisted(d, scope).Some? ==> Persisted(d, scope).value <= Latest(latest, scope)
  }

  /** Every image of an ordinary write reads as the old document or the new one. */
  lemma WriteIsAtomic(d: Disk, scope: Scope, replacement: Bytes)
    requires Parse(replacement).Ok? && Document(d, scope).Ok?
    ensures Document(BackedUp(d, scope), scope) == Document(d, scope)
    ensures Document(Written(d, scope, replacement), scope) == Ok(Some(Stored(replacement.payload.chat, false)))
    ensures forall s :: s != scope ==> Document(Written(d, scope, replacement), s) == Document(d, s)
  {
  }

  // ----- restart -----

  /** What a restart makes of one message: a send that may have reached the backend is never repeated by itself. */
  function Resumed(m: Message): Message {
    if m.ownedUser && m.delivery == Some(Sending) then m.(delivery := Some(Uncertain), streaming := false)
    else if m.ownedUser && m.delivery == Some(Queued) then m.(delivery := Some(Held), streaming := false)
    else m.(streaming := false)
  }

  predicate Resumes(m: Message) {
    m.ownedUser && m.delivery.Some? && m.delivery.value in {Sending, Queued}
  }

  function ResumedAll(messages: seq<Message>): (resumed: seq<Message>)
    ensures |resumed| == |messages|
    ensures forall i :: 0 <= i < |messages| ==> resumed[i] == Resumed(messages[i])
  {
    seq(|messages|, i requires 0 <= i < |messages| => Resumed(messages[i]))
  }

  // ----- binding a physical session -----

  /** Rewriting two fields of a serialized document, keeping the fields this version does not know. */
  ghost predicate LawfulPatch(patch: (Bytes, Conversation) -> Bytes) {
    forall b, c {:trigger patch(b, c)} :: patch(b, c).payload == Chat(c) && patch(b, c).count > 0
  }

  type Patcher = patch: (Bytes, Conversation) -> Bytes | LawfulPatch(patch)
    witness (b: Bytes, c: Conversation) => Bytes(Chat(c), b.spelling, 1)

  datatype Binding = Binding(scope: Scope, expectedRevision: int, epoch: Id, expectedCurrent: Digest, session: Text)

  predicate HeldInput(m: Message) {
    && m.ownedUser && !m.streaming
    && m.key.Some? && m.key.value != []
    && m.delivery.Some? && m.delivery.value in {Held, Uncertain, Failed}
  }

  predicate ValidBinding(b: Binding) {
    ValidScope(b.scope) && 0 <= b.expectedRevision < MAX_COUNTER - 1 && 0 < |b.session| <= SESSION_ID_BYTES
  }

  /** The document the binding starts from: current, or the rollback of an attempt whose current write landed. */
  function BindingSource(d: Disk, b: Binding): Result<(Bytes, Bytes), Failure> {
    var found :- CurrentBytes(d, b.scope);
    if found.None? then Err(Missing) else
    if Digest(found.value) == b.expectedCurrent then Ok((found.value, found.value)) else
    var rollback :- ReadValue(d.rollback, b.scope);
    if rollback.None? || Digest(rollback.value) != b.expectedCurrent then Err(Changed) else
    var _ :- Decode(rollback.value);
    Ok((rollback.value, found.value))
  }

  predicate Bindable(previous: Conversation, b: Binding) {
    && previous.revision == b.expectedRevision
    && previous.epoch == Some(b.epoch)
    && previous.physicalSession == None
    && forall m :: m in previous.messages ==> HeldInput(m)
  }

  function BoundConversation(previous: Conversation, b: Binding): Conversation {
    previous.(revision := previous.revision + 1, physicalSession := Some(b.session))
  }

  ghost function BindFootprint(d: Disk, scope: Scope, original: Bytes, replacement: Bytes): nat {
    Total(d.files) + 2 * original.count + SizeOf(d.rollback, scope) + replacement.count + METADATA_RESERVE
  }

  /** The disk and document a binding leaves. */
  ghost function Bound(patch: Patcher, d: Disk, b: Binding): Result<(Disk, Conversation), Failure> {
    if !ValidBinding(b) then Err(Invalid) else
    var source :- BindingSource(d, b);
    var original, raw := source.0, source.1;
    var previous :- Decode(original);
    if !Bindable(previous, b) then Err(Changed) else
    var next := BoundConversation(previous, b);
    var replacement := patch(original, next);
    if replacement.count > RECORD_BYTES then Err(Full)
    else if Digest(raw) != b.expectedCurrent then
      if raw == replacement then Ok((d, next)) else Err(Changed)
    else
      var _ :- ReadValue(d.rollback, b.scope);
      var _ :- Inventory(d.files, []);
      if BindFootprint(d, b.scope, original, replacement) > PHYSICAL_BYTES then Err(Full)
      else Ok((d.(rollback := d.rollback[b.scope := original], current := d.current[b.scope := replacement]), next))
  }

  lemma BoundDecodes(patch: Patcher, original: Bytes, b: Binding)
    requires Decode(original).Ok? && ValidBinding(b) && Bindable(original.payload.chat, b)
    requires patch(original, BoundConversation(original.payload.chat, b)).count <= RECORD_BYTES
    ensures var replacement := patch(original, BoundConversation(original.payload.chat, b));
            Decode(replacement) == Ok(BoundConversation(original.payload.chat, b)) && replacement != original
  {
    var replacement := patch(original, BoundConversation(original.payload.chat, b));
    assert replacement.payload == Chat(BoundConversation(original.payload.chat, b));
  }

  /**
   * A binding that is repeated once it has happened finds it done: the same disk, the same document, one revision step.
   */
  lemma BindingRepeats(patch: Patcher, d: Disk, b: Binding)
    requires Bound(patch, d, b).Ok?
    ensures Bound(patch, Bound(patch, d, b).value.0, b) == Bound(patch, d, b)
  {
    var original := BindingSource(d, b).value.0;
    var e := Bound(patch, d, b).value.0;
    BoundDecodes(patch, original, b);
    hide ValidConversation, ValidBinding, Inventory;
    if Digest(BindingSource(d, b).value.1) == b.expectedCurrent {
      assert CurrentBytes(e, b.scope) == Ok(Some(patch(original, Bound(patch, d, b).value.1)));
    }
  }

  /**
   * Retrying a binding after a crash between its two writes. The original then stands twice on disk, as current and as
   * rollback, and the check is made again: the retry gives the same disk and document exactly when there is room for
   * that.
   */
  lemma BindingRetries(patch: Patcher, d: Disk, b: Binding)
    requires Bound(patch, d, b).Ok? && BindingSource(d, b).value.1 == BindingSource(d, b).value.0
    ensures var original, next := BindingSource(d, b).value.0, Bound(patch, d, b).value.1;
            var middle := d.(rollback := d.rollback[b.scope := original]);
            var room := BindFootprint(d, b.scope, original, patch(original, next)) + original.count
                        - SizeOf(d.rollback, b.scope);
            Bound(patch, middle, b) == if room <= PHYSICAL_BYTES then Bound(patch, d, b) else Err(Full)
  {
    var original := BindingSource(d, b).value.0;
    var middle := d.(rollback := d.rollback[b.scope := original]);
    BoundDecodes(patch, original, b);
    assert ReadValue(d.rollback[b.scope := original], b.scope) == Ok(Some(original));
    hide ValidConversation, ValidBinding;
    assert CurrentBytes(middle, b.scope) == Ok(Some(original));
    assert middle.rollback[b.scope := original] == middle.rollback;
    hide Inventory;
  }

  /** A completed binding changes the session and the revision and nothing else, and touches no other conversation. */
  lemma BindingMeaning(patch: Patcher, d: Disk, b: Binding)
    requires Bound(patch, d, b).Ok?
    ensures var (e, next) := Bound(patch, d, b).value;
            var previous := BindingSource(d, b).value.0;
            && CurrentBytes(e, b.scope).Ok? && CurrentBytes(e, b.scope).value.Some?
            && Decode(CurrentBytes(e, b.scope).value.value) == Ok(next)
            && Digest(previous) == b.expectedCurrent && Decode(previous).Ok?
            && next.revision == b.expectedRevision + 1 && next.physicalSession == Some(b.session)
               && next.epoch == Some(b.epoch)
            && next.draft == previous.payload.chat.draft && next.draftResources == previous.payload.chat.draftResources
            && next.messages == previous.payload.chat.messages && next.header == previous.payload.chat.header
            && next.nextCursor == previous.payload.chat.nextCursor && next.hasMore == previous.payload.chat.hasMore
            && e.files == d.files
            && (b.scope in e.rollback && e.rollback[b.scope] == previous)
            && (forall s :: s != b.scope ==> CurrentBytes(e, s) == CurrentBytes(d, s))
  {
    var original := BindingSource(d, b).value.0;
    BoundDecodes(patch, original, b);
    hide ValidConversation, ValidBinding;
  }

  // ----- establishing a first epoch -----

  datatype Founding = Founding(scope: Scope, expectedRevision: int, epoch: Id, session: Option<Text>)

  predicate ValidFounding(f: Founding) {
    ValidScope(f.scope) && 0 <= f.expectedRevision < MAX_COUNTER - 1 && ValidSession(f.session)
  }

  /** What a conversation is before anything was stored. */
  function Blank(): Conversation {
    Conversation(0, [], [], [], None, false, None, None, 0, true)
  }

  /** An earlier call with the same arguments has already happened. */
  predicate AlreadyFounded(current: Conversation, f: Founding) {
    && current.epoch == Some(f.epoch) && current.physicalSession == f.session
    && (current.revision == f.expectedRevision || current.revision == f.expectedRevision + 1)
  }

  /** No transcript can be lost or given to another epoch. */
  predicate Foundable(found: Option<Bytes>, current: Conversation, f: Founding) {
    && current.revision == f.expectedRevision && current.messages == [] && current.physicalSession == None
    && (current.epoch == None || current.epoch == Some(f.epoch))
    && (found.Some? || f.expectedRevision == 0)
  }

  function FoundedConversation(current: Conversation, f: Founding): Conversation {
    current.(epoch := Some(f.epoch), physicalSession := f.session, revision := current.revision + 1)
  }

  ghost function FoundFootprint(d: Disk, scope: Scope, found: Option<Bytes>, replacement: Bytes): nat {
    Total(d.files) + 2 * (if found.Some? then found.value.count else 0) + SizeOf(d.rollback, scope) + replacement.count
    + METADATA_RESERVE
  }

  /** The document a founding starts from. */
  function FoundingSource(d: Disk, f: Founding): Result<(Option<Bytes>, Conversation), Failure> {
    var found :- CurrentBytes(d, f.scope);
    if found.None? then Ok((found, Blank())) else
    var current :- Decode(found.value);
    Ok((found, current))
  }

  function Saved(d: Disk, scope: Scope, found: Option<Bytes>): Disk {
    if found.Some? then d.(rollback := d.rollback[scope := found.value]) else d
  }

  /** The disk and document a founding leaves. */
  ghost function Founded(size: Encoder, d: Disk, f: Founding): Result<(Disk, Conversation), Failure> {
    if !ValidFounding(f) then Err(Invalid) else
    var source :- FoundingSource(d, f);
    var found, current := source.0, source.1;
    if AlreadyFounded(current, f) then Ok((d, current))
    else if !Foundable(found, current, f) then Err(Changed) else
    var next := FoundedConversation(current, f);
    var replacement := Encode(size, Chat(next));
    if replacement.count > RECORD_BYTES then Err(Full) else
    var _ :- ReadValue(d.rollback, f.scope);
    var _ :- Inventory(d.files, []);
    if FoundFootprint(d, f.scope, found, replacement) > PHYSICAL_BYTES then Err(Full)
    else Ok((Saved(d, f.scope, found).(current := d.current[f.scope := replacement]), next))
  }

  lemma FoundedDecodes(size: Encoder, d: Disk, f: Founding)
    requires Founded(size, d, f).Ok? && !AlreadyFounded(FoundingSource(d, f).value.1, f)
    ensures Decode(Encode(size, Chat(Founded(size, d, f).value.1))) == Ok(Founded(size, d, f).value.1)
  {
  }

  /** A founding that is repeated once it has happened finds it done. */
  lemma FoundingRepeats(size: Encoder, d: Disk, f: Founding)
    requires Founded(size, d, f).Ok?
    ensures Founded(size, Founded(size, d, f).value.0, f) == Founded(size, d, f)
  {
    var source, e, next := FoundingSource(d, f).value, Founded(size, d, f).value.0, Founded(size, d, f).value.1;
    if !AlreadyFounded(source.1, f) {
      FoundedDecodes(size, d, f);
      hide ValidConversation, ValidFounding, Inventory;
      assert CurrentBytes(e, f.scope) == Ok(Some(Encode(size, Chat(next))));
    }
  }

  /**
   * Founding again from between its writes gives the same disk and document exactly when there is room for the saved
   * copy.
   */
  lemma FoundingRetries(size: Encoder, d: Disk, f: Founding)
    requires Founded(size, d, f).Ok? && !AlreadyFounded(FoundingSource(d, f).value.1, f)
    ensures var found, next := FoundingSource(d, f).value.0, Founded(size, d, f).value.1;
            var held := if found.Some? then found.value.count - SizeOf(d.rollback, f.scope) else 0;
            Founded(size, Saved(d, f.scope, found), f)
              == if FoundFootprint(d, f.scope, found, Encode(size, Chat(next))) + held <= PHYSICAL_BYTES
                 then Founded(size, d, f)
                 else Err(Full)
  {
    var source := FoundingSource(d, f).value;
    FoundedDecodes(size, d, f);
    hide ValidConversation, ValidFounding;
    if source.0.Some? {
      var x := Saved(d, f.scope, source.0);
      assert CurrentBytes(x, f.scope) == Ok(source.0);
      assert ReadValue(x.rollback, f.scope) == Ok(source.0);
      assert x.rollback[f.scope := source.0.value] == x.rollback;
    }
    hide Inventory;
  }

  /** Founding changes epoch, session and revision of a document without messages, and touches no other conversation. */
  lemma FoundingMeaning(size: Encoder, d: Disk, f: Founding)
    requires Founded(size, d, f).Ok? && !AlreadyFounded(FoundingSource(d, f).value.1, f)
    ensures var (e, next) := Founded(size, d, f).value;
            var previous := FoundingSource(d, f).value.1;
            && CurrentBytes(e, f.scope) == Ok(Some(Encode(size, Chat(next))))
               && Decode(Encode(size, Chat(next))) == Ok(next)
            && next.messages == previous.messages == [] && next.epoch == Some(f.epoch)
               && next.physicalSession == f.session
            && next.revision == f.expectedRevision + 1 && e.files == d.files
            && next.draft == previous.draft && next.draftResources == previous.draftResources
            && next.header == previous.header && next.nextCursor == previous.nextCursor
               && next.hasMore == previous.hasMore
            && (forall s :: s != f.scope ==> CurrentBytes(e, s) == CurrentBytes(d, s))
  {
    FoundedDecodes(size, d, f);
    hide ValidConversation, ValidFounding, Inventory;
  }
}
