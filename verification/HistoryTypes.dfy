/**
 * The values the history store keeps: conversations, archive manifests, rollover intents, and the bytes they become.
 */
module HistoryTypes {
  import opened Wrappers

  const RECORD_BYTES := 8 * 1024 * 1024
  const PHYSICAL_BYTES := 64 * 1024 * 1024
  const PHYSICAL_RECORDS := 128
  const MANIFEST_BYTES := 64 * 1024
  const METADATA_RESERVE := 256 * 1024
  const INVENTORY_LIMIT := 512
  const RESOURCE_LIMIT := 128
  const SESSION_ID_BYTES := 2048
  const MAX_COUNTER := 9_007_199_254_740_991

  datatype Failure = Invalid | Full | Changed | Missing | Unavailable | CommitUncertain

  /** Text is its UTF-8 bytes: the source compares strings by those bytes only. */
  newtype Byte = n: int | 0 <= n < 256
  type Text = seq<Byte>

  /** A UUID. */
  type Id = nat

  datatype Delivery = Queued | Held | Sending | Sent | Delivered | Uncertain | Failed

  /** `content` stands for the fields no storage rule inspects; `mediaValid` for the per-message media checks. */
  datatype Message = Message(
    id: Text,
    ownedUser: bool,
    streaming: bool,
    key: Option<Text>,
    delivery: Option<Delivery>,
    resources: set<Id>,
    mediaValid: bool,
    content: nat)

  /** `header` stands for the fields carried through unread; `headerValid` for the checks made on them. */
  datatype Conversation = Conversation(
    revision: int,
    draft: Text,
    draftResources: seq<Id>,
    messages: seq<Message>,
    nextCursor: Option<Text>,
    hasMore: bool,
    epoch: Option<Id>,
    physicalSession: Option<Text>,
    header: nat,
    headerValid: bool)

  datatype Scope = Scope(connection: Text, agent: Text, session: Text)

  /** SHA-256 is modelled as an injective digest: it remembers the bytes it was taken of. */
  datatype Digest = Digest(of: Bytes)

  datatype Archive = Archive(
    version: int,
    id: Id,
    scope: Scope,
    fromEpoch: Option<Id>,
    toEpoch: Id,
    physicalSession: Option<Text>,
    savedAt: int,
    byteCount: nat,
    sha: Digest,
    replacementSha: Digest,
    sourceRevision: int,
    resources: set<Id>)

  datatype Intent = Intent(version: int, archive: Archive, expectedCurrent: Digest, replacementBytes: nat)

  /** What a byte string decodes to. `Opaque` decodes to nothing. */
  datatype Payload =
    | Chat(chat: Conversation)
    | Manifest(archive: Archive)
    | Plan(intent: Intent)
    | Opaque

  /**
   * A byte string: its meaning, its spelling (0 is the encoder's own; others keep unknown fields or another layout),
   * its length.
   */
  datatype Bytes = Bytes(payload: Payload, spelling: nat, count: nat)

  /** How many bytes the deterministic encoder produces. Valid manifests and intents fit the manifest limit. */
  ghost predicate Lawful(size: Payload -> nat) {
    && (forall p :: size(p) > 0)
    && (forall a :: ValidArchive(a) ==> size(Manifest(a)) <= MANIFEST_BYTES)
    && (forall i :: ValidIntent(i) ==> size(Plan(i)) <= MANIFEST_BYTES)
  }

  type Encoder = size: Payload -> nat | Lawful(size) witness (_: Payload) => 1

  function Encode(size: Encoder, payload: Payload): Bytes {
    Bytes(payload, 0, size(payload))
  }

  predicate ValidSession(session: Option<Text>) {
    session.Some? ==> 0 < |session.value| <= SESSION_ID_BYTES
  }

  /** UTF-16 code units of a UTF-8 text: one for each lead byte, two for a four-byte lead. */
  function Utf16Count(t: Text): nat {
    if t == [] then 0
    else (if 128 <= t[0] < 192 then 0 else if t[0] >= 240 then 2 else 1) + Utf16Count(t[1..])
  }

  predicate ValidScope(scope: Scope) {
    && scope.connection != [] && Utf16Count(scope.connection) <= 1000
    && scope.agent != [] && Utf16Count(scope.agent) <= 1000
    && scope.session != [] && Utf16Count(scope.session) <= 2000
  }

  predicate ValidArchive(a: Archive) {
    && ValidScope(a.scope)
    && a.version == 1
    && a.fromEpoch != Some(a.toEpoch)
    && a.savedAt > 0
    && 0 < a.byteCount <= RECORD_BYTES
    && 0 <= a.sourceRevision < MAX_COUNTER
    && |a.resources| <= RESOURCE_LIMIT
    && ValidSession(a.physicalSession)
  }

  predicate ValidIntent(i: Intent) {
    && ValidArchive(i.archive)
    && i.version == 1
    && i.archive.sha == i.expectedCurrent
    && 0 < i.replacementBytes <= RECORD_BYTES
  }

  predicate DistinctIds(messages: seq<Message>) {
    forall i, j :: 0 <= i < j < |messages| ==> messages[i].id != messages[j].id
  }

  predicate ValidConversation(c: Conversation) {
    && c.headerValid
    && 0 <= c.revision < MAX_COUNTER
    && |c.draftResources| <= 6
    && (forall i, j :: 0 <= i < j < |c.draftResources| ==> c.draftResources[i] != c.draftResources[j])
    && ValidSession(c.physicalSession)
    && DistinctIds(c.messages)
    && (forall m :: m in c.messages ==> m.mediaValid)
  }

  function MessageResources(messages: seq<Message>): set<Id> {
    set m, r | m in messages && r in m.resources :: r
  }

  function Resources(c: Conversation): set<Id> {
    (set r | r in c.draftResources) + MessageResources(c.messages)
  }

  /** Decoding for a history transaction: empty, oversized, malformed and invalid documents are refused. */
  function Decode(raw: Bytes): Result<Conversation, Failure> {
    if 0 < raw.count <= RECORD_BYTES && raw.payload.Chat? && ValidConversation(raw.payload.chat)
    then Ok(raw.payload.chat) else Err(Invalid)
  }

  predicate Retainable(m: Message) {
    && m.ownedUser
    && m.key.Some? && m.key.value != []
    && m.delivery.Some? && m.delivery.value in {Queued, Held, Sending, Uncertain, Failed}
  }

  /** The messages whose ID is in `ids`, in order. */
  function Retain(messages: seq<Message>, ids: set<Text>): (kept: seq<Message>)
    ensures forall m :: m in kept <==> m in messages && m.id in ids
    ensures |kept| <= |messages|
  {
    if messages == [] then []
    else if messages[0].id in ids then [messages[0]] + Retain(messages[1..], ids)
    else Retain(messages[1..], ids)
  }

  function IdsOf(messages: seq<Message>): set<Text> {
    set m | m in messages :: m.id
  }
}
