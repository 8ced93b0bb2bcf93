/** What the answers of the store mean, in terms of the documents a caller reads before and after. */
module HistoryAnswers {
  import opened Wrappers
  import opened HistoryTypes
  import opened HistoryDisk
  import opened HistoryProtocol
  import opened HistoryRecovery
  import opened HistoryRollover
  import opened ConversationWrites
  import opened HistorySteps
  import opened HistoryCalls

  // ----- the document a rollover installs -----

  /** Exactly the messages named stand in `kept`, each as it was, in the order they had. */
  ghost predicate Selects(messages: seq<Message>, ids: set<Text>, kept: seq<Message>) {
    && (forall m :: m in kept <==> m in messages && m.id in ids)
    && DistinctIds(kept)
    && (forall i, j, a, b | 0 <= i < j < |messages| && 0 <= a < |kept| && 0 <= b < |kept|
                            && kept[a].id == messages[i].id && kept[b].id == messages[j].id :: a < b)
  }

  lemma RetainSelects(messages: seq<Message>, ids: set<Text>)
    requires DistinctIds(messages)
    ensures Selects(messages, ids, Retain(messages, ids))
  {
    RetainKeepsDistinct(messages, ids);
    var kept := Retain(messages, ids);
    hide Retain;
    forall i, j, a, b | 0 <= i < j < |messages| && 0 <= a < |kept| && 0 <= b < |kept|
                        && kept[a].id == messages[i].id && kept[b].id == messages[j].id
      ensures a < b
    {
      RetainKeepsOrder(messages, ids, i, j, a, b);
    }
  }

  lemma {:induction false} RetainKeepsOrder(messages: seq<Message>, ids: set<Text>, i: nat, j: nat, a: nat, b: nat)
    requires DistinctIds(messages) && i < j < |messages| && a < |Retain(messages, ids)| && b < |Retain(messages, ids)|
    requires Retain(messages, ids)[a].id == messages[i].id && Retain(messages, ids)[b].id == messages[j].id
    ensures a < b
  {
    hide Retain, DistinctIds, Skips;
    var skip := Skips(messages, ids);
    LaterIsLater(messages, ids, j, b);
    if i == 0 {
      FirstIsFirst(messages, ids, a);
    } else {
      LaterIsLater(messages, ids, i, a);
      TailIsDistinct(messages);
      RetainKeepsOrder(messages[1..], ids, i - 1, j - 1, a - skip, b - skip);
    }
  }

  function Skips(messages: seq<Message>, ids: set<Text>): nat
    requires messages != []
  {
    if messages[0].id in ids then 1 else 0
  }

  lemma TailIsDistinct(messages: seq<Message>)
    requires DistinctIds(messages) && messages != []
    ensures DistinctIds(messages[1..])
  {
  }

  lemma FirstIsFirst(messages: seq<Message>, ids: set<Text>, a: nat)
    requires DistinctIds(messages) && messages != [] && a < |Retain(messages, ids)|
    requires Retain(messages, ids)[a].id == messages[0].id
    ensures a == 0 && Skips(messages, ids) == 1
  {
    FirstIsApart(messages, ids);
  }

  lemma LaterIsLater(messages: seq<Message>, ids: set<Text>, j: nat, b: nat)
    requires DistinctIds(messages) && 0 < j < |messages| && b < |Retain(messages, ids)|
    requires Retain(messages, ids)[b].id == messages[j].id
    ensures Skips(messages, ids) <= b && b - Skips(messages, ids) < |Retain(messages[1..], ids)|
    ensures Retain(messages[1..], ids)[b - Skips(messages, ids)].id == messages[1..][j - 1].id
  {
  }

  lemma FirstIsApart(messages: seq<Message>, ids: set<Text>)
    requires DistinctIds(messages) && messages != []
    ensures forall k :: 0 <= k < |Retain(messages[1..], ids)| ==> Retain(messages[1..], ids)[k].id != messages[0].id
  {
    var rest := Retain(messages[1..], ids);
    assert forall m :: m in rest ==> m in messages[1..];
    assert forall k :: 0 <= k < |rest| ==> rest[k] in rest;
  }

  /** The next document of a rollover: the new session and epoch, one revision on, and only what the user retains. */
  ghost predicate Succeeds(prior: Conversation, r: Request, next: Conversation) {
    && prior.revision == r.expectedRevision && next.revision == r.expectedRevision + 1
    && prior.epoch == r.fromEpoch && next.epoch == Some(r.toEpoch) && next.physicalSession == r.physicalSession
    && next.nextCursor == None && !next.hasMore
    && next.draft == prior.draft && next.draftResources == prior.draftResources
    && next.header == prior.header && next.headerValid == prior.headerValid
    && Selects(prior.messages, r.retaining, next.messages) && IdsOf(next.messages) == r.retaining
    && forall m :: m in next.messages ==>
                     && m.ownedUser && m.key.Some? && m.key.value != []
                     && m.delivery in {Some(Queued), Some(Held), Some(Sending), Some(Uncertain), Some(Failed)}
  }

  lemma {:induction false} RetainedAreNamed(messages: seq<Message>, ids: set<Text>)
    requires DistinctIds(messages) && |Retain(messages, ids)| == |ids|
    ensures IdsOf(Retain(messages, ids)) == ids
  {
    var kept := Retain(messages, ids);
    RetainKeepsDistinct(messages, ids);
    IdsAreCounted(kept);
    assert IdsOf(kept) <= ids;
    SameSize(IdsOf(kept), ids);
  }

  lemma {:induction false} IdsAreCounted(messages: seq<Message>)
    requires DistinctIds(messages)
    ensures |IdsOf(messages)| == |messages|
  {
    if messages != [] {
      var last := |messages| - 1;
      IdsAreCounted(messages[..last]);
      assert messages == messages[..last] + [messages[last]];
      assert IdsOf(messages) == IdsOf(messages[..last]) + {messages[last].id};
      assert messages[last].id !in IdsOf(messages[..last]);
    }
  }

  lemma SameSize<T>(a: set<T>, b: set<T>)
    requires a <= b && |a| == |b|
    ensures a == b
  {
    assert b == a + (b - a);
    assert |b| == |a| + |b - a|;
  }

  lemma ReplacementSucceeds(current: Conversation, r: Request)
    requires ValidConversation(current) && current.revision == r.expectedRevision && current.epoch == r.fromEpoch
    requires var retained := Retain(current.messages, r.retaining);
             |retained| == |r.retaining| && forall m :: m in retained ==> Retainable(m)
    ensures Succeeds(current, r, Replacement(current, r))
  {
    RetainSelects(current.messages, r.retaining);
    RetainedAreNamed(current.messages, r.retaining);
    hide Retain, Selects, IdsOf;
  }

  // ----- the answer of a rollover -----

  /** The document a caller reads. */
  predicate Reads(d: Disk, scope: Scope, raw: Bytes, c: Conversation) {
    CurrentBytes(d, scope) == Ok(Some(raw)) && Decode(raw) == Ok(c)
  }

  /** The new archive says what it holds, whence and when. */
  predicate Describes(a: Archive, r: Request, id: Id, now: int, original: Bytes, prior: Conversation,
                      replacement: Bytes)
  {
    && a.id == id && a.scope == r.scope && a.savedAt == now
    && a.fromEpoch == prior.epoch && a.toEpoch == r.toEpoch && a.sourceRevision == prior.revision
    && a.physicalSession == prior.physicalSession && a.resources == Resources(prior)
    && a.byteCount == original.count && a.sha == Digest(original) && a.replacementSha == Digest(replacement)
  }

  /** The conversation has moved on to its next document; what it was is the rollback and a new archive. */
  ghost predicate MovedOn(d: Disk, r: Request, id: Id, now: int, value: (Archive, Conversation), e: Disk) {
    exists original, prior, replacement ::
      && Reads(d, r.scope, original, prior) && Reads(e, r.scope, replacement, value.1)
      && (r.expectedCurrent.Some? ==> r.expectedCurrent == Some(Digest(original)))
      && Succeeds(prior, r, value.1) && Describes(value.0, r, id, now, original, prior, replacement)
      && Catalog(e.files) == Catalog(d.files) + {value.0} && ReadBody(e.files, value.0) == Ok(original)
      && e.rollback == d.rollback[r.scope := original]
      && forall s :: s != r.scope ==> CurrentBytes(e, s) == CurrentBytes(d, s)
  }

  /** The same request has been carried out before: the one archive of that step says so, and nothing is written. */
  ghost predicate FoundDone(d: Disk, r: Request, value: (Archive, Conversation), e: Disk) {
    && e == d
    && (exists raw :: Reads(d, r.scope, raw, value.1) && value.0.replacementSha == Digest(raw))
    && value.0 in Catalog(d.files) && ReadBody(d.files, value.0).Ok?
    && value.0.scope == r.scope && value.0.sourceRevision == r.expectedRevision
    && value.0.fromEpoch == r.fromEpoch && value.0.toEpoch == r.toEpoch
    && value.1.epoch == Some(r.toEpoch) && value.1.physicalSession == r.physicalSession
    && IdsOf(value.1.messages) == r.retaining
    && (r.expectedCurrent.Some? ==> r.expectedCurrent == Some(value.0.sha))
  }

  /** A rollover that returned has moved the conversation on, or found that it had. */
  lemma RolloverAnswers(size: Encoder, d: Disk, r: Request, id: Id, now: int, value: (Archive, Conversation), e: Disk)
    requires Settled(d) && Performed(size, d, r, id, now, value, e)
    ensures Planned(size, d, r, id, now).value.Replay? ==> FoundDone(d, r, value, e)
    ensures Planned(size, d, r, id, now).value.Commit? ==> MovedOn(d, r, id, now, value, e)
  {
    var plan := Planned(size, d, r, id, now).value;
    if plan.Replay? {
      ReplayIsFound(size, d, r, id, now, value);
    } else {
      CommitMoves(size, d, r, id, now, plan);
    }
  }

  lemma ReplayIsFound(size: Encoder, d: Disk, r: Request, id: Id, now: int, value: (Archive, Conversation))
    requires Planned(size, d, r, id, now) == Ok(Replay(value.0, value.1))
    ensures FoundDone(d, r, value, d)
  {
    var original := CurrentBytes(d, r.scope).value.value;
    hide ValidConversation;
    assert Reads(d, r.scope, original, value.1);
  }

  lemma CommitMoves(size: Encoder, d: Disk, r: Request, id: Id, now: int, c: Step)
    requires PlannedCommit(size, d, r, id, now, c) && Meta(id) !in d.files
    ensures c.original.payload.Chat?
    ensures MovedOn(d, r, id, now, (c.intent.archive, Replacement(c.original.payload.chat, r)), Committed(size, d, c))
  {
    PlannedFacts(size, d, r, id, now, c);
    CommittedMeaning(size, d, r, id, now, c);
    CommitIsWarranted(size, d, r, id, now, c);
    var prior := c.original.payload.chat;
    hide PlannedCommit, Catalog, ReadBody, Replacement, ValidConversation, Committed, Planned, Decode, CurrentBytes;
    hide Succeeds, ValidArchive, ValidRequest, Accounted;
    assert Reads(d, r.scope, c.original, prior);
    assert Reads(Committed(size, d, c), r.scope, c.replacement, Replacement(prior, r));
    assert Describes(c.intent.archive, r, id, now, c.original, prior, c.replacement);
  }

  /** What a rollover checks of the document before it commits. */
  lemma CommitIsWarranted(size: Encoder, d: Disk, r: Request, id: Id, now: int, c: Step)
    requires PlannedCommit(size, d, r, id, now, c)
    ensures c.Commit? && c.original.payload.Chat?
    ensures r.expectedCurrent.Some? ==> r.expectedCurrent == Some(Digest(c.original))
    ensures Succeeds(c.original.payload.chat, r, Replacement(c.original.payload.chat, r))
  {
    PlannedFacts(size, d, r, id, now, c);
    hide Manifests, Catalog, ReadBody, CurrentBytes, ValidArchive, Accounted;
    ReplacementSucceeds(c.original.payload.chat, r);
  }

  // ----- repeating a rollover -----

  /** The archive of the step a request asks for. */
  predicate StepOf(a: Archive, r: Request) {
    a.scope == r.scope && a.fromEpoch == r.fromEpoch && a.toEpoch == r.toEpoch && a.sourceRevision == r.expectedRevision
  }

  /** Repeating a step is recognised exactly by the one archive of it, its bytes and the document's own fields. */
  lemma ReplayedIs(files: Directory, catalog: set<Archive>, r: Request, current: Conversation, original: Bytes,
                   a: Archive)
    ensures Replayed(files, catalog, r, current, original) == Ok(Replay(a, current)) <==>
              && a in catalog && StepOf(a, r) && (forall b :: b in catalog && StepOf(b, r) ==> b == a)
              && a.replacementSha == Digest(original) && current.physicalSession == r.physicalSession
              && IdsOf(current.messages) == r.retaining
              && (r.expectedCurrent.Some? ==> r.expectedCurrent == Some(a.sha)) && ReadBody(files, a).Ok?
  {
    var matches := set x | x in catalog && x.scope == r.scope && x.toEpoch == r.toEpoch && x.fromEpoch == r.fromEpoch
                           && x.sourceRevision == r.expectedRevision;
    hide ReadBody, IdsOf;
    if a in catalog && StepOf(a, r) && forall b :: b in catalog && StepOf(b, r) ==> b == a {
      assert matches == {a};
    }
    if |matches| == 1 {
      var b :| b in matches;
      SoleMember(matches, b);
      assert forall x :: x in catalog && StepOf(x, r) ==> x in matches;
      assert a in matches <==> a == b;
    }
  }

  lemma SoleMember<T>(s: set<T>, x: T)
    requires x in s && |s| == 1
    ensures s == {x}
  {
    SameSize({x}, s);
  }

  /** A request is found done exactly when the catalog and the document say so. */
  lemma ReplayIsExact(size: Encoder, d: Disk, r: Request, id: Id, now: int, a: Archive, c: Conversation)
    ensures Planned(size, d, r, id, now) == Ok(Replay(a, c)) <==>
              && ValidRequest(r) && Manifests(d.files).Ok? && FoundDone(d, r, (a, c), d)
              && forall b :: b in Catalog(d.files) && StepOf(b, r) ==> b == a
  {
    var found := CurrentBytes(d, r.scope);
    if found.Ok? && found.value.Some? {
      var raw := found.value.value;
      CurrentDecodes(d, r.scope);
      DecodedIs(raw);
      DraftCommits(size, d, r, raw, id, now);
      ReplayedIs(d.files, Catalog(d.files), r, raw.payload.chat, raw, a);
      assert Reads(d, r.scope, raw, raw.payload.chat);
      assert ValidRequest(r) ==>
        Planned(size, d, r, id, now)
          == if raw.payload.chat.epoch != Some(r.toEpoch) then Drafted(size, d, r, raw, id, now)
             else if Manifests(d.files).Err? then Err(Manifests(d.files).error)
             else Replayed(d.files, Catalog(d.files), r, raw.payload.chat, raw);
      hide Replayed, ReadBody, Catalog, Accounted, ValidRequest, IdsOf, ValidConversation, Drafted, Planned, Manifests;
      hide CurrentBytes, Decode;
      assert FoundDone(d, r, (a, c), d) ==> c == raw.payload.chat;
    }
    hide Replayed, ReadBody, Catalog, Accounted, ValidRequest, IdsOf, ValidConversation, Drafted, Manifests, Decode;
  }

  lemma DraftCommits(size: Encoder, d: Disk, r: Request, original: Bytes, id: Id, now: int)
    requires original.payload.Chat?
    ensures Drafted(size, d, r, original, id, now).Ok? ==> Drafted(size, d, r, original, id, now).value.Commit?
  {
    hide Manifests, Retain, Replacement;
  }

  lemma DecodedIs(raw: Bytes)
    requires Decode(raw).Ok?
    ensures raw.payload.Chat? && Decode(raw) == Ok(raw.payload.chat)
  {
  }

  /** The catalog of a committed rollover can be loaded. */
  lemma CommittedCatalog(size: Encoder, d: Disk, r: Request, id: Id, now: int, c: Step)
    requires PlannedCommit(size, d, r, id, now, c) && Meta(id) !in d.files
    ensures Manifests(Committed(size, d, c).files).Ok?
  {
    PlannedFacts(size, d, r, id, now, c);
    PlannedIsRoomy(size, d, r, id, now, c);
    var a, files := c.intent.archive, d.files;
    var manifest := Encode(size, Manifest(a));
    assert size(Manifest(a)) <= MANIFEST_BYTES;
    assert Body(id) in files ==> Body(id) in files.Keys && id !in ManifestIds(files);
    assert Body(id) !in files && Settled(d);
    hide Catalog, CurrentBytes, Decode, ReadBody, Planned, Total, ValidArchive, Accounted, Replacement, PlannedCommit;
    hide ManifestIds, Manifests;
    CommittedIsAccounted(files, a, c.original, manifest);
    CommittedIsLight(files, a.id, c.original, manifest);
    CommittedIsTidy(d, a.id, c.original, manifest);
    CommittedLoads(Committed(size, d, c).files, ManifestIds(files), id);
  }

  lemma CommittedLoads(files: Directory, ids: set<Id>, id: Id)
    requires Tidy(files, []) && Accounted(files) && Total(files) <= PHYSICAL_BYTES
    requires ManifestIds(files) == ids + {id} && |ids| < PHYSICAL_RECORDS
    ensures Manifests(files).Ok?
  {
    hide Accounted, Total, ManifestIds;
  }

  lemma CommittedIsLight(files: Directory, id: Id, original: Bytes, manifest: Bytes)
    requires Body(id) !in files && Meta(id) !in files
    ensures Total(files[Body(id) := original][Meta(id) := manifest])
         == Total(files) + original.count + manifest.count
  {
    TotalAdds(files, Body(id), original);
    TotalAdds(files[Body(id) := original], Meta(id), manifest);
    hide Total;
  }

  lemma CommittedIsTidy(d: Disk, id: Id, original: Bytes, manifest: Bytes)
    requires Settled(d) && |d.files| <= 2 * PHYSICAL_RECORDS - 2
    requires original.count <= RECORD_BYTES && manifest.count <= RECORD_BYTES
    ensures Tidy(d.files[Body(id) := original][Meta(id) := manifest], [])
  {
    TwoMore(d.files, Body(id), original, Meta(id), manifest);
  }

  lemma CommittedIsAccounted(files: Directory, a: Archive, original: Bytes, manifest: Bytes)
    requires Accounted(files) && IntentFile !in files && Meta(a.id) !in files && Body(a.id) !in files
    requires ValidArchive(a) && manifest.payload == Manifest(a) && 0 < manifest.count <= MANIFEST_BYTES
    requires original.count == a.byteCount
    ensures Accounted(files[Body(a.id) := original][Meta(a.id) := manifest])
    ensures ManifestIds(files[Body(a.id) := original][Meta(a.id) := manifest]) == ManifestIds(files) + {a.id}
  {
    var grown := files[Body(a.id) := original][Meta(a.id) := manifest];
    assert Meta(a.id) in grown.Keys;
    forall id | id in ManifestIds(grown)
      ensures ManifestReads(grown, id)
    {
      if id != a.id {
        assert Meta(id) in files.Keys;
        assert id in ManifestIds(files) && ManifestReads(files, id);
      }
    }
    forall n | n in grown.Keys && n.Body?
      ensures n.id in ManifestIds(grown)
    {
      if n.id != a.id {
        assert n in files.Keys && n.id in ManifestIds(files);
        assert Meta(n.id) in files.Keys && Meta(n.id) in grown.Keys;
      }
    }
  }

  /** Asking again for a rollover that was committed, under whatever ID and at whatever time, finds it done. */
  lemma RolloverRepeats(size: Encoder, d: Disk, r: Request, id: Id, now: int, c: Step, otherId: Id, later: int)
    requires PlannedCommit(size, d, r, id, now, c) && Meta(id) !in d.files
    ensures c.replacement.payload.Chat?
    ensures Planned(size, Committed(size, d, c), r, otherId, later)
         == Ok(Replay(c.intent.archive, c.replacement.payload.chat))
  {
    PlannedFacts(size, d, r, id, now, c);
    CommittedMeaning(size, d, r, id, now, c);
    CommittedCatalog(size, d, r, id, now, c);
    CommitIsWarranted(size, d, r, id, now, c);
    var a, e, next := c.intent.archive, Committed(size, d, c), c.replacement.payload.chat;
    hide Catalog, PlannedCommit, Committed, Manifests, ReadBody, ValidConversation, Selects, ValidArchive, Planned;
    hide CurrentBytes, Replacement, IdsOf, ValidRequest, Accounted;
    assert Reads(e, r.scope, c.replacement, next);
    hide Decode;
    ReplayIsExact(size, e, r, otherId, later, a, next);
  }

  // ----- when a rollover is refused -----

  /** The conversation's document does not stand where the request says. */
  predicate Elsewhere(c: Conversation, raw: Bytes, r: Request) {
    c.revision != r.expectedRevision || c.epoch != r.fromEpoch
    || (r.expectedCurrent.Some? && r.expectedCurrent != Some(Digest(raw)))
  }

  /** A message is to be retained that is not there, or that is no pending input of the user's own. */
  predicate Unretainable(c: Conversation, ids: set<Text>) {
    || (exists id :: id in ids && id !in IdsOf(c.messages))
    || (exists m :: m in c.messages && m.id in ids
                    && !(&& m.ownedUser && m.key.Some? && m.key.value != []
                         && m.delivery in {Some(Queued), Some(Held), Some(Sending), Some(Uncertain), Some(Failed)}))
  }

  lemma UnretainableIs(c: Conversation, ids: set<Text>)
    requires DistinctIds(c.messages)
    ensures var kept := Retain(c.messages, ids);
            Unretainable(c, ids) <==> !(|kept| == |ids| && forall m :: m in kept ==> Retainable(m))
  {
    var kept := Retain(c.messages, ids);
    RetainKeepsDistinct(c.messages, ids);
    IdsAreCounted(kept);
    assert IdsOf(kept) <= ids;
    if |kept| == |ids| {
      RetainedAreNamed(c.messages, ids);
      forall id | id in ids
        ensures id in IdsOf(c.messages)
      {
        var m :| m in kept && m.id == id;
      }
    }
    if forall id :: id in ids ==> id in IdsOf(c.messages) {
      forall id | id in ids
        ensures id in IdsOf(kept)
      {
        var m :| m in c.messages && m.id == id;
        assert m in kept;
      }
      assert IdsOf(kept) == ids;
    }
  }

  lemma ArchiveIsValid(r: Request, c: Conversation, raw: Bytes, replacement: Bytes, id: Id, now: int)
    requires ValidRequest(r) && Decode(raw) == Ok(c) && !Elsewhere(c, raw, r)
    ensures ValidArchive(NewArchive(r, c, raw, replacement, id, now)) <==>
              now > 0 && |Resources(c)| <= RESOURCE_LIMIT
  {
    hide Resources, Utf16Count;
  }

  lemma PlannedIsDrafted(size: Encoder, d: Disk, r: Request, id: Id, now: int, raw: Bytes, c: Conversation)
    requires ValidRequest(r) && Reads(d, r.scope, raw, c) && c.epoch != Some(r.toEpoch)
    ensures raw.payload == Chat(c) && DistinctIds(c.messages) && raw.count <= RECORD_BYTES
    ensures Planned(size, d, r, id, now) == Drafted(size, d, r, raw, id, now)
  {
    hide CurrentBytes, Drafted;
  }

  /** A document that has not reached the new epoch is moved on exactly when nothing below speaks against it. */
  lemma RolloverIsAccepted(size: Encoder, d: Disk, r: Request, id: Id, now: int, raw: Bytes, c: Conversation)
    requires ValidRequest(r) && Reads(d, r.scope, raw, c) && c.epoch != Some(r.toEpoch)
    ensures var next := size(Chat(Replacement(c, r)));
            var room := Total(d.files) + 3 * raw.count + SizeOf(d.rollback, r.scope) + 2 * next + METADATA_RESERVE;
            Planned(size, d, r, id, now).Ok? <==>
              && !Elsewhere(c, raw, r) && !Unretainable(c, r.retaining)
              && next <= RECORD_BYTES && SizeOf(d.rollback, r.scope) <= RECORD_BYTES && room <= PHYSICAL_BYTES
              && Manifests(d.files).Ok? && |ManifestIds(d.files)| < PHYSICAL_RECORDS
              && (forall a :: a in Catalog(d.files) ==> !(a.scope == r.scope && a.toEpoch == r.toEpoch))
              && now > 0 && |Resources(c)| <= RESOURCE_LIMIT
    ensures Planned(size, d, r, id, now).Ok? ==> Planned(size, d, r, id, now).value.Commit?
  {
    PlannedIsDrafted(size, d, r, id, now, raw, c);
    UnretainableIs(c, r.retaining);
    if !Elsewhere(c, raw, r) {
      ArchiveIsValid(r, c, raw, Encode(size, Chat(Replacement(c, r))), id, now);
    }
    if !Elsewhere(c, raw, r) && !Unretainable(c, r.retaining) {
      DraftNeedsRoom(size, d, r, id, now, raw, c);
    }
    hide Manifests, Retain, Unretainable, Resources, Total, Catalog, IdsOf, Decode, Retainable, CurrentBytes, Planned;
    hide Replacement, ValidArchive, ValidRequest, DistinctIds, Reads, NewArchive, ManifestIds;
  }

  lemma DraftNeedsRoom(size: Encoder, d: Disk, r: Request, id: Id, now: int, raw: Bytes, c: Conversation)
    requires raw.payload == Chat(c) && !Elsewhere(c, raw, r)
    requires var kept := Retain(c.messages, r.retaining);
             |kept| == |r.retaining| && forall m :: m in kept ==> Retainable(m)
    ensures var next := size(Chat(Replacement(c, r)));
            var room := Total(d.files) + 3 * raw.count + SizeOf(d.rollback, r.scope) + 2 * next + METADATA_RESERVE;
            Drafted(size, d, r, raw, id, now).Ok? <==>
              && next <= RECORD_BYTES && SizeOf(d.rollback, r.scope) <= RECORD_BYTES && room <= PHYSICAL_BYTES
              && Manifests(d.files).Ok? && |ManifestIds(d.files)| < PHYSICAL_RECORDS
              && (forall a :: a in Catalog(d.files) ==> !(a.scope == r.scope && a.toEpoch == r.toEpoch))
              && ValidArchive(NewArchive(r, c, raw, Encode(size, Chat(Replacement(c, r))), id, now))
  {
    ManifestsAre(d.files);
    hide Manifests, Retain, Total, Catalog, Retainable, Replacement, ValidArchive, NewArchive, ManifestIds;
  }

  lemma ManifestsRefuse(files: Directory)
    ensures Manifests(files).Err? ==> Manifests(files).error in {Invalid, Full}
  {
    hide Total, ManifestIds, Accounted, Catalog;
  }

  lemma ManifestsAre(files: Directory)
    ensures Manifests(files).Ok? ==> Manifests(files).value == Catalog(files)
  {
    hide Total, ManifestIds, Accounted, Catalog;
  }

  /** A refusal names its cause: what it takes to be missing, changed, full or invalid. */
  lemma RefusalsNameTheirCause(size: Encoder, d: Disk, r: Request, id: Id, now: int, raw: Bytes, c: Conversation)
    requires ValidRequest(r) && Reads(d, r.scope, raw, c) && c.epoch != Some(r.toEpoch)
    requires Planned(size, d, r, id, now).Err?
    ensures var e := Planned(size, d, r, id, now).error;
            && e in {Changed, Invalid, Full}
            && (Elsewhere(c, raw, r) ==> e == Changed)
            && (e == Changed ==> Elsewhere(c, raw, r)
                                 || exists a :: a in Catalog(d.files) && a.scope == r.scope && a.toEpoch == r.toEpoch)
            && (!Elsewhere(c, raw, r) && Unretainable(c, r.retaining) ==> e == Invalid)
            && (size(Chat(Replacement(c, r))) > RECORD_BYTES ==>
                  Elsewhere(c, raw, r) || Unretainable(c, r.retaining) || e == Full)
            && (e == Invalid ==> Unretainable(c, r.retaining) || now <= 0 || |Resources(c)| > RESOURCE_LIMIT
                                 || Manifests(d.files) == Err(Invalid))
  {
    PlannedIsDrafted(size, d, r, id, now, raw, c);
    UnretainableIs(c, r.retaining);
    if !Elsewhere(c, raw, r) {
      ArchiveIsValid(r, c, raw, Encode(size, Chat(Replacement(c, r))), id, now);
    }
    ManifestsAre(d.files);
    ManifestsRefuse(d.files);
    hide Retain, Unretainable, Resources, Total, Catalog, IdsOf, Decode, Retainable, CurrentBytes, Planned, Reads;
    hide Replacement, ValidArchive, ValidRequest, DistinctIds, Manifests, NewArchive, ManifestIds;
  }

  /** Before that: a request that makes no sense, a conversation that is not there, one that cannot be read. */
  lemma NothingToMoveOn(size: Encoder, d: Disk, r: Request, id: Id, now: int)
    ensures !ValidRequest(r) ==> Planned(size, d, r, id, now) == Err(Invalid)
    ensures ValidRequest(r) && CurrentBytes(d, r.scope) == Ok(None) ==> Planned(size, d, r, id, now) == Err(Missing)
    ensures ValidRequest(r) && CurrentBytes(d, r.scope).Err? ==>
              Planned(size, d, r, id, now) == Err(CurrentBytes(d, r.scope).error)
  {
    hide CurrentBytes, Manifests, Drafted, Replayed;
  }

  // ----- what recovery may install -----

  /** One document moves to the next as the archive says. */
  ghost predicate Moves(before: Payload, after: Payload, a: Archive) {
    && before.Chat? && after.Chat?
    && var prior, next := before.chat, after.chat;
       && prior.revision == a.sourceRevision && next.revision == prior.revision + 1
       && prior.epoch == a.fromEpoch && next.epoch == Some(a.toEpoch) && prior.physicalSession == a.physicalSession
       && next.draft == prior.draft && next.draftResources == prior.draftResources
       && next.nextCursor == None && !next.hasMore
       && Selects(prior.messages, IdsOf(next.messages), next.messages)
       && forall m :: m in next.messages ==>
                        && m.ownedUser && m.key.Some? && m.key.value != []
                        && m.delivery in {Some(Queued), Some(Held), Some(Sending), Some(Uncertain), Some(Failed)}
  }

  lemma DerivedMoves(prior: Conversation, next: Conversation, a: Archive)
    requires DistinctIds(prior.messages) && Derived(prior, next, a)
    requires next.revision == a.sourceRevision + 1 && next.epoch == Some(a.toEpoch)
    requires next.nextCursor == None && !next.hasMore
    ensures Moves(Chat(prior), Chat(next), a)
  {
    RetainSelects(prior.messages, IdsOf(next.messages));
    hide Retain, Selects, IdsOf, Resources;
  }

  /** The staged bytes an intent names by length and digest take the place of the very document it archives. */
  ghost predicate Installs(d: Disk, scope: Scope, e: Disk, i: Intent) {
    && i.archive.scope == scope
    && exists raw, staged ::
         && CurrentBytes(d, scope) == Ok(Some(raw)) && CurrentBytes(e, scope) == Ok(Some(staged))
         && Digest(raw) == i.archive.sha && Digest(staged) == i.archive.replacementSha
         && staged.count == i.replacementBytes && Moves(raw.payload, staged.payload, i.archive)
  }

  /** Recovery changes what is read of a conversation only by installing what the intent on disk names. */
  lemma RecoveryInstallsOnlyTheNamed(size: Encoder, d: Disk, scope: Scope)
    requires Goal(size, d).Ok? && CurrentBytes(Goal(size, d).value, scope) != CurrentBytes(d, scope)
    ensures Pending(d.files).Ok? && Pending(d.files).value.Some?
    ensures Installs(d, scope, Goal(size, d).value, Pending(d.files).value.value)
  {
    hide Goal, Finished, Installs;
    GoalIsFinished(size, d);
    if Pending(d.files).value.Some? {
      FinishedInstalls(size, d, Pending(d.files).value.value, scope);
      hide Pending, CurrentBytes;
      SameInstalled(d, scope, Finished(size, d, Pending(d.files).value.value).value, Goal(size, d).value,
                    Pending(d.files).value.value);
    }
  }

  lemma GoalIsFinished(size: Encoder, d: Disk)
    requires Goal(size, d).Ok?
    ensures Pending(d.files).Ok?
    ensures var e, found := Goal(size, d).value, Pending(d.files).value;
            && (found.None? ==> e.current == d.current && e.rollback == d.rollback)
            && (found.Some? ==>
                  && Finished(size, d, found.value).Ok?
                  && e.current == Finished(size, d, found.value).value.current
                  && e.rollback == Finished(size, d, found.value).value.rollback)
  {
    hide Finished;
  }

  lemma SameInstalled(d: Disk, scope: Scope, e: Disk, f: Disk, i: Intent)
    requires Installs(d, scope, e, i) && f.current == e.current && f.rollback == e.rollback
    ensures Installs(d, scope, f, i)
  {
    hide Moves;
  }

  lemma FinishedInstalls(size: Encoder, d: Disk, i: Intent, scope: Scope)
    requires Finished(size, d, i).Ok?
    requires CurrentBytes(Finished(size, d, i).value, scope) != CurrentBytes(d, scope)
    ensures Installs(d, scope, Finished(size, d, i).value, i)
  {
    var a, found, done := i.archive, CurrentBytes(d, i.archive.scope), Finished(size, d, i).value;
    var raw, staged := found.value.value, Staged(d.files, i).value;
    CurrentDecodes(d, a.scope);
    StagedDecodes(d.files, i);
    StagedSays(d.files, i);
    assert Digest(raw) == a.sha;
    assert done.current == d.current[a.scope := staged];
    assert done.rollback == d.rollback[a.scope := raw];
    assert Derived(raw.payload.chat, staged.payload.chat, a);
    hide Finished, Derived, Staged;
    assert scope == a.scope;
    CurrentInstalled(done, scope, staged);
    DerivedMoves(raw.payload.chat, staged.payload.chat, a);
    hide Moves, Decode;
  }

  lemma StagedSays(files: Directory, i: Intent)
    requires Staged(files, i).Ok?
    ensures var staged := Staged(files, i).value;
            && Decode(staged).Ok? && staged.count == i.replacementBytes && Digest(staged) == i.archive.replacementSha
            && staged.payload.Chat? && staged.payload.chat.revision == i.archive.sourceRevision + 1
            && staged.payload.chat.epoch == Some(i.archive.toEpoch)
            && staged.payload.chat.nextCursor == None && !staged.payload.chat.hasMore
  {
    hide ValidConversation;
  }

  // ----- reading after a restart -----

  /** A message after a restart: a send under way is uncertain, one that only waited is held, nothing streams. */
  predicate Rests(m: Message, found: Message) {
    && m.id == found.id && m.ownedUser == found.ownedUser && m.key == found.key && m.resources == found.resources
    && m.mediaValid == found.mediaValid && m.content == found.content && !m.streaming
    && (found.ownedUser && found.delivery == Some(Sending) ==> m.delivery == Some(Uncertain))
    && (found.ownedUser && found.delivery == Some(Queued) ==> m.delivery == Some(Held))
    && (!found.ownedUser || found.delivery !in {Some(Sending), Some(Queued)} ==> m.delivery == found.delivery)
  }

  /** Some delivery differs. */
  ghost predicate Redelivers(c: Conversation, found: Conversation) {
    exists i :: 0 <= i < |c.messages| && i < |found.messages| && c.messages[i].delivery != found.messages[i].delivery
  }

  /** A document after a restart: the same messages at rest, one revision on exactly when a delivery changed. */
  ghost predicate Rested(c: Conversation, found: Conversation) {
    && |c.messages| == |found.messages|
    && (forall i :: 0 <= i < |c.messages| ==> Rests(c.messages[i], found.messages[i]))
    && c.revision == found.revision + (if Redelivers(c, found) then 1 else 0)
    && c.draft == found.draft && c.draftResources == found.draftResources && c.nextCursor == found.nextCursor
    && c.hasMore == found.hasMore && c.epoch == found.epoch && c.physicalSession == found.physicalSession
    && c.header == found.header && c.headerValid == found.headerValid
  }

  lemma ResumedRests(found: Message)
    ensures Rests(Resumed(found), found)
    ensures Resumes(found) <==> Resumed(found).delivery != found.delivery
  {
  }

  lemma SettlingRests(found: Conversation)
    ensures Rested(Settling(found), found)
  {
    var c := Settling(found);
    hide Rests, Resumes, Resumed;
    forall i | 0 <= i < |found.messages|
      ensures Rests(c.messages[i], found.messages[i])
      ensures Resumes(found.messages[i]) <==> c.messages[i].delivery != found.messages[i].delivery
    {
      ResumedRests(found.messages[i]);
    }
    assert Redelivers(c, found) <==> exists i :: 0 <= i < |found.messages| && Resumes(found.messages[i]);
  }

  /**
   * A load returns the stored document at rest, and nothing if nothing is stored. What it returns is what is stored
   * afterwards, unless no delivery changed, when nothing is written, or the process knows a newer revision.
   */
  lemma LoadAnswers(size: Encoder, d: Disk, noted: map<Scope, int>, scope: Scope, value: Option<Conversation>, e: Disk)
    requires ReadAs(size, d, noted, scope, value, e)
    ensures Document(d, scope).Ok? && (value == None <==> Document(d, scope) == Ok(None))
    ensures value.Some? ==>
              var c, found := value.value, Document(d, scope).value.value.value;
              && Rested(c, found)
              && (!Redelivers(c, found) || Latest(noted, scope) > c.revision ==> e == d)
              && (Redelivers(c, found) && Latest(noted, scope) <= c.revision ==>
                    Document(e, scope) == Ok(Some(Stored(c, false))))
    ensures forall s :: s != scope ==> Document(e, s) == Document(d, s)
  {
    if value.Some? {
      var found := Document(d, scope).value.value.value;
      SettlingRests(found);
      hide Settling, Rests, Redelivers, Rested;
      if e != d { WriteIsAtomic(d, scope, Encode(size, Chat(Settling(found)))); }
      hide Document, Written;
    }
  }

  /** Loading what a load has stored changes nothing more. */
  lemma LoadingSettles(c: Conversation, found: Conversation)
    requires Rested(c, found)
    ensures Settling(c) == c
  {
    assert forall m :: m in c.messages ==> Resumed(m) == m && !Resumes(m);
    assert ResumedAll(c.messages) == c.messages;
  }

  // ----- ordinary writes -----

  /** A write that is not out of date is what is read afterwards; one that is changes nothing. */
  lemma WriteAnswers(size: Encoder, m: Process, c: Conversation, scope: Scope, q: Process, steps: seq<Image>)
    requires Stores(size, m, c, scope, q, steps, true) && Document(m.disk, scope).Ok?
    ensures c.revision >= Latest(m.latest, scope) ==> Document(q.disk, scope) == Ok(Some(Stored(c, false)))
    ensures c.revision < Latest(m.latest, scope) ==> q == m
    ensures forall s :: s != scope ==> Document(q.disk, s) == Document(m.disk, s)
  {
    if c.revision >= Latest(m.latest, scope) { WriteIsAtomic(m.disk, scope, Encode(size, Chat(c))); }
    hide Document, Written, DuringWrite;
  }

  /** A document may be written: it fits what is stored, and it is out of date or there is room. */
  ghost predicate Admits(size: Encoder, d: Disk, noted: map<Scope, int>, scope: Scope, c: Conversation) {
    var found, next := Document(d, scope), size(Chat(c));
    var current, rollback := SizeOf(d.current, scope), SizeOf(d.rollback, scope);
    && ValidConversation(c) && scope.connection != [] && scope.agent != [] && scope.session != []
    && found.Ok?
    && (found.value.Some? ==>
          found.value.value.value.epoch == c.epoch && found.value.value.value.physicalSession == c.physicalSession)
    && (c.revision >= Latest(noted, scope) ==>
          && next <= RECORD_BYTES && rollback <= RECORD_BYTES && Inventory(d.files, []).Ok?
          && Total(d.files) + current
             + (if found.value.Some? && !found.value.value.fromRollback
                then current + (if rollback > next then rollback else next) else rollback + next) <= PHYSICAL_BYTES)
  }

  /** The epoch and the physical session of a stored document. */
  function SessionOf(d: Disk, scope: Scope): Option<(Option<Id>, Option<Text>)> {
    var found := Document(d, scope);
    if found.Ok? && found.value.Some?
    then Some((found.value.value.value.epoch, found.value.value.value.physicalSession)) else None
  }

  /** Nothing an ordinary write leaves, at any instant, is of another epoch or session than what was stored. */
  lemma WritesKeepSessions(size: Encoder, m: Process, c: Conversation, scope: Scope, q: Process, steps: seq<Image>,
                           ok: bool, s: Image, x: Scope)
    requires Stores(size, m, c, scope, q, steps, ok) && (s in steps || s == Now(q)) && SessionOf(m.disk, x).Some?
    ensures SessionOf(s.disk, x) == SessionOf(m.disk, x)
  {
    if s.disk != m.disk {
      assert DuringWrite(size, m.disk, scope, c, s);
      WriteIsAtomic(m.disk, scope, Encode(size, Chat(c)));
      if x != scope { BackingUpIsQuiet(m.disk, scope, x); }
      hide Document, Weight;
    }
  }

  lemma BackingUpIsQuiet(d: Disk, scope: Scope, x: Scope)
    requires x != scope
    ensures Document(BackedUp(d, scope), x) == Document(d, x)
  {
  }

  /** Nor does a load. */
  lemma LoadsKeepSessions(size: Encoder, m: Process, scope: Scope, q: Process, steps: seq<Image>, ok: bool, s: Image,
                          x: Scope)
    requires Loads(size, m, scope, q, steps, ok) && (s in steps || s == Now(q)) && SessionOf(m.disk, x).Some?
    ensures SessionOf(s.disk, x) == SessionOf(m.disk, x)
  {
    hide Stores, Document, Settling;
    var found := Document(m.disk, scope);
    if !(q == m && steps == []) && Settling(found.value.value.value).revision != found.value.value.value.revision {
      var c := found.value.value.value;
      var noted := m.(latest := Raised(m.latest, scope, c.revision));
      hide Raised;
      WritesKeepSessions(size, noted, Settling(c), scope, q, steps, ok, s, x);
    }
  }

  // ----- what stands in for a lost document -----

  /** When the current document is lost or unreadable after a write, the one before it is read. */
  lemma RollbackStandsIn(d: Disk, scope: Scope, replacement: Bytes, damaged: Disk)
    requires scope in d.current && Parse(d.current[scope]).Ok?
    requires damaged.rollback == Written(d, scope, replacement).rollback
    requires scope in damaged.current ==>
               damaged.current[scope].count <= RECORD_BYTES && Parse(damaged.current[scope]).Err?
    ensures Document(damaged, scope) == Ok(Some(Stored(d.current[scope].payload.chat, true)))
  {
  }

  /** A transaction takes the rollback only for a current that is missing, and refuses one it cannot read. */
  lemma DamageIsNotOverwritten(d: Disk, scope: Scope, prior: Bytes)
    requires scope in d.rollback && d.rollback[scope] == prior && Decode(prior).Ok?
    ensures scope !in d.current ==> CurrentBytes(d, scope) == Ok(Some(prior))
    ensures scope in d.current && Decode(d.current[scope]).Err? ==> CurrentBytes(d, scope).Err?
    ensures scope in d.current && Decode(d.current[scope]).Ok? ==> CurrentBytes(d, scope) == Ok(Some(d.current[scope]))
  {
    hide ValidConversation;
  }

  // ----- when a session is bound or an epoch established -----

  /** Only input of the user's own that waits for nothing. */
  predicate OnlyHeldInput(messages: seq<Message>) {
    forall m :: m in messages ==>
                  && m.ownedUser && !m.streaming && m.key.Some? && m.key.value != []
                  && m.delivery in {Some(Held), Some(Uncertain), Some(Failed)}
  }

  /** A document is bound exactly when it is just reset, as expected, and there is room. */
  lemma BindingIsAccepted(patch: Patcher, d: Disk, b: Binding, raw: Bytes, c: Conversation)
    requires ValidBinding(b) && Reads(d, b.scope, raw, c) && Digest(raw) == b.expectedCurrent
    ensures var next := patch(raw, c.(revision := c.revision + 1, physicalSession := Some(b.session))).count;
            var room := Total(d.files) + 2 * raw.count + SizeOf(d.rollback, b.scope) + next + METADATA_RESERVE;
            Bound(patch, d, b).Ok? <==>
              && c.revision == b.expectedRevision && c.epoch == Some(b.epoch) && c.physicalSession == None
              && OnlyHeldInput(c.messages) && next <= RECORD_BYTES && SizeOf(d.rollback, b.scope) <= RECORD_BYTES
              && Inventory(d.files, []).Ok? && room <= PHYSICAL_BYTES
  {
    hide ValidConversation, CurrentBytes, Total, Inventory, ValidBinding;
  }

  /** A retry of a binding is accepted exactly when what stands is, to the byte, what it would have written. */
  lemma BindingRetryIsExact(patch: Patcher, d: Disk, b: Binding, raw: Bytes, c: Conversation, prior: Bytes)
    requires ValidBinding(b) && Reads(d, b.scope, raw, c) && Digest(raw) != b.expectedCurrent
    requires ReadValue(d.rollback, b.scope) == Ok(Some(prior))
    ensures Bound(patch, d, b).Ok? <==>
              && Digest(prior) == b.expectedCurrent && Decode(prior).Ok?
              && var p := prior.payload.chat;
                 && p.revision == b.expectedRevision && p.epoch == Some(b.epoch) && p.physicalSession == None
                 && OnlyHeldInput(p.messages)
                 && raw == patch(prior, p.(revision := p.revision + 1, physicalSession := Some(b.session)))
    ensures Bound(patch, d, b).Ok? ==> Bound(patch, d, b) == Ok((d, c))
  {
    hide ValidConversation, Total, Inventory, ValidBinding;
  }

  /** An epoch is established exactly where no transcript can be lost, or where it has been already. */
  lemma FoundingIsAccepted(size: Encoder, d: Disk, f: Founding, raw: Bytes, c: Conversation)
    requires ValidFounding(f) && Reads(d, f.scope, raw, c)
    ensures var done := c.epoch == Some(f.epoch) && c.physicalSession == f.session
                        && f.expectedRevision <= c.revision <= f.expectedRevision + 1;
            var next := size(Chat(c.(epoch := Some(f.epoch), physicalSession := f.session,
                                     revision := c.revision + 1)));
            var room := Total(d.files) + 2 * raw.count + SizeOf(d.rollback, f.scope) + next + METADATA_RESERVE;
            && (done ==> Founded(size, d, f) == Ok((d, c)))
            && (!done ==>
                  (Founded(size, d, f).Ok? <==>
                     && c.revision == f.expectedRevision && c.messages == [] && c.physicalSession == None
                     && c.epoch in {None, Some(f.epoch)} && next <= RECORD_BYTES
                     && SizeOf(d.rollback, f.scope) <= RECORD_BYTES && Inventory(d.files, []).Ok?
                     && room <= PHYSICAL_BYTES))
  {
    hide ValidConversation, CurrentBytes, Total, Inventory, ValidFounding;
  }

  /** A conversation of which nothing is stored begins blank, in its first revision. */
  lemma FoundingBegins(size: Encoder, d: Disk, f: Founding)
    requires ValidFounding(f) && CurrentBytes(d, f.scope) == Ok(None) && Founded(size, d, f).Ok?
    ensures f.expectedRevision == 0
    ensures var (e, next) := Founded(size, d, f).value;
            && next.revision == 1 && next.epoch == Some(f.epoch) && next.physicalSession == f.session
            && next.messages == [] && next.draft == [] && next.draftResources == []
            && next.nextCursor == None && !next.hasMore
            && CurrentBytes(e, f.scope) == Ok(Some(Encode(size, Chat(next)))) && e.rollback == d.rollback
  {
    FoundingMeaning(size, d, f);
    hide ValidConversation, Total, Inventory, ValidFounding;
  }
}
