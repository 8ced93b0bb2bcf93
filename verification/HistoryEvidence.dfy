/** What decides a match, in terms of what two rows say: nothing of keys, dictionaries or order. */
module HistoryEvidence {
  import opened Wrappers
  import opened HistoryTypes
  import opened HistoryIdentity

  // ----- what two rows share -----

  predicate Usable(value: Text) { 0 < |value| <= KEY_BYTES }

  predicate UsablePosition(p: Position) { Usable(p.source) && 0 <= p.rawSequence <= MAX_COUNTER }

  /** The same producer ID in one epoch; or, where neither row has one, the same transcript position. */
  predicate SameSource(a: Row, b: Row) {
    && a.epoch == b.epoch && a.sourceId.Some? == b.sourceId.Some?
    && if a.sourceId.Some? then a.sourceId == b.sourceId && Usable(a.sourceId.value)
       else a.position.Some? && a.position == b.position && UsablePosition(a.position.value)
  }

  /** The same send key of two user rows in one epoch. */
  predicate SameSend(a: Row, b: Row) {
    && a.role == User && b.role == User && a.epoch == b.epoch
    && a.sendKey.Some? && a.sendKey == b.sendKey && Usable(a.sendKey.value)
  }

  lemma SourceKeysAgree(a: Row, b: Row)
    ensures SourceKey(a).Some? && SourceKey(b) == SourceKey(a) <==> SameSource(a, b)
  {
    if SourceKey(a).Some? && SourceKey(b) == SourceKey(a) && a.sourceId.None? {
      PositionKeysAreExact(a, b);
    }
  }

  lemma SendKeysAgree(a: Row, b: Row)
    ensures SendKey(a).Some? && SendKey(b) == SendKey(a) <==> SameSend(a, b)
  {
  }

  // ----- what two rows deny -----

  predicate Differ<T(==)>(a: Option<T>, b: Option<T>) { a.Some? && b.Some? && a != b }

  /** Two people, as far as either row says who wrote it. */
  predicate OtherPeople(a: Row, b: Row) {
    || (a.role == Assistant && a.attribution.Some? && b.attribution.Some?
        && (|| a.attribution.value.channel != b.attribution.value.channel
            || a.attribution.value.account != b.attribution.value.account
            || a.attribution.value.sender != b.attribution.value.sender))
    || (a.role == User && a.author != b.author)
  }

  /** The rows deny each other in something both say; of a role and an epoch that both always say. */
  predicate Deny(a: Row, b: Row) {
    || a.role != b.role || a.epoch != b.epoch || Differ(a.runId, b.runId) || Differ(a.turnId, b.turnId)
    || Differ(a.inputMessageId, b.inputMessageId) || Differ(a.inputMessageKey, b.inputMessageKey)
    || Differ(a.position, b.position) || Differ(a.sourceId, b.sourceId) || Differ(a.sendKey, b.sendKey)
    || OtherPeople(a, b)
  }

  /** A participant whose sender is not told is nobody in particular. */
  predicate Nobody(a: Row) { a.role == User && a.author.Participant? && a.author.sender.None? }

  lemma CompatibleIs(a: Row, b: Row, allowUnknownSender: bool)
    ensures Compatible(a, b, allowUnknownSender) <==> !Deny(a, b) && (Nobody(a) ==> allowUnknownSender)
  {
  }

  // ----- what decides a match -----

  /** The rows share it, and no other row of either side does. */
  predicate Sole(same: (Row, Row) -> bool, incoming: seq<Row>, stored: seq<Row>, i: nat, j: nat)
    requires i < |incoming| && j < |stored|
  {
    && same(incoming[i], stored[j])
    && (forall k :: 0 <= k < |incoming| && k != i ==> !same(incoming[i], incoming[k]))
    && (forall k :: 0 <= k < |stored| && k != j ==> !same(incoming[i], stored[k]))
  }

  /** It is shared, but not by one row alone on each side. */
  predicate Torn(same: (Row, Row) -> bool, incoming: seq<Row>, stored: seq<Row>, i: nat)
    requires i < |incoming|
  {
    (exists j :: 0 <= j < |stored| && same(incoming[i], stored[j]))
    && forall j :: 0 <= j < |stored| ==> !Sole(same, incoming, stored, i, j)
  }

  /** A source speaks for a row of the user's own only by a producer ID, to an unattributed user row. */
  predicate SourceSpeaks(row: Row, prior: Row) {
    prior.locallyOwned ==> row.role == User && row.author == Direct && row.sourceId.Some? && prior.sourceId.Some?
  }

  /** A send key speaks only for a row of the user's own, to an unattributed row. */
  predicate SendSpeaks(row: Row, prior: Row) { prior.locallyOwned && row.author == Direct }

  /**
   * The evidence of row `i` points to stored row `j`: neither its source nor its send key is torn or points elsewhere,
   * the rows do not deny each other, nobody in particular is known by the source alone, and one of the two speaks.
   */
  predicate PointsTo(incoming: seq<Row>, stored: seq<Row>, i: nat, j: nat)
    requires i < |incoming| && j < |stored|
  {
    var row, prior := incoming[i], stored[j];
    var source, send := Sole(SameSource, incoming, stored, i, j), Sole(SameSend, incoming, stored, i, j);
    && !Torn(SameSource, incoming, stored, i) && !Torn(SameSend, incoming, stored, i)
    && (forall k :: 0 <= k < |stored| && k != j ==>
          !Sole(SameSource, incoming, stored, i, k) && !Sole(SameSend, incoming, stored, i, k))
    && !Deny(row, prior) && (Nobody(row) ==> !send && !row.locallyOwned && !prior.locallyOwned)
    && ((source && SourceSpeaks(row, prior)) || (send && SendSpeaks(row, prior)))
  }

  lemma EvidenceIs(incoming: seq<Row>, stored: seq<Row>, i: nat, key: Row -> Option<Key>, same: (Row, Row) -> bool)
    requires i < |incoming|
    requires forall a, b :: (key(a).Some? && key(b) == key(a)) <==> same(a, b)
    ensures var e := EvidenceOf(key(incoming[i]), KeysOf(stored, key), KeysOf(incoming, key));
            && (e == Conflict <==> Torn(same, incoming, stored, i))
            && (forall j :: 0 <= j < |stored| ==> (e == Unique(j) <==> Sole(same, incoming, stored, i, j)))
  {
    var k, held := key(incoming[i]), KeysOf(stored, key);
    var e := EvidenceOf(k, held, KeysOf(incoming, key));
    forall j | 0 <= j < |stored|
      ensures e == Unique(j) <==> Sole(same, incoming, stored, i, j)
      ensures same(incoming[i], stored[j]) ==> e != Absent
    {
      UniqueEvidence(incoming, stored, i, j, key);
      SoleIsShared(incoming, stored, i, j, key, same);
      assert same(incoming[i], stored[j]) ==> j in Holders(held, k.value);
    }
    if e == Conflict {
      var j := Holders(held, k.value)[0];
      assert j in Holders(held, k.value);
      assert same(incoming[i], stored[j]);
    }
  }

  lemma SoleIsShared(incoming: seq<Row>, stored: seq<Row>, i: nat, j: nat, key: Row -> Option<Key>,
                     same: (Row, Row) -> bool)
    requires i < |incoming| && j < |stored|
    requires forall a, b :: (key(a).Some? && key(b) == key(a)) <==> same(a, b)
    ensures ShareUniqueKey(incoming, stored, i, j, key) <==> Sole(same, incoming, stored, i, j)
  {
  }

  lemma CandidateIs(incoming: seq<Row>, stored: seq<Row>, i: nat, j: nat)
    requires i < |incoming| && j < |stored|
    ensures Candidate(incoming, stored, i).Some? && Candidate(incoming, stored, i).value.storedIndex == j
       <==> PointsTo(incoming, stored, i, j)
  {
    var row, prior := incoming[i], stored[j];
    EvidenceOfBoth(incoming, stored, i);
    CompatibleIs(row, prior, !row.locallyOwned && !prior.locallyOwned);
    CompatibleIs(row, prior, false);
    assert Sole(SameSource, incoming, stored, i, j) ==> SameSource(row, prior);
    hide EvidenceOf, Sole, Torn, Deny, Nobody, Compatible, KeysOf;
  }

  lemma EvidenceOfBoth(incoming: seq<Row>, stored: seq<Row>, i: nat)
    requires i < |incoming|
    ensures var e := EvidenceOf(SourceKey(incoming[i]), KeysOf(stored, SourceKey), KeysOf(incoming, SourceKey));
            && (e == Conflict <==> Torn(SameSource, incoming, stored, i))
            && (forall j :: 0 <= j < |stored| ==> (e == Unique(j) <==> Sole(SameSource, incoming, stored, i, j)))
    ensures var e := EvidenceOf(SendKey(incoming[i]), KeysOf(stored, SendKey), KeysOf(incoming, SendKey));
            && (e == Conflict <==> Torn(SameSend, incoming, stored, i))
            && (forall j :: 0 <= j < |stored| ==> (e == Unique(j) <==> Sole(SameSend, incoming, stored, i, j)))
  {
    forall a, b
      ensures SourceKey(a).Some? && SourceKey(b) == SourceKey(a) <==> SameSource(a, b)
      ensures SendKey(a).Some? && SendKey(b) == SendKey(a) <==> SameSend(a, b)
    {
      SourceKeysAgree(a, b);
      SendKeysAgree(a, b);
    }
    hide EvidenceOf, Sole, Torn, KeysOf, SourceKey, SendKey, SameSource, SameSend;
    EvidenceIs(incoming, stored, i, SourceKey, SameSource);
    EvidenceIs(incoming, stored, i, SendKey, SameSend);
  }

  /** A row is matched to a stored row exactly when its evidence points there and no other row's does. */
  lemma MatchIsDecided(incoming: seq<Row>, stored: seq<Row>, i: nat, j: nat)
    requires i < |incoming| && j < |stored|
    ensures Matched(incoming, stored, i).Some? && Matched(incoming, stored, i).value.storedIndex == j
       <==> && PointsTo(incoming, stored, i, j)
            && forall k :: 0 <= k < |incoming| && k != i ==> !PointsTo(incoming, stored, k, j)
  {
    hide Candidate, PointsTo;
    forall k | 0 <= k < |incoming|
      ensures Candidate(incoming, stored, k).Some? && Candidate(incoming, stored, k).value.storedIndex == j
         <==> PointsTo(incoming, stored, k, j)
    {
      CandidateIs(incoming, stored, k, j);
    }
  }

  /** How a match came about: by the send key of one's own message, by a producer ID, or by a position. */
  lemma KindIsDecided(incoming: seq<Row>, stored: seq<Row>, i: nat)
    requires i < |incoming| && Matched(incoming, stored, i).Some?
    ensures var found := Matched(incoming, stored, i).value;
            var row, prior := incoming[i], stored[found.storedIndex];
            found.kind == if Sole(SameSend, incoming, stored, i, found.storedIndex) && SendSpeaks(row, prior)
                          then LocalEcho
                          else if prior.locallyOwned then ConfirmedLocalSource
                          else if row.sourceId.Some? then RemoteSource else TranscriptPosition
  {
    var j := Matched(incoming, stored, i).value.storedIndex;
    EvidenceOfBoth(incoming, stored, i);
    assert Sole(SameSource, incoming, stored, i, j) ==> SameSource(incoming[i], stored[j]);
    CompatibleIs(incoming[i], stored[j], false);
    hide EvidenceOf, Sole, Torn, Deny, Nobody, Compatible, KeysOf, Contested;
  }
}
