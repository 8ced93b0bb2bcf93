/** Which stored row an incoming history row is, decided by exact evidence only. */
module HistoryIdentity {
  import opened Wrappers
  import opened HistoryTypes

  datatype Role = User | Assistant | System | Tool

  datatype Position = Position(source: Text, rawSequence: int)

  /** `display` stands for names and avatars, which identify nobody. */
  datatype Attribution = Attribution(channel: Text, account: Option<Text>, sender: Option<Text>, display: nat)

  datatype Author = Direct | Participant(channel: Text, account: Option<Text>, sender: Option<Text>)

  datatype Row = Row(
    role: Role,
    sourceId: Option<Text>,
    position: Option<Position>,
    sendKey: Option<Text>,
    locallyOwned: bool,
    author: Author,
    epoch: Option<Id>,
    runId: Option<Text>,
    turnId: Option<Text>,
    inputMessageId: Option<Text>,
    inputMessageKey: Option<Text>,
    attribution: Option<Attribution>)

  datatype Kind = RemoteSource | TranscriptPosition | LocalEcho | ConfirmedLocalSource
  datatype Match = Match(storedIndex: nat, kind: Kind)

  datatype Namespace = Provided | Positioned | Send
  datatype Key = Key(epoch: Option<Id>, namespace: Namespace, value: Text)

  datatype Evidence = Absent | Unique(index: nat) | Conflict

  const KEY_BYTES := 4096

  function AuthorOf(attribution: Option<Attribution>, role: Role): Author {
    if role != User || attribution.None? then Direct
    else Participant(attribution.value.channel, attribution.value.account, attribution.value.sender)
  }

  // ----- keys -----

  function Bounded(value: Option<Text>): Option<Text> {
    if value.Some? && 0 < |value.value| <= KEY_BYTES then value else None
  }

  /** Big-endian bytes of a sequence number. */
  function BigEndian(n: nat, width: nat): (bytes: Text)
    ensures |bytes| == width
  {
    if width == 0 then [] else BigEndian(n / 256, width - 1) + [(n % 256) as Byte]
  }

  function SourceKey(row: Row): Option<Key> {
    if row.sourceId.Some? then
      if Bounded(row.sourceId).Some? then Some(Key(row.epoch, Provided, row.sourceId.value)) else None
    else if row.position.Some? && Bounded(Some(row.position.value.source)).Some?
            && 0 <= row.position.value.rawSequence <= MAX_COUNTER then
      Some(Key(row.epoch, Positioned, row.position.value.source + BigEndian(row.position.value.rawSequence, 8)))
    else None
  }

  function SendKey(row: Row): Option<Key> {
    if row.role == User && Bounded(row.sendKey).Some? then Some(Key(row.epoch, Send, row.sendKey.value)) else None
  }

  // ----- compatibility -----

  predicate Agree<T(==)>(left: Option<T>, right: Option<T>) {
    left.Some? && right.Some? ==> left == right
  }

  predicate Compatible(left: Row, right: Row, allowUnknownSender: bool) {
    && left.role == right.role && left.epoch == right.epoch
    && Agree(left.runId, right.runId) && Agree(left.turnId, right.turnId)
    && Agree(left.inputMessageId, right.inputMessageId) && Agree(left.inputMessageKey, right.inputMessageKey)
    && Agree(left.position, right.position)
    && (left.role == Assistant && left.attribution.Some? && right.attribution.Some? ==>
          var a, b := left.attribution.value, right.attribution.value;
          a.channel == b.channel && a.account == b.account && a.sender == b.sender)
    && Agree(left.sourceId, right.sourceId) && Agree(left.sendKey, right.sendKey)
    && (left.role == User ==>
          match (left.author, right.author)
          case (Direct, Direct) => true
          case (Participant(channel, account, sender), Participant(otherChannel, otherAccount, otherSender)) =>
            && channel == otherChannel && account == otherAccount
            && ((sender.Some? && sender == otherSender) || (allowUnknownSender && sender.None? && otherSender.None?))
          case _ => false)
  }

  predicate SourceCompatible(left: Row, right: Row) {
    Compatible(left, right, !left.locallyOwned && !right.locallyOwned)
  }

  // ----- evidence -----

  /** The positions that hold a key, in order. */
  function Holders(keys: seq<Option<Key>>, k: Key): (held: seq<nat>)
    ensures forall i :: i in held <==> 0 <= i < |keys| && keys[i] == Some(k)
  {
    if keys == [] then []
    else
      var last := |keys| - 1;
      Holders(keys[..last], k) + if keys[last] == Some(k) then [last] else []
  }

  function KeysOf(rows: seq<Row>, key: Row -> Option<Key>): (keys: seq<Option<Key>>)
    ensures |keys| == |rows|
    ensures forall i :: 0 <= i < |rows| ==> keys[i] == key(rows[i])
  {
    seq(|rows|, i requires 0 <= i < |rows| => key(rows[i]))
  }

  /** A key joins two rows only when exactly one row holds it on each side. */
  function EvidenceOf(key: Option<Key>, stored: seq<Option<Key>>, incoming: seq<Option<Key>>): (e: Evidence)
    ensures e.Unique? ==> e.index < |stored| && key.Some? && stored[e.index] == key
  {
    if key.None? || Holders(stored, key.value) == [] then Absent
    else if |Holders(stored, key.value)| != 1 || |Holders(incoming, key.value)| != 1 then Conflict
    else
      assert Holders(stored, key.value)[0] in Holders(stored, key.value);
      Unique(Holders(stored, key.value)[0])
  }

  lemma {:induction false} SoleHolder(keys: seq<Option<Key>>, k: Key, j: nat)
    requires j < |keys| && keys[j] == Some(k)
    ensures |Holders(keys, k)| == 1 <==> forall i :: 0 <= i < |keys| && i != j ==> keys[i] != Some(k)
    ensures |Holders(keys, k)| == 1 ==> Holders(keys, k)[0] == j
  {
    var last := |keys| - 1;
    var rest := Holders(keys[..last], k);
    if j == last {
      assert rest == [] <==> forall i :: 0 <= i < last ==> keys[i] != Some(k) by {
        if rest == [] {
          forall i | 0 <= i < last ensures keys[i] != Some(k) { assert i !in rest; }
        } else {
          assert rest[0] in rest;
        }
      }
    } else {
      SoleHolder(keys[..last], k, j);
      assert j in rest;
    }
  }

  // ----- matching -----

  /** The stored row the evidence of one incoming row points to, if it is consistent. */
  function Candidate(incoming: seq<Row>, stored: seq<Row>, i: nat): (c: Option<Match>)
    requires i < |incoming|
    ensures c.Some? ==> c.value.storedIndex < |stored|
  {
    var row := incoming[i];
    var source := EvidenceOf(SourceKey(row), KeysOf(stored, SourceKey), KeysOf(incoming, SourceKey));
    var send := EvidenceOf(SendKey(row), KeysOf(stored, SendKey), KeysOf(incoming, SendKey));
    Judged(row, stored, source, send)
  }

  predicate Confirms(row: Row, prior: Row) {
    row.role == User && row.author == Direct && row.sourceId.Some? && row.sourceId == prior.sourceId
  }

  predicate Echoes(row: Row, prior: Row) {
    prior.locallyOwned && prior.role == User && row.author == Direct
  }

  function Judged(row: Row, stored: seq<Row>, source: Evidence, send: Evidence): Option<Match>
    requires source.Unique? ==> source.index < |stored|
    requires send.Unique? ==> send.index < |stored|
  {
    if source.Conflict? || send.Conflict? then None
    else if source.Unique? && send.Unique? && source.index != send.index then None
    else if source.Unique? && !SourceCompatible(row, stored[source.index]) then None
    else if send.Unique? && !Compatible(row, stored[send.index], false) then None
    else
      var bySource := source.Unique? && (stored[source.index].locallyOwned ==> Confirms(row, stored[source.index]));
      var bySend := send.Unique? && Echoes(row, stored[send.index]);
      if bySend then Some(Match(send.index, LocalEcho))
      else if !bySource then None
      else if stored[source.index].locallyOwned then Some(Match(source.index, ConfirmedLocalSource))
      else if row.sourceId.Some? && stored[source.index].sourceId.Some? then Some(Match(source.index, RemoteSource))
      else Some(Match(source.index, TranscriptPosition))
  }

  /** The accepted match: no other incoming row may point to the same stored row. */
  function Matched(incoming: seq<Row>, stored: seq<Row>, i: nat): (m: Option<Match>)
    requires i < |incoming|
    ensures m.Some? ==> m.value.storedIndex < |stored|
  {
    var c := Candidate(incoming, stored, i);
    if c.Some? && !Contested(incoming, stored, i, c.value.storedIndex) then c else None
  }

  predicate Contested(incoming: seq<Row>, stored: seq<Row>, i: nat, index: nat) {
    exists k :: 0 <= k < |incoming| && k != i && Candidate(incoming, stored, k).Some?
                && Candidate(incoming, stored, k).value.storedIndex == index
  }

  // ----- the code's dictionaries -----

  /** Group row positions by key. */
  ghost predicate Groups(index: map<Key, seq<nat>>, keys: seq<Option<Key>>) {
    (forall k :: At(index, k) == Holders(keys, k)) && (forall k :: k in index ==> index[k] != [])
  }

  function At(index: map<Key, seq<nat>>, k: Key): seq<nat> {
    if k in index then index[k] else []
  }

  ghost predicate Indexes(index: map<Key, seq<nat>>, rows: seq<Row>, key: Row -> Option<Key>) {
    Groups(index, KeysOf(rows, key))
  }

  /** `result[value, default: []].append(position)`. */
  function Appended(index: map<Key, seq<nat>>, k: Key, position: nat): map<Key, seq<nat>> {
    index[k := At(index, k) + [position]]
  }

  lemma GroupsNext(index: map<Key, seq<nat>>, keys: seq<Option<Key>>, n: nat)
    requires n < |keys| && Groups(index, keys[..n])
    ensures Groups(if keys[n].Some? then Appended(index, keys[n].value, n) else index, keys[..n + 1])
  {
    hide Holders;
    var next := if keys[n].Some? then Appended(index, keys[n].value, n) else index;
    forall k
      ensures At(next, k) == Holders(keys[..n + 1], k)
    {
      assert At(index, k) == Holders(keys[..n], k);
      HoldersNext(keys, n, k);
    }
  }

  lemma HoldersNext(keys: seq<Option<Key>>, n: nat, k: Key)
    requires n < |keys|
    ensures Holders(keys[..n + 1], k) == Holders(keys[..n], k) + if keys[n] == Some(k) then [n] else []
  {
    assert keys[..n + 1][..n] == keys[..n];
  }

  method Index(rows: seq<Row>, key: Row -> Option<Key>) returns (index: map<Key, seq<nat>>)
    ensures Indexes(index, rows, key)
  {
    index := map[];
    ghost var keys := KeysOf(rows, key);
    assert Groups(index, keys[..0]);
    hide Groups, Appended;
    for position := 0 to |rows|
      invariant Groups(index, keys[..position])
    {
      GroupsNext(index, keys, position);
      var value := key(rows[position]);
      if value.Some? {
        index := Appended(index, value.value, position);
      }
    }
    assert keys[..|rows|] == keys;
  }

  function Look(key: Option<Key>, stored: map<Key, seq<nat>>, incoming: map<Key, seq<nat>>): Evidence {
    if key.None? || key.value !in stored then Absent
    else if |stored[key.value]| != 1 || key.value !in incoming || |incoming[key.value]| != 1 then Conflict
    else Unique(stored[key.value][0])
  }

  /** Looking keys up in the dictionaries finds the evidence. */
  lemma LookIsEvidence(incoming: seq<Row>, stored: seq<Row>, i: nat, key: Row -> Option<Key>,
                       prior: map<Key, seq<nat>>, sought: map<Key, seq<nat>>)
    requires i < |incoming| && Indexes(prior, stored, key) && Indexes(sought, incoming, key)
    ensures Look(key(incoming[i]), prior, sought)
              == EvidenceOf(key(incoming[i]), KeysOf(stored, key), KeysOf(incoming, key))
  {
    var k := key(incoming[i]);
    assert k.Some? ==>
             At(prior, k.value) == Holders(KeysOf(stored, key), k.value)
             && At(sought, k.value) == Holders(KeysOf(incoming, key), k.value);
    assert KeysOf(incoming, key)[i] == key(incoming[i]);
    assert key(incoming[i]).Some? ==> i in Holders(KeysOf(incoming, key), key(incoming[i]).value);
  }

  /** Match by dictionaries of keys, then drop every stored row that two incoming rows claim. */
  method FindMatches(incoming: seq<Row>, stored: seq<Row>) returns (matches: map<nat, Match>)
    ensures forall i: nat :: i in matches <==> i < |incoming| && Matched(incoming, stored, i).Some?
    ensures forall i :: i in matches ==> Matched(incoming, stored, i) == Some(matches[i])
  {
    hide Judged, Holders, SourceKey, SendKey, Indexes, Look, EvidenceOf;
    var oldSources := Index(stored, SourceKey);
    var newSources := Index(incoming, SourceKey);
    var oldSends := Index(stored, SendKey);
    var newSends := Index(incoming, SendKey);
    var candidates: map<nat, Match> := map[];
    for position := 0 to |incoming|
      invariant forall i: nat :: i in candidates <==> i < position && Candidate(incoming, stored, i).Some?
      invariant forall i :: i in candidates ==> Candidate(incoming, stored, i) == Some(candidates[i])
    {
      var row := incoming[position];
      var source := Look(SourceKey(row), oldSources, newSources);
      var send := Look(SendKey(row), oldSends, newSends);
      LookIsEvidence(incoming, stored, position, SourceKey, oldSources, newSources);
      LookIsEvidence(incoming, stored, position, SendKey, oldSends, newSends);
      var judged := Judged(row, stored, source, send);
      if judged.Some? {
        candidates := candidates[position := judged.value];
      }
    }
    matches := map[];
    for position := 0 to |incoming|
      invariant forall i: nat :: i in matches <==> i < position && Matched(incoming, stored, i).Some?
      invariant forall i :: i in matches ==> Matched(incoming, stored, i) == Some(matches[i])
    {
      if position in candidates {
        var index := candidates[position].storedIndex;
        if !(exists k :: k in candidates.Keys && k != position && candidates[k].storedIndex == index) {
          matches := matches[position := candidates[position]];
        }
      }
    }
  }

  // ----- what a match proves -----

  /** The rows share a key that nothing else on either side holds. */
  ghost predicate ShareUniqueKey(incoming: seq<Row>, stored: seq<Row>, i: nat, j: nat, key: Row -> Option<Key>)
    requires i < |incoming| && j < |stored|
  {
    && key(incoming[i]).Some? && key(stored[j]) == key(incoming[i])
    && (forall k :: 0 <= k < |incoming| && k != i ==> key(incoming[k]) != key(incoming[i]))
    && (forall k :: 0 <= k < |stored| && k != j ==> key(stored[k]) != key(incoming[i]))
  }

  lemma UniqueEvidence(incoming: seq<Row>, stored: seq<Row>, i: nat, j: nat, key: Row -> Option<Key>)
    requires i < |incoming| && j < |stored|
    ensures EvidenceOf(key(incoming[i]), KeysOf(stored, key), KeysOf(incoming, key)) == Unique(j)
       <==> ShareUniqueKey(incoming, stored, i, j, key)
  {
    var k := key(incoming[i]);
    var held, sought := KeysOf(stored, key), KeysOf(incoming, key);
    if k.Some? && held[j] == k {
      SoleHolder(sought, k.value, i);
      SoleHolder(held, k.value, j);
      assert j in Holders(held, k.value);
      assert forall n :: 0 <= n < |sought| ==> sought[n] == key(incoming[n]);
      assert forall n :: 0 <= n < |held| ==> held[n] == key(stored[n]);
    }
  }

  /** No incoming row consumes a stored row that another consumes. */
  lemma MatchingIsInjective(incoming: seq<Row>, stored: seq<Row>, i: nat, j: nat)
    requires i < |incoming| && j < |incoming| && i != j
    requires Matched(incoming, stored, i).Some? && Matched(incoming, stored, j).Some?
    ensures Matched(incoming, stored, i).value.storedIndex != Matched(incoming, stored, j).value.storedIndex
  {
    hide Candidate;
  }

  /**
   * Every match is backed by a key unique on both sides, and contradicts nothing known of either row. A locally owned
   * row is claimed only by an unattributed user row that carries its own send key or its own provided ID.
   */
  lemma MatchingIsSound(incoming: seq<Row>, stored: seq<Row>, i: nat)
    requires i < |incoming| && Matched(incoming, stored, i).Some?
    ensures var j := Matched(incoming, stored, i).value.storedIndex;
            && (ShareUniqueKey(incoming, stored, i, j, SourceKey) || ShareUniqueKey(incoming, stored, i, j, SendKey))
            && SourceCompatible(incoming[i], stored[j])
            && (stored[j].locallyOwned ==>
                  && incoming[i].role == User && incoming[i].author == Direct
                  && ((incoming[i].sourceId.Some? && incoming[i].sourceId == stored[j].sourceId)
                      || ShareUniqueKey(incoming, stored, i, j, SendKey)))
  {
    var j := Matched(incoming, stored, i).value.storedIndex;
    UniqueEvidence(incoming, stored, i, j, SourceKey);
    UniqueEvidence(incoming, stored, i, j, SendKey);
    hide EvidenceOf, ShareUniqueKey, SourceKey, SendKey, KeysOf;
  }

  /**
   * For assistant, system and tool rows the evidence decides exactly: shared unique source, no contradiction, not
   * local.
   */
  lemma SourceRowsMatchExactly(incoming: seq<Row>, stored: seq<Row>, i: nat, j: nat)
    requires i < |incoming| && j < |stored| && incoming[i].role != User
    ensures (Matched(incoming, stored, i).Some? && Matched(incoming, stored, i).value.storedIndex == j)
       <==> (ShareUniqueKey(incoming, stored, i, j, SourceKey) && SourceCompatible(incoming[i], stored[j])
             && !stored[j].locallyOwned)
  {
    UniqueEvidence(incoming, stored, i, j, SourceKey);
    assert SendKey(incoming[i]) == None;
    if ShareUniqueKey(incoming, stored, i, j, SourceKey) && SourceCompatible(incoming[i], stored[j])
       && !stored[j].locallyOwned
    {
      forall k | 0 <= k < |incoming| && k != i && Candidate(incoming, stored, k).Some?
        ensures Candidate(incoming, stored, k).value.storedIndex != j
      {
        UniqueEvidence(incoming, stored, k, j, SourceKey);
        UniqueEvidence(incoming, stored, k, j, SendKey);
        hide EvidenceOf, SourceKey, KeysOf;
      }
    }
  }

  // ----- order plays no part -----

  /** `p` and `back` are inverse rearrangements of the first `n` positions. */
  ghost predicate Rearranges(p: seq<nat>, back: seq<nat>, n: nat) {
    && |p| == n && |back| == n
    && (forall k :: 0 <= k < n ==> p[k] < n && back[p[k]] == k)
    && (forall k :: 0 <= k < n ==> back[k] < n && p[back[k]] == k)
  }

  function Rearranged(rows: seq<Row>, p: seq<nat>): (r: seq<Row>)
    requires forall k :: 0 <= k < |p| ==> p[k] < |rows|
    ensures |r| == |p| && forall k :: 0 <= k < |p| ==> r[k] == rows[p[k]]
  {
    seq(|p|, k requires 0 <= k < |p| => rows[p[k]])
  }

  /** The same match, with stored positions renamed. */
  function Renamed(m: Option<Match>, back: seq<nat>): Option<Match>
    requires m.Some? ==> m.value.storedIndex < |back|
  {
    if m.Some? then Some(Match(back[m.value.storedIndex], m.value.kind)) else None
  }

  lemma RearrangedSharing(incoming: seq<Row>, stored: seq<Row>, p: seq<nat>, pBack: seq<nat>, q: seq<nat>,
                          qBack: seq<nat>,
                          i: nat, j: nat, key: Row -> Option<Key>)
    requires Rearranges(p, pBack, |incoming|) && Rearranges(q, qBack, |stored|) && i < |incoming| && j < |stored|
    ensures ShareUniqueKey(Rearranged(incoming, p), Rearranged(stored, q), i, j, key)
       <==> ShareUniqueKey(incoming, stored, p[i], q[j], key)
  {
    var inNew, stNew := Rearranged(incoming, p), Rearranged(stored, q);
    if ShareUniqueKey(inNew, stNew, i, j, key) {
      forall k | 0 <= k < |incoming| && k != p[i] ensures key(incoming[k]) != key(incoming[p[i]]) {
        assert inNew[pBack[k]] == incoming[k];
      }
      forall k | 0 <= k < |stored| && k != q[j] ensures key(stored[k]) != key(incoming[p[i]]) {
        assert stNew[qBack[k]] == stored[k];
      }
    }
    if ShareUniqueKey(incoming, stored, p[i], q[j], key) {
      forall k | 0 <= k < |inNew| && k != i ensures key(inNew[k]) != key(inNew[i]) {
        assert pBack[p[k]] == k;
      }
      forall k | 0 <= k < |stNew| && k != j ensures key(stNew[k]) != key(inNew[i]) {
        assert qBack[q[k]] == k;
      }
    }
  }

  lemma RearrangedEvidence(incoming: seq<Row>, stored: seq<Row>, p: seq<nat>, pBack: seq<nat>, q: seq<nat>,
                           qBack: seq<nat>,
                           i: nat, key: Row -> Option<Key>)
    requires Rearranges(p, pBack, |incoming|) && Rearranges(q, qBack, |stored|) && i < |incoming|
    ensures var e := EvidenceOf(key(incoming[p[i]]), KeysOf(stored, key), KeysOf(incoming, key));
            var f := EvidenceOf(key(incoming[p[i]]), KeysOf(Rearranged(stored, q), key),
                                KeysOf(Rearranged(incoming, p), key));
            f == if e.Unique? then Unique(qBack[e.index]) else e
  {
    var k := key(incoming[p[i]]);
    var inNew, stNew := Rearranged(incoming, p), Rearranged(stored, q);
    if k.Some? {
      HoldersRearranged(stored, q, qBack, key, k.value);
      var e := EvidenceOf(k, KeysOf(stored, key), KeysOf(incoming, key));
      var f := EvidenceOf(k, KeysOf(stNew, key), KeysOf(inNew, key));
      if e.Unique? {
        UniqueEvidence(incoming, stored, p[i], e.index, key);
        RearrangedSharing(incoming, stored, p, pBack, q, qBack, i, qBack[e.index], key);
        UniqueEvidence(inNew, stNew, i, qBack[e.index], key);
      }
      if f.Unique? {
        UniqueEvidence(incoming, stored, p[i], q[f.index], key);
        RearrangedSharing(incoming, stored, p, pBack, q, qBack, i, f.index, key);
        UniqueEvidence(inNew, stNew, i, f.index, key);
      }
    }
  }

  lemma HoldersRearranged(rows: seq<Row>, q: seq<nat>, back: seq<nat>, key: Row -> Option<Key>, k: Key)
    requires Rearranges(q, back, |rows|)
    ensures Holders(KeysOf(rows, key), k) == [] <==> Holders(KeysOf(Rearranged(rows, q), key), k) == []
  {
    var held, moved := KeysOf(rows, key), KeysOf(Rearranged(rows, q), key);
    if Holders(held, k) != [] {
      var i := Holders(held, k)[0];
      assert i in Holders(held, k);
      assert moved[back[i]] == Some(k);
      assert back[i] in Holders(moved, k);
    }
    if Holders(moved, k) != [] {
      var i := Holders(moved, k)[0];
      assert i in Holders(moved, k);
      assert q[i] in Holders(held, k);
    }
  }

  lemma RearrangedCandidate(incoming: seq<Row>, stored: seq<Row>, p: seq<nat>, pBack: seq<nat>, q: seq<nat>,
                            qBack: seq<nat>, i: nat)
    requires Rearranges(p, pBack, |incoming|) && Rearranges(q, qBack, |stored|) && i < |incoming|
    ensures Candidate(Rearranged(incoming, p), Rearranged(stored, q), i)
              == Renamed(Candidate(incoming, stored, p[i]), qBack)
  {
    assert p[i] < |incoming| && |qBack| == |stored|;
    hide EvidenceOf, SourceKey, SendKey, Judged, Rearranges;
    RearrangedEvidence(incoming, stored, p, pBack, q, qBack, i, SourceKey);
    RearrangedEvidence(incoming, stored, p, pBack, q, qBack, i, SendKey);
    var row := incoming[p[i]];
    var source := EvidenceOf(SourceKey(row), KeysOf(stored, SourceKey), KeysOf(incoming, SourceKey));
    var send := EvidenceOf(SendKey(row), KeysOf(stored, SendKey), KeysOf(incoming, SendKey));
    RearrangedJudgement(row, stored, q, qBack, source, send);
  }

  /** Judging the same evidence, with stored positions renamed. */
  lemma RearrangedJudgement(row: Row, stored: seq<Row>, q: seq<nat>, qBack: seq<nat>, source: Evidence, send: Evidence)
    requires Rearranges(q, qBack, |stored|)
    requires (source.Unique? ==> source.index < |stored|) && (send.Unique? ==> send.index < |stored|)
    ensures var a := if source.Unique? then Unique(qBack[source.index]) else source;
            var b := if send.Unique? then Unique(qBack[send.index]) else send;
            Judged(row, Rearranged(stored, q), a, b) == Renamed(Judged(row, stored, source, send), qBack)
  {
    hide Compatible, SourceCompatible, Confirms, Echoes;
  }

  /** Rearranging either side only renames positions: identity is never decided by order or proximity. */
  lemma MatchingIgnoresOrder(incoming: seq<Row>, stored: seq<Row>, p: seq<nat>, pBack: seq<nat>, q: seq<nat>,
                             qBack: seq<nat>, i: nat)
    requires Rearranges(p, pBack, |incoming|) && Rearranges(q, qBack, |stored|) && i < |incoming|
    ensures Matched(Rearranged(incoming, p), Rearranged(stored, q), i)
              == Renamed(Matched(incoming, stored, p[i]), qBack)
  {
    hide Candidate;
    var c := Candidate(incoming, stored, p[i]);
    var inNew, stNew := Rearranged(incoming, p), Rearranged(stored, q);
    RearrangedCandidate(incoming, stored, p, pBack, q, qBack, i);
    if c.Some? {
      var index := c.value.storedIndex;
      assert index < |stored|;
      if Contested(incoming, stored, p[i], index) {
        var k :| 0 <= k < |incoming| && k != p[i] && Candidate(incoming, stored, k).Some?
                 && Candidate(incoming, stored, k).value.storedIndex == index;
        RearrangedCandidate(incoming, stored, p, pBack, q, qBack, pBack[k]);
        assert Contested(inNew, stNew, i, qBack[index]);
      }
      if Contested(inNew, stNew, i, qBack[index]) {
        var k :| 0 <= k < |inNew| && k != i && Candidate(inNew, stNew, k).Some?
                 && Candidate(inNew, stNew, k).value.storedIndex == qBack[index];
        RearrangedCandidate(incoming, stored, p, pBack, q, qBack, k);
        assert Contested(incoming, stored, p[i], index);
      }
    }
  }

  // ----- keys are exact -----

  lemma {:induction false} BigEndianIsInjective(m: nat, n: nat, width: nat)
    requires m < Power256(width) && n < Power256(width)
    requires BigEndian(m, width) == BigEndian(n, width)
    ensures m == n
  {
    if width > 0 {
      var a, b := BigEndian(m, width), BigEndian(n, width);
      assert a[..width - 1] == BigEndian(m / 256, width - 1);
      assert b[..width - 1] == BigEndian(n / 256, width - 1);
      assert a[width - 1] == b[width - 1];
      BigEndianIsInjective(m / 256, n / 256, width - 1);
    }
  }

  function Power256(width: nat): nat {
    if width == 0 then 1 else 256 * Power256(width - 1)
  }

  /** A position key names one source and one sequence number, in one epoch. */
  lemma PositionKeysAreExact(left: Row, right: Row)
    requires left.sourceId.None? && right.sourceId.None?
    requires SourceKey(left).Some? && SourceKey(left) == SourceKey(right)
    ensures left.position == right.position && left.epoch == right.epoch
  {
    var a, b := SourceKey(left).value.value, SourceKey(right).value.value;
    var l, r := left.position.value, right.position.value;
    assert a[..|a| - 8] == l.source && b[..|b| - 8] == r.source;
    assert a[|a| - 8..] == BigEndian(l.rawSequence, 8) && b[|b| - 8..] == BigEndian(r.rawSequence, 8);
    assert Power256(8) == 0x1_0000_0000_0000_0000 by {
      assert Power256(4) == 0x1_0000_0000;
    }
    BigEndianIsInjective(l.rawSequence, r.rawSequence, 8);
  }
}
