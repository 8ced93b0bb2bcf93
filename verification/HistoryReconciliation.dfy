/**
 * Planning the displayed history: which rows of a read replace, join or stand beside the stored ones, and in what
 * order.
 */
module HistoryReconciliation {
  import opened Wrappers
  import opened HistoryTypes
  import opened HistoryWeave
  import Identity = HistoryIdentity

  const ROWS_LIMIT := 10_000
  const ROW_ID_BYTES := 256

  datatype Stored = Stored(
    id: Text,
    identity: Identity.Row,
    preserveWhenAbsent: bool,
    changedAfterRead: bool,
    preserveMatchingContent: bool)

  /** `accepted` maps the positions of a read to the display rows they became. */
  datatype Plan = Plan(entries: seq<Entry>, accepted: map<nat, Text>)

  /** For each row of a read, the stored row it is. */
  type Anchors = seq<Option<nat>>

  predicate ValidId(id: Text) { 0 < |id| <= ROW_ID_BYTES }

  predicate ValidRows(incoming: seq<Identity.Row>, stored: seq<Stored>) {
    && |incoming| <= ROWS_LIMIT && |stored| <= ROWS_LIMIT
    && (forall r :: r in incoming ==> !r.locallyOwned)
    && (forall s :: s in stored ==> ValidId(s.id))
    && (forall i, j :: 0 <= i < j < |stored| ==> stored[i].id != stored[j].id)
  }

  function Identities(stored: seq<Stored>): (rows: seq<Identity.Row>)
    ensures |rows| == |stored| && forall i :: 0 <= i < |stored| ==> rows[i] == stored[i].identity
  {
    seq(|stored|, i requires 0 <= i < |stored| => stored[i].identity)
  }

  function AnchorsOf(incoming: seq<Identity.Row>, stored: seq<Stored>): (anchors: Anchors)
    ensures |anchors| == |incoming|
    ensures forall i :: 0 <= i < |anchors| ==>
              var m := Identity.Matched(incoming, Identities(stored), i);
              anchors[i] == if m.Some? then Some(m.value.storedIndex) else None
  {
    seq(|incoming|, i requires 0 <= i < |incoming| =>
      var m := Identity.Matched(incoming, Identities(stored), i);
      if m.Some? then Some(m.value.storedIndex) else None)
  }

  /** Each anchor is a stored row, and no two rows of the read share one. */
  predicate Injective(anchors: Anchors, n: nat) {
    && (forall i :: 0 <= i < |anchors| && anchors[i].Some? ==> anchors[i].value < n)
    && (forall i, j :: 0 <= i < j < |anchors| && anchors[i].Some? && anchors[j].Some? ==> anchors[i] != anchors[j])
  }

  lemma AnchorsAreInjective(incoming: seq<Identity.Row>, stored: seq<Stored>)
    ensures Injective(AnchorsOf(incoming, stored), |stored|)
  {
    hide Identity.Matched;
    var rows := Identities(stored);
    forall i, j | 0 <= i < j < |incoming| && Identity.Matched(incoming, rows, i).Some?
    && Identity.Matched(incoming, rows, j).Some?
      ensures Identity.Matched(incoming, rows, i).value.storedIndex
                != Identity.Matched(incoming, rows, j).value.storedIndex
    {
      Identity.MatchingIsInjective(incoming, rows, i, j);
    }
  }

  /** The matched rows come in the same order on both sides. */
  predicate Ordered(anchors: Anchors) {
    forall i, j :: 0 <= i < j < |anchors| && anchors[i].Some? && anchors[j].Some? ==>
      anchors[i].value < anchors[j].value
  }

  // ----- new IDs -----

  /** How many IDs have been drawn before position `i`. */
  function Drawn(anchors: Anchors, i: nat): (n: nat)
    requires i <= |anchors|
    ensures n <= i
  {
    if i == 0 then 0 else Drawn(anchors, i - 1) + if anchors[i - 1].None? then 1 else 0
  }

  /** The ID drawn for an unmatched position. */
  function IdAt(anchors: Anchors, newId: nat -> Text, i: nat): Text
    requires i < |anchors|
  {
    newId(Drawn(anchors, i))
  }

  /** Every drawn ID is usable: none is stored already, none is drawn twice. */
  predicate FreshIds(anchors: Anchors, stored: seq<Stored>, newId: nat -> Text, upto: nat)
    requires upto <= |anchors|
  {
    && (forall i | 0 <= i < upto && anchors[i].None? ::
          ValidId(IdAt(anchors, newId, i)) && !StoredId(stored, IdAt(anchors, newId, i)))
    && (forall i, j | 0 <= i < j < upto && anchors[i].None? && anchors[j].None? ::
          IdAt(anchors, newId, i) != IdAt(anchors, newId, j))
  }

  predicate StoredId(stored: seq<Stored>, id: Text) {
    exists p :: 0 <= p < |stored| && stored[p].id == id
  }

  // ----- what each row becomes -----

  predicate KeepsContent(s: Stored) { s.changedAfterRead || s.preserveMatchingContent }

  function HeadEntry(anchors: Anchors, stored: seq<Stored>, newId: nat -> Text, i: nat): Entry
    requires i < |anchors| && (anchors[i].Some? ==> anchors[i].value < |stored|)
  {
    match anchors[i]
    case None => History(i, None, IdAt(anchors, newId, i))
    case Some(p) => if KeepsContent(stored[p]) then Preserved(p, stored[p].id) else History(i, Some(p), stored[p].id)
  }

  /** A head is shown in its own order. */
  function HeadSpine(anchors: Anchors, stored: seq<Stored>, newId: nat -> Text): (spine: seq<Entry>)
    requires Injective(anchors, |stored|)
    ensures |spine| == |anchors| && forall i :: 0 <= i < |spine| ==> spine[i] == HeadEntry(anchors, stored, newId, i)
  {
    seq(|anchors|, i requires 0 <= i < |anchors| => HeadEntry(anchors, stored, newId, i))
  }

  /** The position of the read that is stored row `p`. */
  function ReaderOf(anchors: Anchors, p: nat): (i: Option<nat>)
    ensures i.Some? ==> i.value < |anchors| && anchors[i.value] == Some(p)
    ensures i.None? ==> forall k :: 0 <= k < |anchors| ==> anchors[k] != Some(p)
  {
    if anchors == [] then None
    else if anchors[|anchors| - 1] == Some(p) then Some(|anchors| - 1)
    else ReaderOf(anchors[..|anchors| - 1], p)
  }

  function FirstAnchor(anchors: Anchors): (first: Option<nat>)
    ensures first.None? <==> forall i :: 0 <= i < |anchors| ==> anchors[i].None?
    ensures first.Some? ==>
              exists i :: 0 <= i < |anchors| && anchors[i] == first && forall k :: 0 <= k < i ==> anchors[k].None?
  {
    if anchors == [] then None
    else if anchors[0].Some? then anchors[0]
    else
      assert forall i :: 0 <= i < |anchors[1..]| ==> anchors[1..][i] == anchors[i + 1];
      FirstAnchor(anchors[1..])
  }

  /** Up to where an older loaded prefix is retained: only beside a partial head whose anchors keep their order. */
  function PrefixEnd(anchors: Anchors, retainOlderPrefix: bool): nat {
    if retainOlderPrefix && Ordered(anchors) && FirstAnchor(anchors).Some? then FirstAnchor(anchors).value else 0
  }

  /** An unmatched stored row survives a head that does not mention it. */
  predicate Survives(stored: seq<Stored>, p: nat, prefixEnd: nat)
    requires p < |stored|
  {
    stored[p].identity.locallyOwned || stored[p].preserveWhenAbsent || stored[p].changedAfterRead || p < prefixEnd
  }

  function HeadTrack(anchors: Anchors, stored: seq<Stored>, prefixEnd: nat): (track: seq<Track>)
    ensures |track| == |stored|
    ensures forall p :: 0 <= p < |stored| ==>
              track[p] == if ReaderOf(anchors, p).Some? then Anchor(ReaderOf(anchors, p).value)
                          else if Survives(stored, p, prefixEnd) then Loose(Preserved(p, stored[p].id))
                          else Skip
  {
    seq(|stored|, p requires 0 <= p < |stored| =>
      if ReaderOf(anchors, p).Some? then Anchor(ReaderOf(anchors, p).value)
      else if Survives(stored, p, prefixEnd) then Loose(Preserved(p, stored[p].id))
      else Skip)
  }

  /** An earlier page is woven around the stored rows, which all stay. */
  function StoredSpine(stored: seq<Stored>): (spine: seq<Entry>)
    ensures |spine| == |stored| && forall p :: 0 <= p < |spine| ==> spine[p] == Preserved(p, stored[p].id)
  {
    seq(|stored|, p requires 0 <= p < |stored| => Preserved(p, stored[p].id))
  }

  function EarlierTrack(anchors: Anchors, newId: nat -> Text): (track: seq<Track>)
    ensures |track| == |anchors|
    ensures forall i :: 0 <= i < |anchors| ==>
              track[i]
                == if anchors[i].Some? then Anchor(anchors[i].value)
                   else Loose(History(i, None, IdAt(anchors, newId, i)))
  {
    seq(|anchors|, i requires 0 <= i < |anchors| =>
      if anchors[i].Some? then Anchor(anchors[i].value) else Loose(History(i, None, IdAt(anchors, newId, i))))
  }

  function HeadAccepted(anchors: Anchors, stored: seq<Stored>, newId: nat -> Text): map<nat, Text>
    requires Injective(anchors, |stored|)
  {
    map i: nat | i < |anchors|
    && HeadEntry(anchors, stored, newId, i).History? :: HeadEntry(anchors, stored, newId, i).id
  }

  function EarlierAccepted(anchors: Anchors, newId: nat -> Text): map<nat, Text> {
    map i: nat | i < |anchors| && anchors[i].None? :: IdAt(anchors, newId, i)
  }

  function Woven(anchors: Anchors, stored: seq<Stored>, earlier: bool, retainOlderPrefix: bool,
                 newId: nat -> Text): seq<Placed>
    requires Injective(anchors, |stored|)
  {
    if earlier then Weave(StoredSpine(stored), EarlierTrack(anchors, newId), false)
    else Weave(HeadSpine(anchors, stored, newId), HeadTrack(anchors, stored, PrefixEnd(anchors, retainOlderPrefix)),
               true)
  }

  /** The plan for anchors already found. */
  function PlanOf(anchors: Anchors, stored: seq<Stored>, earlier: bool, retainOlderPrefix: bool,
                  newId: nat -> Text): Result<Plan, Failure>
    requires Injective(anchors, |stored|)
  {
    if (earlier && !Ordered(anchors)) || !FreshIds(anchors, stored, newId, |anchors|) then Err(Invalid)
    else Ok(Plan.Plan(Entries(Woven(anchors, stored, earlier, retainOlderPrefix, newId)),
                 if earlier then EarlierAccepted(anchors, newId) else HeadAccepted(anchors, stored, newId)))
  }

  function Planned(incoming: seq<Identity.Row>, stored: seq<Stored>, earlier: bool, retainOlderPrefix: bool,
                   newId: nat -> Text): Result<Plan, Failure> {
    if !ValidRows(incoming, stored) then Err(Invalid)
    else
      AnchorsAreInjective(incoming, stored);
      PlanOf(AnchorsOf(incoming, stored), stored, earlier, retainOlderPrefix, newId)
  }

  // ----- the head plan -----

  lemma HeadShape(anchors: Anchors, stored: seq<Stored>, newId: nat -> Text, prefixEnd: nat)
    requires Injective(anchors, |stored|) && FreshIds(anchors, stored, newId, |anchors|)
    requires DistinctStored(stored)
    ensures Anchored(HeadSpine(anchors, stored, newId), HeadTrack(anchors, stored, prefixEnd))
    ensures DistinctEntries(HeadSpine(anchors, stored, newId))
    ensures LooseDistinct(HeadSpine(anchors, stored, newId), HeadTrack(anchors, stored, prefixEnd))
    ensures Ordered(anchors) ==> Ascending(HeadTrack(anchors, stored, prefixEnd))
  {
    var spine := HeadSpine(anchors, stored, newId);
    forall i | 0 <= i < |anchors| && anchors[i].None?
      ensures forall p :: 0 <= p < |stored| ==> spine[i].id != stored[p].id
    {
      assert !StoredId(stored, IdAt(anchors, newId, i));
    }
    forall i, j | 0 <= i < j < |spine|
      ensures spine[i].id != spine[j].id
    {
      if anchors[i].None? && anchors[j].None? {
        assert IdAt(anchors, newId, i) != IdAt(anchors, newId, j);
      }
    }
  }

  predicate DistinctStored(stored: seq<Stored>) {
    forall i, j :: 0 <= i < j < |stored| ==> stored[i].id != stored[j].id
  }

  /** Where an entry with a given ID stands. */
  ghost predicate StandsAt(entries: seq<Entry>, a: nat, id: Text) {
    a < |entries| && entries[a].id == id
  }

  ghost function HeadEntries(anchors: Anchors, stored: seq<Stored>, newId: nat -> Text,
                             retainOlderPrefix: bool): seq<Entry>
    requires Injective(anchors, |stored|) && PlanOf(anchors, stored, false, retainOlderPrefix, newId).Ok?
  {
    PlanOf(anchors, stored, false, retainOlderPrefix, newId).value.entries
  }

  lemma HeadIsDistinct(anchors: Anchors, stored: seq<Stored>, retainOlderPrefix: bool, newId: nat -> Text)
    requires Injective(anchors, |stored|) && PlanOf(anchors, stored, false, retainOlderPrefix, newId).Ok?
             && DistinctStored(stored)
    ensures DistinctEntries(HeadEntries(anchors, stored, newId, retainOlderPrefix))
  {
    var prefixEnd := PrefixEnd(anchors, retainOlderPrefix);
    HeadShape(anchors, stored, newId, prefixEnd);
    WeaveIsDistinct(HeadSpine(anchors, stored, newId), HeadTrack(anchors, stored, prefixEnd), true);
    hide Weave;
  }

  /** Every row of the read is shown once, in the read's own order. */
  lemma HeadShowsTheRead(anchors: Anchors, stored: seq<Stored>, retainOlderPrefix: bool, newId: nat -> Text)
    requires Injective(anchors, |stored|) && PlanOf(anchors, stored, false, retainOlderPrefix, newId).Ok?
             && DistinctStored(stored)
    ensures var entries := HeadEntries(anchors, stored, newId, retainOlderPrefix);
            && (forall i :: 0 <= i < |anchors| ==> HeadEntry(anchors, stored, newId, i) in entries)
            && (forall i, j, a, b | 0 <= i < j < |anchors|
                                    && StandsAt(entries, a, HeadEntry(anchors, stored, newId, i).id)
                                    && StandsAt(entries, b, HeadEntry(anchors, stored, newId, j).id) :: a < b)
  {
    var prefixEnd := PrefixEnd(anchors, retainOlderPrefix);
    var spine, track := HeadSpine(anchors, stored, newId), HeadTrack(anchors, stored, prefixEnd);
    var w, entries := Weave(spine, track, true), HeadEntries(anchors, stored, newId, retainOlderPrefix);
    HeadShape(anchors, stored, newId, prefixEnd);
    SpineIsKept(spine, track, true);
    HeadIsDistinct(anchors, stored, retainOlderPrefix, newId);
    hide Weave, HeadEntry;
    forall i | 0 <= i < |anchors|
      ensures HeadEntry(anchors, stored, newId, i) in entries
    {
      var a :| 0 <= a < |w| && w[a] == Placed(spine[i], Place(i, 1, 0));
      assert entries[a] == spine[i];
    }
    forall i, j, a: nat, b: nat | 0 <= i < j < |anchors|
                                  && StandsAt(entries, a, HeadEntry(anchors, stored, newId, i).id)
                                  && StandsAt(entries, b, HeadEntry(anchors, stored, newId, j).id)
      ensures a < b
    {
      var x :| 0 <= x < |w| && w[x] == Placed(spine[i], Place(i, 1, 0));
      var y :| 0 <= y < |w| && w[y] == Placed(spine[j], Place(j, 1, 0));
      assert entries[x].id == entries[a].id && entries[y].id == entries[b].id;
    }
  }

  /** Row `p` is displayed after this head. */
  predicate Shown(anchors: Anchors, stored: seq<Stored>, prefixEnd: nat, p: nat)
    requires p < |stored|
  {
    ReaderOf(anchors, p).Some? || Survives(stored, p, prefixEnd)
  }

  /** An entry is a row of the read, or a stored row that survives it. */
  ghost predicate FromRead(anchors: Anchors, stored: seq<Stored>, newId: nat -> Text, e: Entry)
    requires Injective(anchors, |stored|)
  {
    exists i :: 0 <= i < |anchors| && e == HeadEntry(anchors, stored, newId, i)
  }

  ghost predicate Surviving(anchors: Anchors, stored: seq<Stored>, prefixEnd: nat, e: Entry) {
    exists p ::
      0 <= p < |stored| && ReaderOf(anchors, p).None? && Survives(stored, p, prefixEnd)
      && e == Preserved(p, stored[p].id)
  }

  /** Nothing else is shown, and everything that survives is. */
  lemma HeadContents(anchors: Anchors, stored: seq<Stored>, retainOlderPrefix: bool, newId: nat -> Text)
    requires Injective(anchors, |stored|) && PlanOf(anchors, stored, false, retainOlderPrefix, newId).Ok?
             && DistinctStored(stored)
    ensures var entries := HeadEntries(anchors, stored, newId, retainOlderPrefix);
            var prefixEnd := PrefixEnd(anchors, retainOlderPrefix);
            forall e :: e in entries <==>
              FromRead(anchors, stored, newId, e) || Surviving(anchors, stored, prefixEnd, e)
  {
    var prefixEnd := PrefixEnd(anchors, retainOlderPrefix);
    var spine, track := HeadSpine(anchors, stored, newId), HeadTrack(anchors, stored, prefixEnd);
    var w, entries := Weave(spine, track, true), HeadEntries(anchors, stored, newId, retainOlderPrefix);
    HeadShape(anchors, stored, newId, prefixEnd);
    WeaveSorted(spine, track, true);
    assert entries == Entries(w);
    hide Weave, PlaceOf, FreshIds, Ordered, PlanOf, PrefixEnd, HeadEntry, HeadEntries;
    forall e | e in entries
      ensures FromRead(anchors, stored, newId, e) || Surviving(anchors, stored, prefixEnd, e)
    {
      var x := PlacedEntry(w, e);
      assert Member(spine, track, |spine|, x);
    }
    forall e | FromRead(anchors, stored, newId, e) || Surviving(anchors, stored, prefixEnd, e)
      ensures e in entries
    {
      if FromRead(anchors, stored, newId, e) {
        var i :| 0 <= i < |anchors| && e == HeadEntry(anchors, stored, newId, i);
        EntryIsPlaced(w, Placed(spine[i], Place(i, 1, 0)));
      } else {
        var p :| 0 <= p < |stored| && ReaderOf(anchors, p).None? && Survives(stored, p, prefixEnd)
                 && e == Preserved(p, stored[p].id);
        EntryIsPlaced(w, Placed(track[p].entry, PlaceOf(track, p, |spine|)));
      }
    }
  }

  lemma PlacedEntry(w: seq<Placed>, e: Entry) returns (x: Placed)
    requires e in Entries(w)
    ensures x in w && x.entry == e
  {
    var a :| 0 <= a < |w| && Entries(w)[a] == e;
    x := w[a];
  }

  lemma EntryIsPlaced(w: seq<Placed>, x: Placed)
    requires x in w
    ensures x.entry in Entries(w)
  {
    var a :| 0 <= a < |w| && w[a] == x;
    assert Entries(w)[a] == x.entry;
  }

  lemma DrawnIsNotStored(anchors: Anchors, stored: seq<Stored>, newId: nat -> Text, i: nat, p: nat)
    requires FreshIds(anchors, stored, newId, |anchors|)
    requires i < |anchors| && anchors[i].None? && p < |stored|
    ensures IdAt(anchors, newId, i) != stored[p].id
  {
    assert !StoredId(stored, IdAt(anchors, newId, i));
  }

  /**
   * A stored row is shown exactly when the read matches it, or it is the user's own, still streaming, changed since the
   * read began, or in the retained prefix.
   */
  lemma HeadShowsSurvivors(anchors: Anchors, stored: seq<Stored>, retainOlderPrefix: bool, newId: nat -> Text, p: nat)
    requires Injective(anchors, |stored|) && PlanOf(anchors, stored, false, retainOlderPrefix, newId).Ok?
             && DistinctStored(stored)
    requires p < |stored|
    ensures (exists e :: e in HeadEntries(anchors, stored, newId, retainOlderPrefix) && e.id == stored[p].id)
       <==> Shown(anchors, stored, PrefixEnd(anchors, retainOlderPrefix), p)
  {
    var entries := HeadEntries(anchors, stored, newId, retainOlderPrefix);
    var prefixEnd := PrefixEnd(anchors, retainOlderPrefix);
    HeadContents(anchors, stored, retainOlderPrefix, newId);
    assert FreshIds(anchors, stored, newId, |anchors|);
    hide PlanOf, HeadEntries, FreshIds, PrefixEnd, Ordered, Survives, FromRead, Surviving;
    if Shown(anchors, stored, prefixEnd, p) {
      var e := ShownEntry(anchors, stored, newId, prefixEnd, p);
      assert e in entries;
    }
    if e :| e in entries && e.id == stored[p].id {
      OnlyShownAppear(anchors, stored, newId, prefixEnd, p, e);
    }
  }

  /** The entry that shows a stored row. */
  lemma ShownEntry(anchors: Anchors, stored: seq<Stored>, newId: nat -> Text, prefixEnd: nat, p: nat) returns (e: Entry)
    requires Injective(anchors, |stored|) && p < |stored| && Shown(anchors, stored, prefixEnd, p)
    ensures e.id == stored[p].id
    ensures FromRead(anchors, stored, newId, e) || Surviving(anchors, stored, prefixEnd, e)
  {
    hide Injective, Survives;
    var reader := ReaderOf(anchors, p);
    e := if reader.Some? then HeadEntry(anchors, stored, newId, reader.value) else Preserved(p, stored[p].id);
  }

  lemma OnlyShownAppear(anchors: Anchors, stored: seq<Stored>, newId: nat -> Text, prefixEnd: nat, p: nat, e: Entry)
    requires Injective(anchors, |stored|) && FreshIds(anchors, stored, newId, |anchors|) && DistinctStored(stored)
    requires p < |stored| && e.id == stored[p].id
    requires FromRead(anchors, stored, newId, e) || Surviving(anchors, stored, prefixEnd, e)
    ensures Shown(anchors, stored, prefixEnd, p)
  {
    hide FreshIds, Survives;
    if FromRead(anchors, stored, newId, e) {
      var i :| 0 <= i < |anchors| && e == HeadEntry(anchors, stored, newId, i);
      if anchors[i].None? {
        DrawnIsNotStored(anchors, stored, newId, i, p);
      }
    }
  }

  /** When the matched rows come in stored order, everything stored that is shown keeps its stored order. */
  lemma HeadKeepsStoredOrder(anchors: Anchors, stored: seq<Stored>, retainOlderPrefix: bool, newId: nat -> Text,
                             p: nat, q: nat, a: nat, b: nat)
    requires Injective(anchors, |stored|) && PlanOf(anchors, stored, false, retainOlderPrefix, newId).Ok?
             && DistinctStored(stored)
    requires Ordered(anchors) && p < q < |stored|
    requires StandsAt(HeadEntries(anchors, stored, newId, retainOlderPrefix), a, stored[p].id)
    requires StandsAt(HeadEntries(anchors, stored, newId, retainOlderPrefix), b, stored[q].id)
    ensures a < b
  {
    var prefixEnd := PrefixEnd(anchors, retainOlderPrefix);
    var spine, track := HeadSpine(anchors, stored, newId), HeadTrack(anchors, stored, prefixEnd);
    hide Weave, PlaceOf, FreshIds, Ordered, PlanOf, PrefixEnd, HeadEntries, Survives;
    var w, entries := Weave(spine, track, true), HeadEntries(anchors, stored, newId, retainOlderPrefix);
    HeadEntriesAre(anchors, stored, retainOlderPrefix, newId);
    HeadShape(anchors, stored, newId, prefixEnd);
    HeadIsDistinct(anchors, stored, retainOlderPrefix, newId);
    HeadShowsSurvivors(anchors, stored, retainOlderPrefix, newId, p);
    HeadShowsSurvivors(anchors, stored, retainOlderPrefix, newId, q);
    OrderIsKept(spine, track, true);
    ShownStands(anchors, stored, newId, prefixEnd, p);
    ShownStands(anchors, stored, newId, prefixEnd, q);
    hide Standing, HeadTrack, HeadSpine, Shown;
    assert entries[a] in entries && entries[b] in entries;
    var x :| 0 <= x < |w| && w[x] == Standing(spine, track, p, |spine|);
    var y :| 0 <= y < |w| && w[y] == Standing(spine, track, q, |spine|);
    assert entries[x].id == entries[a].id && entries[y].id == entries[b].id;
  }

  /** Where a stored row that is shown stands. */
  lemma ShownStands(anchors: Anchors, stored: seq<Stored>, newId: nat -> Text, prefixEnd: nat, p: nat)
    requires Injective(anchors, |stored|) && p < |stored|
    requires Anchored(HeadSpine(anchors, stored, newId), HeadTrack(anchors, stored, prefixEnd))
    ensures Shown(anchors, stored, prefixEnd, p) ==>
              && !HeadTrack(anchors, stored, prefixEnd)[p].Skip?
              && Standing(HeadSpine(anchors, stored, newId), HeadTrack(anchors, stored, prefixEnd), p,
                          |HeadSpine(anchors, stored, newId)|).entry.id == stored[p].id
  {
    hide PlaceOf, Survives;
  }

  /** With the prefix retained, every stored row older than the first matched one is shown. */
  lemma HeadRetainsPrefix(anchors: Anchors, stored: seq<Stored>, newId: nat -> Text, p: nat)
    requires Injective(anchors, |stored|) && PlanOf(anchors, stored, false, true, newId).Ok? && DistinctStored(stored)
    requires Ordered(anchors) && FirstAnchor(anchors).Some? && p < |stored| && p < FirstAnchor(anchors).value
    ensures Preserved(p, stored[p].id) in HeadEntries(anchors, stored, newId, true)
  {
    HeadContents(anchors, stored, true, newId);
    assert Surviving(anchors, stored, PrefixEnd(anchors, true), Preserved(p, stored[p].id));
  }

  // ----- an earlier page -----

  lemma EarlierShape(anchors: Anchors, stored: seq<Stored>, newId: nat -> Text)
    requires Injective(anchors, |stored|) && Ordered(anchors) && FreshIds(anchors, stored, newId, |anchors|)
             && DistinctStored(stored)
    ensures Anchored(StoredSpine(stored), EarlierTrack(anchors, newId))
    ensures DistinctEntries(StoredSpine(stored))
    ensures LooseDistinct(StoredSpine(stored), EarlierTrack(anchors, newId))
    ensures Ascending(EarlierTrack(anchors, newId))
  {
    var spine, track := StoredSpine(stored), EarlierTrack(anchors, newId);
    forall i, p | 0 <= i < |anchors| && anchors[i].None? && 0 <= p < |stored|
      ensures IdAt(anchors, newId, i) != stored[p].id
    {
      DrawnIsNotStored(anchors, stored, newId, i, p);
    }
    forall i, j | 0 <= i < j < |anchors| && anchors[i].None? && anchors[j].None?
      ensures IdAt(anchors, newId, i) != IdAt(anchors, newId, j)
    {
    }
    hide FreshIds, IdAt, Injective;
  }

  ghost function EarlierEntries(anchors: Anchors, stored: seq<Stored>, newId: nat -> Text): seq<Entry>
    requires Injective(anchors, |stored|) && PlanOf(anchors, stored, true, false, newId).Ok?
  {
    PlanOf(anchors, stored, true, false, newId).value.entries
  }

  /** The row a position of the read stands for: the stored row it is, or the new row it became. */
  function ReadAs(anchors: Anchors, stored: seq<Stored>, newId: nat -> Text, i: nat): Entry
    requires Injective(anchors, |stored|) && i < |anchors|
  {
    match anchors[i]
    case Some(p) => Preserved(p, stored[p].id)
    case None => History(i, None, IdAt(anchors, newId, i))
  }

  /** Retaining a prefix is a rule for heads only. */
  lemma EarlierIgnoresPrefix(anchors: Anchors, stored: seq<Stored>, newId: nat -> Text)
    requires Injective(anchors, |stored|)
    ensures PlanOf(anchors, stored, true, true, newId) == PlanOf(anchors, stored, true, false, newId)
  {
  }

  /** An accepted earlier page shows exactly the stored rows, each as it was, and the unmatched rows of the read. */
  lemma EarlierContents(anchors: Anchors, stored: seq<Stored>, newId: nat -> Text)
    requires Injective(anchors, |stored|) && PlanOf(anchors, stored, true, false, newId).Ok? && DistinctStored(stored)
    ensures Ordered(anchors)
    ensures DistinctEntries(EarlierEntries(anchors, stored, newId))
    ensures forall e :: e in EarlierEntries(anchors, stored, newId) <==>
              || (exists p :: 0 <= p < |stored| && e == Preserved(p, stored[p].id))
              || (exists i :: 0 <= i < |anchors| && anchors[i].None? && e == History(i, None, IdAt(anchors, newId, i)))
  {
    var spine, track := StoredSpine(stored), EarlierTrack(anchors, newId);
    var w, entries := Weave(spine, track, false), EarlierEntries(anchors, stored, newId);
    EarlierShape(anchors, stored, newId);
    WeaveSorted(spine, track, false);
    WeaveIsDistinct(spine, track, false);
    assert entries == Entries(w);
    hide Weave, PlaceOf, FreshIds, PlanOf, EarlierEntries, IdAt, Ordered, Injective;
    forall e | e in entries
      ensures || (exists p :: 0 <= p < |stored| && e == Preserved(p, stored[p].id))
              || (exists i :: 0 <= i < |anchors| && anchors[i].None? && e == History(i, None, IdAt(anchors, newId, i)))
    {
      var a :| 0 <= a < |w| && entries[a] == e;
      assert w[a] in w && Member(spine, track, -1, w[a]);
    }
    forall p | 0 <= p < |stored|
      ensures Preserved(p, stored[p].id) in entries
    {
      assert Placed(spine[p], Place(p, 1, 0)) in w;
      var a :| 0 <= a < |w| && w[a] == Placed(spine[p], Place(p, 1, 0));
      assert entries[a] == spine[p];
    }
    forall i | 0 <= i < |anchors| && anchors[i].None?
      ensures History(i, None, IdAt(anchors, newId, i)) in entries
    {
      var x := Placed(track[i].entry, PlaceOf(track, i, -1));
      assert x in w;
      var a :| 0 <= a < |w| && w[a] == x;
      assert entries[a] == track[i].entry;
    }
  }

  /** The stored order survives an earlier page. */
  lemma EarlierKeepsStoredOrder(anchors: Anchors, stored: seq<Stored>, newId: nat -> Text, p: nat, q: nat, a: nat,
                                b: nat)
    requires Injective(anchors, |stored|) && PlanOf(anchors, stored, true, false, newId).Ok? && DistinctStored(stored)
    requires p < q < |stored|
    requires StandsAt(EarlierEntries(anchors, stored, newId), a, stored[p].id)
    requires StandsAt(EarlierEntries(anchors, stored, newId), b, stored[q].id)
    ensures a < b
  {
    var spine, track := StoredSpine(stored), EarlierTrack(anchors, newId);
    var w, entries := Weave(spine, track, false), EarlierEntries(anchors, stored, newId);
    EarlierShape(anchors, stored, newId);
    EarlierContents(anchors, stored, newId);
    SpineIsKept(spine, track, false);
    assert entries == Entries(w);
    hide Weave, FreshIds, PlanOf, EarlierEntries, IdAt, Ordered, Injective;
    var x :| 0 <= x < |w| && w[x] == Placed(spine[p], Place(p, 1, 0));
    var y :| 0 <= y < |w| && w[y] == Placed(spine[q], Place(q, 1, 0));
    assert entries[x].id == entries[a].id && entries[y].id == entries[b].id;
  }

  /** So does the order of the read, reading each matched row as the stored row it is. */
  lemma EarlierKeepsReadOrder(anchors: Anchors, stored: seq<Stored>, newId: nat -> Text, i: nat, j: nat, a: nat, b: nat)
    requires Injective(anchors, |stored|) && PlanOf(anchors, stored, true, false, newId).Ok? && DistinctStored(stored)
    requires i < j < |anchors|
    requires StandsAt(EarlierEntries(anchors, stored, newId), a, ReadAs(anchors, stored, newId, i).id)
    requires StandsAt(EarlierEntries(anchors, stored, newId), b, ReadAs(anchors, stored, newId, j).id)
    ensures a < b
  {
    var spine, track := StoredSpine(stored), EarlierTrack(anchors, newId);
    hide Weave, PlaceOf, FreshIds, PlanOf, EarlierEntries, IdAt, Ordered, Injective, ReadAs, Standing, EarlierTrack;
    var w, entries := Weave(spine, track, false), EarlierEntries(anchors, stored, newId);
    EarlierIsWoven(anchors, stored, newId);
    EarlierShape(anchors, stored, newId);
    EarlierContents(anchors, stored, newId);
    OrderIsKept(spine, track, false);
    ReadStands(anchors, stored, newId, i);
    ReadStands(anchors, stored, newId, j);
    var x :| 0 <= x < |w| && w[x] == Standing(spine, track, i, -1);
    var y :| 0 <= y < |w| && w[y] == Standing(spine, track, j, -1);
    assert entries[x].id == entries[a].id && entries[y].id == entries[b].id;
  }

  lemma EarlierIsWoven(anchors: Anchors, stored: seq<Stored>, newId: nat -> Text)
    requires Injective(anchors, |stored|) && PlanOf(anchors, stored, true, false, newId).Ok?
    ensures EarlierEntries(anchors, stored, newId)
         == Entries(Weave(StoredSpine(stored), EarlierTrack(anchors, newId), false))
    ensures Ordered(anchors) && FreshIds(anchors, stored, newId, |anchors|)
  {
    hide Weave, Entries, StoredSpine, EarlierTrack, FreshIds, Ordered;
  }

  /** Where a row of the read stands in the track of an earlier page. */
  lemma ReadStands(anchors: Anchors, stored: seq<Stored>, newId: nat -> Text, i: nat)
    requires Injective(anchors, |stored|) && i < |anchors|
    requires Anchored(StoredSpine(stored), EarlierTrack(anchors, newId))
    ensures |EarlierTrack(anchors, newId)| == |anchors| && !EarlierTrack(anchors, newId)[i].Skip?
    ensures Standing(StoredSpine(stored), EarlierTrack(anchors, newId), i, -1).entry
         == ReadAs(anchors, stored, newId, i)
  {
    hide PlaceOf, IdAt;
  }

  // ----- planning again -----

  /** Two strictly sorted layouts of the same rows are the same layout. */
  lemma {:induction false} SortedIsUnique(a: seq<Placed>, b: seq<Placed>)
    requires Sorted(a) && Sorted(b) && forall x :: x in a <==> x in b
    ensures a == b
  {
    assert a == [] <==> b == [] by {
      assert a != [] ==> a[0] in a;
      assert b != [] ==> b[0] in b;
    }
    if a != [] {
      assert a[0] in b && b[0] in a;
      var i :| 0 <= i < |b| && b[i] == a[0];
      var j :| 0 <= j < |a| && a[j] == b[0];
      assert forall k :: 0 < k < |a| ==> Below(a[0].place, a[k].place);
      assert forall k :: 0 < k < |b| ==> Below(b[0].place, b[k].place);
      assert a[0] == b[0];
      forall x
        ensures x in a[1..] <==> x in b[1..]
      {
        assert x in a[1..] <==> x in a && x != a[0];
        assert x in b[1..] <==> x in b && x != b[0];
      }
      SortedIsUnique(a[1..], b[1..]);
      assert a == [a[0]] + a[1..] && b == [b[0]] + b[1..];
    }
  }

  /** A track that mentions every spine row, in order, and skips nothing, weaves to itself. */
  lemma CompleteTrackIsFixed(spine: seq<Entry>, track: seq<Track>, unanchoredLast: bool)
    requires Anchored(spine, track) && Ascending(track)
    requires forall u :: 0 <= u < |track| ==> !track[u].Skip?
    requires forall i :: 0 <= i < |spine| ==> exists u :: 0 <= u < |track| && track[u] == Anchor(i)
    ensures var w := Weave(spine, track, unanchoredLast);
            && |w| == |track|
            && forall u :: 0 <= u < |track| ==> w[u] == Standing(spine, track, u, End(spine, unanchoredLast))
  {
    var end := End(spine, unanchoredLast);
    var w := Weave(spine, track, unanchoredLast);
    var own := seq(|track|, u requires 0 <= u < |track| => Standing(spine, track, u, end));
    WeaveSorted(spine, track, unanchoredLast);
    hide Weave;
    forall u, v | 0 <= u < v < |own|
      ensures Below(own[u].place, own[v].place)
    {
      PlacesFollow(spine, track, u, v, end);
    }
    hide PlaceOf;
    forall x | x in own
      ensures x in w
    {
      var u :| 0 <= u < |own| && own[u] == x;
      if track[u].Anchor? {
        AnchorPlace(track, u, end);
      }
      assert Member(spine, track, end, x);
    }
    forall x | x in w
      ensures x in own
    {
      assert Member(spine, track, end, x);
      if i :| 0 <= i < |spine| && x == Placed(spine[i], Place(i, 1, 0)) {
        var u :| 0 <= u < |track| && track[u] == Anchor(i);
        AnchorPlace(track, u, end);
        assert own[u] == x;
      } else {
        var u :| 0 <= u < |track| && track[u].Loose? && x == Placed(track[u].entry, PlaceOf(track, u, end));
        assert own[u] == x;
      }
    }
    SortedIsUnique(w, own);
  }

  lemma AnchorPlace(track: seq<Track>, u: nat, end: int)
    requires u < |track| && track[u].Anchor?
    ensures PlaceOf(track, u, end) == Place(track[u].at, 1, 0)
  {
  }

  function Ids(entries: seq<Entry>): (ids: seq<Text>)
    ensures |ids| == |entries| && forall k :: 0 <= k < |ids| ==> ids[k] == entries[k].id
  {
    seq(|entries|, k requires 0 <= k < |entries| => entries[k].id)
  }

  /** A row that stays without being matched and without a retained prefix. */
  predicate Flagged(s: Stored) { s.identity.locallyOwned || s.preserveWhenAbsent || s.changedAfterRead }

  predicate SameFlags(s: Stored, t: Stored) {
    s.identity.locallyOwned == t.identity.locallyOwned && s.preserveWhenAbsent == t.preserveWhenAbsent
    && s.changedAfterRead == t.changedAfterRead
  }

  /**
   * The same head is read again over its own result: every row is matched to the row it became, preserved rows keep
   * their flags.
   */
  ghost predicate Rematched(anchors: Anchors, stored: seq<Stored>, retainOlderPrefix: bool, newId: nat -> Text,
                            again: Anchors, shown: seq<Stored>)
    requires Injective(anchors, |stored|) && PlanOf(anchors, stored, false, retainOlderPrefix, newId).Ok?
  {
    var entries := HeadEntries(anchors, stored, newId, retainOlderPrefix);
    && |shown| == |entries| && |again| == |anchors|
    && (forall k :: 0 <= k < |shown| ==> shown[k].id == entries[k].id)
    && (forall k :: 0 <= k < |shown| && entries[k].Preserved? && entries[k].index < |stored| ==>
          SameFlags(shown[k], stored[entries[k].index]))
    && (forall i :: 0 <= i < |again| ==>
          again[i].Some? && StandsAt(entries, again[i].value, HeadEntry(anchors, stored, newId, i).id))
  }

  /** No row stands only because an older prefix was retained, or the first row of the read was matched. */
  predicate Repeatable(anchors: Anchors, stored: seq<Stored>, retainOlderPrefix: bool) {
    || (forall p :: 0 <= p < |stored| && p < PrefixEnd(anchors, retainOlderPrefix) && ReaderOf(anchors, p).None? ==>
          Flagged(stored[p]))
    || (|anchors| > 0 && anchors[0].Some?)
  }

  /** Matching the result again is in order, so its prefix ends at the first row of the read. */
  lemma RematchedIsOrdered(anchors: Anchors, stored: seq<Stored>, retainOlderPrefix: bool, newId: nat -> Text,
                           again: Anchors, shown: seq<Stored>)
    requires Injective(anchors, |stored|) && PlanOf(anchors, stored, false, retainOlderPrefix, newId).Ok?
             && DistinctStored(stored)
    requires Rematched(anchors, stored, retainOlderPrefix, newId, again, shown)
    ensures Injective(again, |shown|) && Ordered(again) && DistinctStored(shown)
    ensures PrefixEnd(again, retainOlderPrefix) == if retainOlderPrefix && |again| > 0 then again[0].value else 0
  {
    HeadShowsTheRead(anchors, stored, retainOlderPrefix, newId);
    HeadIsDistinct(anchors, stored, retainOlderPrefix, newId);
    hide HeadEntries, PlanOf, HeadEntry;
  }

  /** Nothing is drawn the second time, so the plan is accepted whatever IDs would come next. */
  lemma RematchedDrawsNothing(again: Anchors, shown: seq<Stored>, retainOlderPrefix: bool, newId: nat -> Text)
    requires Injective(again, |shown|)
    requires forall i :: 0 <= i < |again| ==> again[i].Some?
    ensures PlanOf(again, shown, false, retainOlderPrefix, newId).Ok?
    ensures Drawn(again, |again|) == 0
  {
    hide Weave, HeadSpine, HeadTrack, Ordered, IdAt;
    NothingDrawn(again, |again|);
    assert FreshIds(again, shown, newId, |again|);
  }

  lemma {:induction false} NothingDrawn(again: Anchors, i: nat)
    requires i <= |again| && forall k :: 0 <= k < |again| ==> again[k].Some?
    ensures Drawn(again, i) == 0
  {
    if i > 0 { NothingDrawn(again, i - 1); }
  }

  lemma HeadEntriesAre(anchors: Anchors, stored: seq<Stored>, retainOlderPrefix: bool, newId: nat -> Text)
    requires Injective(anchors, |stored|) && PlanOf(anchors, stored, false, retainOlderPrefix, newId).Ok?
    ensures FreshIds(anchors, stored, newId, |anchors|)
    ensures HeadEntries(anchors, stored, newId, retainOlderPrefix)
         == Entries(Weave(HeadSpine(anchors, stored, newId),
                          HeadTrack(anchors, stored, PrefixEnd(anchors, retainOlderPrefix)), true))
  {
    hide Weave, Entries, HeadSpine, HeadTrack, FreshIds, Ordered, PrefixEnd;
  }

  /** A row kept only by the prefix stands after the first row of the read exactly when that row was new. */
  lemma PrefixRowPlace(anchors: Anchors, stored: seq<Stored>, retainOlderPrefix: bool, newId: nat -> Text, p: nat,
                       a: nat, first: nat)
    requires Injective(anchors, |stored|) && PlanOf(anchors, stored, false, retainOlderPrefix, newId).Ok?
             && DistinctStored(stored)
    requires p < |stored| && p < PrefixEnd(anchors, retainOlderPrefix) && ReaderOf(anchors, p).None?
    requires |anchors| > 0
    requires StandsAt(HeadEntries(anchors, stored, newId, retainOlderPrefix), a, stored[p].id)
    requires StandsAt(HeadEntries(anchors, stored, newId, retainOlderPrefix), first,
                      HeadEntry(anchors, stored, newId, 0).id)
    ensures a < first <==> anchors[0].Some?
  {
    if anchors[0].Some? {
      HeadKeepsStoredOrder(anchors, stored, retainOlderPrefix, newId, p, anchors[0].value, a, first);
    } else {
      PrefixRowFollows(anchors, stored, retainOlderPrefix, newId, p, a, first);
    }
  }

  lemma PrefixRowFollows(anchors: Anchors, stored: seq<Stored>, retainOlderPrefix: bool, newId: nat -> Text, p: nat,
                         a: nat, first: nat)
    requires Injective(anchors, |stored|) && PlanOf(anchors, stored, false, retainOlderPrefix, newId).Ok?
             && DistinctStored(stored)
    requires p < |stored| && p < PrefixEnd(anchors, retainOlderPrefix) && ReaderOf(anchors, p).None?
    requires |anchors| > 0 && anchors[0].None?
    requires StandsAt(HeadEntries(anchors, stored, newId, retainOlderPrefix), a, stored[p].id)
    requires StandsAt(HeadEntries(anchors, stored, newId, retainOlderPrefix), first,
                      HeadEntry(anchors, stored, newId, 0).id)
    ensures first < a
  {
    var prefixEnd := PrefixEnd(anchors, retainOlderPrefix);
    HeadEntriesAre(anchors, stored, retainOlderPrefix, newId);
    hide Weave, FreshIds, PlanOf, HeadEntries, Survives, HeadEntry;
    HeadShape(anchors, stored, newId, prefixEnd);
    HeadIsDistinct(anchors, stored, retainOlderPrefix, newId);
    PrefixRowHost(anchors, stored, prefixEnd, p, |anchors|);
    hide Ordered, PrefixEnd, Injective, PlaceOf, HeadTrack, Anchored, DistinctEntries;
    HostFollows(HeadSpine(anchors, stored, newId), HeadTrack(anchors, stored, prefixEnd), p, a, first);
  }

  /** A row beside a later spine row stands after the first spine row. */
  lemma HostFollows(spine: seq<Entry>, track: seq<Track>, u: nat, a: nat, first: nat)
    requires Anchored(spine, track) && DistinctEntries(Entries(Weave(spine, track, true)))
    requires u < |track| && track[u].Loose? && PlaceOf(track, u, |spine|).host > 0 && |spine| > 0
    requires StandsAt(Entries(Weave(spine, track, true)), a, track[u].entry.id)
    requires StandsAt(Entries(Weave(spine, track, true)), first, spine[0].id)
    ensures first < a
  {
    var w := Weave(spine, track, true);
    WeaveSorted(spine, track, true);
    hide Weave, PlaceOf;
    var x, y := Placed(spine[0], Place(0, 1, 0)), Placed(track[u].entry, PlaceOf(track, u, |spine|));
    assert Member(spine, track, |spine|, x) && Member(spine, track, |spine|, y);
    assert x in w && y in w;
    var i :| 0 <= i < |w| && w[i] == x;
    var j :| 0 <= j < |w| && w[j] == y;
    assert Entries(w)[i].id == Entries(w)[first].id && Entries(w)[j].id == Entries(w)[a].id;
    assert Below(w[i].place, w[j].place);
  }

  lemma PrefixRowHost(anchors: Anchors, stored: seq<Stored>, prefixEnd: nat, p: nat, end: nat)
    requires Injective(anchors, |stored|) && Ordered(anchors) && |anchors| > 0 && anchors[0].None?
    requires p < |stored| && p < prefixEnd && FirstAnchor(anchors) == Some(prefixEnd) && ReaderOf(anchors, p).None?
             && end > 0
    ensures HeadTrack(anchors, stored, prefixEnd)[p] == Loose(Preserved(p, stored[p].id))
    ensures PlaceOf(HeadTrack(anchors, stored, prefixEnd), p, end).host > 0
  {
    var track := HeadTrack(anchors, stored, prefixEnd);
    forall q | 0 <= q < |track| && track[q].Anchor?
      ensures track[q].at > 0 && q >= prefixEnd
    {
      var f :| 0 <= f < |anchors| && anchors[f] == FirstAnchor(anchors) && forall k :: 0 <= k < f ==> anchors[k].None?;
    }
  }

  /** An unmatched row of the result stays the second time unless it stood only by the prefix, after a new first row. */
  lemma RematchedSurvival(anchors: Anchors, stored: seq<Stored>, retainOlderPrefix: bool, newId: nat -> Text,
                          again: Anchors, shown: seq<Stored>, k: nat)
      returns (p: nat)
    requires Injective(anchors, |stored|) && PlanOf(anchors, stored, false, retainOlderPrefix, newId).Ok?
             && DistinctStored(stored)
    requires Rematched(anchors, stored, retainOlderPrefix, newId, again, shown)
    requires k < |shown| && ReaderOf(again, k).None?
    ensures p < |stored| && stored[p].id == shown[k].id && ReaderOf(anchors, p).None? && SameFlags(stored[p], shown[k])
    ensures Flagged(stored[p]) || p < PrefixEnd(anchors, retainOlderPrefix)
    ensures Survives(shown, k, PrefixEnd(again, retainOlderPrefix)) <==> Flagged(stored[p]) || anchors[0].Some?
  {
    var entries := HeadEntries(anchors, stored, newId, retainOlderPrefix);
    var prefixEnd := PrefixEnd(anchors, retainOlderPrefix);
    hide HeadEntries, PlanOf, HeadEntry, PrefixEnd, Ordered;
    HeadContents(anchors, stored, retainOlderPrefix, newId);
    HeadIsDistinct(anchors, stored, retainOlderPrefix, newId);
    RematchedIsOrdered(anchors, stored, retainOlderPrefix, newId, again, shown);
    PrefixIsAsked(anchors, retainOlderPrefix);
    assert !FromRead(anchors, stored, newId, entries[k]) by {
      UnreadIsNotFromRead(anchors, stored, retainOlderPrefix, newId, again, shown, k);
    }
    hide FromRead, Rematched, Injective;
    assert entries[k] in entries && Surviving(anchors, stored, prefixEnd, entries[k]);
    p :| 0 <= p < |stored| && ReaderOf(anchors, p).None? && Survives(stored, p, prefixEnd)
    && entries[k] == Preserved(p, stored[p].id);
    if !Flagged(stored[p]) {
      PrefixRowPlace(anchors, stored, retainOlderPrefix, newId, p, k, again[0].value);
    }
  }

  lemma UnreadIsNotFromRead(anchors: Anchors, stored: seq<Stored>, retainOlderPrefix: bool, newId: nat -> Text,
                            again: Anchors, shown: seq<Stored>, k: nat)
    requires Injective(anchors, |stored|) && PlanOf(anchors, stored, false, retainOlderPrefix, newId).Ok?
             && DistinctStored(stored)
    requires Rematched(anchors, stored, retainOlderPrefix, newId, again, shown)
    requires k < |shown| && ReaderOf(again, k).None?
    ensures !FromRead(anchors, stored, newId, HeadEntries(anchors, stored, newId, retainOlderPrefix)[k])
  {
    var entries := HeadEntries(anchors, stored, newId, retainOlderPrefix);
    HeadIsDistinct(anchors, stored, retainOlderPrefix, newId);
    hide HeadEntries, PlanOf, HeadEntry;
  }

  lemma PrefixIsAsked(anchors: Anchors, retainOlderPrefix: bool)
    ensures PrefixEnd(anchors, retainOlderPrefix) > 0 ==> retainOlderPrefix && |anchors| > 0
  {
  }

  /** When everything stays, the result is planned again exactly as it is. */
  lemma NothingMoves(again: Anchors, shown: seq<Stored>, retainOlderPrefix: bool, newId: nat -> Text)
    requires Injective(again, |shown|) && Ordered(again) && DistinctStored(shown)
    requires forall i :: 0 <= i < |again| ==> again[i].Some?
    requires forall k :: 0 <= k < |shown| && ReaderOf(again, k).None? ==>
               Survives(shown, k, PrefixEnd(again, retainOlderPrefix))
    ensures PlanOf(again, shown, false, retainOlderPrefix, newId).Ok?
    ensures Ids(HeadEntries(again, shown, newId, retainOlderPrefix))
              == seq(|shown|, k requires 0 <= k < |shown| => shown[k].id)
  {
    RematchedDrawsNothing(again, shown, retainOlderPrefix, newId);
    HeadEntriesAre(again, shown, retainOlderPrefix, newId);
    hide HeadEntries, PlanOf, Weave, Survives, HeadTrack, HeadSpine, Ordered, FreshIds;
    var prefixEnd := PrefixEnd(again, retainOlderPrefix);
    hide PrefixEnd;
    TrackIsComplete(again, shown, newId, prefixEnd);
    IdsOfWeave(Weave(HeadSpine(again, shown, newId), HeadTrack(again, shown, prefixEnd), true), shown);
  }

  lemma IdsOfWeave(w: seq<Placed>, shown: seq<Stored>)
    requires |w| == |shown| && forall k :: 0 <= k < |shown| ==> w[k].entry.id == shown[k].id
    ensures Ids(Entries(w)) == seq(|shown|, k requires 0 <= k < |shown| => shown[k].id)
  {
  }

  /** A track that keeps every stored row weaves each one back to its place. */
  lemma TrackIsComplete(again: Anchors, shown: seq<Stored>, newId: nat -> Text, prefixEnd: nat)
    requires Injective(again, |shown|) && Ordered(again) && DistinctStored(shown)
             && FreshIds(again, shown, newId, |again|)
    requires forall i :: 0 <= i < |again| ==> again[i].Some?
    requires forall k :: 0 <= k < |shown| && ReaderOf(again, k).None? ==> Survives(shown, k, prefixEnd)
    ensures var w := Weave(HeadSpine(again, shown, newId), HeadTrack(again, shown, prefixEnd), true);
            |w| == |shown| && forall k :: 0 <= k < |shown| ==> w[k].entry.id == shown[k].id
  {
    hide Weave, PlaceOf, Survives, FreshIds, HeadEntry;
    HeadShape(again, shown, newId, prefixEnd);
    var spine, track := HeadSpine(again, shown, newId), HeadTrack(again, shown, prefixEnd);
    NothingSkipped(again, shown, newId, prefixEnd);
    assert |spine| == |again| && |track| == |shown|;
    forall k | 0 <= k < |shown|
      ensures Standing(spine, track, k, |spine|).entry.id == shown[k].id
    {
      StandsWhereItWas(again, shown, newId, prefixEnd, k);
    }
    hide HeadTrack, HeadSpine, Ordered, Injective;
    forall i | 0 <= i < |spine|
      ensures exists u :: 0 <= u < |track| && track[u] == Anchor(i)
    {
      assert track[again[i].value] == Anchor(i);
    }
    CompleteTrackIsFixed(spine, track, true);
  }

  lemma NothingSkipped(again: Anchors, shown: seq<Stored>, newId: nat -> Text, prefixEnd: nat)
    requires Injective(again, |shown|) && forall i :: 0 <= i < |again| ==> again[i].Some?
    requires forall k :: 0 <= k < |shown| && ReaderOf(again, k).None? ==> Survives(shown, k, prefixEnd)
    ensures var track := HeadTrack(again, shown, prefixEnd);
            && (forall u :: 0 <= u < |track| ==> !track[u].Skip?)
            && (forall i :: 0 <= i < |again| ==> track[again[i].value] == Anchor(i))
  {
    hide Survives, IdAt;
  }

  lemma StandsWhereItWas(again: Anchors, shown: seq<Stored>, newId: nat -> Text, prefixEnd: nat, k: nat)
    requires Injective(again, |shown|) && k < |shown|
    requires Anchored(HeadSpine(again, shown, newId), HeadTrack(again, shown, prefixEnd))
             && !HeadTrack(again, shown, prefixEnd)[k].Skip?
    ensures Standing(HeadSpine(again, shown, newId), HeadTrack(again, shown, prefixEnd), k, |again|).entry.id
              == shown[k].id
  {
    hide PlaceOf, Survives;
  }

  /**
   * Planning a head again over its own result changes no row's ID or place and draws no ID, whatever the ID source,
   * exactly when no row stood only by the retained prefix, or the first row of the read had been matched. Otherwise
   * the retained rows stand after the new first row, and the second plan drops them.
   */
  lemma PlanningIsAFixedPoint(anchors: Anchors, stored: seq<Stored>, retainOlderPrefix: bool, newId: nat -> Text,
                              again: Anchors, shown: seq<Stored>, otherId: nat -> Text)
    requires Injective(anchors, |stored|) && PlanOf(anchors, stored, false, retainOlderPrefix, newId).Ok?
             && DistinctStored(stored)
    requires Rematched(anchors, stored, retainOlderPrefix, newId, again, shown)
    ensures Injective(again, |shown|) && PlanOf(again, shown, false, retainOlderPrefix, otherId).Ok?
            && Drawn(again, |again|) == 0
    ensures Ids(HeadEntries(again, shown, otherId, retainOlderPrefix))
              == Ids(HeadEntries(anchors, stored, newId, retainOlderPrefix))
       <==> Repeatable(anchors, stored, retainOlderPrefix)
  {
    RematchedIsOrdered(anchors, stored, retainOlderPrefix, newId, again, shown);
    RematchedDrawsNothing(again, shown, retainOlderPrefix, otherId);
    if Repeatable(anchors, stored, retainOlderPrefix) {
      RepeatsExactly(anchors, stored, retainOlderPrefix, newId, again, shown, otherId);
    } else {
      DropsThePrefix(anchors, stored, retainOlderPrefix, newId, again, shown, otherId);
    }
  }

  lemma RepeatsExactly(anchors: Anchors, stored: seq<Stored>, retainOlderPrefix: bool, newId: nat -> Text,
                       again: Anchors, shown: seq<Stored>, otherId: nat -> Text)
    requires Injective(anchors, |stored|) && PlanOf(anchors, stored, false, retainOlderPrefix, newId).Ok?
             && DistinctStored(stored)
    requires Rematched(anchors, stored, retainOlderPrefix, newId, again, shown)
    requires Injective(again, |shown|) && PlanOf(again, shown, false, retainOlderPrefix, otherId).Ok?
    requires Repeatable(anchors, stored, retainOlderPrefix)
    ensures Ids(HeadEntries(again, shown, otherId, retainOlderPrefix))
              == Ids(HeadEntries(anchors, stored, newId, retainOlderPrefix))
  {
    RematchedIsOrdered(anchors, stored, retainOlderPrefix, newId, again, shown);
    hide HeadEntries, PlanOf, PrefixEnd, Survives, Ordered, Injective, HeadEntry, FreshIds;
    forall k | 0 <= k < |shown| && ReaderOf(again, k).None?
      ensures Survives(shown, k, PrefixEnd(again, retainOlderPrefix))
    {
      var p := RematchedSurvival(anchors, stored, retainOlderPrefix, newId, again, shown, k);
    }
    NothingMoves(again, shown, retainOlderPrefix, otherId);
  }

  lemma DropsThePrefix(anchors: Anchors, stored: seq<Stored>, retainOlderPrefix: bool, newId: nat -> Text,
                       again: Anchors, shown: seq<Stored>, otherId: nat -> Text)
    requires Injective(anchors, |stored|) && PlanOf(anchors, stored, false, retainOlderPrefix, newId).Ok?
             && DistinctStored(stored)
    requires Rematched(anchors, stored, retainOlderPrefix, newId, again, shown)
    requires Injective(again, |shown|) && PlanOf(again, shown, false, retainOlderPrefix, otherId).Ok?
    requires !Repeatable(anchors, stored, retainOlderPrefix)
    ensures Ids(HeadEntries(again, shown, otherId, retainOlderPrefix))
              != Ids(HeadEntries(anchors, stored, newId, retainOlderPrefix))
  {
    var entries := HeadEntries(anchors, stored, newId, retainOlderPrefix);
    var second := HeadEntries(again, shown, otherId, retainOlderPrefix);
    var p :| 0 <= p < |stored| && p < PrefixEnd(anchors, retainOlderPrefix) && ReaderOf(anchors, p).None?
             && !Flagged(stored[p]);
    hide HeadEntries, PlanOf, PrefixEnd, Ordered, Injective, FreshIds, Repeatable, Survives;
    var k := PrefixRowIsShown(anchors, stored, retainOlderPrefix, newId, p);
    RematchedIsOrdered(anchors, stored, retainOlderPrefix, newId, again, shown);
    PrefixRowIsUnread(anchors, stored, retainOlderPrefix, newId, again, shown, p, k);
    var q := RematchedSurvival(anchors, stored, retainOlderPrefix, newId, again, shown, k);
    assert q == p;
    HeadShowsSurvivors(again, shown, retainOlderPrefix, otherId, k);
    MissingIdsDiffer(entries, second, k);
  }

  lemma PrefixRowIsShown(anchors: Anchors, stored: seq<Stored>, retainOlderPrefix: bool, newId: nat -> Text, p: nat)
    returns (k: nat)
    requires Injective(anchors, |stored|) && PlanOf(anchors, stored, false, retainOlderPrefix, newId).Ok?
             && DistinctStored(stored)
    requires p < |stored| && p < PrefixEnd(anchors, retainOlderPrefix) && ReaderOf(anchors, p).None?
    ensures StandsAt(HeadEntries(anchors, stored, newId, retainOlderPrefix), k, stored[p].id)
  {
    var entries := HeadEntries(anchors, stored, newId, retainOlderPrefix);
    hide HeadEntries, PlanOf, PrefixEnd, Injective;
    HeadShowsSurvivors(anchors, stored, retainOlderPrefix, newId, p);
    assert Shown(anchors, stored, PrefixEnd(anchors, retainOlderPrefix), p);
    var e :| e in entries && e.id == stored[p].id;
    k :| 0 <= k < |entries| && entries[k] == e;
  }

  lemma MissingIdsDiffer(a: seq<Entry>, b: seq<Entry>, k: nat)
    requires k < |a| && forall e :: e in b ==> e.id != a[k].id
    ensures Ids(a) != Ids(b)
  {
    assert Ids(a)[k] == a[k].id;
    assert k < |b| ==> b[k] in b && Ids(b)[k] == b[k].id;
  }

  /** A stored row no row of the read is stays unmatched in the result. */
  lemma PrefixRowIsUnread(anchors: Anchors, stored: seq<Stored>, retainOlderPrefix: bool, newId: nat -> Text,
                          again: Anchors, shown: seq<Stored>, p: nat, k: nat)
    requires Injective(anchors, |stored|) && PlanOf(anchors, stored, false, retainOlderPrefix, newId).Ok?
             && DistinctStored(stored)
    requires Rematched(anchors, stored, retainOlderPrefix, newId, again, shown)
    requires p < |stored| && ReaderOf(anchors, p).None? && k < |shown| && shown[k].id == stored[p].id
    ensures ReaderOf(again, k).None?
  {
    var reader := ReaderOf(again, k);
    if reader.Some? {
      var i := reader.value;
      if anchors[i].None? {
        DrawnIsNotStored(anchors, stored, newId, i, p);
      }
    }
  }

  // ----- what any accepted plan guarantees -----

  /** An entry is a stored row kept as it is, a stored row updated by the row of the read it is, or a new row. */
  ghost predicate Traceable(incoming: seq<Identity.Row>, stored: seq<Stored>, e: Entry) {
    match e
    case Preserved(p, id) => p < |stored| && id == stored[p].id
    case History(i, previous, id) =>
      && i < |incoming|
      && (previous.Some? ==>
            && previous.value < |stored| && id == stored[previous.value].id
            && Identity.Matched(incoming, Identities(stored), i).Some?
            && Identity.Matched(incoming, Identities(stored), i).value.storedIndex == previous.value)
      && (previous.None? ==> !StoredId(stored, id))
  }

  lemma NewIsNotStored(anchors: Anchors, stored: seq<Stored>, newId: nat -> Text, i: nat)
    requires FreshIds(anchors, stored, newId, |anchors|)
    requires i < |anchors| && anchors[i].None?
    ensures !StoredId(stored, IdAt(anchors, newId, i))
  {
  }

  lemma PlannedEntries(incoming: seq<Identity.Row>, stored: seq<Stored>, earlier: bool, retainOlderPrefix: bool,
                       newId: nat -> Text)
    requires Planned(incoming, stored, earlier, retainOlderPrefix, newId).Ok?
    ensures var plan := Planned(incoming, stored, earlier, retainOlderPrefix, newId).value;
            && DistinctEntries(plan.entries)
            && (forall e :: e in plan.entries ==> Traceable(incoming, stored, e))
  {
    var anchors := AnchorsOf(incoming, stored);
    AnchorsAreInjective(incoming, stored);
    PlannedIs(incoming, stored, earlier, retainOlderPrefix, newId);
    FreshWhenPlanned(anchors, stored, earlier, retainOlderPrefix, newId);
    var entries := Planned(incoming, stored, earlier, retainOlderPrefix, newId).value.entries;
    hide Planned, PlanOf, Injective, Traceable, FreshIds, AnchorsOf, Identity.Matched;
    if earlier {
      EarlierContents(anchors, stored, newId);
      if retainOlderPrefix { EarlierIgnoresPrefix(anchors, stored, newId); }
      assert entries == EarlierEntries(anchors, stored, newId);
      forall e | e in entries
        ensures Traceable(incoming, stored, e)
      {
        EarlierIsTraceable(incoming, stored, newId, e);
      }
    } else {
      HeadIsDistinct(anchors, stored, retainOlderPrefix, newId);
      HeadContents(anchors, stored, retainOlderPrefix, newId);
      assert entries == HeadEntries(anchors, stored, newId, retainOlderPrefix);
      forall e | e in entries
        ensures Traceable(incoming, stored, e)
      {
        HeadIsTraceable(incoming, stored, newId, PrefixEnd(anchors, retainOlderPrefix), e);
      }
    }
  }

  /** A report takes a row's place, or a place of its own, exactly when it is in the accepted positions. */
  ghost predicate Accepts(plan: Plan) {
    && (forall e :: e in plan.entries && e.History? ==> e.index in plan.accepted && plan.accepted[e.index] == e.id)
    && (forall i :: i in plan.accepted ==>
          exists e :: e in plan.entries && e.History? && e.index == i && e.id == plan.accepted[i])
  }

  /** The row keeps what it shows although the report is matched to it. */
  predicate Withstands(stored: seq<Stored>, anchor: Option<nat>) {
    anchor.Some? && anchor.value < |stored| && KeepsContent(stored[anchor.value])
  }

  /**
   * The accepted positions are those of the shown reports. In a head that is every report but those matched to a row
   * that keeps its content; in an earlier page those that are matched to none.
   */
  lemma AcceptedIs(incoming: seq<Identity.Row>, stored: seq<Stored>, earlier: bool, retainOlderPrefix: bool,
                   newId: nat -> Text)
    requires Planned(incoming, stored, earlier, retainOlderPrefix, newId).Ok?
    ensures var plan, anchors := Planned(incoming, stored, earlier, retainOlderPrefix, newId).value,
                                 AnchorsOf(incoming, stored);
            && Accepts(plan)
            && forall i: nat :: i in plan.accepted <==>
                 i < |incoming| && if earlier then anchors[i].None? else !Withstands(stored, anchors[i])
  {
    var anchors := AnchorsOf(incoming, stored);
    AnchorsAreInjective(incoming, stored);
    PlannedIs(incoming, stored, earlier, retainOlderPrefix, newId);
    hide Planned, AnchorsOf, FreshIds, Ordered, Woven;
    if earlier {
      if retainOlderPrefix { EarlierIgnoresPrefix(anchors, stored, newId); }
      EarlierContents(anchors, stored, newId);
      EarlierAccepts(anchors, stored, newId);
    } else {
      HeadAccepts(anchors, stored, retainOlderPrefix, newId);
    }
  }

  lemma HeadAccepts(anchors: Anchors, stored: seq<Stored>, retainOlderPrefix: bool, newId: nat -> Text)
    requires Injective(anchors, |stored|) && PlanOf(anchors, stored, false, retainOlderPrefix, newId).Ok?
             && DistinctStored(stored)
    ensures var plan := PlanOf(anchors, stored, false, retainOlderPrefix, newId).value;
            && Accepts(plan)
            && forall i: nat :: i in plan.accepted <==> i < |anchors| && !Withstands(stored, anchors[i])
  {
    var plan := PlanOf(anchors, stored, false, retainOlderPrefix, newId).value;
    HeadContents(anchors, stored, retainOlderPrefix, newId);
    assert plan.entries == HeadEntries(anchors, stored, newId, retainOlderPrefix);
    assert plan.accepted == HeadAccepted(anchors, stored, newId);
    hide PlanOf, HeadEntries, PrefixEnd, Survives, ReaderOf, KeepsContent;
    forall i | i in plan.accepted
      ensures exists e :: e in plan.entries && e.History? && e.index == i && e.id == plan.accepted[i]
    {
      assert FromRead(anchors, stored, newId, HeadEntry(anchors, stored, newId, i));
    }
  }

  lemma EarlierAccepts(anchors: Anchors, stored: seq<Stored>, newId: nat -> Text)
    requires Injective(anchors, |stored|) && PlanOf(anchors, stored, true, false, newId).Ok? && DistinctStored(stored)
    ensures var plan := PlanOf(anchors, stored, true, false, newId).value;
            && Accepts(plan) && forall i: nat :: i in plan.accepted <==> i < |anchors| && anchors[i].None?
  {
    var plan := PlanOf(anchors, stored, true, false, newId).value;
    EarlierContents(anchors, stored, newId);
    assert plan.entries == EarlierEntries(anchors, stored, newId);
    assert plan.accepted == EarlierAccepted(anchors, newId);
    hide PlanOf, EarlierEntries, IdAt;
    forall i | i in plan.accepted
      ensures exists e :: e in plan.entries && e.History? && e.index == i && e.id == plan.accepted[i]
    {
      var e := History(i, None, IdAt(anchors, newId, i));
      assert e in plan.entries;
    }
  }

  lemma FreshWhenPlanned(anchors: Anchors, stored: seq<Stored>, earlier: bool, retainOlderPrefix: bool,
                         newId: nat -> Text)
    requires Injective(anchors, |stored|) && PlanOf(anchors, stored, earlier, retainOlderPrefix, newId).Ok?
    ensures FreshIds(anchors, stored, newId, |anchors|)
  {
    hide FreshIds, Injective, Ordered;
  }

  lemma HeadIsTraceable(incoming: seq<Identity.Row>, stored: seq<Stored>, newId: nat -> Text, prefixEnd: nat, e: Entry)
    requires ValidRows(incoming, stored) && Injective(AnchorsOf(incoming, stored), |stored|)
    requires FreshIds(AnchorsOf(incoming, stored), stored, newId, |incoming|)
    requires FromRead(AnchorsOf(incoming, stored), stored, newId, e)
             || Surviving(AnchorsOf(incoming, stored), stored, prefixEnd, e)
    ensures Traceable(incoming, stored, e)
  {
    var anchors := AnchorsOf(incoming, stored);
    hide Survives, Identity.Matched, FreshIds, StoredId, ValidRows;
    if FromRead(anchors, stored, newId, e) {
      var i :| 0 <= i < |anchors| && e == HeadEntry(anchors, stored, newId, i);
      if anchors[i].None? { NewIsNotStored(anchors, stored, newId, i); }
    }
  }

  lemma EarlierIsTraceable(incoming: seq<Identity.Row>, stored: seq<Stored>, newId: nat -> Text, e: Entry)
    requires FreshIds(AnchorsOf(incoming, stored), stored, newId, |incoming|)
    requires || (exists p :: 0 <= p < |stored| && e == Preserved(p, stored[p].id))
             || (exists i :: 0 <= i < |incoming| && AnchorsOf(incoming, stored)[i].None?
                             && e == History(i, None, IdAt(AnchorsOf(incoming, stored), newId, i)))
    ensures Traceable(incoming, stored, e)
  {
    hide FreshIds, StoredId, Identity.Matched;
    if e.History? {
      NewIsNotStored(AnchorsOf(incoming, stored), stored, newId, e.index);
    }
  }

  /** An owned, streaming or changed stored row is in every accepted plan, of a head or of an earlier page. */
  lemma FlaggedStays(incoming: seq<Identity.Row>, stored: seq<Stored>, earlier: bool, retainOlderPrefix: bool,
                     newId: nat -> Text, p: nat)
    requires Planned(incoming, stored, earlier, retainOlderPrefix, newId).Ok?
    requires p < |stored| && Flagged(stored[p])
    ensures exists e ::
              e in Planned(incoming, stored, earlier, retainOlderPrefix, newId).value.entries && e.id == stored[p].id
  {
    var anchors := AnchorsOf(incoming, stored);
    AnchorsAreInjective(incoming, stored);
    PlannedIs(incoming, stored, earlier, retainOlderPrefix, newId);
    var entries := Planned(incoming, stored, earlier, retainOlderPrefix, newId).value.entries;
    hide Planned, PlanOf, Injective, AnchorsOf;
    if earlier {
      EarlierContents(anchors, stored, newId);
      if retainOlderPrefix { EarlierIgnoresPrefix(anchors, stored, newId); }
      assert entries == EarlierEntries(anchors, stored, newId);
      assert Preserved(p, stored[p].id) in entries;
    } else {
      HeadShowsSurvivors(anchors, stored, retainOlderPrefix, newId, p);
      assert entries == HeadEntries(anchors, stored, newId, retainOlderPrefix);
    }
  }

  // ----- the code's loops -----

  ghost predicate Used(used: set<Text>, anchors: Anchors, stored: seq<Stored>, newId: nat -> Text, upto: nat)
    requires upto <= |anchors|
  {
    forall id :: id in used <==>
      StoredId(stored, id) || (exists k :: 0 <= k < upto && anchors[k].None? && IdAt(anchors, newId, k) == id)
  }

  lemma FreshNext(used: set<Text>, anchors: Anchors, stored: seq<Stored>, newId: nat -> Text, i: nat)
    requires i < |anchors| && Used(used, anchors, stored, newId, i) && FreshIds(anchors, stored, newId, i)
    ensures FreshIds(anchors, stored, newId, i + 1)
       <==> (anchors[i].None? ==> ValidId(IdAt(anchors, newId, i)) && IdAt(anchors, newId, i) !in used)
    ensures FreshIds(anchors, stored, newId, |anchors|) ==> FreshIds(anchors, stored, newId, i + 1)
    ensures Used(if anchors[i].None? then used + {IdAt(anchors, newId, i)} else used, anchors, stored, newId, i + 1)
  {
    hide IdAt, StoredId, ValidId;
    if anchors[i].None? && IdAt(anchors, newId, i) in used && !StoredId(stored, IdAt(anchors, newId, i)) {
      var k :| 0 <= k < i && anchors[k].None? && IdAt(anchors, newId, k) == IdAt(anchors, newId, i);
      assert !FreshIds(anchors, stored, newId, i + 1);
    }
  }

  /** What becomes of each row of the read, drawing an ID for each new one; `None` when an ID is unusable. */
  method Accept(anchors: Anchors, stored: seq<Stored>, earlier: bool, newId: nat -> Text)
      returns (base: Option<seq<Entry>>, accepted: map<nat, Text>)
    requires Injective(anchors, |stored|)
    ensures base.Some? <==> FreshIds(anchors, stored, newId, |anchors|)
    ensures base.Some? && !earlier ==> base.value == HeadSpine(anchors, stored, newId)
    ensures base.Some? ==>
              accepted == if earlier then EarlierAccepted(anchors, newId) else HeadAccepted(anchors, stored, newId)
  {
    hide FreshIds, Used;
    var used := set s | s in stored :: s.id;
    var entries: seq<Entry> := [];
    accepted := map[];
    var drawn := 0;
    NothingUsed(used, anchors, stored, newId);
    for i := 0 to |anchors|
      invariant drawn == Drawn(anchors, i)
      invariant FreshIds(anchors, stored, newId, i) && Used(used, anchors, stored, newId, i)
      invariant !earlier ==> entries == HeadSpine(anchors, stored, newId)[..i]
      invariant accepted == AcceptedBefore(anchors, stored, earlier, newId, i)
    {
      FreshNext(used, anchors, stored, newId, i);
      AcceptedNext(anchors, stored, earlier, newId, i);
      hide AcceptedBefore;
      if anchors[i].Some? {
        if !earlier {
          var row := stored[anchors[i].value];
          if KeepsContent(row) {
            entries := entries + [Preserved(anchors[i].value, row.id)];
          } else {
            entries := entries + [History(i, anchors[i], row.id)];
            accepted := accepted[i := row.id];
          }
        }
      } else {
        var id := newId(drawn);
        drawn := drawn + 1;
        if !ValidId(id) || id in used {
          return None, map[];
        }
        used := used + {id};
        entries := entries + [History(i, None, id)];
        accepted := accepted[i := id];
      }
    }
    base := Some(entries);
  }

  ghost function AcceptedBefore(anchors: Anchors, stored: seq<Stored>, earlier: bool, newId: nat -> Text,
                                n: nat): map<nat, Text>
    requires Injective(anchors, |stored|) && n <= |anchors|
  {
    if earlier then map i: nat | i < n && anchors[i].None? :: IdAt(anchors, newId, i)
    else map i: nat | i < n && HeadEntry(anchors, stored, newId, i).History? :: HeadEntry(anchors, stored, newId, i).id
  }

  lemma AcceptedNext(anchors: Anchors, stored: seq<Stored>, earlier: bool, newId: nat -> Text, i: nat)
    requires Injective(anchors, |stored|) && i < |anchors|
    ensures var before, e := AcceptedBefore(anchors, stored, earlier, newId, i), HeadEntry(anchors, stored, newId, i);
            AcceptedBefore(anchors, stored, earlier, newId, i + 1)
              == if anchors[i].None? then before[i := IdAt(anchors, newId, i)]
                 else if !earlier && e.History? then before[i := e.id] else before
  {
    hide IdAt;
  }

  lemma NothingUsed(used: set<Text>, anchors: Anchors, stored: seq<Stored>, newId: nat -> Text)
    requires used == set s | s in stored :: s.id
    ensures FreshIds(anchors, stored, newId, 0) && Used(used, anchors, stored, newId, 0)
  {
  }

  /** Consecutive matches ascend. */
  method Ascends(anchors: Anchors) returns (ordered: bool)
    ensures ordered <==> Ordered(anchors)
  {
    var last: Option<nat> := None;
    for i := 0 to |anchors|
      invariant last.None? ==> forall k :: 0 <= k < i ==> anchors[k].None?
      invariant last.Some? ==> exists k :: 0 <= k < i && anchors[k] == last
      invariant forall k :: 0 <= k < i && anchors[k].Some? ==> last.Some? && anchors[k].value <= last.value
      invariant Ordered(anchors[..i])
    {
      if anchors[i].Some? {
        if last.Some? && anchors[i].value <= last.value {
          return false;
        }
        last := anchors[i];
      }
    }
    assert anchors[..|anchors|] == anchors;
    return true;
  }

  /** The stored rows as a track along the base: a row is shared when its ID is in the base. */
  method TrackBase(anchors: Anchors, stored: seq<Stored>, base: seq<Entry>, prefixEnd: nat, ghost newId: nat -> Text)
      returns (track: seq<Track>)
    requires Injective(anchors, |stored|) && FreshIds(anchors, stored, newId, |anchors|) && DistinctStored(stored)
    requires base == HeadSpine(anchors, stored, newId)
    ensures track == HeadTrack(anchors, stored, prefixEnd)
  {
    hide FreshIds, Survives, Injective, HeadTrack;
    var where: map<Text, nat> := map[];
    for i := 0 to |base|
      invariant forall k :: 0 <= k < i ==> base[k].id in where
      invariant forall id :: id in where ==> where[id] < |base| && base[where[id]].id == id
    {
      where := where[base[i].id := i];
    }
    track := [];
    for p := 0 to |stored|
      invariant track == HeadTrack(anchors, stored, prefixEnd)[..p]
    {
      BaseHolds(anchors, stored, newId, where, p);
      TrackAt(anchors, stored, prefixEnd, p);
      var row := stored[p];
      var next := if row.id in where then Anchor(where[row.id])
                  else if Survives(stored, p, prefixEnd) then Loose(Preserved(p, row.id)) else Skip;
      assert next == HeadTrack(anchors, stored, prefixEnd)[p];
      track := track + [next];
    }
  }

  lemma TrackAt(anchors: Anchors, stored: seq<Stored>, prefixEnd: nat, p: nat)
    requires p < |stored|
    ensures HeadTrack(anchors, stored, prefixEnd)[p]
              == (if ReaderOf(anchors, p).Some? then Anchor(ReaderOf(anchors, p).value)
              else if Survives(stored, p, prefixEnd) then Loose(Preserved(p, stored[p].id)) else Skip)
  {
    hide Survives;
  }

  /** A stored row's ID is in the base exactly when some row of the read is that row, and there. */
  lemma BaseHolds(anchors: Anchors, stored: seq<Stored>, newId: nat -> Text, where: map<Text, nat>, p: nat)
    requires Injective(anchors, |stored|) && FreshIds(anchors, stored, newId, |anchors|) && DistinctStored(stored)
             && p < |stored|
    requires forall k :: 0 <= k < |anchors| ==> HeadEntry(anchors, stored, newId, k).id in where
    requires forall id :: id in where ==> where[id] < |anchors| && HeadEntry(anchors, stored, newId, where[id]).id == id
    ensures stored[p].id in where <==> ReaderOf(anchors, p).Some?
    ensures stored[p].id in where ==> ReaderOf(anchors, p) == Some(where[stored[p].id])
  {
    hide FreshIds;
    if stored[p].id in where {
      var k := where[stored[p].id];
      if anchors[k].None? {
        DrawnIsNotStored(anchors, stored, newId, k, p);
      } else {
        assert anchors[k].value == p;
      }
    }
    var reader := ReaderOf(anchors, p);
    if reader.Some? {
      assert HeadEntry(anchors, stored, newId, reader.value).id == stored[p].id;
    }
  }

  method FirstMatch(anchors: Anchors) returns (first: Option<nat>)
    ensures first == FirstAnchor(anchors)
  {
    for i := 0 to |anchors|
      invariant forall k :: 0 <= k < i ==> anchors[k].None?
    {
      if anchors[i].Some? {
        return anchors[i];
      }
    }
    return None;
  }

  /** Plan a read: match it, give new rows IDs, and weave the two sequences into one. */
  method PlanRows(incoming: seq<Identity.Row>, stored: seq<Stored>, earlier: bool, retainOlderPrefix: bool,
                  newId: nat -> Text)
      returns (r: Result<Plan, Failure>)
    ensures r == Planned(incoming, stored, earlier, retainOlderPrefix, newId)
  {
    if !ValidRows(incoming, stored) {
      return Err(Invalid);
    }
    var matches := Identity.FindMatches(incoming, Identities(stored));
    var anchors: Anchors := seq(|incoming|, i requires 0 <= i < |incoming| =>
      if i in matches then Some(matches[i].storedIndex) else None);
    MatchesAreAnchors(incoming, stored, matches, anchors);
    AnchorsAreInjective(incoming, stored);
    PlannedIs(incoming, stored, earlier, retainOlderPrefix, newId);
    hide AnchorsOf, Planned, ValidRows, Injective;
    r := PlanAnchors(anchors, stored, earlier, retainOlderPrefix, newId);
  }

  lemma PlannedIs(incoming: seq<Identity.Row>, stored: seq<Stored>, earlier: bool, retainOlderPrefix: bool,
                  newId: nat -> Text)
    requires ValidRows(incoming, stored) && Injective(AnchorsOf(incoming, stored), |stored|)
    ensures Planned(incoming, stored, earlier, retainOlderPrefix, newId)
         == PlanOf(AnchorsOf(incoming, stored), stored, earlier, retainOlderPrefix, newId)
    ensures DistinctStored(stored)
  {
    hide PlanOf, AnchorsOf, Injective;
  }

  lemma MatchesAreAnchors(incoming: seq<Identity.Row>, stored: seq<Stored>, matches: map<nat, Identity.Match>,
                          anchors: Anchors)
    requires forall i: nat :: i in matches <==>
               i < |incoming| && Identity.Matched(incoming, Identities(stored), i).Some?
    requires forall i :: i in matches ==> Identity.Matched(incoming, Identities(stored), i) == Some(matches[i])
    requires |anchors| == |incoming|
    requires forall i: nat :: i < |anchors| ==>
               anchors[i] == if i in matches then Some(matches[i].storedIndex) else None
    ensures anchors == AnchorsOf(incoming, stored)
  {
    hide Identity.Matched;
  }

  method PlanAnchors(anchors: Anchors, stored: seq<Stored>, earlier: bool, retainOlderPrefix: bool, newId: nat -> Text)
      returns (r: Result<Plan, Failure>)
    requires Injective(anchors, |stored|) && DistinctStored(stored)
    ensures r == PlanOf(anchors, stored, earlier, retainOlderPrefix, newId)
  {
    hide Weave, FreshIds, Injective, Ordered, HeadAccepted, EarlierAccepted, HeadSpine, HeadTrack;
    var ordered := Ascends(anchors);
    if earlier && !ordered {
      return Err(Invalid);
    }
    var base, accepted := Accept(anchors, stored, earlier, newId);
    if base.None? {
      return Err(Invalid);
    }
    if earlier {
      var entries := WeaveEarlier(anchors, stored, accepted, newId);
      return Ok(Plan.Plan(entries, accepted));
    }
    var first := FirstMatch(anchors);
    var prefixEnd := if retainOlderPrefix && ordered && first.Some? then first.value else 0;
    var track := TrackBase(anchors, stored, base.value, prefixEnd, newId);
    HeadShape(anchors, stored, newId, prefixEnd);
    var entries := WeaveInto(base.value, track, true);
    return Ok(Plan.Plan(entries, accepted));
  }

  method WeaveEarlier(anchors: Anchors, stored: seq<Stored>, accepted: map<nat, Text>, ghost newId: nat -> Text)
    returns (entries: seq<Entry>)
    requires Injective(anchors, |stored|) && DistinctStored(stored) && Ordered(anchors)
             && FreshIds(anchors, stored, newId, |anchors|)
    requires accepted == EarlierAccepted(anchors, newId)
    ensures entries == Entries(Weave(StoredSpine(stored), EarlierTrack(anchors, newId), false))
  {
    EarlierShape(anchors, stored, newId);
    hide Weave, FreshIds, Injective, Ordered, EarlierAccepted;
    var track := TrackPage(anchors, accepted, newId);
    hide EarlierTrack, Anchored, StoredSpine;
    entries := WeaveInto(StoredSpine(stored), track, false);
  }

  /** The page as a track along the stored rows. */
  method TrackPage(anchors: Anchors, accepted: map<nat, Text>, ghost newId: nat -> Text) returns (track: seq<Track>)
    requires accepted == EarlierAccepted(anchors, newId)
    ensures track == EarlierTrack(anchors, newId)
  {
    hide IdAt, EarlierTrack;
    track := [];
    for i := 0 to |anchors|
      invariant track == EarlierTrack(anchors, newId)[..i]
    {
      var next := if anchors[i].Some? then Anchor(anchors[i].value) else Loose(History(i, None, accepted[i]));
      assert next == EarlierTrack(anchors, newId)[i];
      track := track + [next];
    }
  }
}
