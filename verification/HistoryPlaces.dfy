/** Where a row that only one side has is shown: beside its nearest neighbour that both sides have. */
module HistoryPlaces {
  import opened Wrappers
  import opened HistoryTypes
  import opened HistoryWeave
  import opened HistoryReconciliation
  import Identity = HistoryIdentity

  // ----- the weave -----

  /** What stands where in a weave is decided by places. */
  lemma PlacesDecide(spine: seq<Entry>, track: seq<Track>, last: bool, a: Placed, b: Placed, x: nat, y: nat)
    requires Anchored(spine, track) && DistinctEntries(Entries(Weave(spine, track, last)))
    requires a in Weave(spine, track, last) && b in Weave(spine, track, last) && a != b
    requires StandsAt(Entries(Weave(spine, track, last)), x, a.entry.id)
    requires StandsAt(Entries(Weave(spine, track, last)), y, b.entry.id)
    ensures x < y <==> Below(a.place, b.place)
  {
    var w := Weave(spine, track, last);
    WeaveSorted(spine, track, last);
    hide Weave;
    var i :| 0 <= i < |w| && w[i] == a;
    var j :| 0 <= j < |w| && w[j] == b;
    assert Entries(w)[i].id == Entries(w)[x].id && Entries(w)[j].id == Entries(w)[y].id;
    assert i == x && j == y;
    if x < y { assert Below(w[x].place, w[y].place); } else { assert Below(w[y].place, w[x].place); }
  }

  /** The last position before `u` that both sides have. */
  predicate LastShared(track: seq<Track>, u: nat, t: nat) {
    && t < u <= |track| && track[t].Anchor?
    && forall w :: t < w < u ==> !track[w].Anchor?
  }

  /** The first position after `u` that both sides have. */
  predicate NextShared(track: seq<Track>, u: nat, t: nat) {
    && u < t < |track| && track[t].Anchor?
    && forall w :: u < w < t ==> !track[w].Anchor?
  }

  predicate SharesBefore(track: seq<Track>, u: nat)
    requires u <= |track|
  {
    exists w :: 0 <= w < u && track[w].Anchor?
  }

  predicate SharesAfter(track: seq<Track>, u: nat)
    requires u <= |track|
  {
    exists w :: u <= w < |track| && track[w].Anchor?
  }

  lemma NearestShared(track: seq<Track>, u: nat, t: nat)
    requires u < |track| && track[u].Loose?
    ensures LastShared(track, u, t) ==> Preceding(track, u) == Some(track[t].at)
    ensures NextShared(track, u, t) ==> Following(track, u) == Some(track[t].at)
    ensures Preceding(track, u).Some? <==> SharesBefore(track, u)
    ensures Following(track, u).Some? <==> SharesAfter(track, u)
  {
    hide Preceding, Following;
  }

  /** The spine rows before a loose row: those up to its last neighbour, or before its next one, or all or none. */
  lemma LooseStands(spine: seq<Entry>, track: seq<Track>, last: bool, u: nat, i: nat, x: nat, h: nat, t: nat)
    requires Anchored(spine, track) && DistinctEntries(Entries(Weave(spine, track, last)))
    requires u < |track| && track[u].Loose? && i < |spine|
    requires StandsAt(Entries(Weave(spine, track, last)), x, track[u].entry.id)
    requires StandsAt(Entries(Weave(spine, track, last)), h, spine[i].id)
    ensures LastShared(track, u, t) ==> (h < x <==> i <= track[t].at)
    ensures NextShared(track, u, t) && !SharesBefore(track, u) ==> (h < x <==> i < track[t].at)
    ensures !SharesBefore(track, u) && !SharesAfter(track, u) ==> (h < x <==> last)
  {
    var end := if last then |spine| else -1;
    var a, b := Placed(spine[i], Place(i, 1, 0)), Placed(track[u].entry, PlaceOf(track, u, end));
    WeaveSorted(spine, track, last);
    hide Weave, Preceding, Following;
    NearestShared(track, u, t);
    assert Member(spine, track, end, a) && Member(spine, track, end, b);
    PlacesDecide(spine, track, last, a, b, h, x);
    hide LastShared, NextShared, SharesBefore, SharesAfter, Member, DistinctEntries, Anchored;
  }

  /** Loose rows with nothing shared between them keep their order. */
  lemma LooseKeepOrder(spine: seq<Entry>, track: seq<Track>, last: bool, u: nat, v: nat, x: nat, y: nat)
    requires Anchored(spine, track) && DistinctEntries(Entries(Weave(spine, track, last)))
    requires u < v < |track| && track[u].Loose? && track[v].Loose?
    requires forall w :: u <= w < v ==> !track[w].Anchor?
    requires StandsAt(Entries(Weave(spine, track, last)), x, track[u].entry.id)
    requires StandsAt(Entries(Weave(spine, track, last)), y, track[v].entry.id)
    ensures x < y
  {
    var end := if last then |spine| else -1;
    var a, b := Placed(track[u].entry, PlaceOf(track, u, end)), Placed(track[v].entry, PlaceOf(track, v, end));
    WeaveSorted(spine, track, last);
    hide Weave;
    SamePlace(track, u, v);
    assert Member(spine, track, end, a) && Member(spine, track, end, b);
    PlacesDecide(spine, track, last, a, b, x, y);
  }

  lemma {:induction false} SamePlace(track: seq<Track>, u: nat, v: nat)
    requires u <= v <= |track| && forall w :: u <= w < v ==> !track[w].Anchor?
    ensures Preceding(track, v) == Preceding(track, u) && Following(track, u) == Following(track, v)
    decreases v - u
  {
    if u < v { SamePlace(track, u, v - 1); }
  }

  // ----- a head -----

  /** Stored row `p` is a row of the read. */
  predicate IsShared(anchors: Anchors, p: nat) { exists i :: 0 <= i < |anchors| && anchors[i] == Some(p) }

  /** The nearest stored row before `p` that is a row of the read is `t`. */
  predicate SharedBefore(anchors: Anchors, p: nat, t: nat) {
    t < p && IsShared(anchors, t) && forall w: nat :: t < w < p ==> !IsShared(anchors, w)
  }

  /** No stored row before `p` is a row of the read; the first one after it that is, is `t`. */
  predicate OnlyAfter(anchors: Anchors, n: nat, p: nat, t: nat) {
    p < t < n && IsShared(anchors, t) && forall w: nat :: w < t && w != p ==> !IsShared(anchors, w)
  }

  lemma TrackShares(anchors: Anchors, stored: seq<Stored>, prefixEnd: nat, p: nat)
    requires p < |stored|
    ensures HeadTrack(anchors, stored, prefixEnd)[p].Anchor? <==> IsShared(anchors, p)
    ensures forall i | 0 <= i < |anchors| && anchors[i] == Some(p) && Injective(anchors, |stored|) ::
              HeadTrack(anchors, stored, prefixEnd)[p] == Anchor(i)
  {
  }

  /**
   * A stored row that a head does not mention but keeps stands between two rows of the read: after the one that its
   * nearest mentioned neighbour before it became, with no row of the read in between; without such a neighbour, right
   * before the one its next neighbour became; without any, after the whole read.
   */
  lemma SurvivorStands(anchors: Anchors, stored: seq<Stored>, retainOlderPrefix: bool, newId: nat -> Text, p: nat,
                       x: nat, i: nat, h: nat, t: nat, j: nat)
    requires Injective(anchors, |stored|) && PlanOf(anchors, stored, false, retainOlderPrefix, newId).Ok?
             && DistinctStored(stored)
    requires p < |stored| && !IsShared(anchors, p) && i < |anchors|
    requires StandsAt(HeadEntries(anchors, stored, newId, retainOlderPrefix), x, stored[p].id)
    requires StandsAt(HeadEntries(anchors, stored, newId, retainOlderPrefix), h,
                      HeadEntry(anchors, stored, newId, i).id)
    ensures j < |anchors| && anchors[j] == Some(t) && SharedBefore(anchors, p, t) ==> (h < x <==> i <= j)
    ensures j < |anchors| && anchors[j] == Some(t) && OnlyAfter(anchors, |stored|, p, t) ==> (h < x <==> i < j)
    ensures (forall w: nat :: w < |stored| ==> !IsShared(anchors, w)) ==> h < x
  {
    var prefixEnd := PrefixEnd(anchors, retainOlderPrefix);
    var spine, track := HeadSpine(anchors, stored, newId), HeadTrack(anchors, stored, prefixEnd);
    HeadEntriesAre(anchors, stored, retainOlderPrefix, newId);
    HeadShape(anchors, stored, newId, prefixEnd);
    HeadIsDistinct(anchors, stored, retainOlderPrefix, newId);
    SurvivorIsLoose(anchors, stored, retainOlderPrefix, newId, p, x);
    hide Weave, HeadEntries, PlanOf, PrefixEnd, Survives, ReaderOf, FreshIds, Ordered, HeadEntry, DistinctEntries;
    LooseStands(spine, track, true, p, i, x, h, t);
    forall w: nat | w < |stored|
      ensures track[w].Anchor? <==> IsShared(anchors, w)
    {
      TrackShares(anchors, stored, prefixEnd, w);
    }
    if t < |stored| { TrackShares(anchors, stored, prefixEnd, t); }
    hide HeadTrack, IsShared, Anchored;
  }

  lemma SurvivorIsLoose(anchors: Anchors, stored: seq<Stored>, retainOlderPrefix: bool, newId: nat -> Text, p: nat,
                        x: nat)
    requires Injective(anchors, |stored|) && PlanOf(anchors, stored, false, retainOlderPrefix, newId).Ok?
             && DistinctStored(stored)
    requires p < |stored| && !IsShared(anchors, p)
    requires StandsAt(HeadEntries(anchors, stored, newId, retainOlderPrefix), x, stored[p].id)
    ensures HeadTrack(anchors, stored, PrefixEnd(anchors, retainOlderPrefix))[p] == Loose(Preserved(p, stored[p].id))
  {
    var entries := HeadEntries(anchors, stored, newId, retainOlderPrefix);
    HeadShowsSurvivors(anchors, stored, retainOlderPrefix, newId, p);
    hide HeadEntries, PlanOf, PrefixEnd, Survives;
    assert entries[x] in entries;
  }

  /** The first row of the read that is a stored row comes, in the stored order, after `p`. */
  predicate BeforeFirstShared(anchors: Anchors, p: nat) {
    exists i ::
      0 <= i < |anchors| && anchors[i].Some? && p < anchors[i].value && forall k :: 0 <= k < i ==> anchors[k].None?
  }

  predicate Ascends(anchors: Anchors) {
    forall i, j :: 0 <= i < j < |anchors| && anchors[i].Some? && anchors[j].Some? ==>
      anchors[i].value < anchors[j].value
  }

  /**
   * A stored row that a head does not mention is shown exactly when it is the user's own, streams, has changed since
   * the read began, or is older than a partial head whose known rows ascend.
   */
  lemma UnmentionedIsShownIff(anchors: Anchors, stored: seq<Stored>, retainOlderPrefix: bool, newId: nat -> Text,
                              p: nat)
    requires Injective(anchors, |stored|) && PlanOf(anchors, stored, false, retainOlderPrefix, newId).Ok?
             && DistinctStored(stored)
    requires p < |stored| && !IsShared(anchors, p)
    ensures (exists e :: e in HeadEntries(anchors, stored, newId, retainOlderPrefix) && e.id == stored[p].id)
       <==> || stored[p].identity.locallyOwned || stored[p].preserveWhenAbsent || stored[p].changedAfterRead
            || (retainOlderPrefix && Ascends(anchors) && BeforeFirstShared(anchors, p))
  {
    HeadShowsSurvivors(anchors, stored, retainOlderPrefix, newId, p);
    assert Ascends(anchors) <==> Ordered(anchors);
    FirstIs(anchors, p);
    hide HeadEntries, PlanOf, Ordered, Ascends, FirstAnchor, BeforeFirstShared;
  }

  lemma FirstIs(anchors: Anchors, p: nat)
    ensures BeforeFirstShared(anchors, p) <==> FirstAnchor(anchors).Some? && p < FirstAnchor(anchors).value
  {
    var first := FirstAnchor(anchors);
    if first.Some? {
      var i :| 0 <= i < |anchors| && anchors[i] == first && forall k :: 0 <= k < i ==> anchors[k].None?;
    }
  }

  /** Kept rows with no mentioned row between them keep their order, whatever the order of the read. */
  lemma SurvivorsKeepOrder(anchors: Anchors, stored: seq<Stored>, retainOlderPrefix: bool, newId: nat -> Text, p: nat,
                           q: nat, x: nat, y: nat)
    requires Injective(anchors, |stored|) && PlanOf(anchors, stored, false, retainOlderPrefix, newId).Ok?
             && DistinctStored(stored)
    requires p < q < |stored| && forall w: nat :: p <= w <= q ==> !IsShared(anchors, w)
    requires StandsAt(HeadEntries(anchors, stored, newId, retainOlderPrefix), x, stored[p].id)
    requires StandsAt(HeadEntries(anchors, stored, newId, retainOlderPrefix), y, stored[q].id)
    ensures x < y
  {
    var prefixEnd := PrefixEnd(anchors, retainOlderPrefix);
    var spine, track := HeadSpine(anchors, stored, newId), HeadTrack(anchors, stored, prefixEnd);
    HeadEntriesAre(anchors, stored, retainOlderPrefix, newId);
    HeadShape(anchors, stored, newId, prefixEnd);
    HeadIsDistinct(anchors, stored, retainOlderPrefix, newId);
    SurvivorIsLoose(anchors, stored, retainOlderPrefix, newId, p, x);
    SurvivorIsLoose(anchors, stored, retainOlderPrefix, newId, q, y);
    hide Weave, HeadEntries, PlanOf, PrefixEnd, Survives, ReaderOf, FreshIds, Ordered, HeadEntry, DistinctEntries;
    forall w: nat | p <= w < q
      ensures !track[w].Anchor?
    {
      TrackShares(anchors, stored, prefixEnd, w);
    }
    LooseKeepOrder(spine, track, true, p, q, x, y);
  }

  // ----- an earlier page -----

  /**
   * A report of an earlier page that is no stored row stands between two stored rows: after the one that the nearest
   * known report before it is, with no stored row in between; without such a report, right before the one the next
   * known report is; without any, before everything stored.
   */
  lemma AdditionStands(anchors: Anchors, stored: seq<Stored>, newId: nat -> Text, i: nat, x: nat, p: nat, h: nat,
                       j: nat)
    requires Injective(anchors, |stored|) && PlanOf(anchors, stored, true, false, newId).Ok? && DistinctStored(stored)
    requires i < |anchors| && anchors[i].None? && p < |stored|
    requires StandsAt(EarlierEntries(anchors, stored, newId), x, IdAt(anchors, newId, i))
    requires StandsAt(EarlierEntries(anchors, stored, newId), h, stored[p].id)
    ensures j < i && anchors[j].Some? && (forall w :: j < w < i ==> anchors[w].None?) ==>
              (h < x <==> p <= anchors[j].value)
    ensures i < j < |anchors| && anchors[j].Some? && (forall w :: 0 <= w < j && w != i ==> anchors[w].None?) ==>
              (h < x <==> p < anchors[j].value)
    ensures (forall w :: 0 <= w < |anchors| ==> anchors[w].None?) ==> x < h
  {
    var spine, track := StoredSpine(stored), EarlierTrack(anchors, newId);
    EarlierIsWoven(anchors, stored, newId);
    EarlierShape(anchors, stored, newId);
    EarlierContents(anchors, stored, newId);
    hide Weave, EarlierEntries, PlanOf, FreshIds, Ordered, DistinctEntries, Anchored;
    DrawnIsNotStored(anchors, stored, newId, i, p);
    hide IdAt;
    LooseStands(spine, track, false, i, p, x, h, j);
    AdditionsShare(anchors, newId, i, j);
    hide EarlierTrack, LastShared, NextShared, SharesBefore, SharesAfter;
  }

  lemma AdditionsShare(anchors: Anchors, newId: nat -> Text, i: nat, j: nat)
    requires i < |anchors| && anchors[i].None?
    ensures var track := EarlierTrack(anchors, newId);
            && (j < i && anchors[j].Some? && (forall w :: j < w < i ==> anchors[w].None?) ==>
                  LastShared(track, i, j) && track[j].at == anchors[j].value)
            && (i < j < |anchors| && anchors[j].Some? && (forall w :: 0 <= w < j && w != i ==> anchors[w].None?) ==>
                  NextShared(track, i, j) && !SharesBefore(track, i) && track[j].at == anchors[j].value)
            && ((forall w :: 0 <= w < |anchors| ==> anchors[w].None?) ==>
                  !SharesBefore(track, i) && !SharesAfter(track, i))
  {
    hide IdAt;
  }

  /** New reports with no known report between them keep their order. */
  lemma AdditionsKeepOrder(anchors: Anchors, stored: seq<Stored>, newId: nat -> Text, i: nat, j: nat, x: nat, y: nat)
    requires Injective(anchors, |stored|) && PlanOf(anchors, stored, true, false, newId).Ok? && DistinctStored(stored)
    requires i < j < |anchors| && forall w :: i <= w <= j ==> anchors[w].None?
    requires StandsAt(EarlierEntries(anchors, stored, newId), x, IdAt(anchors, newId, i))
    requires StandsAt(EarlierEntries(anchors, stored, newId), y, IdAt(anchors, newId, j))
    ensures x < y
  {
    var spine, track := StoredSpine(stored), EarlierTrack(anchors, newId);
    EarlierIsWoven(anchors, stored, newId);
    EarlierShape(anchors, stored, newId);
    EarlierContents(anchors, stored, newId);
    hide Weave, EarlierEntries, PlanOf, FreshIds, Ordered, IdAt, DistinctEntries;
    LooseKeepOrder(spine, track, false, i, j, x, y);
  }
}
