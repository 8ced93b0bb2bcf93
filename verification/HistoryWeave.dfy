/** Weaving one sequence into another around the rows they share. */
module HistoryWeave {
  import opened Wrappers
  import opened HistoryTypes

  /** A row of the displayed history: a row of the read, or a stored row kept as it was. */
  datatype Entry = History(index: nat, previous: Option<nat>, id: Text) | Preserved(index: nat, id: Text)

  /** One element of the sequence being woven in: a row of the spine, a row to place, or nothing. */
  datatype Track = Anchor(at: nat) | Loose(entry: Entry) | Skip

  /** Where a row stands: beside which spine row, before it (0), as it (1) or after it (2), and in what order. */
  datatype Place = Place(host: int, phase: int, order: int)

  datatype Placed = Placed(entry: Entry, place: Place)

  // ----- places -----

  /** The spine row of the last anchor before position `u`. */
  function Preceding(track: seq<Track>, u: nat): (host: Option<nat>)
    requires u <= |track|
    ensures host.None? <==> forall w :: 0 <= w < u ==> !track[w].Anchor?
    ensures host.Some? ==>
              exists t :: 0 <= t < u && track[t] == Anchor(host.value) && forall w :: t < w < u ==> !track[w].Anchor?
  {
    if u == 0 then None
    else if track[u - 1].Anchor? then Some(track[u - 1].at)
    else Preceding(track, u - 1)
  }

  /** The spine row of the first anchor at or after position `u`. */
  function Following(track: seq<Track>, u: nat): (host: Option<nat>)
    requires u <= |track|
    ensures host.None? <==> forall w :: u <= w < |track| ==> !track[w].Anchor?
    ensures host.Some? ==>
              exists t ::
                u <= t < |track| && track[t] == Anchor(host.value) && forall w :: u <= w < t ==> !track[w].Anchor?
    decreases |track| - u
  {
    if u == |track| then None
    else if track[u].Anchor? then Some(track[u].at)
    else Following(track, u + 1)
  }

  /** Rows with no anchor on either side stand together at `end`. */
  function PlaceOf(track: seq<Track>, u: nat, end: int): Place
    requires u < |track| && !track[u].Skip?
  {
    if track[u].Anchor? then Place(track[u].at, 1, 0)
    else if Preceding(track, u).Some? then Place(Preceding(track, u).value, 2, u)
    else if Following(track, u).Some? then Place(Following(track, u).value, 0, u)
    else Place(end, 0, u)
  }

  /** The loose rows among the first `upto` that stand at one side of one spine row. */
  function Attached(track: seq<Track>, end: int, host: int, phase: int, upto: nat): seq<Placed>
    requires upto <= |track|
  {
    if upto == 0 then []
    else
      var u := upto - 1;
      Attached(track, end, host, phase, u)
      + if track[u].Loose? && PlaceOf(track, u, end).host == host && PlaceOf(track, u, end).phase == phase
        then [Placed(track[u].entry, PlaceOf(track, u, end))] else []
  }

  function Segment(spine: seq<Entry>, track: seq<Track>, end: int, i: nat): seq<Placed>
    requires i < |spine|
  {
    Attached(track, end, i, 0, |track|) + [Placed(spine[i], Place(i, 1, 0))] + Attached(track, end, i, 2, |track|)
  }

  function Woven(spine: seq<Entry>, track: seq<Track>, end: int, i: nat): seq<Placed>
    requires i <= |spine|
    decreases |spine| - i
  {
    if i == |spine| then [] else Segment(spine, track, end, i) + Woven(spine, track, end, i + 1)
  }

  /** The whole weave. Unanchored rows go last for a head, first for an earlier page. */
  function Weave(spine: seq<Entry>, track: seq<Track>, unanchoredLast: bool): seq<Placed> {
    var end := if unanchoredLast then |spine| else -1;
    var alone := Attached(track, end, end, 0, |track|);
    if unanchoredLast then Woven(spine, track, end, 0) + alone else alone + Woven(spine, track, end, 0)
  }

  function Entries(placed: seq<Placed>): (entries: seq<Entry>)
    ensures |entries| == |placed|
    ensures forall i :: 0 <= i < |placed| ==> entries[i] == placed[i].entry
  {
    seq(|placed|, i requires 0 <= i < |placed| => placed[i].entry)
  }

  // ----- the weave is sorted by place -----

  predicate Below(a: Place, b: Place) {
    a.host < b.host || (a.host == b.host && (a.phase < b.phase || (a.phase == b.phase && a.order < b.order)))
  }

  predicate Sorted(placed: seq<Placed>) {
    forall i, j :: 0 <= i < j < |placed| ==> Below(placed[i].place, placed[j].place)
  }

  lemma SortedJoin(a: seq<Placed>, b: seq<Placed>)
    requires Sorted(a) && Sorted(b)
    requires forall x, y :: x in a && y in b ==> Below(x.place, y.place)
    ensures Sorted(a + b)
  {
  }

  lemma {:induction false} AttachedSorted(track: seq<Track>, end: int, host: int, phase: int, upto: nat)
    requires upto <= |track|
    ensures Sorted(Attached(track, end, host, phase, upto))
    ensures forall x :: x in Attached(track, end, host, phase, upto) <==>
              exists u :: 0 <= u < upto && track[u].Loose? && x == Placed(track[u].entry, PlaceOf(track, u, end))
                          && x.place.host == host && x.place.phase == phase
  {
    if upto > 0 {
      AttachedSorted(track, end, host, phase, upto - 1);
      var less := Attached(track, end, host, phase, upto - 1);
      forall x | x in less
        ensures x.place.host == host && x.place.phase == phase && x.place.order < upto - 1
      {
        var u :| 0 <= u < upto - 1 && track[u].Loose? && x == Placed(track[u].entry, PlaceOf(track, u, end))
                 && x.place.host == host && x.place.phase == phase;
      }
    }
  }

  /** Anchors name rows of the spine. */
  predicate Anchored(spine: seq<Entry>, track: seq<Track>) {
    forall u :: 0 <= u < |track| && track[u].Anchor? ==> track[u].at < |spine|
  }

  /** `x` is the placed form of a spine row or of a loose row. */
  predicate Member(spine: seq<Entry>, track: seq<Track>, end: int, x: Placed) {
    || (exists i :: 0 <= i < |spine| && x == Placed(spine[i], Place(i, 1, 0)))
    || (exists u :: 0 <= u < |track| && track[u].Loose? && x == Placed(track[u].entry, PlaceOf(track, u, end)))
  }

  lemma {:induction false} WovenSorted(spine: seq<Entry>, track: seq<Track>, end: int, i: nat)
    requires i <= |spine|
    ensures Sorted(Woven(spine, track, end, i))
    ensures forall x :: x in Woven(spine, track, end, i) ==> Member(spine, track, end, x) && i <= x.place.host < |spine|
    ensures forall k :: i <= k < |spine| ==> Placed(spine[k], Place(k, 1, 0)) in Woven(spine, track, end, i)
    ensures forall u :: 0 <= u < |track| && track[u].Loose? && i <= PlaceOf(track, u, end).host < |spine|
              ==> Placed(track[u].entry, PlaceOf(track, u, end)) in Woven(spine, track, end, i)
    decreases |spine| - i
  {
    if i < |spine| {
      WovenSorted(spine, track, end, i + 1);
      SegmentSorted(spine, track, end, i);
      hide Segment, PlaceOf, Member;
      SortedJoin(Segment(spine, track, end, i), Woven(spine, track, end, i + 1));
    }
  }

  lemma SegmentSorted(spine: seq<Entry>, track: seq<Track>, end: int, i: nat)
    requires i < |spine|
    ensures var segment := Segment(spine, track, end, i);
            && Sorted(segment) && Placed(spine[i], Place(i, 1, 0)) in segment
            && (forall x :: x in segment ==> Member(spine, track, end, x) && x.place.host == i)
            && (forall u :: 0 <= u < |track| && track[u].Loose? && PlaceOf(track, u, end).host == i
                    ==> Placed(track[u].entry, PlaceOf(track, u, end)) in segment)
  {
    AttachedSorted(track, end, i, 0, |track|);
    AttachedSorted(track, end, i, 2, |track|);
    hide Attached;
    var before, after := Attached(track, end, i, 0, |track|), Attached(track, end, i, 2, |track|);
    var self := [Placed(spine[i], Place(i, 1, 0))];
    SortedJoin(before, self);
    SortedJoin(before + self, after);
    assert Segment(spine, track, end, i) == before + self + after;
    assert self[0] in self;
  }

  function End(spine: seq<Entry>, unanchoredLast: bool): int {
    if unanchoredLast then |spine| else -1
  }

  /**
   * The weave holds every spine row and every loose row, nothing else, each at its place, in the order of the places.
   */
  lemma WeaveSorted(spine: seq<Entry>, track: seq<Track>, unanchoredLast: bool)
    requires Anchored(spine, track)
    ensures Sorted(Weave(spine, track, unanchoredLast))
    ensures forall x :: x in Weave(spine, track, unanchoredLast) <==>
              Member(spine, track, End(spine, unanchoredLast), x)
  {
    var end := End(spine, unanchoredLast);
    var alone, woven := Attached(track, end, end, 0, |track|), Woven(spine, track, end, 0);
    WovenSorted(spine, track, end, 0);
    AttachedSorted(track, end, end, 0, |track|);
    if unanchoredLast {
      SortedJoin(woven, alone);
    } else {
      SortedJoin(alone, woven);
    }
    forall u | 0 <= u < |track| && track[u].Loose?
      ensures Placed(track[u].entry, PlaceOf(track, u, end)) in Weave(spine, track, unanchoredLast)
    {
      var p := PlaceOf(track, u, end);
      if p.host == end {
        assert p.phase == 0;
      }
    }
  }

  // ----- exactly once -----

  predicate DistinctEntries(entries: seq<Entry>) {
    forall i, j :: 0 <= i < j < |entries| ==> entries[i].id != entries[j].id
  }

  /** Loose rows have their own IDs, none of them a spine row's. */
  predicate LooseDistinct(spine: seq<Entry>, track: seq<Track>) {
    && (forall u, v :: 0 <= u < v < |track| && track[u].Loose? && track[v].Loose? ==>
          track[u].entry.id != track[v].entry.id)
    && (forall u, i :: 0 <= u < |track| && track[u].Loose? && 0 <= i < |spine| ==> track[u].entry.id != spine[i].id)
  }

  lemma WeaveIsDistinct(spine: seq<Entry>, track: seq<Track>, unanchoredLast: bool)
    requires Anchored(spine, track) && DistinctEntries(spine) && LooseDistinct(spine, track)
    ensures DistinctEntries(Entries(Weave(spine, track, unanchoredLast)))
  {
    var w, end := Weave(spine, track, unanchoredLast), End(spine, unanchoredLast);
    WeaveSorted(spine, track, unanchoredLast);
    hide Weave;
    forall a, b | 0 <= a < b < |w|
      ensures w[a].entry.id != w[b].entry.id
    {
      assert w[a] in w && w[b] in w;
      assert Below(w[a].place, w[b].place);
      assert Member(spine, track, end, w[a]) && Member(spine, track, end, w[b]);
    }
  }

  // ----- order is kept -----

  predicate Ascending(track: seq<Track>) {
    forall u, v :: 0 <= u < v < |track| && track[u].Anchor? && track[v].Anchor? ==> track[u].at < track[v].at
  }

  /** When the shared rows come in the same order on both sides, places follow the order of the sequence woven in. */
  lemma PlacesFollow(spine: seq<Entry>, track: seq<Track>, u: nat, v: nat, end: int)
    requires Anchored(spine, track) && Ascending(track)
    requires u < v < |track| && !track[u].Skip? && !track[v].Skip?
    ensures Below(PlaceOf(track, u, end), PlaceOf(track, v, end))
  {
  }

  /** The row of the weave that element `u` of the sequence stands for. */
  function Standing(spine: seq<Entry>, track: seq<Track>, u: nat, end: int): Placed
    requires u < |track| && !track[u].Skip? && Anchored(spine, track)
  {
    Placed(if track[u].Anchor? then spine[track[u].at] else track[u].entry, PlaceOf(track, u, end))
  }

  /** The sequence woven in survives as a subsequence: its rows appear in the weave, in its own order. */
  lemma OrderIsKept(spine: seq<Entry>, track: seq<Track>, unanchoredLast: bool)
    requires Anchored(spine, track) && Ascending(track)
    ensures var w, end := Weave(spine, track, unanchoredLast), End(spine, unanchoredLast);
            && (forall u :: 0 <= u < |track| && !track[u].Skip? ==> Standing(spine, track, u, end) in w)
            && (forall a, b, u, v | 0 <= a < |w| && 0 <= b < |w| && 0 <= u < v < |track| && !track[u].Skip?
                && !track[v].Skip? ::
                  w[a] == Standing(spine, track, u, end) && w[b] == Standing(spine, track, v, end) ==> a < b)
  {
    var w, end := Weave(spine, track, unanchoredLast), End(spine, unanchoredLast);
    WeaveSorted(spine, track, unanchoredLast);
    hide Weave;
    forall a, b, u, v | 0 <= a < |w| && 0 <= b < |w| && 0 <= u < v < |track| && !track[u].Skip? && !track[v].Skip?
                        && w[a] == Standing(spine, track, u, end) && w[b] == Standing(spine, track, v, end)
      ensures a < b
    {
      PlacesFollow(spine, track, u, v, end);
    }
  }

  /** The spine survives as a subsequence. */
  lemma SpineIsKept(spine: seq<Entry>, track: seq<Track>, unanchoredLast: bool)
    requires Anchored(spine, track)
    ensures var w := Weave(spine, track, unanchoredLast);
            && (forall i :: 0 <= i < |spine| ==> Placed(spine[i], Place(i, 1, 0)) in w)
            && (forall a, b, i, j | 0 <= a < |w| && 0 <= b < |w| && 0 <= i < j < |spine| ::
                  w[a] == Placed(spine[i], Place(i, 1, 0)) && w[b] == Placed(spine[j], Place(j, 1, 0)) ==> a < b)
  {
    WeaveSorted(spine, track, unanchoredLast);
    hide Weave;
  }

  // ----- the code's dictionaries -----

  type Shelf = map<Text, seq<Entry>>

  function On(shelf: Shelf, id: Text): seq<Entry> {
    if id in shelf then shelf[id] else []
  }

  /** `shelf[id, default: []].append(entry)`. */
  function Shelved(shelf: Shelf, id: Text, entry: Entry): Shelf {
    shelf[id := On(shelf, id) + [entry]]
  }

  /** The shelf holds, under each spine row's ID, what is attached to that side of it so far. */
  ghost predicate Holds(shelf: Shelf, spine: seq<Entry>, track: seq<Track>, end: int, phase: int, upto: nat)
    requires upto <= |track|
  {
    forall h :: 0 <= h < |spine| ==> On(shelf, spine[h].id) == Entries(Attached(track, end, h, phase, upto))
  }

  lemma AttachedNext(track: seq<Track>, end: int, host: int, phase: int, u: nat)
    requires u < |track|
    ensures Entries(Attached(track, end, host, phase, u + 1))
         == Entries(Attached(track, end, host, phase, u))
            + if track[u].Loose? && PlaceOf(track, u, end).host == host && PlaceOf(track, u, end).phase == phase
              then [track[u].entry] else []
  {
  }

  lemma HoldsNext(shelf: Shelf, spine: seq<Entry>, track: seq<Track>, end: int, phase: int, u: nat)
    requires u < |track| && DistinctEntries(spine) && Holds(shelf, spine, track, end, phase, u)
    ensures var placed := track[u].Loose? && PlaceOf(track, u, end).phase == phase
            && 0 <= PlaceOf(track, u, end).host < |spine|;
            Holds(if placed then Shelved(shelf, spine[PlaceOf(track, u, end).host].id, track[u].entry) else shelf,
                  spine, track, end, phase, u + 1)
  {
    hide PlaceOf;
    var placed := track[u].Loose? && PlaceOf(track, u, end).phase == phase
                  && 0 <= PlaceOf(track, u, end).host < |spine|;
    var next := if placed then Shelved(shelf, spine[PlaceOf(track, u, end).host].id, track[u].entry) else shelf;
    forall h | 0 <= h < |spine|
      ensures On(next, spine[h].id) == Entries(Attached(track, end, h, phase, u + 1))
    {
      assert On(shelf, spine[h].id) == Entries(Attached(track, end, h, phase, u));
      AttachedNext(track, end, h, phase, u);
      if placed && h != PlaceOf(track, u, end).host {
        assert spine[h].id != spine[PlaceOf(track, u, end).host].id;
      }
    }
  }

  /** The anchors after each position, found from the back. */
  method NextAnchors(track: seq<Track>) returns (next: seq<Option<nat>>)
    ensures |next| == |track|
    ensures forall u :: 0 <= u < |track| ==> next[u] == Following(track, u + 1)
  {
    next := seq(|track|, _ => None);
    var found: Option<nat> := None;
    var position := |track|;
    while position > 0
      invariant 0 <= position <= |track| == |next|
      invariant found == Following(track, position)
      invariant forall u :: position <= u < |track| ==> next[u] == Following(track, u + 1)
    {
      position := position - 1;
      next := next[position := found];
      if track[position].Anchor? { found := Some(track[position].at); }
    }
  }

  /** Put every loose row on the shelf of the anchor before it, else of the anchor after it. */
  method Shelve(spine: seq<Entry>, track: seq<Track>, ghost end: int)
    returns (before: Shelf, after: Shelf, alone: seq<Entry>)
    requires Anchored(spine, track) && DistinctEntries(spine) && !(0 <= end < |spine|)
    ensures Holds(before, spine, track, end, 0, |track|) && Holds(after, spine, track, end, 2, |track|)
    ensures alone == Entries(Attached(track, end, end, 0, |track|))
  {
    hide Attached, Holds, Shelved;
    var next := NextAnchors(track);
    NothingHeld(spine, track, end);
    before, after, alone := map[], map[], [];
    var preceding: Option<nat> := None;
    for u := 0 to |track|
      invariant preceding == Preceding(track, u)
      invariant Holds(before, spine, track, end, 0, u) && Holds(after, spine, track, end, 2, u)
      invariant alone == Entries(Attached(track, end, end, 0, u))
    {
      HoldsNext(before, spine, track, end, 0, u);
      HoldsNext(after, spine, track, end, 2, u);
      AttachedNext(track, end, end, 0, u);
      if track[u].Anchor? {
        preceding := Some(track[u].at);
      } else if track[u].Loose? {
        if preceding.Some? { after := Shelved(after, spine[preceding.value].id, track[u].entry); }
        else if next[u].Some? { before := Shelved(before, spine[next[u].value].id, track[u].entry); }
        else { alone := alone + [track[u].entry]; }
      }
    }
  }

  lemma NothingHeld(spine: seq<Entry>, track: seq<Track>, end: int)
    ensures Holds(map[], spine, track, end, 0, 0) && Holds(map[], spine, track, end, 2, 0)
    ensures Entries(Attached(track, end, end, 0, 0)) == []
  {
  }

  lemma SegmentIs(spine: seq<Entry>, track: seq<Track>, end: int, i: nat, before: Shelf, after: Shelf)
    requires i < |spine|
    requires Holds(before, spine, track, end, 0, |track|) && Holds(after, spine, track, end, 2, |track|)
    ensures Entries(Woven(spine, track, end, i))
         == On(before, spine[i].id) + [spine[i]] + On(after, spine[i].id) + Entries(Woven(spine, track, end, i + 1))
  {
    hide Attached;
  }

  /** Place every loose row, then lay out the spine with what is attached to it. */
  method WeaveInto(spine: seq<Entry>, track: seq<Track>, unanchoredLast: bool) returns (result: seq<Entry>)
    requires Anchored(spine, track) && DistinctEntries(spine)
    ensures result == Entries(Weave(spine, track, unanchoredLast))
  {
    hide Woven, Attached, Holds, On, Weave, Entries;
    ghost var end := End(spine, unanchoredLast);
    var before, after, alone := Shelve(spine, track, end);
    result := [];
    for i := 0 to |spine|
      invariant result + Entries(Woven(spine, track, end, i)) == Entries(Woven(spine, track, end, 0))
    {
      SegmentIs(spine, track, end, i, before, after);
      var piece := On(before, spine[i].id) + [spine[i]] + On(after, spine[i].id);
      JoinShifts(result, piece, Entries(Woven(spine, track, end, i + 1)));
      result := result + piece;
    }
    WovenEnds(spine, track, end);
    assert result == Entries(Woven(spine, track, end, 0));
    WeaveJoins(spine, track, unanchoredLast);
    result := if unanchoredLast then result + alone else alone + result;
  }

  lemma JoinShifts<T>(a: seq<T>, b: seq<T>, c: seq<T>)
    ensures a + (b + c) == (a + b) + c
  {
  }

  lemma WeaveJoins(spine: seq<Entry>, track: seq<Track>, unanchoredLast: bool)
    ensures var end := End(spine, unanchoredLast);
            var alone, woven := Entries(Attached(track, end, end, 0, |track|)), Entries(Woven(spine, track, end, 0));
            Entries(Weave(spine, track, unanchoredLast)) == if unanchoredLast then woven + alone else alone + woven
  {
    hide Attached, Woven;
  }

  lemma WovenEnds(spine: seq<Entry>, track: seq<Track>, end: int)
    ensures Entries(Woven(spine, track, end, |spine|)) == []
  {
  }
}
