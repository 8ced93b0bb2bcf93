/** What a log snapshot shows of several sources, and the reader that keeps a cursor in each. */
module LogView {
  import opened Wrappers
  import opened StableSort
  import opened LogText
  import opened LogFollow

  /** `timestamp` is what the line says of its time, if anything. */
  datatype Entry = Entry(source: nat, timestamp: Option<int>, text: seq<Code>)

  // ----- order -----

  /** Lines that cannot be dated are kept: their age cannot be told. */
  function Kept(entries: seq<Entry>, cutoff: Option<int>): (r: seq<Entry>)
    ensures forall e :: e in r <==>
              e in entries && (cutoff.None? || e.timestamp.None? || e.timestamp.value >= cutoff.value)
  {
    if entries == [] then []
    else
      var last := entries[|entries| - 1];
      Kept(entries[..|entries| - 1], cutoff)
      + if cutoff.None? || last.timestamp.None? || last.timestamp.value >= cutoff.value then [last] else []
  }

  function Dated(entries: seq<Entry>): (r: seq<Entry>)
    ensures forall e :: e in r <==> e in entries && e.timestamp.Some?
  {
    if entries == [] then []
    else Dated(entries[..|entries| - 1])
         + if entries[|entries| - 1].timestamp.Some? then [entries[|entries| - 1]] else []
  }

  function Time(e: Entry): int { if e.timestamp.Some? then e.timestamp.value else 0 }

  /** Put the sorted dated entries into the slots of dated entries, in order. */
  function Filled(entries: seq<Entry>, sorted: seq<Entry>): (r: seq<Entry>)
    requires |sorted| == |Dated(entries)|
    ensures |r| == |entries|
  {
    if entries == [] then []
    else
      var last, less := entries[|entries| - 1], entries[..|entries| - 1];
      if last.timestamp.None? then Filled(less, sorted) + [last]
      else Filled(less, sorted[..|sorted| - 1]) + [sorted[|sorted| - 1]]
  }

  lemma {:induction false} SameSize<T>(a: seq<T>, b: seq<T>)
    requires multiset(a) == multiset(b)
    ensures |a| == |b|
  {
    assert |multiset(a)| == |a| && |multiset(b)| == |b|;
  }

  function Sorted(entries: seq<Entry>): (r: seq<Entry>)
    ensures |r| == |Dated(entries)|
  {
    SameSize(SortBy(Dated(entries), Time), Dated(entries));
    SortBy(Dated(entries), Time)
  }

  function Reordered(entries: seq<Entry>): (r: seq<Entry>)
    ensures |r| == |entries|
  {
    Filled(entries, Sorted(entries))
  }

  function Undated(entries: seq<Entry>): (r: seq<Entry>)
  {
    if entries == [] then []
    else Undated(entries[..|entries| - 1])
         + if entries[|entries| - 1].timestamp.None? then [entries[|entries| - 1]] else []
  }

  lemma {:induction false} EntriesDivide(entries: seq<Entry>)
    ensures multiset(entries) == multiset(Dated(entries)) + multiset(Undated(entries))
  {
    if entries != [] {
      var less, last := entries[..|entries| - 1], entries[|entries| - 1];
      EntriesDivide(less);
      DatedNext(less, last);
      hide Dated, Undated;
      assert entries == less + [last];
    }
  }

  lemma DatedNext(less: seq<Entry>, e: Entry)
    ensures Dated(less + [e]) == Dated(less) + if e.timestamp.Some? then [e] else []
    ensures Undated(less + [e]) == Undated(less) + if e.timestamp.None? then [e] else []
  {
    assert (less + [e])[..|less|] == less;
  }

  lemma FilledNext(less: seq<Entry>, e: Entry, sorted: seq<Entry>)
    requires |sorted| == |Dated(less + [e])|
    ensures |Dated(less)| == |sorted| - (if e.timestamp.Some? then 1 else 0)
    ensures Filled(less + [e], sorted)
         == if e.timestamp.None?
            then Filled(less, sorted) + [e]
            else Filled(less, sorted[..|sorted| - 1]) + [sorted[|sorted| - 1]]
  {
    DatedNext(less, e);
    assert (less + [e])[..|less|] == less;
  }

  /** Filling keeps the undated slots. */
  lemma {:induction false} FilledSlots(entries: seq<Entry>, sorted: seq<Entry>)
    requires |sorted| == |Dated(entries)| && forall k :: 0 <= k < |sorted| ==> sorted[k].timestamp.Some?
    ensures var r := Filled(entries, sorted);
            forall k :: 0 <= k < |entries| ==>
              r[k].timestamp.Some? == entries[k].timestamp.Some? && (entries[k].timestamp.None? ==> r[k] == entries[k])
  {
    if entries != [] {
      var less, last := entries[..|entries| - 1], entries[|entries| - 1];
      assert entries == less + [last];
      FilledNext(less, last, sorted);
      hide Dated, Filled;
      var part := if last.timestamp.None? then sorted else sorted[..|sorted| - 1];
      FilledSlots(less, part);
      forall k | 0 <= k < |entries|
        ensures Filled(entries, sorted)[k].timestamp.Some? == entries[k].timestamp.Some?
                && (entries[k].timestamp.None? ==> Filled(entries, sorted)[k] == entries[k])
      {
        if k < |less| { assert entries[k] == less[k] && Filled(entries, sorted)[k] == Filled(less, part)[k]; }
      }
    }
  }

  lemma UndatedSlot(less: seq<Entry>, last: Entry, sorted: seq<Entry>)
    requires |sorted| == |Dated(less + [last])| == |Dated(less)| && last.timestamp.None?
    requires Dated(Filled(less, sorted)) == sorted && Undated(Filled(less, sorted)) == Undated(less)
    ensures Dated(Filled(less + [last], sorted)) == sorted
            && Undated(Filled(less + [last], sorted)) == Undated(less + [last])
  {
    FilledNext(less, last, sorted);
    DatedNext(less, last);
    DatedNext(Filled(less, sorted), last);
    hide Dated, Undated, Filled;
  }

  lemma DatedSlot(less: seq<Entry>, last: Entry, fewer: seq<Entry>, slot: Entry)
    requires |fewer| == |Dated(less)| && last.timestamp.Some? && slot.timestamp.Some?
             && |fewer| + 1 == |Dated(less + [last])|
    requires Dated(Filled(less, fewer)) == fewer && Undated(Filled(less, fewer)) == Undated(less)
    ensures Dated(Filled(less + [last], fewer + [slot])) == fewer + [slot]
    ensures Undated(Filled(less + [last], fewer + [slot])) == Undated(less + [last])
  {
    FilledNext(less, last, fewer + [slot]);
    assert (fewer + [slot])[..|fewer|] == fewer;
    DatedNext(less, last);
    DatedNext(Filled(less, fewer), slot);
    hide Dated, Undated, Filled;
  }

  /** Filled slots read as the sorted entries, the others as before. */
  lemma {:induction false} FilledHolds(entries: seq<Entry>, sorted: seq<Entry>)
    requires |sorted| == |Dated(entries)| && forall k :: 0 <= k < |sorted| ==> sorted[k].timestamp.Some?
    ensures Dated(Filled(entries, sorted)) == sorted
    ensures Undated(Filled(entries, sorted)) == Undated(entries)
  {
    hide Undated, Filled, Dated;
    if entries != [] {
      var less, last := entries[..|entries| - 1], entries[|entries| - 1];
      assert entries == less + [last];
      DatedNext(less, last);
      if last.timestamp.None? {
        FilledHolds(less, sorted);
        UndatedSlot(less, last, sorted);
      } else {
        var fewer, slot := sorted[..|sorted| - 1], sorted[|sorted| - 1];
        FilledHolds(less, fewer);
        DatedSlot(less, last, fewer, slot);
        assert sorted == fewer + [slot];
      }
    } else {
      NothingFilled(sorted);
    }
  }

  lemma NothingFilled(sorted: seq<Entry>)
    requires |sorted| == |Dated([])|
    ensures Filled([], sorted) == [] && Dated([]) == [] && Undated([]) == [] && sorted == []
  {
  }

  /** If the dated entries of a sequence are ordered, so are any two of them where they stand. */
  lemma {:induction false} DatedStand(r: seq<Entry>, i: nat, k: nat)
    requires Ordered(Dated(r), Time) && i < k < |r| && r[i].timestamp.Some? && r[k].timestamp.Some?
    ensures Time(r[i]) <= Time(r[k])
  {
    var last := |r| - 1;
    var less := r[..last];
    assert r == less + [r[last]];
    DatedNext(less, r[last]);
    if k < last {
      OrderedPrefix(Dated(less), Dated(r));
      hide Dated, Ordered;
      DatedStand(less, i, k);
    } else {
      DatedHolds(less, i);
      hide Dated;
      LastIsLatest(Dated(less), r[i], r[last]);
    }
  }

  lemma DatedHolds(r: seq<Entry>, i: nat)
    requires i < |r| && r[i].timestamp.Some?
    ensures r[i] in Dated(r)
  {
  }

  lemma LastIsLatest(before: seq<Entry>, e: Entry, last: Entry)
    requires Ordered(before + [last], Time) && e in before
    ensures Time(e) <= Time(last)
  {
    var m :| 0 <= m < |before| && before[m] == e;
    assert (before + [last])[m] == e && (before + [last])[|before|] == last;
    hide Time;
  }

  lemma OrderedPrefix(a: seq<Entry>, b: seq<Entry>)
    requires a <= b && Ordered(b, Time)
    ensures Ordered(a, Time)
  {
  }

  /**
   * Reordering is a permutation that leaves undated entries where they are and puts the dated ones in order of time.
   */
  lemma ReorderingIsFaithful(entries: seq<Entry>)
    ensures var r := Reordered(entries);
            && multiset(r) == multiset(entries)
            && (forall k :: 0 <= k < |entries| && entries[k].timestamp.None? ==> r[k] == entries[k])
            && (forall i, k :: 0 <= i < k < |r| && r[i].timestamp.Some? && r[k].timestamp.Some? ==>
                  Time(r[i]) <= Time(r[k]))
  {
    var sorted, r := Sorted(entries), Reordered(entries);
    forall k | 0 <= k < |sorted| ensures sorted[k].timestamp.Some? { SortHolds(Dated(entries), Time, sorted[k]); }
    FilledHolds(entries, sorted);
    FilledSlots(entries, sorted);
    EntriesDivide(entries);
    EntriesDivide(r);
    SortOrders(Dated(entries), Time);
    assert multiset(sorted) == multiset(Dated(entries));
    hide Filled, SortBy, Dated, Undated;
    forall i, k | 0 <= i < k < |r| && r[i].timestamp.Some? && r[k].timestamp.Some?
      ensures Time(r[i]) <= Time(r[k])
    {
      DatedStand(r, i, k);
    }
  }

  function Tail(entries: seq<Entry>, count: nat): seq<Entry> {
    if |entries| <= count then entries else entries[|entries| - count..]
  }

  /** What is shown: recent or undatable entries, in order, the last of them. */
  function Shown(entries: seq<Entry>, cutoff: Option<int>, count: nat): seq<Entry> {
    Tail(Reordered(Kept(entries, cutoff)), count)
  }

  // ----- what is shown, told -----

  predicate Rising(at: seq<nat>) { forall i, k :: 0 <= i < k < |at| ==> at[i] < at[k] }

  /** Where the lines stand that are recent, or that say nothing of their time. */
  ghost predicate RecentAt(entries: seq<Entry>, cutoff: Option<int>, at: seq<nat>) {
    && Rising(at)
    && forall i: nat :: i in at <==>
         i < |entries| && Recent(entries[i], cutoff)
  }

  /** The lines of one time, in order. */
  function OfTime(entries: seq<Entry>, time: int): (r: seq<Entry>)
  {
    if entries == [] then []
    else OfTime(entries[..|entries| - 1], time)
         + if entries[|entries| - 1].timestamp == Some(time) then [entries[|entries| - 1]] else []
  }

  /** All recent lines: the undated where they stood among these, the others by time. */
  ghost predicate Ranged(entries: seq<Entry>, at: seq<nat>, full: seq<Entry>) {
    && |full| == |at| && (forall k :: 0 <= k < |at| ==> at[k] < |entries|)
    && (forall k :: 0 <= k < |at| ==> full[k].timestamp.Some? == entries[at[k]].timestamp.Some?)
    && (forall k :: 0 <= k < |at| && full[k].timestamp.None? ==> full[k] == entries[at[k]])
    && (forall i, k :: 0 <= i < k < |full| && full[i].timestamp.Some? && full[k].timestamp.Some? ==>
          full[i].timestamp.value <= full[k].timestamp.value)
  }

  /** What is shown is the end of that, at most `count` lines of it. */
  ghost predicate Told(entries: seq<Entry>, cutoff: Option<int>, count: nat, shown: seq<Entry>) {
    exists at, full ::
      && RecentAt(entries, cutoff, at) && Ranged(entries, at, full) && AsTheyCame(entries, cutoff, full)
      && Ends(full, count, shown)
  }

  /** The recent lines of every time, in the order in which they came. */
  ghost predicate AsTheyCame(entries: seq<Entry>, cutoff: Option<int>, full: seq<Entry>) {
    forall time: int ::
      OfTime(full, time) == if cutoff.Some? && time < cutoff.value then [] else OfTime(entries, time)
  }

  predicate Ends(full: seq<Entry>, count: nat, shown: seq<Entry>) {
    && |shown| == (if |full| < count then |full| else count)
    && forall k :: 0 <= k < |shown| ==> shown[k] == full[|full| - |shown| + k]
  }

  predicate Recent(e: Entry, cutoff: Option<int>) {
    e.timestamp.Some? && cutoff.Some? ==> e.timestamp.value >= cutoff.value
  }

  lemma KeptNext(less: seq<Entry>, e: Entry, cutoff: Option<int>)
    ensures Kept(less + [e], cutoff) == Kept(less, cutoff) + if Recent(e, cutoff) then [e] else []
  {
    assert (less + [e])[..|less|] == less;
  }

  ghost predicate StandAt(entries: seq<Entry>, kept: seq<Entry>, at: seq<nat>) {
    |at| == |kept| && forall k :: 0 <= k < |at| ==> at[k] < |entries| && kept[k] == entries[at[k]]
  }

  lemma {:induction false} KeptStand(entries: seq<Entry>, cutoff: Option<int>) returns (at: seq<nat>)
    ensures RecentAt(entries, cutoff, at) && StandAt(entries, Kept(entries, cutoff), at)
  {
    hide Kept, RecentAt, StandAt, Recent;
    at := [];
    if entries != [] {
      var less, last := entries[..|entries| - 1], entries[|entries| - 1];
      assert entries == less + [last];
      at := KeptStand(less, cutoff);
      KeptNext(less, last, cutoff);
      StandNext(less, last, cutoff, Kept(less, cutoff), at);
      if Recent(last, cutoff) { at := at + [|less|]; }
    } else {
      NothingStands(cutoff);
    }
  }

  lemma NothingStands(cutoff: Option<int>)
    ensures RecentAt([], cutoff, []) && StandAt([], Kept([], cutoff), [])
  {
  }

  lemma StandNext(less: seq<Entry>, e: Entry, cutoff: Option<int>, kept: seq<Entry>, at: seq<nat>)
    requires RecentAt(less, cutoff, at) && StandAt(less, kept, at)
    ensures Recent(e, cutoff) ==>
              RecentAt(less + [e], cutoff, at + [|less|]) && StandAt(less + [e], kept + [e], at + [|less|])
    ensures !Recent(e, cutoff) ==> RecentAt(less + [e], cutoff, at) && StandAt(less + [e], kept + [], at)
  {
    hide Recent;
    assert forall k :: 0 <= k < |at| ==> at[k] in at;
    assert kept + [] == kept;
  }

  lemma OfTimeNext(less: seq<Entry>, e: Entry, time: int)
    ensures OfTime(less + [e], time) == OfTime(less, time) + if e.timestamp == Some(time) then [e] else []
  {
    assert (less + [e])[..|less|] == less;
  }

  lemma {:induction false} KeptOfTime(entries: seq<Entry>, cutoff: Option<int>, time: int)
    ensures OfTime(Kept(entries, cutoff), time)
         == if cutoff.Some? && time < cutoff.value then [] else OfTime(entries, time)
  {
    if entries != [] {
      var less, last := entries[..|entries| - 1], entries[|entries| - 1];
      KeptOfTime(less, cutoff, time);
      OfTimeNext(Kept(less, cutoff), last, time);
      assert Kept(less, cutoff) + [] == Kept(less, cutoff);
    }
  }

  /** The lines of one time are those of the dated lines that have it for their key. */
  lemma {:induction false} OfTimeIsOfKey(entries: seq<Entry>, time: int)
    ensures OfTime(entries, time) == OfKey(Dated(entries), Time, time)
  {
    if entries != [] {
      var less, last := entries[..|entries| - 1], entries[|entries| - 1];
      assert entries == less + [last];
      OfTimeIsOfKey(less, time);
      OfTimeNext(less, last, time);
      DatedNext(less, last);
      OfKeyNext(Dated(less), last, Time, time);
      assert Dated(less) + [] == Dated(less);
    }
  }

  lemma ReorderedOfTime(entries: seq<Entry>, time: int)
    ensures OfTime(Reordered(entries), time) == OfTime(entries, time)
  {
    var sorted := Sorted(entries);
    SortedIsDated(entries);
    FilledHolds(entries, sorted);
    OfTimeIsOfKey(entries, time);
    OfTimeIsOfKey(Reordered(entries), time);
    SortIsStable(Dated(entries), Time, time);
    hide Filled, SortBy, Dated, OfTime, OfKey;
  }

  lemma SortedIsDated(entries: seq<Entry>)
    ensures forall k :: 0 <= k < |Sorted(entries)| ==> Sorted(entries)[k].timestamp.Some?
  {
    var sorted := SortBy(Dated(entries), Time);
    assert sorted == Sorted(entries);
    hide SortBy, Dated, Sorted;
    forall k | 0 <= k < |sorted|
      ensures sorted[k].timestamp.Some?
    {
      SortHolds(Dated(entries), Time, sorted[k]);
    }
  }

  lemma KeptIsRanged(entries: seq<Entry>, kept: seq<Entry>, at: seq<nat>)
    requires StandAt(entries, kept, at)
    ensures Ranged(entries, at, Reordered(kept))
  {
    var full := Reordered(kept);
    SortedIsDated(kept);
    FilledSlots(kept, Sorted(kept));
    ReorderingIsFaithful(kept);
    hide Filled, Dated, Sorted, Reordered;
  }

  lemma FullIsAsTheyCame(entries: seq<Entry>, cutoff: Option<int>)
    ensures AsTheyCame(entries, cutoff, Reordered(Kept(entries, cutoff)))
  {
    var kept := Kept(entries, cutoff);
    hide Reordered, Kept, OfTime;
    forall time: int
      ensures OfTime(Reordered(kept), time) == if cutoff.Some? && time < cutoff.value then [] else OfTime(entries, time)
    {
      ReorderedOfTime(kept, time);
      KeptOfTime(entries, cutoff, time);
    }
  }

  lemma TailEnds(full: seq<Entry>, count: nat)
    ensures Ends(full, count, Tail(full, count))
  {
  }

  /** Exactly the last recent lines are shown, whatever the log holds. */
  lemma ShownIsTold(entries: seq<Entry>, cutoff: Option<int>, count: nat)
    ensures Told(entries, cutoff, count, Shown(entries, cutoff, count))
  {
    hide Reordered, Kept, RecentAt, Ranged, AsTheyCame, Ends, Tail, StandAt;
    var full := Reordered(Kept(entries, cutoff));
    var at := KeptStand(entries, cutoff);
    KeptIsRanged(entries, Kept(entries, cutoff), at);
    FullIsAsTheyCame(entries, cutoff);
    TailEnds(full, count);
  }

  lemma {:induction false} DatedGrows(entries: seq<Entry>, n: nat)
    requires n <= |entries|
    ensures |Dated(entries[..n])| <= |Dated(entries)|
    ensures n < |entries| && entries[n].timestamp.Some? ==> |Dated(entries[..n])| < |Dated(entries)|
  {
    if n < |entries| {
      var less := entries[..|entries| - 1];
      assert less[..n] == entries[..n];
      if n < |less| { DatedGrows(less, n); } else { assert entries[..n] == less; }
    } else {
      assert entries[..n] == entries;
    }
  }

  /** Walk the entries, taking the next sorted one in each dated slot. */
  method Fill(entries: seq<Entry>, sorted: seq<Entry>) returns (r: seq<Entry>)
    requires |sorted| == |Dated(entries)|
    ensures r == Filled(entries, sorted)
  {
    r := [];
    var next := 0;
    assert entries[..0] == [] && sorted[..0] == [];
    hide Filled, Dated;
    NothingFilled([]);
    for k := 0 to |entries|
      invariant next == |Dated(entries[..k])| <= |sorted|
      invariant r == Filled(entries[..k], sorted[..next])
    {
      FillNext(entries, sorted, k, next);
      if entries[k].timestamp.None? {
        r := r + [entries[k]];
      } else {
        r := r + [sorted[next]];
        next := next + 1;
      }
    }
    assert entries[..|entries|] == entries && sorted[..|sorted|] == sorted;
  }

  lemma FillNext(entries: seq<Entry>, sorted: seq<Entry>, k: nat, next: nat)
    requires k < |entries| && |sorted| == |Dated(entries)| && next == |Dated(entries[..k])| <= |sorted|
    ensures var dated := entries[k].timestamp.Some?;
            && |Dated(entries[..k + 1])| == next + (if dated then 1 else 0)
            && (dated ==> next < |sorted|)
            && Filled(entries[..k + 1], sorted[..next + if dated then 1 else 0])
               == Filled(entries[..k], sorted[..next]) + [if dated then sorted[next] else entries[k]]
  {
    var upto := next + if entries[k].timestamp.Some? then 1 else 0;
    DatedGrows(entries, k);
    assert entries[..k + 1] == entries[..k] + [entries[k]];
    DatedNext(entries[..k], entries[k]);
    FilledNext(entries[..k], entries[k], sorted[..upto]);
    hide Filled, Dated;
    assert sorted[..upto][..next] == sorted[..next];
  }

  method Show(entries: seq<Entry>, cutoff: Option<int>, count: nat) returns (r: seq<Entry>)
    ensures r == Shown(entries, cutoff, count)
    ensures Told(entries, cutoff, count, r)
  {
    ShownIsTold(entries, cutoff, count);
    hide Told;
    var kept := Kept(entries, cutoff);
    r := Fill(kept, Sorted(kept));
    r := Tail(r, count);
  }

  // ----- reading -----

  /** A reader of one file: the cursor is kept between polls and updated in place. */
  class LogReader {
    var offset: nat
    var identity: Option<nat>
    var pending: seq<Code>
    var rest: seq<Byte>

    function View(): Cursor
      reads this
    {
      Cursor(offset, identity, pending, rest)
    }

    /** Before anything is read, and after a file that could not be opened. */
    constructor ()
      ensures View() == Cursor(0, None, [], [])
    {
      offset, identity, pending, rest := 0, None, [], [];
    }

    /** What one read gave of the last 256 KiB, as text, less a line cut at its beginning, and the bytes held back. */
    static method ReadVisible(o: Opening) returns (raw: seq<Code>, held: seq<Byte>)
      ensures raw == Visible(o) && held == Decode(Window(o)).rest
    {
      hide Decode, FirstLF;
      var start := WindowStart(o.file.bytes);
      var d := DecodeBytes(Window(o));
      raw, held := d.text, d.rest;
      if start > 0 && o.file.bytes[start - 1] != 10 {
        var feed := FirstLF(raw);
        raw := if feed == |raw| then [] else raw[feed + 1..];
      }
    }

    method ReadSnapshot(o: Opening, follow: bool) returns (lines: seq<seq<Code>>)
      modifies this
      ensures lines == Snapshot(o, follow).0 && View() == Snapshot(o, follow).1
    {
      hide Decode, Split, Visible, Window;
      var raw, held := ReadVisible(o);
      lines := SplitLines(raw);
      offset, identity, pending, rest := |o.file.bytes|, Some(o.file.identity), [], held;
      if follow {
        pending := lines[|lines| - 1];
        lines := lines[..|lines| - 1];
      }
      lines := NonEmpty(lines);
    }

    method ReadUpdates(file: File, wanted: nat) returns (delivered: seq<Delivered>)
      modifies this
      ensures delivered == Poll(old(View()), file, wanted).0 && View() == Poll(old(View()), file, wanted).1
    {
      if identity != Some(file.identity) || |file.bytes| < offset {
        offset, identity, pending, rest := 0, Some(file.identity), [], [];
      }
      assert View() == Resumed(old(View()), file);
      delivered := ReadOn(file, wanted);
      PollIs(old(View()), file, wanted);
      hide Poll, Resumed, Joined;
    }

    static lemma PollIs(c: Cursor, file: File, wanted: nat)
      ensures Poll(c, file, wanted) == Poll(Resumed(c, file), file, wanted)
      ensures Resumed(Resumed(c, file), file) == Resumed(c, file)
    {
      hide Joined, Decode, Complete, Pending, Units;
    }

    method ReadOn(file: File, wanted: nat) returns (delivered: seq<Delivered>)
      requires Resumed(View(), file) == View()
      modifies this
      ensures delivered == Poll(old(View()), file, wanted).0 && View() == Poll(old(View()), file, wanted).1
    {
      hide Decode, Split, Units;
      var n := Available(View(), file, wanted);
      var d := DecodeBytes(rest + file.bytes[offset..offset + n]);
      var text := pending + d.text;
      assert text == Joined(View(), file, wanted);
      hide Joined;
      var lines := SplitLines(text);
      offset, rest := offset + n, d.rest;
      pending := lines[|lines| - 1];
      delivered := Lines(NonEmpty(lines[..|lines| - 1]));
      if Units(pending) > WINDOW {
        pending := [];
        delivered := [Omitted] + delivered;
      }
    }
  }
}
