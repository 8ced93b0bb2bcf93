/** Sequences of distinct IDs: filtering, sorting by a key, and splicing one sequence into another. */
module WorkSequences {
  import opened HistoryTypes

  predicate Distinct(s: seq<Text>) { forall i, j :: 0 <= i < j < |s| ==> s[i] != s[j] }

  function Elements(s: seq<Text>): set<Text> { set x | x in s }

  /** The IDs in `keep`, in order. */
  function Filter(s: seq<Text>, keep: set<Text>): (r: seq<Text>)
    ensures forall x :: x in r <==> x in s && x in keep
    ensures |r| <= |s|
  {
    if s == [] then [] else (if s[0] in keep then [s[0]] else []) + Filter(s[1..], keep)
  }

  function Without(s: seq<Text>, drop: set<Text>): (r: seq<Text>)
    ensures forall x :: x in r <==> x in s && x !in drop
  {
    if s == [] then [] else (if s[0] in drop then [] else [s[0]]) + Without(s[1..], drop)
  }

  /** Each ID once, where it first appears. */
  function Unique(s: seq<Text>): (r: seq<Text>)
    ensures forall x :: x in r <==> x in s
    ensures Distinct(r)
  {
    if s == [] then []
    else
      var less, last := Unique(s[..|s| - 1]), s[|s| - 1];
      assert forall i :: 0 <= i < |less| ==> less[i] in less;
      if last in less then less else less + [last]
  }

  lemma FilterJoins(a: seq<Text>, b: seq<Text>, keep: set<Text>)
    ensures Filter(a + b, keep) == Filter(a, keep) + Filter(b, keep)
    ensures Without(a + b, keep) == Without(a, keep) + Without(b, keep)
  {
    hide Filter, Without;
    KeptJoins(a, b, keep);
    DroppedJoins(a, b, keep);
  }

  lemma JoinShifts(a: seq<Text>, b: seq<Text>, c: seq<Text>)
    ensures a + (b + c) == (a + b) + c
  {
  }

  lemma {:induction false} KeptJoins(a: seq<Text>, b: seq<Text>, keep: set<Text>)
    ensures Filter(a + b, keep) == Filter(a, keep) + Filter(b, keep)
  {
    hide Filter;
    if a == [] {
      assert a + b == b;
      NothingKept(keep);
    } else {
      var x, rest := [a[0]], a[1..];
      assert a == x + rest;
      JoinShifts(x, rest, b);
      FilterCons(a[0], rest + b, keep);
      FilterCons(a[0], rest, keep);
      KeptJoins(rest, b, keep);
      JoinShifts(if a[0] in keep then x else [], Filter(rest, keep), Filter(b, keep));
    }
  }

  lemma {:induction false} DroppedJoins(a: seq<Text>, b: seq<Text>, keep: set<Text>)
    ensures Without(a + b, keep) == Without(a, keep) + Without(b, keep)
  {
    hide Without;
    if a == [] {
      assert a + b == b;
      NothingKept(keep);
    } else {
      var x, rest := [a[0]], a[1..];
      assert a == x + rest;
      JoinShifts(x, rest, b);
      FilterCons(a[0], rest + b, keep);
      FilterCons(a[0], rest, keep);
      DroppedJoins(rest, b, keep);
      JoinShifts(if a[0] in keep then [] else x, Without(rest, keep), Without(b, keep));
    }
  }

  lemma NothingKept(keep: set<Text>)
    ensures Filter([], keep) == [] && Without([], keep) == []
  {
  }

  lemma {:induction false} FilterAll(s: seq<Text>, keep: set<Text>)
    ensures (forall x :: x in s ==> x in keep) ==> Filter(s, keep) == s && Without(s, keep) == []
    ensures (forall x :: x in s ==> x !in keep) ==> Filter(s, keep) == [] && Without(s, keep) == s
  {
    if s != [] { FilterAll(s[1..], keep); }
  }

  lemma FilterCons(x: Text, s: seq<Text>, keep: set<Text>)
    ensures Filter([x] + s, keep) == (if x in keep then [x] else []) + Filter(s, keep)
    ensures Without([x] + s, keep) == (if x in keep then [] else [x]) + Without(s, keep)
  {
    assert ([x] + s)[1..] == s;
  }

  lemma {:induction false} DistinctParts(s: seq<Text>, keep: set<Text>)
    requires Distinct(s)
    ensures Distinct(Filter(s, keep)) && Distinct(Without(s, keep))
  {
    if s != [] {
      assert forall x :: x in s[1..] ==> x != s[0];
      DistinctParts(s[1..], keep);
      DistinctJoins([s[0]], Filter(s[1..], keep));
      DistinctJoins([s[0]], Without(s[1..], keep));
    }
  }

  lemma DistinctJoins(a: seq<Text>, b: seq<Text>)
    requires Distinct(a) && Distinct(b) && forall x :: x in a ==> x !in b
    ensures Distinct(a + b)
  {
    forall i, j | 0 <= i < j < |a + b|
      ensures (a + b)[i] != (a + b)[j]
    {
      if i < |a| <= j { assert a[i] in a && b[j - |a|] in b; }
    }
  }

  // ----- rearranging -----

  /** Put the given IDs first, or between the settled and the live ones; the others keep their order. */
  function Arranged(s: seq<Text>, source: seq<Text>, earlier: bool, live: set<Text>): seq<Text> {
    var rest := Without(s, Elements(source));
    if earlier then source + rest else Without(rest, live) + source + Filter(rest, live)
  }

  lemma ArrangedKeepsAll(s: seq<Text>, source: seq<Text>, earlier: bool, live: set<Text>)
    requires Distinct(s) && Distinct(source) && forall x :: x in source ==> x in s
    ensures Distinct(Arranged(s, source, earlier, live))
    ensures forall x :: x in Arranged(s, source, earlier, live) <==> x in s
  {
    var rest := Without(s, Elements(source));
    DistinctParts(s, Elements(source));
    DistinctParts(rest, live);
    if earlier {
      DistinctJoins(source, rest);
    } else {
      DistinctJoins(Without(rest, live), source);
      DistinctJoins(Without(rest, live) + source, Filter(rest, live));
    }
  }

  /** What is left of an arrangement without the IDs that were put in place. */
  lemma ArrangedRest(s: seq<Text>, source: seq<Text>, earlier: bool, live: set<Text>)
    ensures var rest := Without(s, Elements(source));
            Without(Arranged(s, source, earlier, live), Elements(source))
              == if earlier then rest else Without(rest, live) + Filter(rest, live)
  {
    var drop := Elements(source);
    var rest := Without(s, drop);
    hide Filter, Without;
    FilterAll(source, drop);
    if earlier {
      FilterJoins(source, rest, drop);
      FilterAll(rest, drop);
    } else {
      var settled, alive := Without(rest, live), Filter(rest, live);
      FilterJoins(settled, source, drop);
      FilterJoins(settled + source, alive, drop);
      FilterAll(settled, drop);
      FilterAll(alive, drop);
    }
  }

  /** Arranging what is already arranged changes nothing. */
  lemma ArrangedTwice(s: seq<Text>, source: seq<Text>, earlier: bool, live: set<Text>)
    ensures Arranged(Arranged(s, source, earlier, live), source, earlier, live) == Arranged(s, source, earlier, live)
  {
    ArrangedRest(s, source, earlier, live);
    var rest := Without(s, Elements(source));
    hide Filter, Without;
    if !earlier {
      var settled, alive := Without(rest, live), Filter(rest, live);
      FilterJoins(settled, alive, live);
      FilterAll(settled, live);
      FilterAll(alive, live);
    }
  }

  // ----- splicing -----

  /** Replace the first ID of a block by the whole block, and drop the others. */
  function Splice(s: seq<Text>, block: set<Text>, flat: seq<Text>): seq<Text> {
    if s == [] then []
    else if s[0] in block then flat + Without(s[1..], block)
    else [s[0]] + Splice(s[1..], block, flat)
  }

  lemma {:induction false} SpliceIs(s: seq<Text>, block: set<Text>, flat: seq<Text>)
    returns (head: seq<Text>, tail: seq<Text>)
    requires exists x :: x in s && x in block
    ensures Splice(s, block, flat) == head + flat + tail && head + tail == Without(s, block)
  {
    if s[0] in block {
      head, tail := [], Without(s[1..], block);
    } else {
      var x :| x in s && x in block;
      assert x in s[1..];
      head, tail := SpliceIs(s[1..], block, flat);
      head := [s[0]] + head;
    }
  }

  lemma {:induction false} SpliceSkips(head: seq<Text>, s: seq<Text>, block: set<Text>, flat: seq<Text>)
    requires forall x :: x in head ==> x !in block
    ensures Splice(head + s, block, flat) == head + Splice(s, block, flat)
  {
    if head == [] {
      assert head + s == s;
    } else {
      assert (head + s)[0] == head[0] && (head + s)[1..] == head[1..] + s;
      SpliceSkips(head[1..], s, block, flat);
    }
  }

  /** A splice holds every ID once, keeps the others in their order, and holds the block in its own. */
  lemma SpliceKeepsAll(s: seq<Text>, flat: seq<Text>)
    requires Distinct(s) && Distinct(flat) && flat != [] && forall x :: x in flat ==> x in s
    ensures var block, r := Elements(flat), Splice(s, Elements(flat), flat);
            && Distinct(r) && (forall x :: x in r <==> x in s)
            && Without(r, block) == Without(s, block)
            && (forall keep: set<Text> | keep <= block :: Filter(r, keep) == Filter(flat, keep))
            && Splice(r, block, flat) == r
  {
    var block := Elements(flat);
    assert flat[0] in s && flat[0] in block;
    var head, tail := SpliceIs(s, block, flat);
    DistinctParts(s, block);
    assert forall x :: x in head + tail ==> x !in block;
    hide Splice, Filter, Without;
    DistinctHalves(head, tail);
    DistinctJoins(head, flat);
    DistinctJoins(head + flat, tail);
    forall x
      ensures x in head + flat + tail <==> x in s
    {
      assert x in head + tail <==> x in Without(s, block);
    }
    BlockFilters(head, flat, tail);
    BlockSplices(head, flat, tail);
  }

  lemma BlockFilters(head: seq<Text>, flat: seq<Text>, tail: seq<Text>)
    requires forall x :: x in head + tail ==> x !in Elements(flat)
    ensures Without(head + flat + tail, Elements(flat)) == head + tail
    ensures forall keep: set<Text> | keep <= Elements(flat) :: Filter(head + flat + tail, keep) == Filter(flat, keep)
  {
    hide Filter, Without;
    FilterJoins(head, flat, Elements(flat));
    FilterJoins(head + flat, tail, Elements(flat));
    FilterAll(head, Elements(flat));
    FilterAll(tail, Elements(flat));
    FilterAll(flat, Elements(flat));
    forall keep: set<Text> | keep <= Elements(flat)
      ensures Filter(head + flat + tail, keep) == Filter(flat, keep)
    {
      FilterJoins(head, flat, keep);
      FilterJoins(head + flat, tail, keep);
      FilterAll(head, keep);
      FilterAll(tail, keep);
    }
  }

  lemma BlockSplices(head: seq<Text>, flat: seq<Text>, tail: seq<Text>)
    requires flat != [] && forall x :: x in head + tail ==> x !in Elements(flat)
    ensures Splice(head + flat + tail, Elements(flat), flat) == head + flat + tail
  {
    assert head + flat + tail == head + (flat + tail);
    SpliceSkips(head, flat + tail, Elements(flat), flat);
    BlockComesFirst(flat, tail);
    hide Splice;
  }

  lemma BlockComesFirst(flat: seq<Text>, tail: seq<Text>)
    requires flat != [] && forall x :: x in tail ==> x !in Elements(flat)
    ensures Splice(flat + tail, Elements(flat), flat) == flat + tail
  {
    var block := Elements(flat);
    hide Splice, Filter, Without;
    JoinTail(flat, tail);
    SpliceFirst(flat + tail, block, flat);
    FilterAll(flat[1..], block);
    FilterAll(tail, block);
    FilterJoins(flat[1..], tail, block);
  }

  lemma JoinTail(a: seq<Text>, b: seq<Text>)
    requires a != []
    ensures (a + b)[0] == a[0] && (a + b)[1..] == a[1..] + b
  {
  }

  lemma SpliceFirst(s: seq<Text>, block: set<Text>, flat: seq<Text>)
    requires s != [] && s[0] in block
    ensures Splice(s, block, flat) == flat + Without(s[1..], block)
  {
  }

  lemma DistinctHalves(a: seq<Text>, b: seq<Text>)
    requires Distinct(a + b)
    ensures Distinct(a) && Distinct(b) && forall x :: x in a ==> x !in b
  {
    assert forall i :: 0 <= i < |b| ==> b[i] == (a + b)[|a| + i];
    assert forall i :: 0 <= i < |a| ==> a[i] == (a + b)[i];
  }
}
