/**
 * What a conversation remembers about producer IDs: those that proved ambiguous, and those of finished rows it dropped.
 */
module HistoryMemories {
  import opened Wrappers
  import opened HistoryTypes

  const SOURCE_BYTES := 4096
  const AMBIGUITY_LIMIT := 128
  const RETIRED_LIMIT := 4096
  const RETIRED_BYTES := 256 * 1024

  predicate ValidSource(source: Text) { 0 < |source| <= SOURCE_BYTES }

  predicate Distinct(sources: seq<Text>) {
    forall i, j :: 0 <= i < j < |sources| ==> sources[i] != sources[j]
  }

  function Elements(sources: seq<Text>): set<Text> {
    set s | s in sources
  }

  lemma {:induction false} DistinctSize(sources: seq<Text>)
    ensures |Elements(sources)| <= |sources|
    ensures Distinct(sources) ==> |Elements(sources)| == |sources|
  {
    if sources != [] {
      var last := |sources| - 1;
      DistinctSize(sources[..last]);
      assert Elements(sources) == Elements(sources[..last]) + {sources[last]};
    }
  }

  // ----- ambiguous sources -----

  datatype Ambiguity = Ambiguity(epoch: Option<Id>, sources: seq<Text>, overflow: bool) {
    predicate Valid() {
      |sources| <= AMBIGUITY_LIMIT && (forall s :: s in sources ==> ValidSource(s)) && Distinct(sources)
    }

    function Scoped(to: Option<Id>): Ambiguity {
      if epoch == to then this else Ambiguity(to, [], false)
    }

    /** The source can no longer say which row is which. */
    predicate Blocks(source: Text) { overflow || source in sources }

    /** Known sources are never evicted: what does not fit disables every source instead. */
    function Remember(source: Text): Ambiguity {
      if overflow || !ValidSource(source) || |sources| > AMBIGUITY_LIMIT
      || (exists s :: s in sources && !ValidSource(s)) then
        this.(overflow := true)
      else if source in sources then this
      else if |sources| >= AMBIGUITY_LIMIT then this.(overflow := true)
      else this.(sources := sources + [source])
    }
  }

  function RememberAll(memory: Ambiguity, found: seq<Text>): Ambiguity {
    if found == [] then memory else RememberAll(memory, found[..|found| - 1]).Remember(found[|found| - 1])
  }

  lemma {:induction false} RememberJoins(memory: Ambiguity, a: seq<Text>, b: seq<Text>)
    ensures RememberAll(memory, a + b) == RememberAll(RememberAll(memory, a), b)
  {
    if b == [] {
      assert a + b == a;
    } else {
      assert (a + b)[..|a + b| - 1] == a + b[..|b| - 1];
      RememberJoins(memory, a, b[..|b| - 1]);
    }
  }

  /** All that is to be remembered fits. */
  ghost predicate Fits(memory: Ambiguity, found: seq<Text>) {
    !memory.overflow && (forall s :: s in found ==> ValidSource(s))
    && |Elements(memory.sources) + Elements(found)| <= AMBIGUITY_LIMIT
  }

  /**
   * The memory stays within its limit and only grows. It holds exactly what was known and found while that fits; it
   * overflows exactly when that does not fit, or something found is no valid source.
   */
  lemma {:induction false} MemoryIsExact(memory: Ambiguity, found: seq<Text>)
    requires memory.Valid()
    ensures var after := RememberAll(memory, found);
            && after.Valid() && after.epoch == memory.epoch
            && memory.sources <= after.sources
            && (after.overflow <==> !Fits(memory, found))
            && (!after.overflow ==> Elements(after.sources) == Elements(memory.sources) + Elements(found))
  {
    MemoryGrows(memory, found);
    if found == [] {
      DistinctSize(memory.sources);
      assert Elements(memory.sources) + Elements(found) == Elements(memory.sources);
    } else {
      var last := |found| - 1;
      var before := RememberAll(memory, found[..last]);
      MemoryIsExact(memory, found[..last]);
      DistinctSize(before.sources);
      hide Fits, Distinct;
      RememberOne(memory, before, found, last);
    }
  }

  lemma {:induction false} MemoryGrows(memory: Ambiguity, found: seq<Text>)
    requires memory.Valid()
    ensures var after := RememberAll(memory, found);
            after.Valid() && after.epoch == memory.epoch && memory.sources <= after.sources
            && (memory.overflow ==> after.overflow)
  {
    if found != [] { MemoryGrows(memory, found[..|found| - 1]); }
  }

  lemma RememberOne(memory: Ambiguity, before: Ambiguity, found: seq<Text>, last: nat)
    requires |found| == last + 1 && before.Valid()
    requires before.overflow <==> !Fits(memory, found[..last])
    requires !before.overflow ==> Elements(before.sources) == Elements(memory.sources) + Elements(found[..last])
    requires |Elements(before.sources)| == |before.sources|
    ensures var after := before.Remember(found[last]);
            && (after.overflow <==> !Fits(memory, found))
            && (!after.overflow ==> Elements(after.sources) == Elements(memory.sources) + Elements(found))
  {
    var kept := Elements(memory.sources) + Elements(found[..last]);
    FitsNext(memory, found, last);
    hide Elements, Fits;
    if before.overflow {
    } else if found[last] in before.sources {
      InElements(before.sources, found[last]);
      assert kept + {found[last]} == kept;
    } else {
      InElements(before.sources, found[last]);
      ElementsNext(before.sources, found[last]);
      assert |kept + {found[last]}| == |kept| + 1;
    }
  }

  /** One source more fits when the others do, it is valid, and there is room for it. */
  lemma FitsNext(memory: Ambiguity, found: seq<Text>, last: nat)
    requires |found| == last + 1
    ensures var kept := Elements(memory.sources) + Elements(found[..last]);
            && Elements(memory.sources) + Elements(found) == kept + {found[last]}
            && (Fits(memory, found) <==> Fits(memory, found[..last]) && ValidSource(found[last])
                                         && |kept + {found[last]}| <= AMBIGUITY_LIMIT)
            && (Fits(memory, found[..last]) ==> |kept| <= AMBIGUITY_LIMIT)
  {
    var x, less := found[last], found[..last];
    assert found == less + [x];
    ElementsNext(less, x);
    assert forall s :: s in found <==> s in less || s == x;
    var kept := Elements(memory.sources) + Elements(less);
    assert Elements(memory.sources) + (Elements(less) + {x}) == kept + {x};
    WholeIsLarger(kept, kept + {x});
    hide Elements;
  }

  lemma ElementsNext(values: seq<Text>, value: Text)
    ensures Elements(values + [value]) == Elements(values) + {value}
  {
  }

  lemma InElements(values: seq<Text>, value: Text)
    ensures value in Elements(values) <==> value in values
  {
  }

  lemma WholeIsLarger(a: set<Text>, b: set<Text>)
    requires a <= b
    ensures |a| <= |b|
  {
    assert b == a + (b - a);
  }

  /** Everything found is blocked afterwards, and whatever was blocked before still is. */
  lemma FoundIsBlocked(memory: Ambiguity, found: seq<Text>, source: Text)
    requires memory.Valid()
    ensures RememberAll(memory, found).Blocks(source) <==>
              !Fits(memory, found) || memory.Blocks(source) || source in found
  {
    MemoryIsExact(memory, found);
    var after := RememberAll(memory, found);
    assert source in after.sources <==> source in Elements(after.sources);
  }

  /** What is blocked does not depend on the order in which sources were found. */
  lemma BlockingIgnoresOrder(memory: Ambiguity, found: seq<Text>, other: seq<Text>, source: Text)
    requires memory.Valid() && forall s :: s in found <==> s in other
    ensures RememberAll(memory, found).Blocks(source) <==> RememberAll(memory, other).Blocks(source)
  {
    FoundIsBlocked(memory, found, source);
    FoundIsBlocked(memory, other, source);
    assert Elements(found) == Elements(other);
  }

  // ----- retired terminal sources -----

  function ByteCount(sources: seq<Text>): nat {
    if sources == [] then 0 else ByteCount(sources[..|sources| - 1]) + |sources[|sources| - 1]|
  }

  datatype Retired = Retired(epoch: Option<Id>, sources: seq<Text>) {
    predicate Valid() {
      |sources| <= RETIRED_LIMIT && (forall s :: s in sources ==> ValidSource(s)) && ByteCount(sources) <= RETIRED_BYTES
      && Distinct(sources)
    }

    function Scoped(to: Option<Id>): Retired {
      if epoch == to then this else Retired(to, [])
    }
  }

  /** The sources followed by each new value once, in the order they first appear. */
  function Extended(sources: seq<Text>, values: seq<Text>): (r: seq<Text>)
    ensures sources <= r
    ensures forall s :: s in r <==> s in sources || s in values
    ensures Distinct(sources) ==> Distinct(r)
  {
    if values == [] then sources
    else
      var less, last := Extended(sources, values[..|values| - 1]), values[|values| - 1];
      if last in less then less else less + [last]
  }

  ghost predicate Retirable(sources: seq<Text>, values: seq<Text>) {
    && (forall v :: v in values ==> ValidSource(v))
    && |Extended(sources, values)| <= RETIRED_LIMIT && ByteCount(Extended(sources, values)) <= RETIRED_BYTES
  }

  lemma {:induction false} ByteCountGrows(a: seq<Text>, b: seq<Text>)
    requires a <= b
    ensures ByteCount(a) <= ByteCount(b)
  {
    if |a| == |b| {
      assert a == b;
    } else {
      ByteCountGrows(a, b[..|b| - 1]);
    }
  }

  lemma {:induction false} ExtendedGrows(sources: seq<Text>, values: seq<Text>, n: nat)
    requires n <= |values|
    ensures Extended(sources, values[..n]) <= Extended(sources, values)
    decreases |values| - n
  {
    if n == |values| {
      assert values[..n] == values;
    } else {
      ExtendedGrows(sources, values, n + 1);
      assert values[..n + 1][..n] == values[..n];
    }
  }

  lemma RetirablePrefix(sources: seq<Text>, values: seq<Text>, n: nat)
    requires n <= |values| && Retirable(sources, values)
    ensures Retirable(sources, values[..n])
  {
    ExtendedGrows(sources, values, n);
    ByteCountGrows(Extended(sources, values[..n]), Extended(sources, values));
  }

  /** What the memory becomes: all the values are remembered, or none is. */
  ghost function Retiring(memory: Retired, values: seq<Text>): Option<Retired> {
    if memory.Valid() && Retirable(memory.sources, values)
    then Some(memory.(sources := Extended(memory.sources, values)))
    else None
  }

  lemma ExtendNext(sources: seq<Text>, values: seq<Text>, i: nat)
    requires i < |values| && Retirable(sources, values[..i])
    ensures var next := Extended(sources, values[..i]);
            && Extended(sources, values[..i + 1]) == (if values[i] in next then next else next + [values[i]])
            && ByteCount(next + [values[i]]) == ByteCount(next) + |values[i]|
            && (Retirable(sources, values[..i + 1]) <==>
                  ValidSource(values[i])
                  && (values[i] in next || (|next| < RETIRED_LIMIT && ByteCount(next) + |values[i]| <= RETIRED_BYTES)))
    ensures Retirable(sources, values) ==> Retirable(sources, values[..i + 1])
  {
    assert values[..i + 1][..i] == values[..i];
    if Retirable(sources, values) { RetirablePrefix(sources, values, i + 1); }
  }

  /** Values are checked and added one at a time; the first that is invalid or does not fit rejects them all. */
  method Accumulate(sources: seq<Text>, values: seq<Text>) returns (r: Result<seq<Text>, Failure>)
    requires Retirable(sources, values[..0])
    ensures r.Ok? <==> Retirable(sources, values)
    ensures r.Ok? ==> r.value == Extended(sources, values)
  {
    assert Extended(sources, values[..0]) == sources;
    hide Retirable, ByteCount, Extended, ValidSource;
    var next, known, bytes := sources, Elements(sources), ByteCount(sources);
    for i := 0 to |values|
      invariant next == Extended(sources, values[..i]) && known == Elements(next) && bytes == ByteCount(next)
      invariant Retirable(sources, values[..i])
    {
      ExtendNext(sources, values, i);
      var source := values[i];
      if !ValidSource(source) { return Err(Invalid); }
      if source !in known {
        if !(|next| < RETIRED_LIMIT && bytes + |source| <= RETIRED_BYTES) { return Err(Full); }
        next, bytes := next + [source], bytes + |source|;
        known := known + {source};
      }
    }
    assert values[..|values|] == values;
    r := Ok(next);
  }

  method RememberRetired(memory: Retired, values: seq<Text>) returns (r: Result<Retired, Failure>)
    ensures r.Ok? <==> Retiring(memory, values).Some?
    ensures r.Ok? ==> r.value == Retiring(memory, values).value && r.value.Valid()
  {
    if !memory.Valid() { return Err(Invalid); }
    assert Extended(memory.sources, values[..0]) == memory.sources;
    var next := Accumulate(memory.sources, values);
    if next.Err? { return Err(next.error); }
    r := Ok(memory.(sources := next.value));
    RetiringIsValid(memory, values);
  }

  lemma ExtendedIsValid(sources: seq<Text>, values: seq<Text>)
    requires (forall s :: s in sources ==> ValidSource(s)) && forall s :: s in values ==> ValidSource(s)
    ensures forall s :: s in Extended(sources, values) ==> ValidSource(s)
  {
  }

  /** The memory keeps its limits, loses nothing, and gains exactly the values. */
  lemma RetiringIsValid(memory: Retired, values: seq<Text>)
    requires Retiring(memory, values).Some?
    ensures var after := Retiring(memory, values).value;
            && after.Valid() && after.epoch == memory.epoch && memory.sources <= after.sources
            && (forall s :: s in after.sources <==> s in memory.sources || s in values)
  {
    ExtendedIsValid(memory.sources, values);
    hide ByteCount, ValidSource;
  }
}
