/** Reading the same head again over its own result, matched by evidence. */
module HistoryReplanning {
  import opened Wrappers
  import opened HistoryTypes
  import opened HistoryWeave
  import opened HistoryReconciliation
  import HistoryMemories
  import Application = HistoryApplication
  import Identity = HistoryIdentity

  // ----- a row and what was made of it -----

  /** The displayed row holds the keys of the row of the read it was made of. */
  predicate Carries(row: Identity.Row, kept: Identity.Row) {
    && Identity.SourceKey(kept) == Identity.SourceKey(row)
    && (Identity.SendKey(row).Some? ==> Identity.SendKey(kept) == Identity.SendKey(row))
  }

  /**
   * No key of the row is held by another row on either side, the rows contradict each other in nothing, a key may speak
   * for a row that is the user's own, and no other row of the read claims it.
   */
  ghost predicate Recognized(incoming: seq<Identity.Row>, rows: seq<Identity.Row>, i: nat, j: nat)
    requires i < |incoming| && j < |rows|
  {
    var row, kept := incoming[i], rows[j];
    && (Identity.SourceKey(row).Some? ==>
          Identity.ShareUniqueKey(incoming, rows, i, j, Identity.SourceKey) && Identity.SourceCompatible(row, kept))
    && (Identity.SendKey(row).Some? ==>
          Identity.ShareUniqueKey(incoming, rows, i, j, Identity.SendKey) && Identity.Compatible(row, kept, false))
    && (|| (Identity.SourceKey(row).Some? && (kept.locallyOwned ==> Identity.Confirms(row, kept)))
        || (Identity.SendKey(row).Some? && Identity.Echoes(row, kept)))
    && !Identity.Contested(incoming, rows, i, j)
  }

  /** A joined row that is ambiguous without a producer ID makes the report's row ambiguous as well. */
  predicate Nameless(raw: Application.Report, previous: Option<Application.Displayed>) {
    raw.providedId.None? && previous.Some? && previous.value.origin == Some(Application.AmbiguousProvided)
    && previous.value.providedId.None?
  }

  /**
   * What an application makes of a row of the read contradicts it in nothing when the same row is read again, and
   * carries its keys unless it was joined to an ambiguous row without a producer ID, whatever has become ambiguous
   * since, so long as a row whose ID was ambiguous before was blocked.
   */
  lemma UpdatedCarries(raw: Application.Report, id: Text, previous: Option<Application.Displayed>,
                       read: Application.Read, memory: HistoryMemories.Ambiguity, retired: HistoryMemories.Retired,
                       context: Application.Context, later: HistoryMemories.Ambiguity)
    requires Application.Blocked(memory, raw.providedId) ==> Application.Blocked(later, raw.providedId)
    requires previous.Some? && previous.value.origin == Some(Application.AmbiguousProvided)
             && previous.value.providedId == raw.providedId && raw.providedId.Some? ==>
               Application.Blocked(memory, raw.providedId)
    ensures var row := Application.ReportRow(raw, context.epoch, Application.Blocked(later, raw.providedId));
            var made := Application.Updated(raw, id, previous, read, memory, retired, context);
            var kept := Application.DisplayedRow(Application.Marked(made, context.epoch, later));
            && Identity.SourceCompatible(row, kept)
            && (!Nameless(raw, previous) ==> Carries(row, kept))
            && (Identity.Compatible(row, kept, false) <==>
                  !(row.role == Identity.User && row.author.Participant? && row.author.sender.None?))
  {
    hide Application.References, Application.LivenessOf;
  }

  /** What a key the displayed row shares says: unique, or in conflict; never that there is nothing. */
  lemma CarriedEvidence(incoming: seq<Identity.Row>, rows: seq<Identity.Row>, i: nat, j: nat,
                        key: Identity.Row -> Option<Identity.Key>)
    requires i < |incoming| && j < |rows| && (key(incoming[i]).Some? ==> key(rows[j]) == key(incoming[i]))
    ensures var e := Identity.EvidenceOf(key(incoming[i]), Identity.KeysOf(rows, key), Identity.KeysOf(incoming, key));
            e == if key(incoming[i]).None? then Identity.Absent
                 else if Identity.ShareUniqueKey(incoming, rows, i, j, key) then Identity.Unique(j)
                 else Identity.Conflict
  {
    Identity.UniqueEvidence(incoming, rows, i, j, key);
    var k, held := key(incoming[i]), Identity.KeysOf(rows, key);
    if k.Some? {
      assert held[j] == k;
      assert j in Identity.Holders(held, k.value);
      Identity.SoleHolder(held, k.value, j);
      hide Identity.ShareUniqueKey, Identity.Holders, Identity.KeysOf;
    }
  }

  /** Exactly a recognized row is matched to what was made of it. */
  lemma OwnRowIsMatched(incoming: seq<Identity.Row>, rows: seq<Identity.Row>, i: nat, j: nat)
    requires i < |incoming| && j < |rows| && Carries(incoming[i], rows[j])
    ensures (Identity.Matched(incoming, rows, i).Some? && Identity.Matched(incoming, rows, i).value.storedIndex == j)
       <==> Recognized(incoming, rows, i, j)
  {
    CarriedEvidence(incoming, rows, i, j, Identity.SourceKey);
    CarriedEvidence(incoming, rows, i, j, Identity.SendKey);
    hide Identity.EvidenceOf, Identity.ShareUniqueKey, Identity.SourceKey, Identity.SendKey, Identity.KeysOf;
    hide Identity.Contested, Identity.Compatible, Identity.Echoes;
  }

  // ----- the same head, read again -----

  /** What the plan shows, as rows to read over: the same IDs, and what was kept keeps its flags. */
  ghost predicate Shows(anchors: Anchors, stored: seq<Stored>, retainOlderPrefix: bool, newId: nat -> Text,
                        shown: seq<Stored>)
    requires Injective(anchors, |stored|) && PlanOf(anchors, stored, false, retainOlderPrefix, newId).Ok?
  {
    var entries := HeadEntries(anchors, stored, newId, retainOlderPrefix);
    && |shown| == |entries|
    && (forall k :: 0 <= k < |shown| ==> shown[k].id == entries[k].id)
    && (forall k :: 0 <= k < |shown| && entries[k].Preserved? && entries[k].index < |stored| ==>
          SameFlags(shown[k], stored[entries[k].index]))
  }

  /** Row `i` of the read became displayed row `k`. */
  predicate Became(anchors: Anchors, stored: seq<Stored>, newId: nat -> Text, shown: seq<Stored>, i: nat, k: nat) {
    && i < |anchors| && k < |shown| && (anchors[i].Some? ==> anchors[i].value < |stored|)
    && shown[k].id == HeadEntry(anchors, stored, newId, i).id
  }

  /**
   * The row of the read is recognized as what it became; a row that was kept without holding its keys is matched all
   * the same.
   */
  ghost predicate Known(incoming: seq<Identity.Row>, shown: seq<Stored>, i: nat, k: nat)
    requires i < |incoming| && k < |shown|
  {
    if Carries(incoming[i], shown[k].identity) then Recognized(incoming, Identities(shown), i, k)
    else AnchorsOf(incoming, shown)[i] == Some(k)
  }

  /** Every displayed row that was made of a row of the read is known as its own. */
  ghost predicate AllKnown(incoming: seq<Identity.Row>, anchors: Anchors, stored: seq<Stored>, newId: nat -> Text,
                           shown: seq<Stored>)
    requires |anchors| == |incoming|
  {
    forall i: nat, k: nat :: Became(anchors, stored, newId, shown, i, k) ==> Known(incoming, shown, i, k)
  }

  /** Every row of the read became one displayed row. */
  lemma EveryRowBecame(anchors: Anchors, stored: seq<Stored>, retainOlderPrefix: bool, newId: nat -> Text,
                       shown: seq<Stored>, i: nat)
      returns (k: nat)
    requires Injective(anchors, |stored|) && PlanOf(anchors, stored, false, retainOlderPrefix, newId).Ok?
             && DistinctStored(stored)
    requires Shows(anchors, stored, retainOlderPrefix, newId, shown) && i < |anchors|
    ensures Became(anchors, stored, newId, shown, i, k)
    ensures forall j: nat :: Became(anchors, stored, newId, shown, i, j) ==> j == k
  {
    HeadShowsTheRead(anchors, stored, retainOlderPrefix, newId);
    HeadIsDistinct(anchors, stored, retainOlderPrefix, newId);
    var entries, e := HeadEntries(anchors, stored, newId, retainOlderPrefix), HeadEntry(anchors, stored, newId, i);
    hide PlanOf, HeadEntry, HeadEntries;
    assert e in entries;
    k :| 0 <= k < |entries| && entries[k] == e;
  }

  lemma RowIsRematched(incoming: seq<Identity.Row>, shown: seq<Stored>, i: nat, k: nat)
    requires i < |incoming| && k < |shown|
    ensures AnchorsOf(incoming, shown)[i] == Some(k) <==> Known(incoming, shown, i, k)
  {
    if Carries(incoming[i], shown[k].identity) {
      OwnRowIsMatched(incoming, Identities(shown), i, k);
    }
    hide Recognized, Identity.Matched, Carries;
  }

  /** The rows are matched again as they were placed exactly when every one of them is known. */
  lemma RematchedIffRecognized(incoming: seq<Identity.Row>, anchors: Anchors, stored: seq<Stored>,
                               retainOlderPrefix: bool, newId: nat -> Text, shown: seq<Stored>)
    requires Injective(anchors, |stored|) && PlanOf(anchors, stored, false, retainOlderPrefix, newId).Ok?
             && DistinctStored(stored)
    requires |anchors| == |incoming|
    requires Shows(anchors, stored, retainOlderPrefix, newId, shown)
    ensures Rematched(anchors, stored, retainOlderPrefix, newId, AnchorsOf(incoming, shown), shown)
       <==> AllKnown(incoming, anchors, stored, newId, shown)
  {
    var again := AnchorsOf(incoming, shown);
    var rematched := Rematched(anchors, stored, retainOlderPrefix, newId, again, shown);
    hide AnchorsOf, PlanOf, HeadEntries, Known, Became;
    if rematched {
      forall i: nat, k: nat | Became(anchors, stored, newId, shown, i, k)
        ensures Known(incoming, shown, i, k)
      {
        BecameIsInRange(anchors, stored, newId, shown, i, k);
        var at := EveryRowBecame(anchors, stored, retainOlderPrefix, newId, shown, i);
        StandingBecame(anchors, stored, newId, shown, i, again[i].value);
        RowIsRematched(incoming, shown, i, k);
      }
    }
    if AllKnown(incoming, anchors, stored, newId, shown) {
      forall i | 0 <= i < |again|
        ensures again[i].Some? && again[i].value < |shown|
        ensures shown[again[i].value].id == HeadEntry(anchors, stored, newId, i).id
      {
        var k := EveryRowBecame(anchors, stored, retainOlderPrefix, newId, shown, i);
        BecameIsInRange(anchors, stored, newId, shown, i, k);
        RowIsRematched(incoming, shown, i, k);
      }
    }
  }

  lemma BecameIsInRange(anchors: Anchors, stored: seq<Stored>, newId: nat -> Text, shown: seq<Stored>, i: nat, k: nat)
    requires Became(anchors, stored, newId, shown, i, k)
    ensures i < |anchors| && k < |shown| && (anchors[i].Some? ==> anchors[i].value < |stored|)
    ensures shown[k].id == HeadEntry(anchors, stored, newId, i).id
  {
  }

  lemma StandingBecame(anchors: Anchors, stored: seq<Stored>, newId: nat -> Text, shown: seq<Stored>, i: nat, k: nat)
    requires i < |anchors| && k < |shown| && (anchors[i].Some? ==> anchors[i].value < |stored|)
    requires shown[k].id == HeadEntry(anchors, stored, newId, i).id
    ensures Became(anchors, stored, newId, shown, i, k)
  {
  }

  lemma PlannedPlans(incoming: seq<Identity.Row>, stored: seq<Stored>, retainOlderPrefix: bool, newId: nat -> Text)
    requires ValidRows(incoming, stored)
    ensures Injective(AnchorsOf(incoming, stored), |stored|) && DistinctStored(stored)
    ensures Planned(incoming, stored, false, retainOlderPrefix, newId)
         == PlanOf(AnchorsOf(incoming, stored), stored, false, retainOlderPrefix, newId)
  {
    hide AnchorsOf, PlanOf;
  }

  /**
   * Reading a head again over its own result, matched by evidence both times: when every row is known, the plan is
   * accepted, draws no ID, and changes no row's ID or place exactly when no row stood only by the retained prefix, or
   * the first row of the read had been matched.
   */
  lemma ReadingAgainIsAFixedPoint(incoming: seq<Identity.Row>, stored: seq<Stored>, retainOlderPrefix: bool,
                                  newId: nat -> Text, shown: seq<Stored>, otherId: nat -> Text)
    requires ValidRows(incoming, stored) && ValidRows(incoming, shown)
    requires var anchors := AnchorsOf(incoming, stored);
             && Injective(anchors, |stored|) && PlanOf(anchors, stored, false, retainOlderPrefix, newId).Ok?
             && Shows(anchors, stored, retainOlderPrefix, newId, shown)
             && AllKnown(incoming, anchors, stored, newId, shown)
    ensures var first, second := Planned(incoming, stored, false, retainOlderPrefix, newId),
                                 Planned(incoming, shown, false, retainOlderPrefix, otherId);
            && first.Ok? && second.Ok?
            && (Ids(second.value.entries) == Ids(first.value.entries)
            <==> Repeatable(AnchorsOf(incoming, stored), stored, retainOlderPrefix))
  {
    var anchors, again := AnchorsOf(incoming, stored), AnchorsOf(incoming, shown);
    PlannedPlans(incoming, stored, retainOlderPrefix, newId);
    PlannedPlans(incoming, shown, retainOlderPrefix, otherId);
    hide AnchorsOf, AllKnown, Shows, Rematched, PlanOf, Repeatable, ValidRows;
    RematchedIffRecognized(incoming, anchors, stored, retainOlderPrefix, newId, shown);
    PlanningIsAFixedPoint(anchors, stored, retainOlderPrefix, newId, again, shown, otherId);
  }

  /** Rows that keep their content keep it again. */
  ghost predicate KeepsAgain(anchors: Anchors, stored: seq<Stored>, retainOlderPrefix: bool, newId: nat -> Text,
                             shown: seq<Stored>)
    requires Injective(anchors, |stored|) && PlanOf(anchors, stored, false, retainOlderPrefix, newId).Ok?
  {
    var entries := HeadEntries(anchors, stored, newId, retainOlderPrefix);
    forall k :: 0 <= k < |shown| && k < |entries| && entries[k].Preserved? && entries[k].index < |stored| ==>
      (KeepsContent(shown[k]) <==> KeepsContent(stored[entries[k].index]))
  }

  /** A plan that moves nothing keeps each displayed row, or updates it from the report it was made of. */
  lemma EntriesAgain(anchors: Anchors, stored: seq<Stored>, retainOlderPrefix: bool, newId: nat -> Text, again: Anchors,
                     shown: seq<Stored>, otherId: nat -> Text, k: nat)
    requires Injective(anchors, |stored|) && PlanOf(anchors, stored, false, retainOlderPrefix, newId).Ok?
             && DistinctStored(stored)
    requires Rematched(anchors, stored, retainOlderPrefix, newId, again, shown)
             && KeepsAgain(anchors, stored, retainOlderPrefix, newId, shown)
    requires Injective(again, |shown|) && PlanOf(again, shown, false, retainOlderPrefix, otherId).Ok?
    requires Ids(HeadEntries(again, shown, otherId, retainOlderPrefix))
          == Ids(HeadEntries(anchors, stored, newId, retainOlderPrefix))
    requires k < |shown|
    ensures k < |HeadEntries(again, shown, otherId, retainOlderPrefix)|
            && k < |HeadEntries(anchors, stored, newId, retainOlderPrefix)|
    ensures var e := HeadEntries(again, shown, otherId, retainOlderPrefix)[k];
            var before := HeadEntries(anchors, stored, newId, retainOlderPrefix)[k];
            e == Preserved(k, shown[k].id)
            || (before.History? && e == History(before.index, Some(k), shown[k].id) && !KeepsContent(shown[k]))
  {
    var first, second := HeadEntries(anchors, stored, newId, retainOlderPrefix),
                         HeadEntries(again, shown, otherId, retainOlderPrefix);
    RematchedIsOrdered(anchors, stored, retainOlderPrefix, newId, again, shown);
    HeadContents(again, shown, retainOlderPrefix, otherId);
    assert Ids(second)[k] == Ids(first)[k];
    assert second[k] in second && second[k].id == shown[k].id;
    hide HeadEntries, PlanOf, PrefixEnd, Ordered, Survives, KeepsAgain, FromRead, Surviving, Injective, KeepsContent;
    var i := EntryIsOwn(again, shown, otherId, PrefixEnd(again, retainOlderPrefix), second[k], k);
    if second[k] != Preserved(k, shown[k].id) {
      ReportIsBefore(anchors, stored, retainOlderPrefix, newId, again, shown, i, k);
    }
  }

  lemma EntryIsOwn(again: Anchors, shown: seq<Stored>, otherId: nat -> Text, prefixEnd: nat, e: Entry, k: nat)
    returns (i: nat)
    requires Injective(again, |shown|) && DistinctStored(shown) && k < |shown| && e.id == shown[k].id
    requires forall x :: 0 <= x < |again| ==> again[x].Some?
    requires FromRead(again, shown, otherId, e) || Surviving(again, shown, prefixEnd, e)
    ensures || e == Preserved(k, shown[k].id)
            || (i < |again| && again[i] == Some(k) && e == History(i, Some(k), shown[k].id) && !KeepsContent(shown[k]))
  {
    i := 0;
    if FromRead(again, shown, otherId, e) {
      i :| 0 <= i < |again| && e == HeadEntry(again, shown, otherId, i);
    }
  }

  /** A report that updates the row it was matched to had made the row. */
  lemma ReportIsBefore(anchors: Anchors, stored: seq<Stored>, retainOlderPrefix: bool, newId: nat -> Text,
                       again: Anchors, shown: seq<Stored>, i: nat, k: nat)
    requires Injective(anchors, |stored|) && PlanOf(anchors, stored, false, retainOlderPrefix, newId).Ok?
             && DistinctStored(stored)
    requires Rematched(anchors, stored, retainOlderPrefix, newId, again, shown)
             && KeepsAgain(anchors, stored, retainOlderPrefix, newId, shown)
    requires i < |again| && k < |shown| && again[i] == Some(k) && !KeepsContent(shown[k])
    ensures k < |HeadEntries(anchors, stored, newId, retainOlderPrefix)|
    ensures var before := HeadEntries(anchors, stored, newId, retainOlderPrefix)[k];
            before.History? && before.index == i
  {
    HeadIsDistinct(anchors, stored, retainOlderPrefix, newId);
    HeadShowsTheRead(anchors, stored, retainOlderPrefix, newId);
    var first, e := HeadEntries(anchors, stored, newId, retainOlderPrefix), HeadEntry(anchors, stored, newId, i);
    hide HeadEntries, PlanOf;
    assert e in first && first[k].id == e.id;
    var at :| 0 <= at < |first| && first[at] == e;
    assert at == k;
  }

  /** Every ID of a plan is usable. */
  lemma HeadIdsAreValid(anchors: Anchors, stored: seq<Stored>, retainOlderPrefix: bool, newId: nat -> Text)
    requires Injective(anchors, |stored|) && PlanOf(anchors, stored, false, retainOlderPrefix, newId).Ok?
             && DistinctStored(stored)
    requires forall p :: 0 <= p < |stored| ==> ValidId(stored[p].id)
    ensures forall e :: e in HeadEntries(anchors, stored, newId, retainOlderPrefix) ==> ValidId(e.id)
  {
    HeadContents(anchors, stored, retainOlderPrefix, newId);
    HeadEntriesAre(anchors, stored, retainOlderPrefix, newId);
    hide HeadEntries, PlanOf, Survives, PrefixEnd, Ordered, ValidId;
  }

  /** What a plan shows can be read over, if it is not too much. */
  lemma ShownIsValid(anchors: Anchors, stored: seq<Stored>, retainOlderPrefix: bool, newId: nat -> Text,
                     shown: seq<Stored>)
    requires Injective(anchors, |stored|) && PlanOf(anchors, stored, false, retainOlderPrefix, newId).Ok?
             && DistinctStored(stored) && Shows(anchors, stored, retainOlderPrefix, newId, shown)
    requires forall p :: 0 <= p < |stored| ==> ValidId(stored[p].id)
    ensures DistinctStored(shown) && forall s :: s in shown ==> ValidId(s.id)
  {
    HeadIdsAreValid(anchors, stored, retainOlderPrefix, newId);
    HeadIsDistinct(anchors, stored, retainOlderPrefix, newId);
    var entries := HeadEntries(anchors, stored, newId, retainOlderPrefix);
    hide HeadEntries, PlanOf, ValidId;
    assert forall k :: 0 <= k < |shown| ==> entries[k] in entries && shown[k].id == entries[k].id;
  }

  // ----- an input that is not repeatable -----

  /** A row with only a source. */
  function Sourced(source: Text): Identity.Row {
    Identity.Row(Identity.Assistant, Some(source), None, None, false, Identity.Direct, None, None, None, None, None,
                 None)
  }

  function Displaying(id: Text): Stored { Stored.Stored(id, Sourced(id), false, false, false) }

  /**
   * An older row and its successor are stored; the head begins with a new row before the successor. The older row is
   * kept by the prefix, and reading the same head again drops it, however it is displayed.
   */
  lemma TheOlderPrefixIsDropped(again: Anchors, shown: seq<Stored>, otherId: nat -> Text)
    ensures var stored, newId := [Displaying([1]), Displaying([2])], (n: nat) => [3];
            var anchors := AnchorsOf([Sourced([3]), Sourced([2])], stored);
            && Injective(anchors, |stored|) && PlanOf(anchors, stored, false, true, newId).Ok?
            && !Repeatable(anchors, stored, true)
            && (Rematched(anchors, stored, true, newId, again, shown) ==>
                  && Injective(again, |shown|) && PlanOf(again, shown, false, true, otherId).Ok?
                  && Ids(HeadEntries(again, shown, otherId, true)) != Ids(HeadEntries(anchors, stored, newId, true)))
  {
    hide *;
    var stored, newId := [Displaying([1]), Displaying([2])], (n: nat) => [3];
    var anchors := AnchorsOf([Sourced([3]), Sourced([2])], stored);
    TheSuccessorIsMatched();
    TheFirstPlan(newId);
    if Rematched(anchors, stored, true, newId, again, shown) {
      PlanningIsAFixedPoint(anchors, stored, true, newId, again, shown, otherId);
    }
  }

  lemma TheFirstPlan(newId: nat -> Text)
    requires newId(0) == [3]
    ensures var anchors: Anchors, stored := [None, Some(1)], [Displaying([1]), Displaying([2])];
            && Injective(anchors, |stored|) && PlanOf(anchors, stored, false, true, newId).Ok?
            && !Repeatable(anchors, stored, true) && DistinctStored(stored)
  {
    var anchors: Anchors, stored := [None, Some(1)], [Displaying([1]), Displaying([2])];
    assert stored[0].id == [1] && stored[1].id == [2] && !Flagged(stored[0]);
    assert FirstAnchor(anchors) == Some(1) && ReaderOf(anchors, 0) == None;
    hide FirstAnchor, ReaderOf;
    assert PrefixEnd(anchors, true) == 1;
    hide PrefixEnd;
    assert !Repeatable(anchors, stored, true);
    hide Repeatable;
    assert Drawn(anchors, 0) == 0;
    hide Drawn;
    assert FreshIds(anchors, stored, newId, 2);
  }

  /** The new row is nothing stored, and the successor is matched by its source. */
  lemma TheSuccessorIsMatched()
    ensures AnchorsOf([Sourced([3]), Sourced([2])], [Displaying([1]), Displaying([2])]) == [None, Some(1)]
  {
    var incoming, stored := [Sourced([3]), Sourced([2])], [Displaying([1]), Displaying([2])];
    var rows := Identities(stored);
    assert Identity.SourceKey(rows[0]).value.value == [1] && Identity.SourceKey(rows[1]).value.value == [2];
    assert Identity.SourceKey(incoming[0]).value.value == [3] && Identity.SourceKey(incoming[1]).value.value == [2];
    Identity.SourceRowsMatchExactly(incoming, rows, 1, 1);
    Identity.SourceRowsMatchExactly(incoming, rows, 0, 0);
    Identity.SourceRowsMatchExactly(incoming, rows, 0, 1);
    hide Identity.Matched, Identity.SourceKey;
  }
}
