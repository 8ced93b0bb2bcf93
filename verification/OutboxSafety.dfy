/**
 * Over every interleaving of the outbox: nothing is sent twice, nothing without authority, and a restart never forgets
 * a send.
 */
module OutboxSafety {
  import opened Wrappers
  import opened HistoryTypes
  import opened Outbox

  // ----- documents -----

  /** The message may have reached the backend, or is being taken there. */
  predicate Firm(d: Option<Delivery>) { d in {Some(Sending), Some(Sent), Some(Delivered), Some(Uncertain)} }

  predicate FirmIn(doc: Doc, id: Text) {
    forall k :: 0 <= k < |doc.items| && doc.items[k].id == id ==> Firm(doc.items[k].delivery)
  }

  predicate Has(doc: Doc, id: Text) { exists k :: 0 <= k < |doc.items| && doc.items[k].id == id }

  predicate QueuedIn(doc: Doc, id: Text) {
    exists k :: 0 <= k < |doc.items| && doc.items[k].id == id && doc.items[k].delivery == Some(Queued)
  }

  predicate Distinct(doc: Doc) { DistinctItems(doc.items) }

  predicate DistinctItems(items: seq<Item>) {
    forall i, j :: 0 <= i < j < |items| ==> items[i].id != items[j].id
  }

  /**
   * The document shows a send's message as taken to the backend, as long as it is the send's conversation, and no
   * command has shown it as held.
   */
  predicate Records(doc: Doc, f: Flight, withheld: set<Text>) {
    f.item.id !in withheld ==> FirmIn(doc, f.item.id) && (doc.epoch == f.epoch ==> Has(doc, f.item.id))
  }

  ghost predicate Clean(doc: Doc, past: Record) {
    && Distinct(doc)
    && (forall k :: 0 <= k < |doc.items| ==>
          doc.items[k].id in past.ids && (doc.items[k].delivery == Some(Queued) ==> doc.items[k].owned))
    && (doc.epoch.Some? ==> doc.epoch.value in past.epochs)
    && (forall id :: id in past.exposed && id !in past.withheld ==> FirmIn(doc, id))
  }

  // ----- what holds in every reachable state -----

  predicate Sound(f: Flight) { f.stage in {Persisted(true), Verifying, OnWire} }

  predicate Claims(f: Flight) { Late(f) && f.stage != OnWire }

  /** Every document anywhere shows each exposed message as taken to the backend, unless a command withheld it. */
  ghost predicate Documents(s: State) {
    && (s.open ==> Clean(s.doc, s.past))
    && (s.stored.Some? ==> Clean(s.stored.value, s.past))
    && (forall q :: 0 <= q < |s.queue| ==> Clean(s.queue[q].doc, s.past))
    && (s.operation.Some? ==> Clean(s.operation.value.original, s.past))
  }

  /** Revisions in the store never pass the document's own, and a revision names one document. */
  ghost predicate Revisions(s: State) {
    && (s.stored.Some? ==> s.stored.value.revision <= s.latest)
    && s.latest <= s.doc.revision
    && (forall q :: 0 <= q < |s.queue| ==> s.latest <= s.queue[q].doc.revision <= s.doc.revision)
    && (forall p, q :: 0 <= p < q < |s.queue| ==> s.queue[p].doc.revision <= s.queue[q].doc.revision)
    && (s.stored.Some? && s.stored.value.revision == s.doc.revision ==> s.stored.value == s.doc)
    && (forall q :: 0 <= q < |s.queue| && s.queue[q].doc.revision == s.doc.revision ==> s.queue[q].doc == s.doc)
    && (s.operation.Some? ==>
          var o := s.operation.value.original;
          && o.revision <= s.doc.revision && (o.revision == s.doc.revision ==> o == s.doc)
          && (s.stored.Some? && s.stored.value.revision == o.revision ==> s.stored.value == o)
          && (forall q :: 0 <= q < |s.queue| && s.queue[q].doc.revision == o.revision ==> s.queue[q].doc == o))
  }

  ghost predicate Epochs(s: State) {
    && (s.stored.Some? ==> s.stored.value.epoch == s.doc.epoch)
    && (forall q :: 0 <= q < |s.queue| ==> s.queue[q].doc.epoch == s.doc.epoch)
    && (s.operation.Some? ==> s.operation.value.original.epoch == s.doc.epoch)
  }

  /** A transaction has committed and is not adopted yet. */
  predicate Adopting(s: State) { s.operation.Some? && s.operation.value.committed.Some? }

  ghost predicate Committed(s: State)
    requires Adopting(s)
  {
    var c := s.operation.value.committed.value;
    s.queue == [] && s.stored == Some(c) && s.latest == c.revision
    && forall k :: 0 <= k < |s.flights| && Late(s.flights[k]) ==> Records(c, s.flights[k], s.past.withheld)
  }

  /** A send's own write is waiting, and everything that waits behind it shows the message too. */
  ghost predicate Awaited(queue: seq<Write>, f: Flight, withheld: set<Text>) {
    exists q :: 0 <= q < |queue| && AwaitedAt(queue, f, withheld, q)
  }

  ghost predicate AwaitedAt(queue: seq<Write>, f: Flight, withheld: set<Text>, q: nat)
    requires q < |queue|
  {
    && queue[q].waiter == Some(f.number)
    && (forall j :: 0 <= j < |queue| && j != q ==> queue[j].waiter != Some(f.number))
    && (forall j :: q <= j < |queue| ==> Records(queue[j].doc, f, withheld))
  }

  ghost predicate Task(s: State, f: Flight) {
    && f.number < s.nextNumber && f.item.id in s.past.ids
    && f.epoch.Some? && f.epoch.value in s.past.epochs
    && (f.stage != OnWire && f.item.id !in s.past.withheld ==> f.item.id !in s.past.exposed)
    && (Late(f) ==>
          && Records(s.doc, f, s.past.withheld)
          && (s.operation.Some? ==> Records(s.operation.value.original, f, s.past.withheld)))
    && (Sound(f) ==>
          && s.stored.Some? && Records(s.stored.value, f, s.past.withheld)
          && forall q :: 0 <= q < |s.queue| ==> Records(s.queue[q].doc, f, s.past.withheld))
    && (f.stage == Persisting ==> Awaited(s.queue, f, s.past.withheld))
    && (f.stage != Persisting ==> forall q :: 0 <= q < |s.queue| ==> s.queue[q].waiter != Some(f.number))
  }

  ghost predicate Tasks(s: State) {
    && |s.flights| <= 1 && (s.slot <==> |s.flights| == 1)
    && (forall k :: 0 <= k < |s.flights| ==> Task(s, s.flights[k]))
    && (forall q :: 0 <= q < |s.queue| && s.queue[q].waiter.Some? ==> s.queue[q].waiter.value < s.nextNumber)
  }

  function One(b: bool): nat { if b then 1 else 0 }

  /** Authority not used up yet: the message is queued, or reserved by a task that has not entered the wire. */
  ghost function Open(s: State, id: Text): nat {
    One(s.open && QueuedIn(s.doc, id))
    + One(exists k :: 0 <= k < |s.flights| && Claims(s.flights[k]) && s.flights[k].item.id == id)
  }

  ghost predicate Authority(s: State) {
    forall id :: Count(s.past.entered, id) + Open(s, id) <= Count(s.past.granted, id)
  }

  ghost predicate Inv(s: State) {
    && Documents(s) && Tasks(s) && Authority(s) && s.past.exposed <= s.past.ids
    && (!s.open ==> s.flights == [] && s.commands == [] && s.queue == [] && s.operation.None? && !s.failed
                    && s.latest <= if s.stored.Some? then Recovered(s.stored.value).revision else 0)
    && (s.failed ==> s.queue == [] && s.operation.None?)
    && (s.open && !s.failed && !Adopting(s) ==> Revisions(s) && Epochs(s))
    && (s.open && Adopting(s) ==> Committed(s))
  }

  // ----- changes of the document in memory -----

  /** A newer document of the same conversation that queues nothing new and forgets no send. */
  ghost predicate Gentle(s: State, d: Doc) {
    && d.revision > s.doc.revision && d.epoch == s.doc.epoch
    && Clean(d, s.past)
    && (forall k :: 0 <= k < |s.flights| && Late(s.flights[k]) ==> Records(d, s.flights[k], s.past.withheld))
    && (forall id :: QueuedIn(d, id) ==> QueuedIn(s.doc, id))
  }

  lemma DocumentChanges(s: State, d: Doc)
    requires Inv(s) && s.open && Gentle(s, d)
    ensures Inv(s.(doc := d))
  {
    hide Clean, Records, QueuedIn, Awaited;
    var t := s.(doc := d);
    assert Tasks(t) by {
      forall k | 0 <= k < |t.flights| ensures Task(t, t.flights[k]) { assert Task(s, s.flights[k]); }
    }
    assert forall id :: Open(t, id) <= Open(s, id);
  }

  /** Changing messages one by one, never un-sending one and never queueing one, is gentle. */
  lemma ItemwiseIsGentle(s: State, d: Doc)
    requires Inv(s) && s.open
    requires d.revision > s.doc.revision && d.epoch == s.doc.epoch && |d.items| == |s.doc.items|
    requires forall k :: 0 <= k < |d.items| ==>
               d.items[k].id == s.doc.items[k].id && d.items[k].owned == s.doc.items[k].owned
    requires forall k :: 0 <= k < |d.items| && Firm(s.doc.items[k].delivery) && Busy(s, d.items[k].id) ==>
               Firm(d.items[k].delivery)
    requires forall k :: 0 <= k < |d.items| && d.items[k].delivery == Some(Queued) ==>
               s.doc.items[k].delivery == Some(Queued)
    ensures Gentle(s, d)
  {
    hide Awaited, Revisions, Epochs, Committed, Authority;
    forall k | 0 <= k < |s.flights| && Late(s.flights[k])
      ensures Records(d, s.flights[k], s.past.withheld)
    {
      assert Task(s, s.flights[k]);
      HasItemwise(s.doc, d, s.flights[k].item.id);
    }
    forall id | QueuedIn(d, id)
      ensures QueuedIn(s.doc, id)
    {
      var k :| 0 <= k < |d.items| && d.items[k].id == id && d.items[k].delivery == Some(Queued);
      assert s.doc.items[k].id == id;
    }
  }

  lemma HasItemwise(d: Doc, e: Doc, id: Text)
    requires |d.items| == |e.items| && forall k :: 0 <= k < |d.items| ==> d.items[k].id == e.items[k].id
    ensures Has(d, id) <==> Has(e, id)
  {
    if Has(d, id) {
      var k :| 0 <= k < |d.items| && d.items[k].id == id;
      assert e.items[k].id == id;
    }
    if Has(e, id) {
      var k :| 0 <= k < |e.items| && e.items[k].id == id;
      assert d.items[k].id == id;
    }
  }

  predicate Busy(s: State, id: Text) { Dispatching(s, id) && id !in s.past.withheld }

  /** Recording a result is gentle unless it un-sends a message that is still being taken to the backend. */
  lemma UpdateKeeps(s: State, id: Text, delivery: Delivery)
    requires Inv(s) && s.open && delivery != Queued
    requires Firm(Some(delivery)) || !Busy(s, id) || ShownDelivered(s.doc, id)
    ensures Inv(s.(doc := UpdateSend(s.doc, id, delivery)))
  {
    var d := UpdateSend(s.doc, id, delivery);
    if Find(s.doc.items, id).Some? {
      hide Awaited, Revisions, Epochs, Committed, Authority, Inv, Busy;
      ItemwiseIsGentle(s, d);
      DocumentChanges(s, d);
    } else {
      assert s.(doc := d) == s;
    }
  }

  predicate ShownDelivered(doc: Doc, id: Text) {
    var at := Find(doc.items, id);
    at.Some? && doc.items[at.value].delivery == Some(Delivered)
  }

  lemma LandingKeeps(s: State, i: nat)
    requires Inv(s) && i < |s.flights|
    ensures Inv(Landed(s, i)) && Landed(s, i).flights == []
    ensures forall id :: Busy(Landed(s, i), id) <==> id in s.past.exposed && id !in s.past.withheld
  {
    hide Clean, Records, QueuedIn, Awaited;
    var t := Landed(s, i);
    assert t.flights == [];
    assert forall id :: Open(t, id) <= Open(s, id);
  }

  // ----- the user's actions -----

  /** The user authorizes one message that no task holds. */
  lemma GrantKeeps(s: State, d: Doc, id: Text)
    requires Inv(s) && s.open
    requires d.revision > s.doc.revision && d.epoch == s.doc.epoch && Distinct(d)
    requires forall k :: 0 <= k < |d.items| ==>
               d.items[k].id in s.past.ids + {id} && (d.items[k].delivery == Some(Queued) ==> d.items[k].owned)
    requires forall x :: x in s.past.exposed && x !in s.past.withheld ==> FirmIn(d, x)
    requires forall k :: 0 <= k < |s.flights| && Late(s.flights[k]) ==> Records(d, s.flights[k], s.past.withheld)
    requires !QueuedIn(s.doc, id)
    requires forall x :: x != id && QueuedIn(d, x) ==> QueuedIn(s.doc, x)
    ensures Inv(s.(doc := d, past := Granted(s.past, id).(ids := s.past.ids + {id})))
  {
    var t := s.(doc := d, past := Granted(s.past, id).(ids := s.past.ids + {id}));
    assert Documents(t) by { hide Tasks, Authority, Revisions, Epochs, Records, QueuedIn; }
    assert Tasks(t) by {
      hide Clean, Records, QueuedIn, Awaited, Authority;
      forall k | 0 <= k < |t.flights| ensures Task(t, t.flights[k]) { assert Task(s, s.flights[k]); }
    }
    hide Documents, Tasks, Records, Revisions, Epochs, Distinct;
    GrantCounts(s, t, id);
    assert s.open && !s.failed && !Adopting(s) ==> Revisions(t) && Epochs(t) by { RevisionsGrow(s, t); }
  }

  lemma RevisionsGrow(s: State, t: State)
    requires s.open && t == s.(doc := t.doc, past := t.past) && t.doc.revision > s.doc.revision
             && t.doc.epoch == s.doc.epoch
    ensures Revisions(s) ==> Revisions(t)
    ensures Epochs(s) ==> Epochs(t)
  {
  }

  lemma GrantCounts(s: State, t: State, id: Text)
    requires Authority(s) && s.open && t.open && t.flights == s.flights && t.past.entered == s.past.entered
    requires t.past.granted == Granted(s.past, id).granted
    requires !QueuedIn(s.doc, id)
    requires forall x :: x != id && QueuedIn(t.doc, x) ==> QueuedIn(s.doc, x)
    ensures Authority(t)
  {
    hide QueuedIn;
    forall x
      ensures Count(t.past.entered, x) + Open(t, x) <= Count(t.past.granted, x)
    {
      assert Count(s.past.entered, x) + Open(s, x) <= Count(s.past.granted, x);
    }
  }

  lemma ComposeKeeps(s: State, id: Text, body: nat, gate: bool)
    requires Inv(s)
    ensures Inv(Compose(s, id, body, gate))
  {
    var t := Compose(s, id, body, gate);
    if t != s {
      hide Authority, Revisions, Epochs, Committed, Awaited;
      var item := Item(id, true, Some(id), body, s.doc.epoch, Some(Queued));
      assert t.doc.items == s.doc.items + [item];
      assert Clean(s.doc, s.past);
      AppendKeeps(s.doc, t.doc, item);
      forall k | 0 <= k < |s.flights| && Late(s.flights[k])
        ensures Records(t.doc, s.flights[k], s.past.withheld)
      {
        assert Task(s, s.flights[k]);
      }
      NotQueued(s.doc, s.past, id);
      hide Inv, Records, FirmIn, QueuedIn;
      GrantKeeps(s, t.doc, id);
    }
  }

  lemma NotQueued(d: Doc, past: Record, id: Text)
    requires Clean(d, past) && id !in past.ids
    ensures !QueuedIn(d, id)
  {
  }

  lemma AppendKeeps(d: Doc, e: Doc, item: Item)
    requires e.items == d.items + [item] && e.epoch == d.epoch
    ensures forall x :: x != item.id && FirmIn(d, x) ==> FirmIn(e, x)
    ensures forall x :: Has(d, x) ==> Has(e, x)
    ensures forall x :: x != item.id && QueuedIn(e, x) ==> QueuedIn(d, x)
  {
    forall x | Has(d, x) ensures Has(e, x) {
      var k :| 0 <= k < |d.items| && d.items[k].id == x;
      assert e.items[k].id == x;
    }
  }

  /** Only a held message is sent again, and no task holds a held message. */
  lemma SendNowKeeps(s: State, id: Text, gate: bool)
    requires Inv(s)
    ensures Inv(SendNow(s, id, gate))
  {
    var t := SendNow(s, id, gate);
    if t != s {
      var at := Find(s.doc.items, id).value;
      hide Authority, Revisions, Epochs, Committed, Awaited, Inv;
      HeldIsFree(s, at);
      ReplaceKeeps(s.doc, t.doc, at);
      assert Clean(s.doc, s.past) by { OpenIsClean(s); }
      forall k | 0 <= k < |s.flights| && Late(s.flights[k])
        ensures Records(t.doc, s.flights[k], s.past.withheld)
      {
        LateIsRecorded(s, k);
      }
      assert s.past.ids + {id} == s.past.ids;
      assert t == s.(doc := t.doc, past := Granted(s.past, id).(ids := s.past.ids + {id}));
      hide Records, FirmIn, QueuedIn;
      GrantKeeps(s, t.doc, id);
    }
  }

  lemma OpenIsClean(s: State)
    requires Inv(s) && s.open
    ensures Clean(s.doc, s.past)
  {
  }

  lemma LateIsRecorded(s: State, k: nat)
    requires Inv(s) && k < |s.flights| && Late(s.flights[k])
    ensures Records(s.doc, s.flights[k], s.past.withheld)
  {
    assert Task(s, s.flights[k]);
  }

  /** A message that does not look sent is neither exposed nor held by a task, unless a command withheld it. */
  lemma HeldIsFree(s: State, at: nat)
    requires Inv(s) && s.open && at < |s.doc.items| && !Firm(s.doc.items[at].delivery)
    ensures !Busy(s, s.doc.items[at].id)
    ensures s.doc.items[at].delivery != Some(Queued) ==> !QueuedIn(s.doc, s.doc.items[at].id)
  {
    hide Authority, Revisions, Epochs, Committed, Awaited;
    assert Clean(s.doc, s.past);
    forall k | 0 <= k < |s.flights| && Late(s.flights[k]) && s.doc.items[at].id !in s.past.withheld
      ensures s.flights[k].item.id != s.doc.items[at].id
    {
      assert Task(s, s.flights[k]);
    }
  }

  lemma ReplaceKeeps(d: Doc, e: Doc, at: nat)
    requires at < |d.items| && |e.items| == |d.items| && e.epoch == d.epoch
    requires forall k :: 0 <= k < |d.items| ==> e.items[k].id == d.items[k].id && (k != at ==> e.items[k] == d.items[k])
    ensures forall x :: x != d.items[at].id && FirmIn(d, x) ==> FirmIn(e, x)
    ensures forall x :: Has(d, x) ==> Has(e, x)
    ensures forall x :: x != d.items[at].id && QueuedIn(e, x) ==> QueuedIn(d, x)
  {
    forall x | Has(d, x) ensures Has(e, x) { HasItemwise(d, e, x); }
  }

  lemma EditKeeps(s: State, id: Text)
    requires Inv(s)
    ensures Inv(HoldForEdit(s, id))
  {
    var at := Find(s.doc.items, id);
    if HoldForEdit(s, id) != s {
      HeldIsFree(s, at.value);
      hide Inv, Busy;
      var held := With(s.doc, at.value, s.doc.items[at.value].(delivery := Some(Held)));
      ItemwiseIsGentle(s, held);
      DocumentChanges(s, held);
    }
  }

  lemma TextKeeps(s: State, id: Text, body: nat)
    requires Inv(s)
    ensures Inv(ChangeText(s, id, body))
  {
    var at := Find(s.doc.items, id);
    if ChangeText(s, id, body) != s {
      hide Inv, Busy;
      var text := With(s.doc, at.value, s.doc.items[at.value].(body := body));
      ItemwiseIsGentle(s, text);
      DocumentChanges(s, text);
    }
  }

  lemma RemovalKeeps(s: State, id: Text)
    requires Inv(s)
    ensures Inv(Remove(s, id))
  {
    var at := Find(s.doc.items, id);
    if Remove(s, id) != s {
      HeldIsFree(s, at.value);
      hide Inv, Busy;
      RemoveKeeps(s, at.value);
    }
  }

  lemma RemoveKeeps(s: State, at: nat)
    requires Inv(s) && s.open && at < |s.doc.items| && !Busy(s, s.doc.items[at].id)
    ensures Inv(s.(doc := s.doc.(items := s.doc.items[..at] + s.doc.items[at + 1..], revision := s.doc.revision + 1)))
  {
    var d := s.doc.(items := s.doc.items[..at] + s.doc.items[at + 1..], revision := s.doc.revision + 1);
    hide Authority, Revisions, Epochs, Committed, Awaited;
    assert Clean(s.doc, s.past);
    DropKeeps(s.doc, d, at);
    forall k | 0 <= k < |s.flights| && Late(s.flights[k])
      ensures Records(d, s.flights[k], s.past.withheld)
    {
      assert Task(s, s.flights[k]);
    }
    DocumentChanges(s, d);
  }

  lemma DropKeeps(d: Doc, e: Doc, at: nat)
    requires at < |d.items| && e.items == d.items[..at] + d.items[at + 1..] && e.epoch == d.epoch
    ensures forall k :: 0 <= k < |e.items| ==> e.items[k] in d.items
    ensures forall x :: FirmIn(d, x) ==> FirmIn(e, x)
    ensures forall x :: x != d.items[at].id && Has(d, x) ==> Has(e, x)
    ensures forall x :: QueuedIn(e, x) ==> QueuedIn(d, x)
    ensures Distinct(d) ==> Distinct(e)
  {
    assert forall k :: 0 <= k < |e.items| ==> e.items[k] == d.items[if k < at then k else k + 1];
    forall x | x != d.items[at].id && Has(d, x) ensures Has(e, x) {
      var k :| 0 <= k < |d.items| && d.items[k].id == x;
      assert e.items[if k < at then k else k - 1].id == x;
    }
    forall x | QueuedIn(e, x) ensures QueuedIn(d, x) {
      var k :| 0 <= k < |e.items| && e.items[k].id == x && e.items[k].delivery == Some(Queued);
      assert d.items[if k < at then k else k + 1].id == x;
    }
  }

  // ----- setting commands -----

  lemma OrderKeeps(s: State, id: Text, body: nat, gate: bool)
    requires Inv(s)
    ensures Inv(Order(s, id, body, gate))
  {
    var t := Compose(s, id, body, gate);
    if Admits(s, id, gate) {
      ComposeKeeps(s, id, body, gate);
      assert t == s.(doc := t.doc, past := t.past) && Input(t);
      hide Inv, Compose;
      EnqueueKeeps(t, Some(s.nextNumber), Order(s, id, body, gate));
    }
  }

  lemma FinishKeeps(s: State, k: nat, gate: bool)
    requires Inv(s) && k < |s.commands|
    ensures Inv(Finish(s, k, gate))
  {
    assert s.open;
    var t := s.(commands := s.commands[..k] + s.commands[k + 1..]);
    CommandsKeep(s, t.commands);
    hide Inv, Withhold;
    WithholdKeeps(t, s.commands[k].id);
  }

  lemma CommandsKeep(s: State, commands: seq<Command>)
    requires Inv(s) && s.open
    ensures Inv(s.(commands := commands))
  {
    hide Clean, Records, QueuedIn, Awaited;
    var t := s.(commands := commands);
    assert forall k :: 0 <= k < |s.flights| && Task(s, s.flights[k]) ==> Task(t, t.flights[k]);
    assert forall id :: Open(t, id) == Open(s, id);
  }

  lemma WithholdKeeps(s: State, id: Text)
    requires Inv(s) && s.open
    ensures Inv(Withhold(s, id))
  {
    hide Inv, UpdateSend;
    var t := Withhold(s, id);
    if t.past == s.past {
      if Find(s.doc.items, id).Some? {
        UpdateKeeps(s, id, Held);
      } else {
        NothingToUpdate(s.doc, id, Held);
        assert t == s;
      }
    } else {
      var u := s.(past := t.past);
      WithheldKeeps(s, id);
      UpdateKeeps(u, id, Held);
    }
  }

  lemma NothingToUpdate(d: Doc, id: Text, delivery: Delivery)
    requires Find(d.items, id).None?
    ensures UpdateSend(d, id, delivery) == d
  {
  }

  /** What is known of messages no command has withheld is not known of fewer. */
  lemma WithheldKeeps(s: State, id: Text)
    requires Inv(s)
    ensures Inv(s.(past := s.past.(withheld := s.past.withheld + {id})))
  {
    var t := s.(past := s.past.(withheld := s.past.withheld + {id}));
    hide FirmIn, Has, QueuedIn, Distinct, Recovered;
    forall k | 0 <= k < |t.flights|
      ensures Task(t, t.flights[k])
    {
      var f := s.flights[k];
      assert Task(s, f);
      if f.stage == Persisting {
        var q :| 0 <= q < |s.queue| && AwaitedAt(s.queue, f, s.past.withheld, q);
        assert AwaitedAt(t.queue, f, t.past.withheld, q);
      }
    }
    assert forall x :: Open(t, x) == Open(s, x);
  }

  // ----- the send task -----

  lemma DrainKeeps(s: State, gate: bool)
    requires Inv(s)
    ensures Inv(Drain(s, gate))
  {
    var t := Drain(s, gate);
    if t != s {
      var at := FirstQueued(s.doc).value;
      HeldIsFree(s, at);
      var f := t.flights[0];
      assert t.flights == [f] && f.item == s.doc.items[at];
      assert Clean(s.doc, s.past) by { OpenIsClean(s); }
      hide Clean, Records, QueuedIn, Awaited, FirstFrom, FirstQueued;
      assert Task(t, f);
      assert forall id :: Open(t, id) <= Open(s, id);
    }
  }

  /** Giving a message back, when its task never entered the wire. */
  lemma GiveBackKeeps(s: State, i: nat, delivery: Delivery)
    requires Inv(s) && s.open && i < |s.flights| && s.flights[i].stage != OnWire && delivery != Queued
    ensures Inv(Landed(s.(doc := UpdateSend(s.doc, s.flights[i].item.id, delivery)), i))
  {
    var f := s.flights[i];
    LandingKeeps(s, i);
    assert Task(s, f);
    hide Inv, Busy, UpdateSend;
    UpdateKeeps(Landed(s, i), f.item.id, delivery);
    assert Landed(s, i).(doc := UpdateSend(s.doc, f.item.id, delivery))
             == Landed(s.(doc := UpdateSend(s.doc, f.item.id, delivery)), i);
  }

  lemma FlightsAreOpen(s: State)
    requires Inv(s) && |s.flights| > 0
    ensures s.open
  {
  }

  lemma ConfirmKeeps(s: State, i: nat, busy: bool, gate: bool)
    requires Inv(s) && i < |s.flights|
    ensures Inv(Confirm(s, i, busy, gate))
  {
    FlightsAreOpen(s);
    var f := s.flights[i];
    if f.stage.Persisted? {
      if !f.stage.ok {
        GiveBackKeeps(s, i, AfterFailure(s, f, if busy then NotDispatched else Unknown, false, gate));
      } else if Input(s) && InScope(s, f) && s.ready && gate && !s.running {
        AdvanceKeeps(s, i, Verifying);
      } else {
        GiveBackKeeps(s, i, Held);
      }
    }
  }

  /** Moving on from a stored write changes nothing else. */
  lemma AdvanceKeeps(s: State, i: nat, stage: Stage)
    requires Inv(s) && i < |s.flights| && s.flights[i].stage == Persisted(true) && stage == Verifying
    ensures Inv(AtStage(s, i, stage))
  {
    var t := AtStage(s, i, stage);
    hide Clean, Records, QueuedIn, Awaited;
    assert Task(s, s.flights[i]);
    assert t.flights == [t.flights[0]] && Task(t, t.flights[0]);
    assert forall id :: Open(t, id) <= Open(s, id);
  }

  lemma EnterKeeps(s: State, i: nat, reply: Reply, gate: bool, fits: bool)
    requires Inv(s) && i < |s.flights|
    ensures Inv(Enter(s, i, reply, gate, fits))
  {
    FlightsAreOpen(s);
    hide Inv, Input, InScope, AfterFailure, UpdateSend;
    var f := s.flights[i];
    if f.stage == Verifying {
      if reply != Receipt {
        GiveBackKeeps(s, i, AfterFailure(s, f, reply, false, gate));
      } else if !(Input(s) && InScope(s, f) && s.ready && gate) {
        GiveBackKeeps(s, i, Held);
      } else if !fits {
        GiveBackKeeps(s, i, AfterFailure(s, f, Unknown, false, gate));
      } else {
        WireKeeps(s, i);
      }
    }
  }

  lemma WireKeeps(s: State, i: nat)
    requires Inv(s) && i < |s.flights| && s.flights[i].stage == Verifying && Input(s)
    ensures Inv(AtStage(s, i, OnWire).(past := s.past.(
              entered := s.past.entered[s.flights[i].item.id := Count(s.past.entered, s.flights[i].item.id) + 1],
              exposed := s.past.exposed + {s.flights[i].item.id})))
  {
    var f := s.flights[i];
    var entered := s.past.entered[f.item.id := Count(s.past.entered, f.item.id) + 1];
    var t := AtStage(s, i, OnWire).(past := s.past.(entered := entered, exposed := s.past.exposed + {f.item.id}));
    assert Task(s, f);
    assert i == 0 && t.flights == [f.(stage := OnWire)];
    hide QueuedIn, Awaited, FirmIn, Has, Distinct;
    assert Task(t, t.flights[0]);
    assert Documents(t);
    hide Documents, Tasks, Task, Records, Revisions, Epochs;
    forall id
      ensures Count(t.past.entered, id) + Open(t, id) <= Count(t.past.granted, id)
    {
      assert Claims(f) && f.item.id == s.flights[0].item.id;
      assert Count(s.past.entered, id) + Open(s, id) <= Count(s.past.granted, id);
    }
  }

  lemma AnswerKeeps(s: State, i: nat, reply: Reply, gate: bool, finished: bool)
    requires Inv(s) && i < |s.flights|
    ensures Inv(Answer(s, i, reply, gate, finished))
  {
    FlightsAreOpen(s);
    var f, t := s.flights[i], Landed(s, i);
    if f.stage == OnWire {
      LandingKeeps(s, i);
      hide Inv, UpdateSend, Busy, Input, InScope;
      if reply == Receipt {
        UpdateKeeps(t, f.item.id, Sent);
        UpdateKeeps(t, f.item.id, Uncertain);
        RunningKeeps(t.(doc := UpdateSend(t.doc, f.item.id, Sent)), !finished || s.running);
      } else {
        var next := AfterFailure(s, f, reply, true, gate);
        if ProvenUnsent(reply) {
          var u := t.(past := t.past.(exposed := t.past.exposed - {f.item.id}));
          UnexposeKeeps(t, f.item.id);
          UpdateKeeps(u, f.item.id, next);
        } else {
          UpdateKeeps(t, f.item.id, next);
        }
      }
    }
  }

  lemma RunningKeeps(s: State, running: bool)
    requires Inv(s)
    ensures Inv(s.(running := running))
  {
    hide Clean, Records, QueuedIn, Awaited;
    var t := s.(running := running);
    assert forall k :: 0 <= k < |s.flights| && Task(s, s.flights[k]) ==> Task(t, t.flights[k]);
    assert forall id :: Open(t, id) == Open(s, id);
  }

  lemma UnexposeKeeps(s: State, id: Text)
    requires Inv(s) && s.flights == []
    ensures Inv(s.(past := s.past.(exposed := s.past.exposed - {id})))
    ensures !Busy(s.(past := s.past.(exposed := s.past.exposed - {id})), id)
  {
    hide FirmIn, Records, QueuedIn, Awaited, Distinct;
    var t := s.(past := s.past.(exposed := s.past.exposed - {id}));
    assert forall x :: Open(t, x) == Open(s, x);
  }

  lemma PrepareKeeps(s: State, i: nat, reply: Reply, gate: bool)
    requires Inv(s) && i < |s.flights|
    ensures Inv(Prepare(s, i, reply, gate))
  {
    FlightsAreOpen(s);
    var f := s.flights[i];
    if f.stage == Preparing {
      if reply != Receipt {
        if StillQueued(s.doc, f) {
          GiveBackKeeps(s, i, AfterFailure(s, f, reply, false, gate)); } else { LandingKeeps(s, i);
        }
      } else if Input(s) && InScope(s, f) && s.ready && StillQueued(s.doc, f)
                && s.doc.items[Find(s.doc.items, f.item.id).value].key == f.item.key
      {
        ReserveKeeps(s, i);
      } else {
        LandingKeeps(s, i);
      }
    }
  }

  /**
   * Reserving a message: it is shown as sending in memory and in the write that waits, before anything else can happen.
   */
  lemma ReserveKeeps(s: State, i: nat)
    requires Inv(s) && i < |s.flights| && s.flights[i].stage == Preparing && Input(s)
             && StillQueued(s.doc, s.flights[i])
    ensures var doc := UpdateSend(s.doc, s.flights[i].item.id, Sending);
            Inv(AtStage(s.(doc := doc, queue := s.queue + [Write(doc, Some(s.flights[i].number))]), i, Persisting))
  {
    var f, doc := s.flights[i], UpdateSend(s.doc, s.flights[i].item.id, Sending);
    var at := Find(s.doc.items, f.item.id).value;
    var u := s.(doc := doc);
    var t := AtStage(u.(queue := s.queue + [Write(doc, Some(f.number))]), i, Persisting);
    HeldIsFree(s, at);
    UpdateKeeps(s, f.item.id, Sending);
    OpenIsClean(s);
    assert FirmIn(doc, f.item.id) && Has(doc, f.item.id) && !QueuedIn(doc, f.item.id) by {
      hide Inv, Busy;
      SendingIsFirm(s.doc, at);
    }
    ReservedTask(s, u, i, t);
    ReservedAuthority(s, i, doc, t);
    assert Documents(t) by { hide Tasks, Authority, Revisions, Epochs, UpdateSend, Busy; }
    hide Documents, Tasks, Authority, UpdateSend, FirmIn, Has, QueuedIn, Busy, StillQueued;
    assert u.open && !u.failed && !Adopting(u) ==> Revisions(t) && Epochs(t);
  }

  lemma SendingIsFirm(d: Doc, at: nat)
    requires at < |d.items| && Distinct(d)
    ensures var e := With(d, at, d.items[at].(delivery := Some(Sending)));
            FirmIn(e, d.items[at].id) && Has(e, d.items[at].id) && !QueuedIn(e, d.items[at].id)
  {
    var e := With(d, at, d.items[at].(delivery := Some(Sending)));
    assert e.items[at].id == d.items[at].id;
  }

  lemma ReservedTask(s: State, u: State, i: nat, t: State)
    requires Inv(s) && Inv(u) && i < |s.flights| && s.flights[i].stage == Preparing && Input(s)
    requires u == s.(doc := u.doc) && u.doc.epoch == s.doc.epoch
    requires FirmIn(u.doc, s.flights[i].item.id) && Has(u.doc, s.flights[i].item.id)
    requires t == AtStage(u.(queue := s.queue + [Write(u.doc, Some(s.flights[i].number))]), i, Persisting)
    ensures Tasks(t)
  {
    hide FirmIn, Has, Documents, Authority, Revisions, Epochs;
    var f := t.flights[i];
    assert Task(u, u.flights[i]);
    assert t.flights == [f];
    assert AwaitedAt(t.queue, f, t.past.withheld, |s.queue|);
    assert Task(t, f);
  }

  lemma ReservedAuthority(s: State, i: nat, doc: Doc, t: State)
    requires Inv(s) && s.open && i < |s.flights| && s.flights[i].stage == Preparing && StillQueued(s.doc, s.flights[i])
    requires doc == UpdateSend(s.doc, s.flights[i].item.id, Sending) && !QueuedIn(doc, s.flights[i].item.id)
    requires t.open && t.doc == doc && t.past == s.past
             && t.flights == s.flights[i := s.flights[i].(stage := Persisting)]
    ensures Authority(t)
  {
    var f, at := s.flights[i], Find(s.doc.items, s.flights[i].item.id).value;
    assert i == 0 && s.flights == [f] && t.flights == [f.(stage := Persisting)];
    ReplaceKeeps(s.doc, doc, at);
    assert QueuedIn(s.doc, f.item.id);
    hide QueuedIn, Documents, Tasks, Revisions, Epochs, UpdateSend;
    forall id
      ensures Count(t.past.entered, id) + Open(t, id) <= Count(t.past.granted, id)
    {
      assert Count(s.past.entered, id) + Open(s, id) <= Count(s.past.granted, id);
    }
  }

  // ----- the connection -----

  lemma HoldKeeps(s: State)
    requires Inv(s) && s.open
    ensures Inv(s.(doc := HoldQueued(s.doc)))
  {
    hide Inv, Busy;
    ItemwiseIsGentle(s, HoldQueued(s.doc));
    DocumentChanges(s, HoldQueued(s.doc));
  }

  /** What nothing here depends on may change freely. */
  lemma LinkKeeps(s: State, ready: bool, evidence: bool, activation: nat, wire: nat)
    requires Inv(s)
    ensures Inv(s.(ready := ready, evidence := evidence, activation := activation, wire := wire))
  {
    hide Clean, Records, QueuedIn, Awaited;
    var t := s.(ready := ready, evidence := evidence, activation := activation, wire := wire);
    assert forall k :: 0 <= k < |s.flights| && Task(s, s.flights[k]) ==> Task(t, t.flights[k]);
    assert forall id :: Open(t, id) == Open(s, id);
  }

  lemma NotReadyKeeps(s: State)
    requires Inv(s)
    ensures Inv(NotReady(s))
  {
    var u := s.(ready := false, evidence := if s.ready then false else s.evidence,
                wire := if s.ready then s.wire + 1 else s.wire);
    LinkKeeps(s, u.ready, u.evidence, u.activation, u.wire);
    hide Inv, HoldQueued;
    if s.open { HoldKeeps(u); }
    assert NotReady(s) == if s.open then u.(doc := HoldQueued(s.doc)) else u;
  }

  lemma MergeKeeps(s: State, echoed: set<Text>, head: bool)
    requires Inv(s)
    ensures Inv(Merge(s, echoed, head))
  {
    hide Inv, LocalChanges, Each;
    if s.open {
      var u := s.(evidence := s.evidence || (head && LocalChanges(s)));
      EvidenceKeeps(s, u.evidence);
      EchoKeeps(u, echoed);
    }
  }

  lemma EvidenceKeeps(s: State, evidence: bool)
    requires Inv(s)
    ensures Inv(s.(evidence := evidence))
  {
    LinkKeeps(s, s.ready, evidence, s.activation, s.wire);
    hide Inv;
    assert s.(ready := s.ready, evidence := evidence, activation := s.activation, wire := s.wire)
             == s.(evidence := evidence);
  }

  /** Showing the user's messages as delivered takes back no send. */
  lemma EchoKeeps(s: State, echoed: set<Text>)
    requires Inv(s) && s.open
    ensures Inv(s.(doc := s.doc.(items := Each(s.doc.items, x => Marked(x, echoed, s.doc.epoch)),
                                 revision := s.doc.revision + 1)))
  {
    hide Inv, Busy, Gentle;
    var d := s.doc.(items := Each(s.doc.items, x => Marked(x, echoed, s.doc.epoch)), revision := s.doc.revision + 1);
    ItemwiseIsGentle(s, d);
    DocumentChanges(s, d);
  }

  // ----- the store -----

  /** The document joins the store's queue, alone or with a new number that waits for it. */
  lemma EnqueueKeeps(s: State, waiter: Option<nat>, t: State)
    requires Inv(s) && s.open && !s.failed && !Adopting(s) && s.nextNumber <= t.nextNumber
    requires waiter.Some? ==> s.nextNumber <= waiter.value < t.nextNumber
    requires t == s.(queue := s.queue + [Write(s.doc, waiter)], commands := t.commands, nextNumber := t.nextNumber)
    ensures Inv(t)
  {
    hide Clean, Records, QueuedIn;
    forall k | 0 <= k < |t.flights|
      ensures Task(t, t.flights[k])
    {
      assert Task(s, s.flights[k]);
      if s.flights[k].stage == Persisting {
        var q :| 0 <= q < |s.queue| && AwaitedAt(s.queue, s.flights[k], s.past.withheld, q);
        assert AwaitedAt(t.queue, t.flights[k], t.past.withheld, q);
      }
    }
    assert forall id :: Open(t, id) == Open(s, id);
  }

  lemma TakeWriteKeeps(s: State, outcome: Outcome)
    requires Inv(s)
    ensures Inv(TakeWrite(s, outcome))
  {
    if s.queue != [] {
      var t := TakeWrite(s, outcome);
      assert t.queue == s.queue[1..] && forall q :: 0 <= q < |t.queue| ==> t.queue[q] == s.queue[q + 1];
      hide Clean, Records, QueuedIn;
      forall k | 0 <= k < |t.flights|
        ensures Task(t, t.flights[k])
      {
        ToldTask(s, outcome, k);
      }
      assert Authority(t) by {
        assert forall id :: Open(t, id) <= Open(s, id);
      }
      hide Authority, Awaited, Task, Told;
      assert Documents(t);
      TakenRevisions(s, t, outcome);
    }
  }

  lemma TakenRevisions(s: State, t: State, outcome: Outcome)
    requires s.queue != [] && Revisions(s) && Epochs(s)
    requires t == Stored(s, s.queue[0].doc, outcome)
                  .(queue := s.queue[1..], flights := t.flights, commands := t.commands)
    ensures Revisions(t) && Epochs(t)
  {
    var u, doc := s.(queue := s.queue[1..], flights := t.flights, commands := t.commands), s.queue[0].doc;
    LaterRevisions(s, u);
    StoredRevisions(s, u, doc);
    hide Revisions, Epochs;
    StoredCases(s, u, t, outcome);
  }

  lemma LaterRevisions(s: State, u: State)
    requires s.queue != [] && Revisions(s) && Epochs(s)
    requires u == s.(queue := s.queue[1..], flights := u.flights, commands := u.commands)
    ensures Revisions(u) && Epochs(u)
  {
    assert forall q :: 0 <= q < |u.queue| ==> u.queue[q] == s.queue[q + 1];
  }

  lemma StoredCases(s: State, u: State, t: State, outcome: Outcome)
    requires s.queue != [] && u == s.(queue := s.queue[1..], flights := t.flights, commands := t.commands)
    requires t == Stored(s, s.queue[0].doc, outcome)
                  .(queue := s.queue[1..], flights := t.flights, commands := t.commands)
    ensures t == u || t == u.(latest := s.queue[0].doc.revision)
            || t == u.(latest := s.queue[0].doc.revision, stored := Some(s.queue[0].doc))
  {
  }

  lemma StoredRevisions(s: State, u: State, doc: Doc)
    requires s.queue != [] && doc == s.queue[0].doc && Revisions(s) && Epochs(s) && Revisions(u) && Epochs(u)
    requires u == s.(queue := s.queue[1..], flights := u.flights, commands := u.commands)
    ensures Revisions(u.(latest := doc.revision)) && Epochs(u.(latest := doc.revision))
    ensures Revisions(u.(latest := doc.revision, stored := Some(doc)))
            && Epochs(u.(latest := doc.revision, stored := Some(doc)))
  {
    assert forall q :: 0 <= q < |u.queue| ==> u.queue[q] == s.queue[q + 1];
  }

  /** A task is told that its message is stored only when it is: no newer revision has overtaken its write. */
  lemma ToldTask(s: State, outcome: Outcome, k: nat)
    requires Inv(s) && s.queue != [] && k < |s.flights|
    ensures Task(TakeWrite(s, outcome), TakeWrite(s, outcome).flights[k])
  {
    var t, f, w := TakeWrite(s, outcome), s.flights[k], s.queue[0];
    assert Task(s, f);
    hide Clean, FirmIn, Has, Documents, Authority, Epochs, Records;
    assert t.queue == s.queue[1..] && forall q :: 0 <= q < |t.queue| ==> t.queue[q] == s.queue[q + 1];
    if f.stage == Persisting {
      var q :| 0 <= q < |s.queue| && AwaitedAt(s.queue, f, s.past.withheld, q);
      if q > 0 {
        AwaitedComesNearer(s.queue, f, s.past.withheld, q);
        assert t.flights[k] == f;
      }
    }
  }

  lemma AwaitedComesNearer(queue: seq<Write>, f: Flight, withheld: set<Text>, q: nat)
    requires 0 < q < |queue| && AwaitedAt(queue, f, withheld, q)
    ensures Awaited(queue[1..], f, withheld) && queue[0].waiter != Some(f.number)
  {
    hide Records;
    assert forall j :: 0 <= j < |queue[1..]| ==> queue[1..][j] == queue[j + 1];
    assert AwaitedAt(queue[1..], f, withheld, q - 1);
  }

  // ----- a new physical session -----

  lemma BeginKeeps(s: State)
    requires Inv(s)
    ensures Inv(Begin(s))
  {
    if LocalChanges(s) {
      var t := Begin(s);
      hide Clean, Records, QueuedIn, Awaited;
      assert forall k :: 0 <= k < |s.flights| && Task(s, s.flights[k]) ==> Task(t, t.flights[k]);
      assert forall id :: Open(t, id) == Open(s, id);
    }
  }

  lemma EndKeeps(s: State)
    requires Inv(s) && s.operation.Some? && s.operation.value.committed.None?
    ensures Inv(s.(operation := None))
  {
    var t := s.(operation := None);
    hide Clean, Records, QueuedIn, Awaited;
    assert forall k :: 0 <= k < |s.flights| && Task(s, s.flights[k]) ==> Task(t, t.flights[k]);
    assert forall id :: Open(t, id) == Open(s, id);
  }

  lemma OperationIsOpen(s: State)
    requires Inv(s) && s.operation.Some?
    ensures s.open && !s.failed
  {
  }

  lemma CatchUpKeeps(s: State, outcome: Outcome)
    requires Inv(s)
    ensures Inv(CatchUp(s, outcome))
  {
    if Waiting(s) && (s.stored.None? || s.stored.value.revision < s.operation.value.original.revision) {
      OperationIsOpen(s);
      var doc := s.operation.value.original;
      var t := Stored(s, doc, outcome);
      assert s.stored.Some? ==> s.stored.value.epoch == doc.epoch;
      RewriteKeeps(s, outcome);
      if !Accepted(s, doc, outcome) { EndKeeps(t); }
    }
  }

  /** Writing the document the operation started from. */
  lemma RewriteKeeps(s: State, outcome: Outcome)
    requires Inv(s) && Waiting(s)
    ensures Inv(Stored(s, s.operation.value.original, outcome))
  {
    var t := Stored(s, s.operation.value.original, outcome);
    hide Clean, Records, QueuedIn, Awaited;
    forall k | 0 <= k < |t.flights|
      ensures Task(t, t.flights[k])
    {
      assert Task(s, s.flights[k]);
    }
    assert forall id :: Open(t, id) == Open(s, id);
  }

  lemma {:induction false} RetainedKeeps(items: seq<Item>)
    requires DistinctItems(items)
    ensures DistinctItems(Retained(items))
  {
    if items != [] {
      var last := |items| - 1;
      var less := Retained(items[..last]);
      RetainedKeeps(items[..last]);
      forall k | 0 <= k < |less|
        ensures less[k].id != items[last].id
      {
        assert less[k] in less;
        var j :| 0 <= j < last && items[..last][j] == less[k];
        assert items[j].id != items[last].id;
      }
      assert Retained(items) == less || Retained(items) == less + [items[last]];
    }
  }

  /** What a transaction commits un-sends nothing. */
  lemma ReplacedKeeps(d: Doc, past: Record, epoch: Option<Id>)
    requires Clean(d, past)
    ensures Clean(Replaced(d, epoch), if epoch.Some? then past.(epochs := past.epochs + {epoch.value}) else past)
    ensures forall id :: FirmIn(d, id) ==> FirmIn(Replaced(d, epoch), id)
  {
    var r := Replaced(d, epoch);
    RetainedKeeps(d.items);
    assert Distinct(r);
    assert forall k :: 0 <= k < |r.items| ==> r.items[k] in r.items;
    hide Replaced, Distinct;
    FewerAreFirm(d, r);
    hide FirmIn;
  }

  /** Fewer messages un-send none. */
  lemma FewerAreFirm(d: Doc, r: Doc)
    requires forall k :: 0 <= k < |r.items| ==> r.items[k] in d.items
    ensures forall id :: FirmIn(d, id) ==> FirmIn(r, id)
  {
    forall k | 0 <= k < |r.items|
      ensures exists j :: 0 <= j < |d.items| && r.items[k] == d.items[j]
    {
      assert r.items[k] in d.items;
    }
  }

  lemma TransactKeeps(s: State, epoch: Option<Id>, outcome: Outcome)
    requires Inv(s)
    ensures Inv(Transact(s, epoch, outcome))
  {
    if Waiting(s) {
      var original, t := s.operation.value.original, Transact(s, epoch, outcome);
      OperationIsOpen(s);
      if t == s.(operation := None) {
        EndKeeps(s);
      } else {
        assert Matches(s.stored, original) && (epoch.Some? ==> epoch.value !in s.past.epochs);
        assert s.stored.value == original;
        CommitKeeps(s, epoch, t);
      }
    }
  }

  lemma CommitKeeps(s: State, epoch: Option<Id>, t: State)
    requires Inv(s) && Waiting(s) && s.stored == Some(s.operation.value.original)
             && (epoch.Some? ==> epoch.value !in s.past.epochs)
    requires var doc := Replaced(s.stored.value, epoch);
             var used := if epoch.Some? then s.past.(epochs := s.past.epochs + {epoch.value}) else s.past;
             || t == s.(operation := None, failed := true, past := used)
             || t == s.(operation := None, failed := true, past := used, stored := Some(doc), latest := doc.revision)
             || t
                  == s.(operation := Some(Operation(s.operation.value.original, Some(doc))), past := used,
                        stored := Some(doc), latest := doc.revision)
    ensures Inv(t)
  {
    var original := s.operation.value.original;
    ReplacedKeeps(original, s.past, epoch);
    hide FirmIn, QueuedIn, Awaited, Replaced, Distinct, Has;
    forall k | 0 <= k < |t.flights|
      ensures Task(t, t.flights[k])
      ensures Late(t.flights[k]) ==> Records(Replaced(original, epoch), t.flights[k], s.past.withheld)
    {
      assert Task(s, s.flights[k]);
      if Late(t.flights[k]) { CommittedRecords(original, epoch, t.flights[k], s.past.withheld); }
    }
    assert Documents(t);
    assert forall id :: Open(t, id) == Open(s, id);
  }

  lemma CommittedRecords(d: Doc, epoch: Option<Id>, f: Flight, withheld: set<Text>)
    requires Records(d, f, withheld) && f.epoch.Some? && epoch != f.epoch
    ensures Records(Replaced(d, epoch), f, withheld)
  {
    var r := Replaced(d, epoch);
    assert forall k :: 0 <= k < |r.items| ==> r.items[k] in d.items;
    if epoch.None? { assert r.items == d.items; }
  }

  lemma AdoptKeeps(s: State, dirty: bool)
    requires Inv(s)
    ensures Inv(Adopt(s, dirty))
  {
    if Adopting(s) {
      OperationIsOpen(s);
      var t, c := Adopt(s, dirty), s.operation.value.committed.value;
      SettleKeeps(c, t.doc, s.past);
      hide FirmIn, QueuedIn, Distinct, Has;
      forall k | 0 <= k < |t.flights|
        ensures Task(t, t.flights[k])
      {
        assert Task(s, s.flights[k]);
        AdoptedTask(s, t, k);
      }
      assert Documents(t);
      AdoptedAuthority(s, t);
      assert Revisions(t) && Epochs(t);
    }
  }

  lemma AdoptedTask(s: State, t: State, k: nat)
    requires Inv(s) && Adopting(s) && k < |s.flights| && t.flights == s.flights && t.past == s.past
             && t.nextNumber == s.nextNumber
    requires t.operation.None? && t.stored == s.stored && (t.queue == [] || t.queue == [Write(t.doc, None)])
    requires t.doc.epoch == s.stored.value.epoch
    requires forall id :: FirmIn(s.stored.value, id) ==> FirmIn(t.doc, id)
    requires forall id :: Has(s.stored.value, id) ==> Has(t.doc, id)
    ensures Task(t, t.flights[k])
  {
    hide FirmIn, Has, Documents, Authority;
    assert Task(s, s.flights[k]);
  }

  lemma AdoptedAuthority(s: State, t: State)
    requires Inv(s) && t.past == s.past && t.flights == s.flights && t.open == s.open
    requires forall id :: !QueuedIn(t.doc, id)
    ensures Authority(t)
  {
    hide QueuedIn;
    assert forall id :: Open(t, id) <= Open(s, id);
  }

  /** Settling a document un-sends nothing and leaves nothing queued that is the user's. */
  lemma SettleKeeps(c: Doc, d: Doc, past: Record)
    requires Clean(c, past) && d.items == Each(c.items, Settled) && d.epoch == c.epoch
    ensures Clean(d, past)
    ensures forall id :: FirmIn(c, id) ==> FirmIn(d, id)
    ensures forall id :: Has(c, id) ==> Has(d, id)
  {
    forall id | Has(c, id) ensures Has(d, id) { HasItemwise(c, d, id); }
  }

  // ----- the process -----

  lemma CrashKeeps(s: State)
    requires Inv(s)
    ensures Inv(Crash(s))
  {
    hide Clean, QueuedIn, Recovered;
    assert forall id :: Open(Crash(s), id) <= Open(s, id);
  }

  lemma RecoveredKeeps(c: Doc, past: Record)
    requires Clean(c, past)
    ensures Clean(Recovered(c), past) && forall id :: !QueuedIn(Recovered(c), id)
    ensures Recovered(Recovered(c)) == Recovered(c)
  {
    var d := c.(items := Each(c.items, Settled));
    SettleKeeps(c, d, past);
    assert Recovered(c).items == d.items && Recovered(c).epoch == c.epoch;
  }

  lemma LoadKeeps(s: State, outcome: Outcome)
    requires Inv(s)
    ensures Inv(Load(s, outcome))
  {
    if !s.open {
      if s.stored.Some? {
        RecoveredKeeps(s.stored.value, s.past);
        hide Recovered, Inv;
        ShowKeeps(s, s.(latest := if s.latest < s.stored.value.revision then s.stored.value.revision else s.latest),
                  outcome);
      } else {
        hide Clean, QueuedIn;
        var t := Load(s, outcome);
        EmptyIsUnqueued();
        assert Authority(t) by {
          assert forall id :: Open(t, id) == 0;
          assert forall id :: Count(s.past.entered, id) + Open(s, id) <= Count(s.past.granted, id);
        }
      }
    }
  }

  lemma ShowKeeps(s: State, t: State, outcome: Outcome)
    requires Inv(s) && !s.open && s.stored.Some?
    requires t == s.(latest := if s.latest < s.stored.value.revision then s.stored.value.revision else s.latest)
    requires Clean(Recovered(s.stored.value), s.past) && (forall id :: !QueuedIn(Recovered(s.stored.value), id))
    requires Recovered(Recovered(s.stored.value)) == Recovered(s.stored.value)
    ensures Inv(Show(t, Recovered(s.stored.value), outcome))
  {
    var u, d := Show(t, Recovered(s.stored.value), outcome), Recovered(s.stored.value);
    assert d == s.stored.value || d.revision == s.stored.value.revision + 1;
    assert d.epoch == s.stored.value.epoch;
    hide Clean, QueuedIn, Recovered;
    assert Documents(u);
    assert Authority(u) by {
      assert forall id :: Open(u, id) == 0;
      assert forall id :: Count(s.past.entered, id) + Open(s, id) <= Count(s.past.granted, id);
    }
  }

  lemma EmptyIsUnqueued()
    ensures forall id :: !QueuedIn(Doc(0, [], None, false), id)
    ensures forall past :: Clean(Doc(0, [], None, false), past)
  {
  }

  // ----- every step, every run -----

  predicate UserEvent(e: Event) { e.Composed? || e.Editing? || e.Edited? || e.SentNow? || e.Removed? }

  predicate CommandEvent(e: Event) { e.Ordered? || e.Finished? }

  predicate TaskEvent(e: Event) { e.Prepared? || e.Confirmed? || e.Entered? || e.Answered? }

  lemma UserStepKeeps(s: State, e: Event)
    requires Inv(s) && UserEvent(e)
    ensures Inv(Next(s, e))
  {
    hide Inv, Compose, HoldForEdit, ChangeText, SendNow, Remove;
    match e
    case Composed(id, body, gate) => ComposeKeeps(s, id, body, gate);
    case Editing(id) => EditKeeps(s, id);
    case Edited(id, body) => TextKeeps(s, id, body);
    case SentNow(id, gate) => SendNowKeeps(s, id, gate);
    case Removed(id) => RemovalKeeps(s, id);
  }

  lemma CommandStepKeeps(s: State, e: Event)
    requires Inv(s) && CommandEvent(e)
    ensures Inv(Next(s, e))
  {
    hide Inv, Order, Finish;
    match e
    case Ordered(id, body, gate) => OrderKeeps(s, id, body, gate);
    case Finished(k, gate) => if k < |s.commands| { FinishKeeps(s, k, gate); }
  }

  lemma TaskStepKeeps(s: State, e: Event)
    requires Inv(s) && TaskEvent(e)
    ensures Inv(Next(s, e))
  {
    hide Inv, Prepare, Confirm, Enter, Answer;
    if e.i < |s.flights| {
      match e
      case Prepared(i, reply, gate) => PrepareKeeps(s, i, reply, gate);
      case Confirmed(i, busy, gate) => ConfirmKeeps(s, i, busy, gate);
      case Entered(i, reply, gate, fits) => EnterKeeps(s, i, reply, gate, fits);
      case Answered(i, reply, gate, finished) => AnswerKeeps(s, i, reply, gate, finished);
    }
  }

  lemma LinkStepKeeps(s: State, e: Event)
    requires Inv(s)
             && (e.Drained? || e.Disconnected? || e.Connected? || e.Switched? || e.AccessLost? || e.RunChanged?
                 || e.Merged?)
    ensures Inv(Next(s, e))
  {
    hide Inv, Drain, NotReady, Merge, HoldQueued;
    match e
    case Drained(gate) => DrainKeeps(s, gate);
    case Disconnected => NotReadyKeeps(s);
    case Connected => LinkKeeps(s, true, s.evidence, s.activation, s.wire);
    case Switched => LinkKeeps(s, s.ready, false, s.activation + 1, s.wire + 1);
    case AccessLost => if s.open { HoldKeeps(s); }
    case RunChanged(running) => RunningKeeps(s, running);
    case Merged(echoed, head) => MergeKeeps(s, echoed, head);
  }

  lemma StoreStepKeeps(s: State, e: Event)
    requires Inv(s)
             && (e.Saved? || e.Wrote? || e.Began? || e.Abandoned? || e.CaughtUp? || e.Transacted? || e.Adopted?
                 || e.Crashed? || e.Loaded?)
    ensures Inv(Next(s, e))
  {
    hide Inv, Save, TakeWrite, Begin, CatchUp, Transact, Adopt, Crash, Load;
    match e
    case Saved => SaveKeeps(s);
    case Wrote(outcome) => TakeWriteKeeps(s, outcome);
    case Began => BeginKeeps(s);
    case Abandoned => if s.operation.Some? && s.operation.value.committed.None? { EndKeeps(s); }
    case CaughtUp(outcome) => CatchUpKeeps(s, outcome);
    case Transacted(epoch, outcome) => TransactKeeps(s, epoch, outcome);
    case Adopted(dirty) => AdoptKeeps(s, dirty);
    case Crashed => CrashKeeps(s);
    case Loaded(outcome) => LoadKeeps(s, outcome);
  }

  /** Everything above holds after every step from a state where it holds. */
  lemma EveryStepKeeps(s: State, e: Event)
    requires Inv(s)
    ensures Inv(Next(s, e))
  {
    hide Inv, Next;
    if UserEvent(e) {
      UserStepKeeps(s, e);
    } else if CommandEvent(e) {
      CommandStepKeeps(s, e);
    } else if TaskEvent(e) {
      TaskStepKeeps(s, e);
    } else if e.Drained? || e.Disconnected? || e.Connected? || e.Switched? || e.AccessLost? || e.RunChanged?
              || e.Merged?
    {
      LinkStepKeeps(s, e);
    } else {
      StoreStepKeeps(s, e);
    }
  }

  lemma SaveKeeps(s: State)
    requires Inv(s)
    ensures Inv(Save(s))
  {
    if LocalChanges(s) { hide Inv; EnqueueKeeps(s, None, Save(s)); }
  }

  /** A process that has not read the conversation yet. */
  ghost predicate Start(s: State) {
    && !s.open && s.flights == [] && s.commands == [] && !s.slot && s.queue == [] && s.operation.None? && !s.failed
    && s.latest == 0
    && s.past.granted == map[] && s.past.entered == map[] && s.past.exposed == {} && s.past.withheld == {}
    && (s.stored.Some? ==> Clean(s.stored.value, s.past))
  }

  ghost predicate Run(states: seq<State>, events: seq<Event>) {
    && |states| == |events| + 1 && Start(states[0])
    && forall k: nat :: k < |events| ==> Follows(states, events, k)
  }

  predicate Follows(states: seq<State>, events: seq<Event>, k: nat)
    requires |states| == |events| + 1 && k < |events|
  {
    states[k + 1] == Next(states[k], events[k])
  }

  lemma StartIsSafe(s: State)
    requires Start(s)
    ensures Inv(s)
  {
    hide Clean, QueuedIn, Recovered;
    RecoveredIsNewer(s);
    assert forall id :: Open(s, id) == 0;
  }

  lemma RecoveredIsNewer(s: State)
    ensures s.stored.Some? ==> Recovered(s.stored.value).revision >= 0
  {
  }

  lemma RunStep(states: seq<State>, events: seq<Event>, n: nat)
    requires Run(states, events) && n < |events|
    ensures |states| == |events| + 1 && states[n + 1] == Next(states[n], events[n])
  {
    hide Next, Start;
    assert Follows(states, events, n);
  }

  lemma {:induction false} RunsAreSafe(states: seq<State>, events: seq<Event>, n: nat)
    requires Run(states, events) && n < |states|
    ensures Inv(states[n])
  {
    if n == 0 {
      StartIsSafe(states[0]);
    } else {
      hide Inv, Next;
      RunStep(states, events, n - 1);
      RunsAreSafe(states, events, n - 1);
      EveryStepKeeps(states[n - 1], events[n - 1]);
    }
  }

  /** There is never more than one send task. */
  lemma OneTaskAtATime(states: seq<State>, events: seq<Event>, n: nat)
    requires Run(states, events) && n < |states|
    ensures |states[n].flights| <= 1 && (states[n].slot <==> |states[n].flights| == 1)
  {
    RunsAreSafe(states, events, n);
  }

  // ----- a request enters the wire -----

  /** The event takes a request for the message onto the wire. */
  predicate Enters(s: State, e: Event, id: Text) {
    && e.Entered? && e.i < |s.flights| && s.flights[e.i].item.id == id
    && s.flights[e.i].stage == Verifying && Next(s, e).past != s.past
  }

  /**
   * Unless a command has withheld it, a request enters the wire only for a message that no earlier request may have
   * taken to the backend, only when the stored document already shows it as sending or later, and leaves it with no
   * authority for another.
   */
  lemma OnlyStoredMessagesAreSent(s: State, e: Event, id: Text)
    requires Inv(s) && Enters(s, e, id) && id !in s.past.withheld
    ensures id !in s.past.exposed && id in Next(s, e).past.exposed
    ensures s.stored.Some? && Has(s.stored.value, id) && FirmIn(s.stored.value, id)
    ensures Open(Next(s, e), id) == 0 && Count(Next(s, e).past.entered, id) == Count(s.past.entered, id) + 1
  {
    var f, t := s.flights[e.i], Next(s, e);
    assert Task(s, f);
    assert s.stored.value.epoch == s.doc.epoch;
    FirmIsNotQueued(t.doc, id);
    hide FirmIn, Has, QueuedIn, Documents, Authority, Revisions;
    assert t.flights == [f.(stage := OnWire)];
  }

  lemma FirmIsNotQueued(d: Doc, id: Text)
    requires FirmIn(d, id)
    ensures !QueuedIn(d, id)
  {
  }

  /**
   * A restart at any instant reads a message that may have reached the backend as uncertain, sent or delivered, unless
   * a command has withheld it.
   */
  lemma RestartRemembersSends(s: State, outcome: Outcome, id: Text, k: nat)
    requires Inv(s) && id in s.past.exposed && id !in s.past.withheld
    requires var t := Load(Crash(s), outcome); t.open && k < |t.doc.items| && t.doc.items[k].id == id
    ensures var item := Load(Crash(s), outcome).doc.items[k];
            Firm(item.delivery) && (item.owned ==> item.delivery != Some(Sending))
  {
    var t := Load(Crash(s), outcome);
    CrashKeeps(s);
    LoadKeeps(Crash(s), outcome);
    assert Clean(t.doc, t.past);
    hide Inv, Clean;
    if s.stored.Some? {
      var items := Each(s.stored.value.items, Settled);
      assert t.doc.items == items;
    }
  }

  /**
   * From when its task has been told that it is stored until the task ends, in the task's epoch: a crash at any
   * instant, then a restart, finds the message still there, and shown as uncertain, sent or delivered, unless a
   * command has withheld it.
   */
  lemma RestartKeepsSends(s: State, k: nat, outcome: Outcome)
    requires Inv(s) && k < |s.flights| && Sound(s.flights[k]) && s.stored.Some?
             && s.stored.value.epoch == s.flights[k].epoch && s.flights[k].item.id !in s.past.withheld
    requires Load(Crash(s), outcome).open
    ensures var id, doc := s.flights[k].item.id, Load(Crash(s), outcome).doc; Has(doc, id) && FirmIn(doc, id)
  {
    assert Task(s, s.flights[k]);
    var c, id := s.stored.value, s.flights[k].item.id;
    hide Inv, Load;
    var t := Load(Crash(s), outcome);
    LoadedItems(Crash(s), outcome);
    SettledIsFirm(c, t.doc, id);
    HasItemwise(c, t.doc, id);
  }

  lemma LoadedItems(s: State, outcome: Outcome)
    requires !s.open && s.stored.Some? && Load(s, outcome).open
    ensures Load(s, outcome).doc.items == Each(s.stored.value.items, Settled)
  {
    hide Settled;
  }

  lemma SettledIsFirm(c: Doc, d: Doc, id: Text)
    requires d.items == Each(c.items, Settled) && FirmIn(c, id)
    ensures FirmIn(d, id)
  {
  }

  /** Only the runtime's own proof that nothing was dispatched clears a message that may have reached the backend. */
  predicate Clears(s: State, e: Event, id: Text) {
    e.Answered? && e.i < |s.flights| && s.flights[e.i].item.id == id && s.flights[e.i].stage == OnWire
    && ProvenUnsent(e.reply)
  }

  lemma ExposureIsSticky(s: State, e: Event, id: Text)
    requires id in s.past.exposed && !Clears(s, e, id)
    ensures id in Next(s, e).past.exposed
  {
    hide Prepare, Confirm, Enter, Answer, TakeWrite, CatchUp, Transact, Drain, Save, Begin, UpdateSend, Find;
    hide FirstQueued, HoldQueued, Recovered, AfterFailure;
    hide Compose, HoldForEdit, ChangeText, SendNow, Remove, NotReady, Merge, Adopt, Crash, Load, Switch, Input, InScope;
  }

  lemma UpdateQueuesNothing(d: Doc, id: Text, delivery: Delivery)
    requires delivery != Queued
    ensures forall x :: QueuedIn(UpdateSend(d, id, delivery), x) ==> QueuedIn(d, x)
  {
    var e := UpdateSend(d, id, delivery);
    forall x | QueuedIn(e, x) ensures QueuedIn(d, x) {
      var k :| 0 <= k < |e.items| && e.items[k].id == x && e.items[k].delivery == Some(Queued);
      assert d.items[k].id == x;
    }
  }

  lemma ItemwiseQueuesNothing(d: Doc, e: Doc)
    requires |d.items| == |e.items|
    requires forall k :: 0 <= k < |d.items| ==>
               e.items[k].id == d.items[k].id
               && (e.items[k].delivery == Some(Queued) ==> d.items[k].delivery == Some(Queued))
    ensures forall x :: QueuedIn(e, x) ==> QueuedIn(d, x)
  {
    forall x | QueuedIn(e, x) ensures QueuedIn(d, x) {
      var k :| 0 <= k < |e.items| && e.items[k].id == x && e.items[k].delivery == Some(Queued);
      assert d.items[k].id == x;
    }
  }

  /** A send task never queues its message again, whatever it learns. */
  lemma TasksQueueNothing(s: State, e: Event, x: Text)
    requires e.Prepared? || e.Confirmed? || e.Entered? || e.Answered?
    requires QueuedIn(Next(s, e).doc, x)
    ensures Next(s, e).open == s.open && QueuedIn(s.doc, x)
  {
    if e.i < |s.flights| {
      TaskResult(s, e);
      var d := Next(s, e).doc;
      hide Next;
      if d != s.doc {
        var delivery :| delivery != Queued && d == UpdateSend(s.doc, s.flights[e.i].item.id, delivery);
        UpdateQueuesNothing(s.doc, s.flights[e.i].item.id, delivery);
      }
    }
  }

  lemma TaskResult(s: State, e: Event)
    requires (e.Prepared? || e.Confirmed? || e.Entered? || e.Answered?) && e.i < |s.flights|
    ensures Next(s, e).open == s.open
    ensures Next(s, e).doc == s.doc
            || exists delivery ::
                 delivery != Queued && Next(s, e).doc == UpdateSend(s.doc, s.flights[e.i].item.id, delivery)
  {
    hide Prepare, Confirm, Enter, Answer, UpdateSend;
  }

  lemma EditsQueueNothing(s: State, e: Event)
    requires e.Editing? || e.Edited? || e.Removed?
    ensures Next(s, e).open == s.open && forall x :: QueuedIn(Next(s, e).doc, x) ==> QueuedIn(s.doc, x)
  {
    var t, at := Next(s, e), Find(s.doc.items, e.id);
    if t != s {
      if e.Removed? { DropKeeps(s.doc, t.doc, at.value); } else { ItemwiseQueuesNothing(s.doc, t.doc); }
    }
  }

  lemma FinishQueuesNothing(s: State, e: Event)
    requires e.Finished?
    ensures Next(s, e).open == s.open && forall x :: QueuedIn(Next(s, e).doc, x) ==> QueuedIn(s.doc, x)
  {
    if e.k < |s.commands| { UpdateQueuesNothing(s.doc, s.commands[e.k].id, Held); }
    hide UpdateSend, QueuedIn;
  }

  lemma HoldsQueueNothing(s: State, e: Event)
    requires e.Disconnected? || e.AccessLost? || e.Merged?
    ensures Next(s, e).open == s.open && forall x :: QueuedIn(Next(s, e).doc, x) ==> QueuedIn(s.doc, x)
  {
    ItemwiseQueuesNothing(s.doc, HoldQueued(s.doc));
    if e.Merged? && s.open { ItemwiseQueuesNothing(s.doc, Next(s, e).doc); }
  }

  lemma AdoptQueuesNothing(s: State, dirty: bool, x: Text)
    requires Inv(s) && Adopting(s)
    ensures !QueuedIn(Adopt(s, dirty).doc, x)
  {
    assert Clean(s.operation.value.committed.value, s.past);
  }

  lemma ComposedQueuesItself(s: State, e: Event, x: Text)
    requires (e.Composed? || e.Ordered?) && QueuedIn(Next(s, e).doc, x) && !QueuedIn(s.doc, x)
    ensures e.id == x && x !in s.past.ids
  {
    AppendKeeps(s.doc, Next(s, e).doc, Item(e.id, true, Some(e.id), e.body, s.doc.epoch, Some(Queued)));
  }

  lemma SentNowQueuesHeld(s: State, e: Event, x: Text)
    requires e.SentNow? && QueuedIn(Next(s, e).doc, x) && !QueuedIn(s.doc, x)
    ensures e.id == x
            && exists k :: 0 <= k < |s.doc.items| && s.doc.items[k].id == x && s.doc.items[k].delivery == Some(Held)
  {
    var at := Find(s.doc.items, e.id).value;
    ReplaceKeeps(s.doc, Next(s, e).doc, at);
    assert s.doc.items[at].delivery == Some(Held);
  }

  lemma OtherStepsQueueNothing(s: State, e: Event, x: Text)
    requires Inv(s) && Next(s, e).open && QueuedIn(Next(s, e).doc, x) && !e.Composed? && !e.Ordered? && !e.SentNow?
    ensures s.open && QueuedIn(s.doc, x)
  {
    hide Inv, QueuedIn, Load, Adopt;
    if e.Loaded? && !s.open {
      LoadQueuesNothing(s, e.outcome, x);
      assert false;
    } else if e.Prepared? || e.Confirmed? || e.Entered? || e.Answered? {
      TasksQueueNothing(s, e, x);
    } else if e.Editing? || e.Edited? || e.Removed? {
      EditsQueueNothing(s, e);
    } else if e.Finished? {
      FinishQueuesNothing(s, e);
    } else if e.Disconnected? || e.AccessLost? || e.Merged? {
      HoldsQueueNothing(s, e);
    } else if e.Adopted? && Adopting(s) {
      AdoptQueuesNothing(s, e.dirty, x);
      assert false;
    } else {
      QuietSteps(s, e);
    }
  }

  lemma LoadQueuesNothing(s: State, outcome: Outcome, x: Text)
    requires Inv(s) && !s.open && Load(s, outcome).open
    ensures !QueuedIn(Load(s, outcome).doc, x)
  {
    EmptyIsUnqueued();
    if s.stored.Some? { RecoveredKeeps(s.stored.value, s.past); }
    hide QueuedIn, Recovered;
  }

  lemma QuietSteps(s: State, e: Event)
    requires !UserEvent(e) && !CommandEvent(e) && !TaskEvent(e)
    requires !(e.Disconnected? || e.AccessLost? || e.Merged?)
    requires e.Loaded? ==> s.open
    requires e.Adopted? ==> !Adopting(s)
    ensures Next(s, e).doc == s.doc && (Next(s, e).open ==> s.open)
  {
    hide TakeWrite, CatchUp, Transact, Drain, Save, Begin, Switch;
  }

  /** A message becomes queued only by being written, or by the user's explicit request to send a held one. */
  lemma QueueingNeedsTheUser(s: State, e: Event, id: Text)
    requires Inv(s) && Next(s, e).open && QueuedIn(Next(s, e).doc, id) && !(s.open && QueuedIn(s.doc, id))
    ensures || ((e.Composed? || e.Ordered?) && e.id == id && id !in s.past.ids)
            || (e.SentNow? && e.id == id
                && exists k ::
                     0 <= k < |s.doc.items| && s.doc.items[k].id == id && s.doc.items[k].delivery == Some(Held))
  {
    hide Inv, QueuedIn;
    if e.Composed? || e.Ordered? {
      ComposedQueuesItself(s, e, id);
    } else if e.SentNow? {
      SentNowQueuesHeld(s, e, id);
    } else {
      OtherStepsQueueNothing(s, e, id);
    }
  }

  /**
   * An uncertain message is never queued again by any one step, not even by the user's: it would have to be held first.
   */
  lemma UncertainIsNotQueuedAtOnce(s: State, e: Event, k: nat)
    requires Inv(s) && s.open && k < |s.doc.items| && s.doc.items[k].delivery == Some(Uncertain) && Next(s, e).open
    ensures !QueuedIn(Next(s, e).doc, s.doc.items[k].id)
  {
    OpenIsClean(s);
    var id := s.doc.items[k].id;
    UncertainIsUnqueued(s.doc, s.past, k);
    hide Inv, Next;
    if QueuedIn(Next(s, e).doc, id) {
      QueueingNeedsTheUser(s, e, id);
      assert false;
    }
  }

  lemma UncertainIsUnqueued(d: Doc, past: Record, k: nat)
    requires Clean(d, past) && k < |d.items| && d.items[k].delivery == Some(Uncertain)
    ensures !QueuedIn(d, d.items[k].id) && d.items[k].id in past.ids
    ensures forall i :: 0 <= i < |d.items| && d.items[i].id == d.items[k].id ==> i == k
  {
  }

  // ----- what a setting command may undo -----

  /**
   * A setting command whose write failed, or which has lost its conversation, connection or wire, shows its message as
   * held while a task holds it or after a request for it has entered the wire.
   */
  predicate Withholds(s: State, e: Event, id: Text) {
    && e.Finished? && e.k < |s.commands| && s.commands[e.k].id == id
    && s.commands[e.k].told.Some? && !Stands(s, s.commands[e.k], e.gate)
    && Dispatching(s, id) && Find(s.doc.items, id).Some? && !ShownDelivered(s.doc, id)
  }

  lemma FinishWithholds(s: State, k: nat, gate: bool, id: Text)
    requires k < |s.commands|
    ensures id in Finish(s, k, gate).past.withheld <==> id in s.past.withheld || Withholds(s, Finished(k, gate), id)
  {
    var t, x := s.(commands := s.commands[..k] + s.commands[k + 1..]), s.commands[k].id;
    assert Dispatching(t, x) <==> Dispatching(s, x);
    assert Stands(t, s.commands[k], gate) <==> Stands(s, s.commands[k], gate);
    WithholdRecords(t, x, id);
    hide UpdateSend, Find, Stands, Dispatching, Withhold, ShownDelivered;
  }

  lemma WithholdRecords(s: State, x: Text, id: Text)
    ensures id in Withhold(s, x).past.withheld
       <==> id in s.past.withheld
            || (id == x && Dispatching(s, x) && Find(s.doc.items, x).Some? && !ShownDelivered(s.doc, x))
  {
    hide UpdateSend, Find, Dispatching;
  }

  lemma WithheldExactly(s: State, e: Event, id: Text)
    ensures id in Next(s, e).past.withheld <==> id in s.past.withheld || Withholds(s, e, id)
  {
    if e.Finished? && e.k < |s.commands| { FinishWithholds(s, e.k, e.gate, id); }
    hide Order, Prepare, Confirm, Enter, Answer, TakeWrite, CatchUp, Transact, Drain, Save, Begin, UpdateSend, Find;
    hide Compose, HoldForEdit, ChangeText, SendNow, Remove, NotReady, Merge, Adopt, Crash, Load, Switch, Finish, Stands;
    hide HoldQueued, Dispatching, ShownDelivered;
  }

  /** Over any run: the messages withheld are those some command has withheld. */
  lemma {:induction false} WithheldOverRun(states: seq<State>, events: seq<Event>, n: nat, id: Text)
    requires Run(states, events) && n < |states|
    ensures id in states[n].past.withheld <==> exists k: nat :: k < n && Withholds(states[k], events[k], id)
  {
    hide Next, Withholds;
    if n > 0 {
      RunStep(states, events, n - 1);
      WithheldOverRun(states, events, n - 1, id);
      WithheldExactly(states[n - 1], events[n - 1], id);
    }
  }

  /** The document shows every message that a task holds, or that may be at the backend, as taken there. */
  ghost predicate LooksSent(s: State) {
    s.open ==> forall id :: Dispatching(s, id) ==> FirmIn(s.doc, id)
  }

  lemma UnwithheldLooksSent(s: State)
    requires Inv(s) && s.past.withheld == {}
    ensures LooksSent(s)
  {
    hide Authority, Revisions, Epochs, Committed, Awaited, Has;
    forall id | s.open && Dispatching(s, id)
      ensures FirmIn(s.doc, id)
    {
      if id !in s.past.exposed {
        var k :| 0 <= k < |s.flights| && Late(s.flights[k]) && s.flights[k].item.id == id;
        assert Task(s, s.flights[k]);
      }
    }
  }

  lemma WithholdingShows(s: State, e: Event, id: Text)
    requires s.open && Withholds(s, e, id)
    ensures !LooksSent(Next(s, e))
  {
    var t, at := Next(s, e), Find(s.doc.items, id).value;
    assert t.open && t.doc.items[at].id == id && t.doc.items[at].delivery == Some(Held);
    assert Dispatching(t, id) by { hide UpdateSend, Find; }
  }

  /**
   * Over any run: in every state each message that a task holds, or that may be at the backend, is shown so, if and
   * only if no command in the run has withheld one.
   */
  lemma RunsLookSent(states: seq<State>, events: seq<Event>)
    requires Run(states, events)
    ensures (forall n: nat :: n < |states| ==> LooksSent(states[n]))
       <==> (forall k: nat, id :: k < |events| ==> !Withholds(states[k], events[k], id))
  {
    hide Next, Withholds, LooksSent, Inv;
    assert |states| == |events| + 1;
    if k: nat, id :| k < |events| && Withholds(states[k], events[k], id) {
      RunStep(states, events, k);
      WithholdsOpen(states, events, k, id);
      WithholdingShows(states[k], events[k], id);
      assert !LooksSent(states[k + 1]);
    } else {
      forall n: nat | n < |states|
        ensures LooksSent(states[n])
      {
        RunsAreSafe(states, events, n);
        forall id ensures id !in states[n].past.withheld { WithheldOverRun(states, events, n, id); }
        UnwithheldLooksSent(states[n]);
      }
    }
  }

  lemma WithholdsOpen(states: seq<State>, events: seq<Event>, k: nat, id: Text)
    requires Run(states, events) && k < |events| && k < |states| && Withholds(states[k], events[k], id)
    ensures states[k].open
  {
    RunsAreSafe(states, events, k);
  }

  /**
   * A message that may have reached the backend stops looking so only when the runtime proves that it did not, or when
   * a command shows it as held.
   */
  lemma OnlyProofUndoesASend(s: State, e: Event, id: Text)
    requires Inv(s) && id in s.past.exposed && id !in s.past.withheld && Next(s, e).open
    requires !FirmIn(Next(s, e).doc, id)
    ensures Clears(s, e, id) || Withholds(s, e, id)
  {
    if !Clears(s, e, id) && !Withholds(s, e, id) {
      ExposureIsSticky(s, e, id);
      WithheldExactly(s, e, id);
      EveryStepKeeps(s, e);
      OpenIsClean(Next(s, e));
      assert false;
    }
  }

  // ----- authority over a run -----

  /** A task that holds the message has not entered the wire. */
  ghost predicate Claimed(s: State, id: Text) {
    exists k :: 0 <= k < |s.flights| && Claims(s.flights[k]) && s.flights[k].item.id == id
  }

  /** After reserving, a task only moves on, enters the wire, or ends. */
  ghost predicate Advances(s: State, t: State)
    requires |s.flights| == 1
  {
    var f := s.flights[0];
    || t == s
    || (t.flights == [] && t.past.entered == s.past.entered)
    || (f.stage.Persisted? && t.flights == [f.(stage := Verifying)] && t.past == s.past)
    || (f.stage == Verifying && t.flights == [f.(stage := OnWire)]
        && t.past.entered == s.past.entered[f.item.id := Count(s.past.entered, f.item.id) + 1])
  }

  lemma ConfirmAdvances(s: State, busy: bool, gate: bool)
    requires |s.flights| == 1
    ensures Advances(s, Confirm(s, 0, busy, gate))
  {
    hide UpdateSend, AfterFailure, Input, InScope;
  }

  lemma EnterAdvances(s: State, reply: Reply, gate: bool, fits: bool)
    requires |s.flights| == 1
    ensures Advances(s, Enter(s, 0, reply, gate, fits))
  {
    hide UpdateSend, AfterFailure, Input, InScope;
  }

  lemma AnswerAdvances(s: State, reply: Reply, gate: bool, finished: bool)
    requires |s.flights| == 1
    ensures Advances(s, Answer(s, 0, reply, gate, finished))
  {
    hide UpdateSend, AfterFailure, Input, InScope;
  }

  /**
   * No event of a task creates authority: reserving uses the queued message up, entering the wire uses the claim up.
   */
  lemma TasksSpend(s: State, e: Event, id: Text)
    requires Inv(s) && TaskEvent(e)
    ensures Spent(Next(s, e), id) <= Spent(s, id)
  {
    if e.i < |s.flights| {
      TaskIsAlone(s, e, id);
      hide Inv, QueuedIn, Spent, Advances;
      if e.Prepared? {
        PrepareSpends(s, e.reply, e.gate, id);
      } else {
        LaterAdvances(s, e);
        hide Next;
        AdvancingSpends(s, Next(s, e), id);
      }
    }
  }

  lemma LaterAdvances(s: State, e: Event)
    requires |s.flights| == 1 && (e.Confirmed? || e.Entered? || e.Answered?) && e.i == 0
    ensures Advances(s, Next(s, e))
  {
    hide Confirm, Enter, Answer, Advances;
    if e.Confirmed? { ConfirmAdvances(s, e.busy, e.gate); }
    if e.Entered? { EnterAdvances(s, e.reply, e.gate, e.fits); }
    if e.Answered? { AnswerAdvances(s, e.reply, e.gate, e.finished); }
  }

  lemma TaskIsAlone(s: State, e: Event, id: Text)
    requires Inv(s) && TaskEvent(e) && e.i < |s.flights|
    ensures s.open && |s.flights| == 1 && e.i == 0
    ensures Next(s, e).open == s.open && (QueuedIn(Next(s, e).doc, id) ==> QueuedIn(s.doc, id))
  {
    FlightsAreOpen(s);
    assert |s.flights| == 1;
    hide Inv, QueuedIn;
    if QueuedIn(Next(s, e).doc, id) { TasksQueueNothing(s, e, id); }
    TaskResult(s, e);
  }

  lemma AdvancingSpends(s: State, t: State, id: Text)
    requires |s.flights| == 1 && Advances(s, t) && t.open == s.open
    requires QueuedIn(t.doc, id) ==> QueuedIn(s.doc, id)
    ensures Spent(t, id) <= Spent(s, id)
  {
    hide QueuedIn;
    var f := s.flights[0];
    assert Claimed(s, id) <==> Claims(f) && f.item.id == id;
    assert Claimed(t, id) <==> t.flights != [] && Claims(t.flights[0]) && t.flights[0].item.id == id;
  }

  lemma PrepareSpends(s: State, reply: Reply, gate: bool, id: Text)
    requires Inv(s) && |s.flights| == 1 && s.open
    requires QueuedIn(Prepare(s, 0, reply, gate).doc, id) ==> QueuedIn(s.doc, id)
    ensures Spent(Prepare(s, 0, reply, gate), id) <= Spent(s, id)
  {
    var t, f := Prepare(s, 0, reply, gate), s.flights[0];
    OpenIsClean(s);
    if f.stage == Preparing && t.flights != [] {
      var at := Find(s.doc.items, f.item.id).value;
      SendingIsFirm(s.doc, at);
      assert s.doc.items[at].owned;
      assert QueuedIn(s.doc, f.item.id) && !QueuedIn(t.doc, f.item.id);
      hide Inv, QueuedIn, UpdateSend;
      assert t.flights == [f.(stage := Persisting)];
    } else {
      hide Inv, QueuedIn, UpdateSend, AfterFailure;
    }
  }

  ghost function Spent(s: State, id: Text): nat { Count(s.past.entered, id) + Open(s, id) }

  /** The user authorizes the message at this event. */
  predicate Authorizes(e: Event, id: Text) { (e.Composed? || e.Ordered? || e.SentNow?) && e.id == id }

  /** What a step that is not an authorization leaves is no more than what was there. */
  lemma NothingIsGrantedElsewhere(s: State, e: Event, id: Text)
    requires Inv(s) && !Authorizes(e, id)
    ensures Spent(Next(s, e), id) <= Spent(s, id)
  {
    var t := Next(s, e);
    if TaskEvent(e) {
      TasksSpend(s, e, id);
    } else {
      hide Inv, QueuedIn, Spent, Claimed;
      if t.open && QueuedIn(t.doc, id) && !(s.open && QueuedIn(s.doc, id)) { QueueingNeedsTheUser(s, e, id); }
      NoClaimIsMade(s, e, id);
      hide Next;
      SpendsNoMore(s, t, id);
    }
  }

  lemma SpendsNoMore(s: State, t: State, id: Text)
    requires t.past.entered == s.past.entered && (Claimed(t, id) ==> Claimed(s, id))
    requires t.open && QueuedIn(t.doc, id) ==> s.open && QueuedIn(s.doc, id)
    ensures Spent(t, id) <= Spent(s, id)
  {
    hide QueuedIn, Count;
  }

  lemma NoClaimIsMade(s: State, e: Event, id: Text)
    requires Inv(s) && !TaskEvent(e)
    ensures Next(s, e).past.entered == s.past.entered && (Claimed(Next(s, e), id) ==> Claimed(s, id))
  {
    if e.Wrote? {
      ToldClaims(s, e.outcome, id);
    } else if e.Drained? {
      DrainClaims(s, e.gate, id);
    } else {
      OthersClaimNothing(s, e);
    }
    hide Inv, TakeWrite, Drain;
  }

  lemma OthersClaimNothing(s: State, e: Event)
    requires !TaskEvent(e) && !e.Wrote? && !e.Drained?
    ensures (Next(s, e).flights == s.flights || Next(s, e).flights == []) && Next(s, e).past.entered == s.past.entered
  {
    if UserEvent(e) || CommandEvent(e) {
      UsersClaimNothing(s, e);
    } else {
      hide CatchUp, Transact, Save, Begin, NotReady, Merge, Adopt, Load, Switch, HoldQueued, TakeWrite, Drain, Crash;
    }
  }

  lemma UsersClaimNothing(s: State, e: Event)
    requires UserEvent(e) || CommandEvent(e)
    ensures Next(s, e).flights == s.flights && Next(s, e).past.entered == s.past.entered
  {
    hide Compose, HoldForEdit, ChangeText, SendNow, Remove, Order, Finish;
  }

  lemma ToldClaims(s: State, outcome: Outcome, id: Text)
    requires Inv(s)
    ensures TakeWrite(s, outcome).past.entered == s.past.entered
    ensures Claimed(TakeWrite(s, outcome), id) ==> Claimed(s, id)
  {
    if s.queue != [] {
      var t := TakeWrite(s, outcome);
      hide Clean, Records, Documents, Authority, Revisions, Epochs, Awaited, Stored;
      forall k | 0 <= k < |t.flights| && Claims(t.flights[k])
        ensures Claims(s.flights[k]) && s.flights[k].item.id == t.flights[k].item.id
      {
        assert Task(s, s.flights[k]);
      }
    }
  }

  lemma DrainClaims(s: State, gate: bool, id: Text)
    requires Inv(s)
    ensures Drain(s, gate).past.entered == s.past.entered
    ensures Claimed(Drain(s, gate), id) ==> Claimed(s, id)
  {
    hide Inv, FirstQueued, FirstFrom;
  }

  lemma {:induction false} SpentOverRun(states: seq<State>, events: seq<Event>, i: nat, j: nat, id: Text)
    requires Run(states, events) && i <= j < |states|
    requires forall m :: i <= m < j ==> !Authorizes(events[m], id)
    ensures Spent(states[j], id) <= Spent(states[i], id)
    decreases j
  {
    if i < j {
      hide Spent, Inv, Next;
      RunStep(states, events, j - 1);
      SpentOverRun(states, events, i, j - 1, id);
      RunsAreSafe(states, events, j - 1);
      NothingIsGrantedElsewhere(states[j - 1], events[j - 1], id);
    }
  }

  lemma {:induction false} ExposedOverRun(states: seq<State>, events: seq<Event>, i: nat, j: nat, id: Text)
    requires Run(states, events) && i <= j < |states| && id in states[i].past.exposed
    requires forall m :: i <= m < j ==> !Clears(states[m], events[m], id)
    ensures id in states[j].past.exposed
    decreases j
  {
    if i < j {
      hide Next, Clears;
      RunStep(states, events, j - 1);
      ExposedOverRun(states, events, i, j - 1, id);
      ExposureIsSticky(states[j - 1], events[j - 1], id);
    }
  }

  /**
   * Nothing is sent twice that no command has withheld. Between two requests for one message, over any interleaving of
   * tasks, disconnects, edits, reads, commands, rollovers, failing writes, crashes and restarts, the runtime proves
   * that the first was never dispatched, and the user asks for the message again.
   */
  lemma NothingIsSentTwice(states: seq<State>, events: seq<Event>, i: nat, j: nat, id: Text)
    requires Run(states, events) && i < j < |events|
    requires Enters(states[i], events[i], id) && Enters(states[j], events[j], id)
    requires Unwithheld(states, events, j, id)
    ensures exists k :: i < k < j && Clears(states[k], events[k], id)
    ensures exists m :: i < m < j && Authorizes(events[m], id)
  {
    hide Run, Enters, Clears, Unwithheld;
    FirstWasCleared(states, events, i, j, id);
    UserAskedAgain(states, events, i, j, id);
  }

  /** No command has withheld the message so far. */
  ghost predicate Unwithheld(states: seq<State>, events: seq<Event>, n: nat, id: Text)
    requires n <= |states| && n <= |events|
  {
    forall k: nat :: k < n ==> !Withholds(states[k], events[k], id)
  }

  /** What entering the wire leaves: the message exposed, and no authority for it. */
  lemma AfterEntering(states: seq<State>, events: seq<Event>, i: nat, id: Text)
    requires Run(states, events) && i < |events| && Enters(states[i], events[i], id)
    requires Unwithheld(states, events, i, id)
    ensures |states| == |events| + 1 && id !in states[i].past.exposed && id in states[i + 1].past.exposed
    ensures Open(states[i], id) >= 1 && Open(states[i + 1], id) == 0
  {
    RunStep(states, events, i);
    RunsAreSafe(states, events, i);
    WithheldOverRun(states, events, i, id);
    hide Run, Inv, Next, Open, Withholds;
    OnlyStoredMessagesAreSent(states[i], events[i], id);
    EnteringWasClaimed(states[i], events[i], id);
  }

  lemma FirstWasCleared(states: seq<State>, events: seq<Event>, i: nat, j: nat, id: Text)
    requires Run(states, events) && i < j < |events|
    requires Enters(states[i], events[i], id) && Enters(states[j], events[j], id)
    requires Unwithheld(states, events, j, id)
    ensures exists k :: i < k < j && Clears(states[k], events[k], id)
  {
    hide Run, Clears, Enters, Open, Withholds;
    AfterEntering(states, events, i, id);
    AfterEntering(states, events, j, id);
    if forall k :: i < k < j ==> !Clears(states[k], events[k], id) {
      ExposedOverRun(states, events, i + 1, j, id);
      assert false;
    }
  }

  lemma UserAskedAgain(states: seq<State>, events: seq<Event>, i: nat, j: nat, id: Text)
    requires Run(states, events) && i < j < |events|
    requires Enters(states[i], events[i], id) && Enters(states[j], events[j], id)
    requires Unwithheld(states, events, j, id)
    ensures exists m :: i < m < j && Authorizes(events[m], id)
  {
    hide Run, Enters, Open, Count, Withholds;
    AfterEntering(states, events, i, id);
    AfterEntering(states, events, j, id);
    if forall m :: i < m < j ==> !Authorizes(events[m], id) {
      SpentOverRun(states, events, i + 1, j, id);
      EnteredOverRun(states, events, i + 1, j, id);
      assert false;
    }
  }

  lemma EnteringWasClaimed(s: State, e: Event, id: Text)
    requires Enters(s, e, id)
    ensures Open(s, id) >= 1
  {
    assert Claims(s.flights[e.i]);
  }

  lemma {:induction false} EnteredOverRun(states: seq<State>, events: seq<Event>, i: nat, j: nat, id: Text)
    requires Run(states, events) && i <= j < |states|
    ensures Count(states[i].past.entered, id) <= Count(states[j].past.entered, id)
    decreases j
  {
    if i < j {
      hide Next, Count;
      RunStep(states, events, j - 1);
      EnteredOverRun(states, events, i, j - 1, id);
      EnteredGrows(states[j - 1], events[j - 1], id);
    }
  }

  lemma EnteredGrows(s: State, e: Event, id: Text)
    ensures Count(s.past.entered, id) <= Count(Next(s, e).past.entered, id)
  {
    if !TaskEvent(e) && !e.Wrote? && !e.Drained? { OthersClaimNothing(s, e); }
    hide TakeWrite, Drain, Prepare, Confirm, Answer, CatchUp, Transact, Save, Begin, Compose, HoldForEdit, ChangeText;
    hide SendNow, Remove, NotReady, Merge, Adopt, Load, Switch, HoldQueued, Order, Finish;
  }

  /** Requests never outnumber the user's authorizations of the message. */
  lemma RequestsAreAuthorized(states: seq<State>, events: seq<Event>, n: nat, id: Text)
    requires Run(states, events) && n < |states|
    ensures Count(states[n].past.entered, id) <= Count(states[n].past.granted, id)
  {
    RunsAreSafe(states, events, n);
    hide Documents, Tasks, Revisions, Epochs, QueuedIn;
    assert Count(states[n].past.entered, id) + Open(states[n], id) <= Count(states[n].past.granted, id);
  }
}
