/** The outbox as the application keeps it: fields updated in place by every action, answer and timer. */
module OutboxModel {
  import opened Wrappers
  import opened HistoryTypes
  import opened Outbox
  import opened OutboxSafety
  import Meaning = OutboxMeaning

  class AppModel {
    var open: bool
    var doc: Doc
    var ready: bool
    var evidence: bool
    var activation: nat
    var wire: nat
    var running: bool
    var slot: bool
    var flights: seq<Flight>
    var commands: seq<Command>
    var nextNumber: nat
    var operation: Option<Operation>
    var failed: bool
    var stored: Option<Doc>
    var latest: nat
    var queue: seq<Write>
    ghost var past: Record

    ghost function View(): State
      reads this
    {
      State(open, doc, ready, evidence, activation, wire, running, slot, flights, commands, nextNumber, operation,
            failed, stored, latest, queue, past)
    }

    /** A new process over whatever an earlier one left in the store. */
    constructor (found: Option<Doc>, ghost before: State)
      requires Inv(before) && found == before.stored
      ensures !open && stored == found && past == before.past && View() == Crash(View())
      ensures Inv(View())
    {
      CrashKeeps(before);
      open, doc, ready, evidence := false, Doc(0, [], None, false), false, false;
      activation, wire, running := 0, 0, false;
      slot, flights, commands, nextNumber, operation, failed := false, [], [], 0, None, false;
      stored, latest, queue, past := found, 0, [], before.past;
      new;
      RestartKeeps(before, View());
    }

    /** Only what a crash leaves matters to a new process. */
    static lemma RestartKeeps(before: State, s: State)
      requires Inv(Crash(before)) && !s.open && s == Crash(s) && s.stored == before.stored && s.past == before.past
      ensures Inv(s)
    {
      hide Clean, QueuedIn, Recovered;
      assert forall id :: OutboxSafety.Open(s, id) == OutboxSafety.Open(Crash(before), id);
    }

    function PermitsLocalChanges(): bool
      reads this
    {
      open && operation.None? && !failed
    }

    function PermitsInput(): bool
      reads this
    {
      PermitsLocalChanges() && evidence && doc.epoch.Some? && !doc.unconfirmed
    }

    function Same(f: Flight): bool
      reads this
    {
      doc.epoch == f.epoch && activation == f.activation && wire == f.wire
    }

    // ----- the document -----

    method IndexOf(id: Text) returns (at: Option<nat>)
      ensures at == Find(doc.items, id)
    {
      for k := 0 to |doc.items|
        invariant forall j :: 0 <= j < k ==> doc.items[j].id != id
      {
        if doc.items[k].id == id {
          return Some(k);
        }
      }
      return None;
    }

    method SetDelivery(id: Text, delivery: Delivery)
      modifies this`doc
      ensures doc == UpdateSend(old(doc), id, delivery)
    {
      var at := IndexOf(id);
      if at.None? { return; }
      if doc.items[at.value].delivery != Some(Delivered) {
        doc := doc.(items := doc.items[at.value := doc.items[at.value].(delivery := Some(delivery))]);
      }
      doc := doc.(revision := doc.revision + 1);
    }

    /** Every queued message is held. */
    method HoldAll()
      modifies this`doc
      ensures doc == HoldQueued(old(doc))
    {
      var items := doc.items;
      for k := 0 to |items|
        invariant |items| == |doc.items| && doc == old(doc)
        invariant forall j :: 0 <= j < |items| ==> items[j] == if j < k then Hold(doc.items[j]) else doc.items[j]
      {
        if items[k].delivery == Some(Queued) {
          items := items[k := items[k].(delivery := Some(Held))];
        }
      }
      assert items == Each(doc.items, Hold);
      doc := doc.(items := items, revision := doc.revision + 1);
    }

    method FindQueued() returns (at: Option<nat>)
      ensures at == FirstQueued(doc)
    {
      var k := 0;
      while k < |doc.items|
        invariant k <= |doc.items| && FirstFrom(doc, 0) == FirstFrom(doc, k)
      {
        if doc.items[k].owned && doc.items[k].delivery == Some(Queued) && doc.items[k].epoch == doc.epoch {
          return Some(k);
        }
        k := k + 1;
      }
      return None;
    }

    // ----- the user -----

    /** Compose a message: it is queued under an ID never used before, and it is the only new authority. */
    method Write(id: Text, body: nat, gate: bool)
      requires Inv(View())
      requires id !in past.ids  // a new UUID
      modifies this
      ensures View() == Compose(old(View()), id, body, gate) && Inv(View())
      ensures doc != old(doc) ==> QueuedIn(doc, id) && PendingCount(doc.items) <= PENDING_LIMIT
      ensures doc != old(doc) ==> Count(past.granted, id) == old(Count(past.granted, id)) + 1
      ensures doc == old(doc) ==> past == old(past)
    {
      ComposeKeeps(View(), id, body, gate);
      hide Inv;
      if !(PermitsInput() && ready && gate && id != [] && PendingCount(doc.items) < PENDING_LIMIT) { return; }
      Append(id, body);
    }

    /** The document shows one message more, and the user has authorized it once. */
    method Append(id: Text, body: nat)
      modifies this`doc, this`past
      ensures doc == old(doc).(items := old(doc.items) + [Item(id, true, Some(id), body, doc.epoch, Some(Queued))],
                               revision := old(doc.revision) + 1)
      ensures past == Granted(old(past), id).(ids := old(past.ids) + {id})
      ensures QueuedIn(doc, id) && PendingCount(doc.items) == old(PendingCount(doc.items)) + 1
    {
      ghost var items := doc.items;
      doc := doc.(items := doc.items + [Item(id, true, Some(id), body, doc.epoch, Some(Queued))],
                  revision := doc.revision + 1);
      past := Granted(past, id).(ids := past.ids + {id});
      assert doc.items[..|doc.items| - 1] == items;
      assert doc.items[|items|].id == id;
    }

    /** A message taken for editing is with no task, may not be at the backend, and cannot be sent without the user. */
    method Edit(id: Text)
      requires Inv(View())
      modifies this
      ensures View() == HoldForEdit(old(View()), id) && Inv(View()) && past == old(past)
      ensures doc != old(doc) ==> !QueuedIn(doc, id) && !Busy(View(), id)
      ensures forall x :: QueuedIn(doc, x) ==> old(QueuedIn(doc, x))
    {
      EditKeeps(View(), id);
      EditsQueueNothing(View(), Editing(id));
      var at := IndexOf(id);
      if !PermitsLocalChanges() || at.None? || !Editable(doc.items[at.value]) { return; }
      HeldIsFree(View(), at.value);
      OpenIsClean(View());
      hide Inv, Busy;
      ghost var d := doc;
      doc := doc.(items := doc.items[at.value := doc.items[at.value].(delivery := Some(Held))],
                  revision := doc.revision + 1);
      HeldIsUnqueued(d, doc, at.value);
      BusyAlike(old(View()), View(), id);
    }

    static lemma HeldIsUnqueued(d: Doc, e: Doc, at: nat)
      requires Distinct(d) && at < |d.items| && e.items == d.items[at := d.items[at].(delivery := Some(Held))]
      ensures !QueuedIn(e, d.items[at].id)
    {
    }

    static lemma BusyAlike(s: State, t: State, id: Text)
      requires s.flights == t.flights && s.past.exposed == t.past.exposed && s.past.withheld == t.past.withheld
      ensures Busy(s, id) <==> Busy(t, id)
    {
    }

    /** Only a held message is sent again: one no task holds and no request may have taken to the backend. */
    method Retry(id: Text, gate: bool)
      requires Inv(View())
      modifies this
      ensures View() == SendNow(old(View()), id, gate) && Inv(View())
      ensures doc != old(doc) ==> old(!Busy(View(), id) && !QueuedIn(doc, id)) && QueuedIn(doc, id)
      ensures doc != old(doc) ==> Count(past.granted, id) == old(Count(past.granted, id)) + 1
      ensures doc == old(doc) ==> past == old(past)
    {
      SendNowKeeps(View(), id, gate);
      var at := IndexOf(id);
      if !PermitsInput() || !ready || !gate || at.None? { return; }
      var item := doc.items[at.value];
      if !item.owned || item.key.None? || item.key.value == [] || item.delivery != Some(Held) { return; }
      HeldIsFree(View(), at.value);
      hide Inv, Busy;
      doc := doc.(items := doc.items[at.value := item.(epoch := doc.epoch, delivery := Some(Queued))],
                  revision := doc.revision + 1);
      past := Granted(past, id);
      assert doc.items[at.value].id == id;
    }

    /** A removed message is gone, no other is, and nothing of it is on its way. */
    method Discard(id: Text)
      requires Inv(View())
      modifies this
      ensures View() == Remove(old(View()), id) && Inv(View()) && past == old(past)
      ensures doc != old(doc) ==> !Has(doc, id) && !Busy(View(), id)
      ensures forall x :: x != id && old(Has(doc, x)) ==> Has(doc, x)
    {
      RemovalKeeps(View(), id);
      var at := IndexOf(id);
      if !PermitsLocalChanges() || at.None? || !Editable(doc.items[at.value]) { return; }
      HeldIsFree(View(), at.value);
      OpenIsClean(View());
      hide Inv, Busy;
      ghost var d := doc;
      doc := doc.(items := doc.items[..at.value] + doc.items[at.value + 1..], revision := doc.revision + 1);
      DropKeeps(d, doc, at.value);
      DroppedIsGone(d, doc, at.value);
      BusyAlike(old(View()), View(), id);
    }

    static lemma DroppedIsGone(d: Doc, e: Doc, at: nat)
      requires Distinct(d) && at < |d.items| && e.items == d.items[..at] + d.items[at + 1..]
      ensures !Has(e, d.items[at].id)
    {
      assert forall k :: 0 <= k < |e.items| ==> e.items[k] == d.items[if k < at then k else k + 1];
    }

    // ----- setting commands -----

    /** A setting command is queued like a message, and its document waits for the store before anything happens. */
    method QueueCommand(id: Text, body: nat, gate: bool)
      requires Inv(View())
      requires id !in past.ids  // a new UUID
      modifies this
      ensures View() == Order(old(View()), id, body, gate) && Inv(View())
      ensures doc != old(doc) ==> Queues(old(View()), View(), id)
    {
      OrderKeeps(View(), id, body, gate);
      hide Inv;
      AppendCommand(id, body, gate);
    }

    method AppendCommand(id: Text, body: nat, gate: bool)
      requires id !in past.ids
      modifies this
      ensures View() == Order(old(View()), id, body, gate)
      ensures doc != old(doc) ==> Queues(old(View()), View(), id)
    {
      hide QueuedIn, PendingCount, Granted;
      if !(PermitsInput() && ready && gate && id != [] && PendingCount(doc.items) < PENDING_LIMIT) { return; }
      Append(id, body);
      Enlist(id);
    }

    method Enlist(id: Text)
      modifies this`queue, this`commands, this`nextNumber
      ensures queue == old(queue) + [Outbox.Write(doc, Some(old(nextNumber)))]
      ensures commands == old(commands) + [Command(old(nextNumber), id, doc.epoch, activation, wire, None)]
      ensures nextNumber == old(nextNumber) + 1
    {
      queue := queue + [Outbox.Write(doc, Some(nextNumber))];
      commands := commands + [Command(nextNumber, id, doc.epoch, activation, wire, None)];
      nextNumber := nextNumber + 1;
    }

    /** One message more is queued, within the limit, and the last write to wait is its document's and the command's. */
    static ghost predicate Queues(s: State, t: State, id: Text) {
      && QueuedIn(t.doc, id) && PendingCount(t.doc.items) <= PENDING_LIMIT
      && t.queue == s.queue + [Outbox.Write(t.doc, Some(s.nextNumber))]
      && t.commands == s.commands + [Command(s.nextNumber, id, t.doc.epoch, t.activation, t.wire, None)]
    }

    /**
     * The store has answered a command. Its message is shown as held when the write failed or the command has lost its
     * place, even while a task sends it; no other message that looks sent stops looking so, and nothing is queued.
     */
    method CommandReturned(k: nat, gate: bool)
      requires Inv(View()) && k < |commands|
      modifies this
      ensures View() == Finish(old(View()), k, gate) && Inv(View())
      ensures forall x :: QueuedIn(doc, x) ==> old(QueuedIn(doc, x))
      ensures forall x :: old(FirmIn(doc, x)) && !FirmIn(doc, x) ==> x == old(commands[k]).id
      ensures forall x :: x in past.withheld && x !in old(past.withheld) ==>
                old(Withholds(View(), Finished(k, gate), x)) && !FirmIn(doc, x)
    {
      FinishKeeps(View(), k, gate);
      FinishQueuesNothing(View(), Finished(k, gate));
      FinishTouchesOne(View(), k, gate);
      hide Inv, FirmIn, QueuedIn, Withholds, Finish;
      EndCommand(k, gate);
    }

    method EndCommand(k: nat, gate: bool)
      requires k < |commands|
      modifies this
      ensures View() == Finish(old(View()), k, gate)
    {
      var c := commands[k];
      if c.told.None? { return; }
      commands := commands[..k] + commands[k + 1..];
      if CommandStands(c, gate) { return; }
      hide Withhold;
      HoldCommand(c.id);
    }

    predicate CommandStands(c: Command, gate: bool)
      reads this
    {
      c.told == Some(true) && PermitsInput() && doc.epoch == c.epoch && activation == c.activation && wire == c.wire
      && ready && gate
    }

    method HoldCommand(id: Text)
      modifies this`doc, this`past
      ensures View() == Withhold(old(View()), id)
    {
      past := Withhold(View(), id).past;
      SetDelivery(id, Held);
    }

    static lemma FinishTouchesOne(s: State, k: nat, gate: bool)
      requires Inv(s) && k < |s.commands|
      ensures var t := Finish(s, k, gate);
              && (forall x :: FirmIn(s.doc, x) && !FirmIn(t.doc, x) ==> x == s.commands[k].id)
              && forall x :: x in t.past.withheld && x !in s.past.withheld ==>
                   Withholds(s, Finished(k, gate), x) && !FirmIn(t.doc, x)
    {
      var t, id := Finish(s, k, gate), s.commands[k].id;
      OthersStayFirm(s.doc, id);
      hide UpdateSend, FirmIn, Find, Dispatching, Stands, ShownDelivered, Withholds;
      forall x | x in t.past.withheld && x !in s.past.withheld
        ensures Withholds(s, Finished(k, gate), x) && !FirmIn(t.doc, x)
      {
        FinishWithholds(s, k, gate, x);
        FinishShows(s, k, gate, x);
      }
    }

    static lemma OthersStayFirm(d: Doc, id: Text)
      ensures forall x :: FirmIn(d, x) && x != id ==> FirmIn(UpdateSend(d, id, Held), x)
    {
    }

    static lemma FinishShows(s: State, k: nat, gate: bool, id: Text)
      requires k < |s.commands| && Withholds(s, Finished(k, gate), id)
      ensures !FirmIn(Finish(s, k, gate).doc, id)
    {
      HeldIsNotFirm(s.doc, id);
      hide UpdateSend, FirmIn, Find, Dispatching, ShownDelivered;
    }

    static lemma HeldIsNotFirm(d: Doc, id: Text)
      requires Find(d.items, id).Some? && !ShownDelivered(d, id)
      ensures !FirmIn(UpdateSend(d, id, Held), id)
    {
      var at := Find(d.items, id).value;
      assert UpdateSend(d, id, Held).items[at].delivery == Some(Held);
    }

    // ----- the send task -----

    /**
     * At most one task, and only for the first message of the document that waits in the conversation's own epoch. It
     * is started when the conversation permits it, nothing runs, there is no task and the message has a key.
     */
    method DrainQueue(gate: bool)
      requires Inv(View())
      modifies this
      ensures View() == Drain(old(View()), gate) && Inv(View()) && past == old(past)
      ensures |flights| <= 1
      ensures flights != old(flights) ==>
                old(flights) == [] && Sendable(flights[0].item, doc.epoch) && flights[0].item in doc.items
      ensures flights != old(flights) ==> exists at: nat :: Meaning.Starts(old(View()), View(), at)
      ensures forall at: nat :: Meaning.IsNext(doc, at) ==>
                (flights != old(flights) <==>
                   PermitsInput() && ready && gate && !running && !old(slot) && doc.items[at].key.Some?)
    {
      DrainKeeps(View(), gate);
      Meaning.DrainTells(View(), gate);
      TasksAreFew(View());
      hide Inv;
      if !PermitsInput() || !ready || !gate || running || slot { return; }
      var at := FindQueued();
      if at.None? || doc.items[at.value].key.None? { return; }
      flights := flights + [Flight(nextNumber, doc.items[at.value], doc.epoch, activation, wire, Preparing)];
      slot, nextNumber := true, nextNumber + 1;
    }

    static lemma TasksAreFew(s: State)
      requires Inv(s)
      ensures |s.flights| <= 1 && (s.slot <==> |s.flights| == 1)
    {
    }

    method Land(i: nat)
      requires i < |flights|
      modifies this`slot, this`flights
      ensures View() == Landed(old(View()), i)
    {
      slot, flights := false, flights[..i] + flights[i + 1..];
    }

    /** Where the message goes when its task fails, by what the error says of dispatch. */
    method Verdict(f: Flight, reply: Reply, entered: bool, gate: bool) returns (d: Delivery)
      ensures d == AfterFailure(View(), f, reply, entered, gate)
    {
      if reply == Doubtful || reply == ResponseReceived || (entered && reply == Unknown) { return Uncertain; }
      var paused := !gate && (reply == NotDispatched || reply == Rejected);
      d := if !Same(f) || paused then Held else Failed;
    }

    method Fail(i: nat, reply: Reply, entered: bool, gate: bool)
      requires i < |flights|
      modifies this`doc, this`slot, this`flights
      ensures var f := old(flights[i]);
              var verdict := AfterFailure(old(View()), f, reply, entered, gate);
              View() == Landed(old(View()).(doc := UpdateSend(old(doc), f.item.id, verdict)), i)
    {
      var d := Verdict(flights[i], reply, entered, gate);
      SetDelivery(flights[i].item.id, d);
      Land(i);
    }

    method GiveBack(i: nat, delivery: Delivery)
      requires i < |flights|
      modifies this`doc, this`slot, this`flights
      ensures View() == Landed(old(View()).(doc := UpdateSend(old(doc), old(flights[i]).item.id, delivery)), i)
    {
      SetDelivery(flights[i].item.id, delivery);
      Land(i);
    }

    /**
     * The prompt is ready, or could not be made. A task goes on only once its message is shown as sending wherever it
     * will be stored.
     */
    method PromptReady(i: nat, reply: Reply, gate: bool)
      requires Inv(View()) && i < |flights|
      modifies this
      ensures View() == Prepare(old(View()), i, reply, gate) && Inv(View()) && past == old(past)
      ensures old(flights[i]).stage == Preparing && flights != [] ==>
                && flights[0].item == old(flights[i]).item && flights[0].stage == Persisting
                && Reserved(View(), flights[0])
    {
      ghost var s := View();
      PrepareKeeps(s, i, reply, gate);
      PrepareReserves(s, i, reply, gate);
      hide Inv, Reserved, Outbox.Prepare;
      GoOn(i, reply, gate);
    }

    /** Hold the send, give it up, or reserve its message. */
    method GoOn(i: nat, reply: Reply, gate: bool)
      requires i < |flights|
      modifies this
      ensures View() == Prepare(old(View()), i, reply, gate) && past == old(past)
    {
      hide Inv, Reserved, UpdateSend, AfterFailure, Landed, AtStage;
      var f := flights[i];
      if f.stage != Preparing { return; }
      var at := IndexOf(f.item.id);
      var queued := at.Some? && doc.items[at.value].delivery == Some(Queued) && doc.items[at.value].body == f.item.body;
      if reply != Receipt {
        if queued { Fail(i, reply, false, gate); } else { Land(i); }
        return;
      }
      if !(PermitsInput() && Same(f) && ready && queued && doc.items[at.value].key == f.item.key) {
        Land(i);
        return;
      }
      Reserve(i);
    }

    /** The message is shown as sending before anything else can happen, and the write that shows it waits. */
    method Reserve(i: nat)
      requires i < |flights|
      modifies this`doc, this`queue, this`flights
      ensures var sending := UpdateSend(old(doc), old(flights[i]).item.id, Sending);
              View()
                == AtStage(old(View()).(doc := sending,
                                        queue := old(queue) + [Outbox.Write(sending, Some(old(flights[i]).number))]),
                                i, Persisting)
    {
      SetDelivery(flights[i].item.id, Sending);
      queue := queue + [Outbox.Write(doc, Some(flights[i].number))];
      flights := flights[i := flights[i].(stage := Persisting)];
    }

    /** The message is shown as sending in memory, is not queued, and the task's own write waits for the store. */
    static ghost predicate Reserved(s: State, f: Flight) {
      && FirmIn(s.doc, f.item.id) && Has(s.doc, f.item.id) && !QueuedIn(s.doc, f.item.id)
      && Awaited(s.queue, f, s.past.withheld)
    }

    static lemma PrepareReserves(s: State, i: nat, reply: Reply, gate: bool)
      requires Inv(s) && i < |s.flights|
      ensures var t := Prepare(s, i, reply, gate);
              s.flights[i].stage == Preparing && t.flights != [] ==>
                && t.flights[0].item == s.flights[i].item && t.flights[0].stage == Persisting
                && Reserved(t, t.flights[0])
    {
      var t := Prepare(s, i, reply, gate);
      PrepareKeeps(s, i, reply, gate);
      if s.flights[i].stage == Preparing && t.flights != [] {
        assert |s.flights| == 1 && i == 0;
        assert Task(t, t.flights[0]);
        FlightsAreOpen(s);
        OpenIsClean(s);
        SendingIsFirm(s.doc, Find(s.doc.items, s.flights[0].item.id).value);
        hide Inv, Awaited, FirmIn, Has, QueuedIn;
      }
    }

    /** The store has answered. A task goes on only once the stored document shows its message as sending or later. */
    method WriteReturned(i: nat, busy: bool, gate: bool)
      requires Inv(View()) && i < |flights|
      modifies this
      ensures View() == Confirm(old(View()), i, busy, gate) && Inv(View()) && past == old(past)
      ensures flights != [] && flights[0].stage == Verifying ==> Shows(stored, past, flights[0].item.id)
    {
      ghost var s := View();
      ConfirmKeeps(s, i, busy, gate);
      SoundIsStored(Confirm(s, i, busy, gate));
      hide Inv, Shows;
      var f := flights[i];
      if !f.stage.Persisted? { return; }
      if !f.stage.ok { Fail(i, if busy then NotDispatched else Unknown, false, gate); return; }
      if !(PermitsInput() && Same(f) && ready && gate && !running) { GiveBack(i, Held); return; }
      flights := flights[i := f.(stage := Verifying)];
    }

    /** A restart now would find the message shown as taken to the backend, unless a command has withheld it. */
    static ghost predicate Shows(stored: Option<Doc>, past: Record, id: Text) {
      id !in past.withheld ==> stored.Some? && FirmIn(stored.value, id)
    }

    static lemma SoundIsStored(s: State)
      requires Inv(s)
      ensures forall k :: 0 <= k < |s.flights| && Sound(s.flights[k]) ==>
                Shows(s.stored, s.past, s.flights[k].item.id)
    {
      hide Documents, Authority, FirmIn, Has, Awaited;
      forall k | 0 <= k < |s.flights| && Sound(s.flights[k])
        ensures Shows(s.stored, s.past, s.flights[k].item.id)
      {
        assert Task(s, s.flights[k]);
      }
    }

    /**
     * The request is counted, and unless a command has withheld its message: no earlier request may have taken it to
     * the backend, the stored document shows it, and no authority for it is left.
     */
    static ghost predicate Requests(s: State, t: State, id: Text) {
      && id in t.past.exposed && Count(t.past.entered, id) == Count(s.past.entered, id) + 1
      && (id !in s.past.withheld ==>
            && id !in s.past.exposed && OutboxSafety.Open(t, id) == 0
            && t.stored.Some? && Has(t.stored.value, id) && FirmIn(t.stored.value, id))
    }

    /** No task is on the wire that was not there before. */
    static predicate NoneEnters(s: State, t: State) {
      forall k :: 0 <= k < |t.flights| ==> t.flights[k].stage != OnWire || t.flights[k] in s.flights
    }

    /** The checks are done: the request enters the wire, or the message is given back. */
    method ModelVerified(i: nat, reply: Reply, gate: bool, fits: bool)
      requires Inv(View()) && i < |flights|
      modifies this
      ensures View() == Enter(old(View()), i, reply, gate, fits) && Inv(View())
      ensures past != old(past) ==> Requests(old(View()), View(), old(flights[i]).item.id)
      ensures past == old(past) ==> NoneEnters(old(View()), View())
    {
      ghost var s := View();
      EnterKeeps(s, i, reply, gate, fits);
      EnterRequests(s, i, reply, gate, fits);
      EnterCases(s, i, reply, gate, fits);
      hide Inv, Requests, NoneEnters, Outbox.Enter;
      Proceed(i, reply, gate, fits);
    }

    /** Hold the send, give it up, or let its request enter the wire. */
    method Proceed(i: nat, reply: Reply, gate: bool, fits: bool)
      requires i < |flights|
      modifies this
      ensures View() == Enter(old(View()), i, reply, gate, fits)
    {
      hide UpdateSend, AfterFailure, Landed, AtStage;
      var f := flights[i];
      if f.stage != Verifying { return; }
      if reply != Receipt { Fail(i, reply, false, gate); return; }
      if !(PermitsInput() && Same(f) && ready && gate) { GiveBack(i, Held); return; }
      if !fits { Fail(i, Unknown, false, gate); return; }
      EnterWire(i);
    }

    method EnterWire(i: nat)
      requires i < |flights|
      modifies this`flights, this`past
      ensures var id := old(flights[i]).item.id;
              View()
                == AtStage(old(View()), i, OnWire).
                    (past := old(past).(entered := old(past).entered[id := Count(old(past).entered, id) + 1],
                                        exposed := old(past).exposed + {id}))
    {
      var id := flights[i].item.id;
      flights := flights[i := flights[i].(stage := OnWire)];
      past := past.(entered := past.entered[id := Count(past.entered, id) + 1], exposed := past.exposed + {id});
    }

    static lemma EnterRequests(s: State, i: nat, reply: Reply, gate: bool, fits: bool)
      requires Inv(s) && i < |s.flights|
      ensures var t := Enter(s, i, reply, gate, fits); t.past != s.past ==> Requests(s, t, s.flights[i].item.id)
    {
      var e, id := Entered(i, reply, gate, fits), s.flights[i].item.id;
      EnterCases(s, i, reply, gate, fits);
      EnterCounts(s, i, reply, gate, fits);
      hide Inv, Enter, OutboxSafety.Open, FirmIn, Has;
      if Next(s, e).past != s.past && id !in s.past.withheld { OnlyStoredMessagesAreSent(s, e, id); }
    }

    static lemma EnterCounts(s: State, i: nat, reply: Reply, gate: bool, fits: bool)
      requires i < |s.flights|
      ensures var id, t := s.flights[i].item.id, Enter(s, i, reply, gate, fits);
              t.past != s.past ==> id in t.past.exposed && Count(t.past.entered, id) == Count(s.past.entered, id) + 1
    {
      hide UpdateSend, AfterFailure, Input, InScope;
    }

    static lemma EnterCases(s: State, i: nat, reply: Reply, gate: bool, fits: bool)
      requires i < |s.flights|
      ensures var t := Enter(s, i, reply, gate, fits);
              && t.stored == s.stored
              && (t.past != s.past ==> s.flights[i].stage == Verifying)
              && (t.past == s.past ==> NoneEnters(s, t))
    {
      hide UpdateSend, AfterFailure, Input, InScope;
    }

    /**
     * The runtime has answered. The task is over, and only a proof that nothing was dispatched may show its message as
     * unsent.
     */
    method RuntimeAnswered(i: nat, reply: Reply, gate: bool, finished: bool)
      requires Inv(View()) && i < |flights|
      modifies this
      ensures View() == Answer(old(View()), i, reply, gate, finished) && Inv(View())
      ensures old(flights[i]).stage == OnWire ==> flights == [] && !slot
      ensures old(flights[i]).stage == OnWire && !FirmIn(doc, old(flights[i]).item.id) ==> ProvenUnsent(reply)
      ensures past.entered == old(past.entered) && past.granted == old(past.granted)
    {
      ghost var s := View();
      AnswerKeeps(s, i, reply, gate, finished);
      if s.flights[i].stage == OnWire { AnswerProves(s, i, reply, gate, finished); }
      hide Inv, FirmIn;
      var f := flights[i];
      if f.stage != OnWire { return; }
      if reply == Receipt {
        ReceiptArrived(i, gate, finished);
      } else {
        Fail(i, reply, true, gate);
        if ProvenUnsent(reply) { past := past.(exposed := past.exposed - {f.item.id}); }
      }
    }

    static lemma AnswerProves(s: State, i: nat, reply: Reply, gate: bool, finished: bool)
      requires Inv(s) && i < |s.flights| && s.flights[i].stage == OnWire
      ensures var t := Answer(s, i, reply, gate, finished);
              t.flights == [] && (!ProvenUnsent(reply) ==> FirmIn(t.doc, s.flights[i].item.id))
    {
      assert |s.flights| == 1;
      FlightsAreOpen(s);
      OpenIsClean(s);
      hide Inv;
      if !ProvenUnsent(reply) {
        FirmUpdate(s.doc, s.flights[i].item.id, Sent);
        FirmUpdate(s.doc, s.flights[i].item.id, Uncertain);
      }
    }

    static lemma FirmUpdate(d: Doc, id: Text, v: Delivery)
      requires Distinct(d) && Firm(Some(v))
      ensures FirmIn(UpdateSend(d, id, v), id)
    {
    }

    /** The backend has the message. Out of scope, its receipt proves nothing about this conversation. */
    method ReceiptArrived(i: nat, ghost gate: bool, finished: bool)
      requires i < |flights| && flights[i].stage == OnWire
      modifies this`doc, this`slot, this`flights, this`running
      ensures View() == Answer(old(View()), i, Receipt, gate, finished)
    {
      if PermitsInput() && Same(flights[i]) {
        GiveBack(i, Sent);
        running := !finished || running;
      } else {
        GiveBack(i, Uncertain);
      }
    }

    // ----- the connection and the store -----

    /** Losing the connection queues nothing, un-sends nothing, and takes its scope from every task that had one. */
    method ConnectionLost()
      requires Inv(View())
      modifies this
      ensures View() == NotReady(old(View())) && Inv(View()) && past == old(past)
      ensures open ==> forall x :: !QueuedIn(doc, x)
      ensures forall x :: old(FirmIn(doc, x)) ==> FirmIn(doc, x)
      ensures old(ready) ==> forall f :: f in flights && old(InScope(View(), f)) ==> !InScope(View(), f)
    {
      NotReadyKeeps(View());
      HoldingIsFirm(doc);
      hide Inv, QueuedIn, FirmIn;
      if ready { wire, evidence := wire + 1, false; }
      ready := false;
      if open { HoldAll(); }
    }

    static lemma HoldingIsFirm(d: Doc)
      ensures forall x :: !QueuedIn(HoldQueued(d), x)
      ensures forall x :: FirmIn(d, x) ==> FirmIn(HoldQueued(d), x)
    {
    }

    /**
     * Whatever waits for the store shows every message that may be at the backend and that no command has withheld,
     * and nothing newer waits before it.
     */
    method Autosave()
      requires Inv(View())
      modifies this`queue
      ensures View() == Save(old(View())) && Inv(View())
      ensures forall q, x :: 0 <= q < |queue| && x in past.exposed && x !in past.withheld ==> FirmIn(queue[q].doc, x)
      ensures queue != old(queue) ==> forall q :: 0 <= q < |queue| ==> queue[q].doc.revision <= doc.revision
    {
      SaveKeeps(View());
      WaitingIsClean(Save(View()));
      hide Inv, FirmIn;
      if PermitsLocalChanges() { queue := queue + [Outbox.Write(doc, None)]; }
    }

    static lemma WaitingIsClean(s: State)
      requires Inv(s)
      ensures forall q, x :: 0 <= q < |s.queue| && x in s.past.exposed && x !in s.past.withheld ==>
                FirmIn(s.queue[q].doc, x)
      ensures LocalChanges(s) ==> forall q :: 0 <= q < |s.queue| ==> s.queue[q].doc.revision <= s.doc.revision
    {
      hide Tasks, Authority, FirmIn;
    }

    /**
     * One write under the store's lock; `ok` is what its caller learns. The stored document never goes back to an older
     * revision or to another epoch, and a write of the newest revision that is reported as done is stored.
     */
    method WriteLocked(document: Doc, outcome: Outcome) returns (ok: bool)
      requires stored.Some? ==> stored.value.revision <= latest
      modifies this`stored, this`latest
      ensures stored.Some? ==> stored.value.revision <= latest
      ensures old(stored).Some? ==> stored.Some? && stored.value.revision >= old(stored).value.revision
                                    && stored.value.epoch == old(stored).value.epoch
      ensures ok && document.revision >= old(latest) ==> stored == Some(document) && latest == document.revision
      ensures View() == Stored(old(View()), document, outcome) && ok == Accepted(old(View()), document, outcome)
    {
      if outcome == Refused || (stored.Some? && stored.value.epoch != document.epoch) { return false; }
      if document.revision < latest { return true; }
      latest := document.revision;
      if outcome == FailedBefore { return false; }
      stored := Some(document);
      return outcome == Done;
    }

    /** A waiting document is written. A task that is told of success has its message in the stored document. */
    method TakeNext(outcome: Outcome)
      requires Inv(View())
      modifies this
      ensures View() == TakeWrite(old(View()), outcome) && Inv(View()) && past == old(past)
      ensures forall k :: 0 <= k < |flights| && flights[k].stage == Persisted(true) ==>
                Shows(stored, past, flights[k].item.id)
    {
      TakeWriteKeeps(View(), outcome);
      SoundIsStored(TakeWrite(View(), outcome));
      if queue == [] { return; }
      StoredIsNoted(View());
      hide Inv, FirmIn, Shows, TakeWrite;
      WriteFirst(outcome);
    }

    /** The first waiting document goes to the store, and whoever waits for it is told. */
    method WriteFirst(outcome: Outcome)
      requires queue != [] && (stored.Some? ==> stored.value.revision <= latest)
      modifies this`stored, this`latest, this`queue, this`flights, this`commands
      ensures View() == TakeWrite(old(View()), outcome)
    {
      hide Stored, Accepted;
      var w := queue[0];
      var ok := WriteLocked(w.doc, outcome);
      queue := queue[1..];
      flights := Told(flights, w.waiter, ok);
      commands := Reported(commands, w.waiter, ok);
    }

    static lemma StoredIsNoted(s: State)
      requires Inv(s) && s.queue != []
      ensures s.stored.Some? ==> s.stored.value.revision <= s.latest
    {
    }

    /** Settle each message in place, and say whether any changed. */
    static method Settle(found: Doc) returns (conversation: Doc)
      ensures conversation == Recovered(found)
    {
      var items, changed := found.items, false;
      for k := 0 to |items|
        invariant |items| == |found.items|
        invariant forall j :: 0 <= j < |items| ==> items[j] == if j < k then Settled(found.items[j]) else found.items[j]
        invariant changed <==> exists j :: 0 <= j < k && items[j] != found.items[j]
      {
        if items[k].owned && items[k].delivery == Some(Sending) {
          items, changed := items[k := items[k].(delivery := Some(Uncertain))], true;
        } else if items[k].owned && items[k].delivery == Some(Queued) {
          items, changed := items[k := items[k].(delivery := Some(Held))], true;
        }
      }
      assert items == Each(found.items, Settled);
      conversation := if changed then found.(items := items, revision := found.revision + 1) else found;
    }

    /** Show the conversation, once it is stored if settling changed it. */
    method ShowSettled(conversation: Doc, outcome: Outcome)
      requires stored.Some? ==> stored.value.revision <= latest
      modifies this`open, this`doc, this`stored, this`latest
      ensures View() == Show(old(View()), conversation, outcome)
    {
      if stored != Some(conversation) {
        var ok := WriteLocked(conversation, outcome);
        if !ok { return; }
      }
      hide Stored, Accepted;
      open, doc := true, conversation;
    }

    /** Read after a restart: what can no longer be known is settled and stored before it is shown. */
    method ReadLocked(outcome: Outcome)
      requires Inv(View())
      modifies this`open, this`doc, this`stored, this`latest
      ensures View() == Load(old(View()), outcome) && Inv(View())
      ensures open && !old(open) ==>
                forall x :: !QueuedIn(doc, x) && (x in past.exposed - past.withheld ==> FirmIn(doc, x))
    {
      LoadKeeps(View(), outcome);
      if !open { LoadSettles(View(), outcome); }
      hide Inv, QueuedIn, FirmIn, Outbox.Load;
      ReadStored(outcome);
    }

    method ReadStored(outcome: Outcome)
      modifies this`open, this`doc, this`stored, this`latest
      ensures View() == Load(old(View()), outcome)
    {
      hide Show, Recovered;
      if open { return; }
      if stored.None? {
        open, doc := true, Doc(0, [], None, false);
        return;
      }
      var conversation := Settle(stored.value);
      latest := if latest < stored.value.revision then stored.value.revision else latest;
      ShowSettled(conversation, outcome);
    }

    static lemma LoadSettles(s: State, outcome: Outcome)
      requires Inv(s) && !s.open
      ensures var t := Load(s, outcome);
              t.open ==> forall x :: !QueuedIn(t.doc, x) && (x in t.past.exposed - t.past.withheld ==> FirmIn(t.doc, x))
    {
      LoadKeeps(s, outcome);
      EmptyIsUnqueued();
      if s.stored.Some? { RecoveredKeeps(s.stored.value, s.past); }
      hide Recovered, QueuedIn, FirmIn, Tasks, Authority;
    }
  }
}
