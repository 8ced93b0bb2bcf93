/**
 * What becomes of a message whose dispatch is uncertain: what may show it as held again, and what it takes to queue it.
 */
module OutboxUncertainty {
  import opened Wrappers
  import opened HistoryTypes
  import opened Outbox
  import opened OutboxSafety

  /** What the document shows of a message. */
  function DeliveryOf(doc: Doc, id: Text): Option<Delivery> {
    var at := Find(doc.items, id);
    if at.None? then None else doc.items[at.value].delivery
  }

  // ----- how changes of the document change it -----

  lemma SoleItem(d: Doc, k: nat)
    requires Distinct(d) && k < |d.items|
    ensures DeliveryOf(d, d.items[k].id) == d.items[k].delivery
  {
  }

  lemma UpdatedDelivery(d: Doc, x: Text, v: Delivery, id: Text)
    requires Find(d.items, id).Some?
    ensures DeliveryOf(UpdateSend(d, x, v), id)
         == if x == id && DeliveryOf(d, id) != Some(Delivered) then Some(v) else DeliveryOf(d, id)
  {
    var e := UpdateSend(d, x, v);
    if Find(d.items, x).Some? { SameFind(d.items, e.items, id); }
  }

  lemma {:induction false} SameFind(a: seq<Item>, b: seq<Item>, id: Text)
    requires |a| == |b| && forall k :: 0 <= k < |a| ==> a[k].id == b[k].id
    ensures Find(a, id) == Find(b, id)
  {
    if a != [] {
      SameFind(a[1..], b[1..], id);
    }
  }

  lemma EachDelivery(d: Doc, f: Item -> Item, id: Text)
    requires Find(d.items, id).Some? && forall x :: f(x).id == x.id
    ensures var e := d.(items := Each(d.items, f));
            Find(e.items, id) == Find(d.items, id) && DeliveryOf(e, id) == f(d.items[Find(d.items, id).value]).delivery
  {
    SameFind(d.items, Each(d.items, f), id);
  }

  lemma AppendedDelivery(d: Doc, item: Item, id: Text)
    requires Find(d.items, id).Some?
    ensures DeliveryOf(d.(items := d.items + [item]), id) == DeliveryOf(d, id)
  {
    var i, more := Find(d.items, id).value, d.items + [item];
    assert more[i].id == id;
    var j := Find(more, id).value;
    assert j <= i;
    assert j < |d.items| && d.items[j] == more[j];
  }

  lemma DroppedDelivery(d: Doc, at: nat, id: Text)
    requires Distinct(d) && at < |d.items| && d.items[at].id != id && Find(d.items, id).Some?
    ensures DeliveryOf(d.(items := d.items[..at] + d.items[at + 1..]), id) == DeliveryOf(d, id)
  {
    var e, i := d.(items := d.items[..at] + d.items[at + 1..]), Find(d.items, id).value;
    DropKeeps(d, e, at);
    var k := if i < at then i else i - 1;
    assert e.items[k] == d.items[i];
    SoleItem(e, k);
  }

  lemma ReplacedDelivery(d: Doc, at: nat, item: Item, id: Text)
    requires at < |d.items| && item.id == d.items[at].id && Find(d.items, id).Some? && Find(d.items, id).value != at
    ensures DeliveryOf(With(d, at, item), id) == DeliveryOf(d, id)
  {
    SameFind(d.items, With(d, at, item).items, id);
  }

  // ----- from uncertain to held -----

  /** The events that show an uncertain message as held. */
  ghost predicate Withdraws(s: State, e: Event, id: Text) {
    || (TaskEvent(e) && e.i < |s.flights| && s.flights[e.i].item.id == id && GivesBack(s, e, s.flights[e.i]))
    || (&& e.Finished? && e.k < |s.commands| && s.commands[e.k].id == id
        && s.commands[e.k].told.Some? && !Stands(s, s.commands[e.k], e.gate))
    || (&& e.Adopted? && Adopting(s)
        && DeliveryOf(s.operation.value.committed.value, id).Some?
        && SettlesHeld(s.operation.value.committed.value, id))
  }

  /** What a new physical session committed shows it as held, or as queued, which a new session holds. */
  predicate SettlesHeld(committed: Doc, id: Text)
    requires DeliveryOf(committed, id).Some?
  {
    var item := committed.items[Find(committed.items, id).value];
    item.delivery == Some(Held) || (item.delivery == Some(Queued) && item.owned)
  }

  /**
   * The message's own task ends before the wire, or with proof that nothing was dispatched, after it lost its scope,
   * its gates or its turn. It had reserved the message, which a rollover has since settled as uncertain.
   */
  predicate GivesBack(s: State, e: Event, f: Flight)
    requires TaskEvent(e)
  {
    || (e.Confirmed? && f.stage == Persisted(true) && !(Input(s) && InScope(s, f) && s.ready && e.gate && !s.running))
    || (e.Confirmed? && f.stage == Persisted(false) && (!InScope(s, f) || (e.busy && !e.gate)))
    || (e.Entered? && f.stage == Verifying && e.reply == Receipt && !(Input(s) && InScope(s, f) && s.ready && e.gate))
    || (e.Entered? && f.stage == Verifying && e.reply in {NotDispatched, Rejected, Unknown}
        && (!InScope(s, f) || (!e.gate && ProvenUnsent(e.reply))))
    || (e.Answered? && f.stage == OnWire && ProvenUnsent(e.reply) && (!InScope(s, f) || !e.gate))
  }

  /** What recording a result of the task does to an uncertain message. */
  ghost predicate Records(doc: Doc, x: Text, id: Text) {
    forall v: Delivery :: DeliveryOf(UpdateSend(doc, x, v), id) == if x == id then Some(v) else Some(Uncertain)
  }

  lemma ConfirmWithdraws(s: State, i: nat, busy: bool, gate: bool, id: Text)
    requires i < |s.flights| && DeliveryOf(s.doc, id) == Some(Uncertain) && Records(s.doc, s.flights[i].item.id, id)
    ensures DeliveryOf(Confirm(s, i, busy, gate).doc, id) == Some(Held)
       <==> s.flights[i].item.id == id && GivesBack(s, Confirmed(i, busy, gate), s.flights[i])
  {
    hide UpdateSend, DeliveryOf, Input, InScope;
  }

  lemma EnterWithdraws(s: State, i: nat, reply: Reply, gate: bool, fits: bool, id: Text)
    requires i < |s.flights| && DeliveryOf(s.doc, id) == Some(Uncertain) && Records(s.doc, s.flights[i].item.id, id)
    ensures DeliveryOf(Enter(s, i, reply, gate, fits).doc, id) == Some(Held)
       <==> s.flights[i].item.id == id && GivesBack(s, Entered(i, reply, gate, fits), s.flights[i])
  {
    hide UpdateSend, DeliveryOf, Input, InScope;
  }

  lemma AnswerWithdraws(s: State, i: nat, reply: Reply, gate: bool, finished: bool, id: Text)
    requires i < |s.flights| && DeliveryOf(s.doc, id) == Some(Uncertain) && Records(s.doc, s.flights[i].item.id, id)
    ensures DeliveryOf(Answer(s, i, reply, gate, finished).doc, id) == Some(Held)
       <==> s.flights[i].item.id == id && GivesBack(s, Answered(i, reply, gate, finished), s.flights[i])
  {
    hide UpdateSend, DeliveryOf, Input, InScope;
  }

  lemma PrepareWithdraws(s: State, i: nat, reply: Reply, gate: bool, id: Text)
    requires i < |s.flights| && DeliveryOf(s.doc, id) == Some(Uncertain) && Records(s.doc, s.flights[i].item.id, id)
    ensures DeliveryOf(Prepare(s, i, reply, gate).doc, id) != Some(Held)
  {
    assert s.flights[i].item.id == id ==> !StillQueued(s.doc, s.flights[i]);
    hide UpdateSend, DeliveryOf, Input, InScope, StillQueued;
  }

  lemma WithdrawingTask(s: State, e: Event, id: Text)
    requires TaskEvent(e) && e.i < |s.flights|
    ensures Withdraws(s, e, id) <==> s.flights[e.i].item.id == id && GivesBack(s, e, s.flights[e.i])
    ensures e.Prepared? ==> !GivesBack(s, e, s.flights[e.i])
  {
    hide Input, InScope, DeliveryOf, SettlesHeld, Stands, Adopting;
  }

  lemma ResultsAreRecorded(doc: Doc, x: Text, id: Text)
    requires DeliveryOf(doc, id) == Some(Uncertain)
    ensures Records(doc, x, id)
  {
    assert Find(doc.items, id).Some?;
    forall v: Delivery { UpdatedDelivery(doc, x, v, id); }
    hide UpdateSend, DeliveryOf, Find;
  }

  lemma TaskWithdraws(s: State, e: Event, id: Text)
    requires s.open && TaskEvent(e) && DeliveryOf(s.doc, id) == Some(Uncertain)
    ensures DeliveryOf(Next(s, e).doc, id) == Some(Held) <==> Withdraws(s, e, id)
  {
    hide DeliveryOf, Prepare, Confirm, Enter, Answer, Records, GivesBack, Adopting, SettlesHeld;
    if e.i < |s.flights| {
      ResultsAreRecorded(s.doc, s.flights[e.i].item.id, id);
      WithdrawingTask(s, e, id);
      hide Withdraws;
      match e
      case Prepared(i, reply, gate) => PrepareWithdraws(s, i, reply, gate, id);
      case Confirmed(i, busy, gate) => ConfirmWithdraws(s, i, busy, gate, id);
      case Entered(i, reply, gate, fits) => EnterWithdraws(s, i, reply, gate, fits, id);
      case Answered(i, reply, gate, finished) => AnswerWithdraws(s, i, reply, gate, finished, id);
    }
  }

  lemma EditWithdrawsNothing(s: State, e: Event, id: Text)
    requires Distinct(s.doc) && s.open && (e.Editing? || e.Edited?) && DeliveryOf(s.doc, id) == Some(Uncertain)
    ensures DeliveryOf(Next(s, e).doc, id) == Some(Uncertain)
  {
    var d, at := s.doc, Find(s.doc.items, e.id);
    if Next(s, e) != s {
      var item := d.items[at.value];
      if e.Editing? {
        ReplacedDelivery(d, at.value, item.(delivery := Some(Held)), id);
      } else {
        ReplacedDelivery(d, at.value, item.(body := e.body), id);
      }
    }
    hide LocalChanges;
  }

  lemma UserWithdrawsNothing(s: State, e: Event, id: Text)
    requires Inv(s) && s.open && UserEvent(e) && DeliveryOf(s.doc, id) == Some(Uncertain)
    ensures DeliveryOf(Next(s, e).doc, id) == Some(Uncertain)
  {
    OpenIsClean(s);
    var d, at := s.doc, Find(s.doc.items, e.id);
    assert Distinct(d);
    hide Inv, Clean, Distinct, HoldForEdit, ChangeText;
    match e
    case Composed(x, body, gate) =>
      if Next(s, e) != s { AppendedDelivery(d, Item(x, true, Some(x), body, d.epoch, Some(Queued)), id); }
    case Editing(x) => EditWithdrawsNothing(s, e, id);
    case Edited(x, body) => EditWithdrawsNothing(s, e, id);
    case SentNow(x, gate) =>
      if Next(s, e) != s {
        ReplacedDelivery(d, at.value, d.items[at.value].(epoch := d.epoch, delivery := Some(Queued)), id);
      }
    case Removed(x) =>
      if Next(s, e) != s { DroppedDelivery(d, at.value, id); }
  }

  lemma MappedWithdrawsNothing(s: State, e: Event, id: Text)
    requires s.open && (e.Disconnected? || e.AccessLost? || e.Merged?) && DeliveryOf(s.doc, id) == Some(Uncertain)
    ensures DeliveryOf(Next(s, e).doc, id) in {Some(Uncertain), Some(Delivered)}
  {
    EachDelivery(s.doc, Hold, id);
    if e.Merged? { EachDelivery(s.doc, x => Marked(x, e.echoed, s.doc.epoch), id); }
  }

  lemma AdoptWithdraws(s: State, dirty: bool, id: Text)
    requires Adopting(s) && DeliveryOf(s.doc, id) == Some(Uncertain)
    ensures DeliveryOf(Adopt(s, dirty).doc, id) == Some(Held) <==> Withdraws(s, Adopted(dirty), id)
  {
    var c, t := s.operation.value.committed.value, Adopt(s, dirty);
    assert t.doc.items == Each(c.items, Settled);
    SameFind(c.items, t.doc.items, id);
    hide Adopt, Find, Inv;
  }

  lemma CommandWithdraws(s: State, e: Event, id: Text)
    requires s.open && CommandEvent(e) && DeliveryOf(s.doc, id) == Some(Uncertain)
    ensures DeliveryOf(Next(s, e).doc, id) == Some(Held) <==> Withdraws(s, e, id)
  {
    assert Find(s.doc.items, id).Some?;
    if e.Ordered? {
      OrderWithdrawsNothing(s, e.id, e.body, e.gate, id);
      hide Order, DeliveryOf, Find;
    } else if e.k < |s.commands| {
      FinishWithdraws(s, e.k, e.gate, id);
      hide Finish, DeliveryOf, Find, Stands;
    }
  }

  lemma OrderWithdrawsNothing(s: State, x: Text, body: nat, gate: bool, id: Text)
    requires Find(s.doc.items, id).Some?
    ensures DeliveryOf(Order(s, x, body, gate).doc, id) == DeliveryOf(s.doc, id)
  {
    AppendedDelivery(s.doc, Item(x, true, Some(x), body, s.doc.epoch, Some(Queued)), id);
    hide Find, Admits, DeliveryOf;
  }

  lemma FinishWithdraws(s: State, k: nat, gate: bool, id: Text)
    requires k < |s.commands| && DeliveryOf(s.doc, id) == Some(Uncertain) && Find(s.doc.items, id).Some?
    ensures DeliveryOf(Finish(s, k, gate).doc, id) == Some(Held)
       <==> s.commands[k].id == id && s.commands[k].told.Some? && !Stands(s, s.commands[k], gate)
  {
    var t := s.(commands := s.commands[..k] + s.commands[k + 1..]);
    assert Stands(t, s.commands[k], gate) <==> Stands(s, s.commands[k], gate);
    UpdatedDelivery(s.doc, s.commands[k].id, Held, id);
    hide UpdateSend, DeliveryOf, Find, Dispatching, Stands;
  }

  /** Exactly these events show an uncertain message as held. */
  lemma UncertainIsHeldIff(s: State, e: Event, id: Text)
    requires Inv(s) && s.open && DeliveryOf(s.doc, id) == Some(Uncertain) && Next(s, e).open
    ensures DeliveryOf(Next(s, e).doc, id) == Some(Held) <==> Withdraws(s, e, id)
  {
    if TaskEvent(e) {
      TaskWithdraws(s, e, id);
    } else if CommandEvent(e) {
      CommandWithdraws(s, e, id);
    } else if UserEvent(e) {
      UserWithdrawsNothing(s, e, id);
    } else if e.Disconnected? || e.AccessLost? || e.Merged? {
      MappedWithdrawsNothing(s, e, id);
    } else if e.Adopted? && Adopting(s) {
      AdoptWithdraws(s, e.dirty, id);
    } else {
      QuietSteps(s, e);
    }
  }

  // ----- from uncertain to queued, over runs -----

  lemma IdsGrow(s: State, e: Event)
    ensures s.past.ids <= Next(s, e).past.ids
  {
    hide Order, Prepare, Confirm, Enter, Answer, TakeWrite, CatchUp, Transact, Drain, Save, Begin, Compose, HoldForEdit;
    hide ChangeText, SendNow, Remove, NotReady, Merge, Adopt, Crash, Load, Switch, Finish, HoldQueued;
  }

  lemma {:induction false} IdsGrowOverRun(states: seq<State>, events: seq<Event>, i: nat, j: nat)
    requires Run(states, events) && i <= j < |states|
    ensures states[i].past.ids <= states[j].past.ids
    decreases j
  {
    if i < j {
      hide Next;
      RunStep(states, events, j - 1);
      IdsGrowOverRun(states, events, i, j - 1);
      IdsGrow(states[j - 1], events[j - 1]);
    }
  }

  /** The user asks for a message that is shown as held, and it is queued. */
  predicate QueuedByUser(s: State, e: Event, t: State, id: Text) {
    && e.SentNow? && e.id == id && s.open && QueuedIn(t.doc, id)
    && exists k :: 0 <= k < |s.doc.items| && s.doc.items[k].id == id && s.doc.items[k].delivery == Some(Held)
  }

  /**
   * Over any run, with any crashes, disconnects, rollovers and restarts in it: an uncertain message is queued again
   * only after it has been shown as held and the user has asked for it.
   */
  lemma {:induction false} UncertainIsNotQueuedAgain(states: seq<State>, events: seq<Event>, i: nat, j: nat, id: Text)
    returns (m: nat)
    requires Run(states, events) && i < j < |states| && states[i].open && states[j].open
    requires DeliveryOf(states[i].doc, id) == Some(Uncertain) && QueuedIn(states[j].doc, id)
    ensures i <= m < j && |states| == |events| + 1 && QueuedByUser(states[m], events[m], states[m + 1], id)
    decreases j
  {
    hide Inv, Next, DeliveryOf, QueuedIn, Follows;
    assert |states| == |events| + 1;
    hide Run;
    RunStep(states, events, j - 1);
    var s, e := states[j - 1], events[j - 1];
    RunsAreSafe(states, events, j - 1);
    RunsAreSafe(states, events, i);
    UncertainIsKnown(states[i], id);
    if s.open && QueuedIn(s.doc, id) {
      if j - 1 == i {
        assert false;
      } else {
        m := UncertainIsNotQueuedAgain(states, events, i, j - 1, id);
      }
    } else {
      m := j - 1;
      IdsGrowOverRun(states, events, i, j - 1);
      KnownIsQueuedByUser(s, e, id);
    }
  }

  lemma KnownIsQueuedByUser(s: State, e: Event, id: Text)
    requires Inv(s) && Next(s, e).open && QueuedIn(Next(s, e).doc, id) && !(s.open && QueuedIn(s.doc, id))
    requires id in s.past.ids
    ensures QueuedByUser(s, e, Next(s, e), id)
  {
    hide Inv, QueuedIn;
    assert e.SentNow? && !s.open ==> Next(s, e) == s by { hide Find, Input, StillQueued, PendingCount; }
    hide Next;
    QueueingNeedsTheUser(s, e, id);
  }

  lemma UncertainIsKnown(s: State, id: Text)
    requires Inv(s) && s.open && DeliveryOf(s.doc, id) == Some(Uncertain)
    ensures id in s.past.ids && !QueuedIn(s.doc, id)
  {
    OpenIsClean(s);
    UncertainIsUnqueued(s.doc, s.past, Find(s.doc.items, id).value);
  }

  // ----- a run that shows it -----

  /** The message of the run, and the conversation as the run goes on. */
  function Sample(delivery: Delivery): Item { Item([1], true, Some([1]), 0, Some(0), Some(delivery)) }

  function Showing(revision: nat, items: seq<Item>, epoch: Id): Doc { Doc(revision, items, Some(epoch), false) }

  function Past(used: bool, epochs: set<Id>): Record {
    Record(if used then map[[1] := 1] else map[], map[], {}, if used then {[1]} else {}, epochs, {})
  }

  function Task(stage: Stage): Flight { Flight(0, Sample(Queued), Some(0), 0, 0, stage) }

  function At(doc: Doc, flights: seq<Flight>, next: nat, operation: Option<Operation>, stored: Doc, queue: seq<Write>,
              past: Record): State {
    State(true, doc, true, true, 0, 0, false, flights != [], flights, [], next, operation, false, Some(stored),
          stored.revision, queue, past)
  }

  /**
   * Written, reserved and stored; then a new physical session is committed and adopted, which makes the message
   * uncertain; then its task sees that it has lost its scope, and shows it as held. No request for it was ever made.
   */
  function EventAt(k: nat): Event {
    match k
    case 0 => Loaded(Done)
    case 1 => Connected
    case 2 => Merged({}, true)
    case 3 => Composed([1], 0, true)
    case 4 => Drained(true)
    case 5 => Prepared(0, Receipt, true)
    case 6 => Wrote(Done)
    case 7 => Began
    case 8 => Transacted(Some(1), Done)
    case 9 => Adopted(false)
    case _ => Confirmed(0, false, true)
  }

  function Begun(ready: bool, open: bool): State {
    State(open, Showing(0, [], 0), ready, false, 0, 0, false, false, [], [], 0, None, false,
          Some(Showing(0, [], 0)), 0, [], Past(false, {0}))
  }

  function StateAt(k: nat): State {
    var stored, queued := Showing(0, [], 0), Showing(2, [Sample(Queued)], 0);
    var sending, committed := Showing(3, [Sample(Sending)], 0), Showing(4, [Sample(Sending)], 1);
    var adopted, held := Showing(5, [Sample(Uncertain)], 1), Showing(6, [Sample(Held)], 1);
    match k
    case 0 => Begun(false, false)
    case 1 => Begun(false, true)
    case 2 => Begun(true, true)
    case 3 => At(Showing(1, [], 0), [], 0, None, stored, [], Past(false, {0}))
    case 4 => At(queued, [], 0, None, stored, [], Past(true, {0}))
    case 5 => At(queued, [Task(Preparing)], 1, None, stored, [], Past(true, {0}))
    case 6 => At(sending, [Task(Persisting)], 1, None, stored, [Write(sending, Some(0))], Past(true, {0}))
    case 7 => At(sending, [Task(Persisted(true))], 1, None, sending, [], Past(true, {0}))
    case 8 => At(sending, [Task(Persisted(true))], 1, Some(Operation(sending, None)), sending, [], Past(true, {0}))
    case 9 =>
      At(sending, [Task(Persisted(true))], 1, Some(Operation(sending, Some(committed))), committed, [],
         Past(true, {0, 1}))
    case 10 =>
      At(adopted, [Task(Persisted(true))], 1, None, committed, [Write(adopted, None)], Past(true, {0, 1}))
      .(evidence := false)
    case _ =>
      At(held, [], 1, None, committed, [Write(adopted, None)], Past(true, {0, 1})).(evidence := false)
  }

  predicate Steps(k: nat) { Next(StateAt(k), EventAt(k)) == StateAt(k + 1) }

  lemma Single(revision: nat, from: Delivery, to: Delivery, epoch: Id)
    requires from != Delivered
    ensures Find([Sample(from)], [1]) == Some(0)
    ensures UpdateSend(Showing(revision, [Sample(from)], epoch), [1], to)
         == Showing(revision + 1, [Sample(to)], epoch)
  {
  }

  lemma Step0()
    ensures Steps(0)
  {
    assert Each([], Settled) == [];
  }

  lemma Step1()
    ensures Steps(1)
  {
  }

  lemma Step2()
    ensures Steps(2)
  {
    assert Each([], x => Marked(x, {}, Some(0))) == [];
  }

  lemma Step3()
    ensures Steps(3)
  {
    assert PendingCount([]) == 0;
    hide PendingCount;
    assert Admits(StateAt(3), [1], true);
    assert StateAt(4).past == Granted(StateAt(3).past, [1]).(ids := {} + {[1]});
    hide Admits, Granted;
  }

  lemma Step4()
    ensures Steps(4)
  {
  }

  lemma Step5()
    ensures Steps(5)
  {
    Single(2, Queued, Sending, 0);
    hide UpdateSend, Find;
  }

  lemma Step6()
    ensures Steps(6)
  {
  }

  lemma Step7()
    ensures Steps(7)
  {
  }

  lemma TransactCommits(s: State, epoch: Id)
    requires Waiting(s) && Matches(s.stored, s.operation.value.original) && epoch !in s.past.epochs
    ensures var doc := Replaced(s.stored.value, Some(epoch));
            Transact(s, Some(epoch), Done)
              == s.(operation := Some(Operation(s.operation.value.original, Some(doc))),
                    past := s.past.(epochs := s.past.epochs + {epoch}), stored := Some(doc), latest := doc.revision)
  {
    hide Replaced;
  }

  lemma Step8()
    ensures Steps(8)
  {
    hide Retained, Replaced, Transact;
    ReplacedSample();
    assert {0} + {1} == {0, 1};
    TransactCommits(StateAt(8), 1);
  }

  lemma ReplacedSample()
    ensures Replaced(Showing(3, [Sample(Sending)], 0), Some(1)) == Showing(4, [Sample(Sending)], 1)
  {
    assert Retained([Sample(Sending)]) == [Sample(Sending)];
    hide Retained;
  }

  lemma Step9()
    ensures Steps(9)
  {
    assert Each([Sample(Sending)], Settled) == [Sample(Uncertain)];
    hide Each;
  }

  lemma Step10()
    ensures Steps(10)
  {
    Single(5, Uncertain, Held, 1);
    hide UpdateSend, Find, AfterFailure;
  }

  lemma EveryStep(k: nat)
    requires k < 11
    ensures Steps(k)
  {
    hide Steps;
    match k
    case 0 => Step0();
    case 1 => Step1();
    case 2 => Step2();
    case 3 => Step3();
    case 4 => Step4();
    case 5 => Step5();
    case 6 => Step6();
    case 7 => Step7();
    case 8 => Step8();
    case 9 => Step9();
    case 10 => Step10();
  }

  function States(): (states: seq<State>)
    ensures |states| == 12 && forall k :: 0 <= k < 12 ==> states[k] == StateAt(k)
  {
    seq(12, k requires 0 <= k < 12 => StateAt(k))
  }

  function Events(): (events: seq<Event>)
    ensures |events| == 11 && forall k :: 0 <= k < 11 ==> events[k] == EventAt(k)
  {
    seq(11, k requires 0 <= k < 11 => EventAt(k))
  }

  lemma EveryStepFollows(k: nat)
    requires k < 11
    ensures Follows(States(), Events(), k)
  {
    EveryStep(k);
    hide Next, StateAt, EventAt, States, Events;
  }

  lemma ItRuns()
    ensures Run(States(), Events())
  {
    assert Start(StateAt(0));
    forall k: nat | k < |Events()|
      ensures Follows(States(), Events(), k)
    {
      EveryStepFollows(k);
    }
    hide Follows, StateAt, EventAt, Start, States, Events;
  }

  lemma ItWithdraws()
    ensures DeliveryOf(StateAt(10).doc, [1]) == Some(Uncertain) && DeliveryOf(StateAt(11).doc, [1]) == Some(Held)
    ensures Withdraws(StateAt(10), EventAt(10), [1]) && StateAt(11).past.entered == map[]
  {
  }

  /** A message that was never requested becomes uncertain, and then held, without any word from the runtime. */
  lemma UncertainBecomesHeld()
    ensures var states, events := States(), Events();
            && Run(states, events)
            && DeliveryOf(states[10].doc, [1]) == Some(Uncertain) && DeliveryOf(states[11].doc, [1]) == Some(Held)
            && Withdraws(states[10], events[10], [1]) && states[11].past.entered == map[]
  {
    hide Run, Withdraws, DeliveryOf, States, Events, StateAt, EventAt;
    ItRuns();
    ItWithdraws();
  }
}
