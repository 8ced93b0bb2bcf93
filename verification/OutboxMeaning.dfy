/** What each event does to the messages, in terms of what the user sees of them, and in what order they are sent. */
module OutboxMeaning {
  import opened Wrappers
  import opened HistoryTypes
  import opened Outbox
  import opened OutboxSafety

  // ----- the order of sending -----

  /** The user's message waits to be sent in the present conversation. */
  predicate InLine(item: Item, epoch: Option<Id>) { item.owned && item.delivery == Some(Queued) && item.epoch == epoch }

  /** The message at `at` waits, and none before it does. */
  predicate IsNext(doc: Doc, at: nat) {
    && at < |doc.items| && InLine(doc.items[at], doc.epoch)
    && forall k :: 0 <= k < at ==> !InLine(doc.items[k], doc.epoch)
  }

  lemma {:induction false} FirstFromIsFirst(doc: Doc, k: nat)
    requires k <= |doc.items|
    ensures var at := FirstFrom(doc, k);
            && (at.Some? ==> k <= at.value < |doc.items| && InLine(doc.items[at.value], doc.epoch)
                             && forall j :: k <= j < at.value ==> !InLine(doc.items[j], doc.epoch))
            && (at.None? ==> forall j :: k <= j < |doc.items| ==> !InLine(doc.items[j], doc.epoch))
    decreases |doc.items| - k
  {
    if k < |doc.items| && !Sendable(doc.items[k], doc.epoch) { FirstFromIsFirst(doc, k + 1); }
  }

  /** The conversation takes input: it is shown, not fenced, of a known epoch, and connected. */
  predicate Permits(s: State) {
    && s.open && s.operation.None? && !s.failed && s.evidence && s.doc.epoch.Some? && !s.doc.unconfirmed && s.ready
  }

  /** A task starts for the message at `at`. */
  predicate Starts(s: State, t: State, at: nat) {
    && IsNext(s.doc, at) && t.doc == s.doc && t.slot && !s.slot
    && t.flights == s.flights + [Flight(s.nextNumber, s.doc.items[at], s.doc.epoch, s.activation, s.wire, Preparing)]
  }

  /**
   * The queue is drained in order. A task starts only for the first message that waits; it does start when the
   * conversation permits it, nothing runs, no task exists and that message has a key.
   */
  lemma DrainTells(s: State, gate: bool)
    ensures var t := Drain(s, gate);
            && (t != s ==> exists at: nat :: Starts(s, t, at))
            && (forall at: nat :: IsNext(s.doc, at) ==>
                  (t != s <==> Permits(s) && gate && !s.running && !s.slot && s.doc.items[at].key.Some?))
            && ((forall at: nat :: !IsNext(s.doc, at)) ==> t == s)
  {
    FirstFromIsFirst(s.doc, 0);
    var at := FirstQueued(s.doc);
    if at.Some? {
      assert IsNext(s.doc, at.value);
      assert Drain(s, gate) != s ==> Starts(s, Drain(s, gate), at.value);
    }
  }

  /** A task of `t` goes on from one of `s`: the same number, the same message, the same scope. */
  predicate GoesOn(s: State, f: Flight) {
    exists g :: g in s.flights && g.number == f.number && g.item == f.item && g.epoch == f.epoch
                && g.activation == f.activation && g.wire == f.wire
  }

  /** No event but a drain starts a task. */
  lemma OnlyDrainsStart(s: State, e: Event, f: Flight)
    requires f in Next(s, e).flights && !GoesOn(s, f)
    ensures e.Drained? && exists at: nat :: IsNext(s.doc, at) && s.doc.items[at] == f.item
  {
    if e.Drained? {
      DrainTells(s, e.gate);
      assert f !in s.flights;
    } else {
      OthersGoOn(s, e);
    }
  }

  /** Every task of `t` goes on from one of `s`. */
  ghost predicate AllGoOn(s: State, t: State) { forall f :: f in t.flights ==> GoesOn(s, f) }

  lemma SameGoOn(s: State, t: State)
    requires t.flights == s.flights || t.flights == []
    ensures AllGoOn(s, t)
  {
  }

  lemma LandedGoOn(s: State, t: State, i: nat)
    requires i < |s.flights| && t.flights == s.flights[..i] + s.flights[i + 1..]
    ensures AllGoOn(s, t)
  {
    assert forall f :: f in t.flights ==> f in s.flights;
  }

  lemma StagedGoOn(s: State, t: State, i: nat, stage: Stage)
    requires i < |s.flights| && t.flights == s.flights[i := s.flights[i].(stage := stage)]
    ensures AllGoOn(s, t)
  {
    forall f | f in t.flights
      ensures GoesOn(s, f)
    {
      var k :| 0 <= k < |t.flights| && t.flights[k] == f;
      assert s.flights[k] in s.flights;
    }
  }

  lemma ToldGoOn(s: State, t: State, number: Option<nat>, ok: bool)
    requires t.flights == Told(s.flights, number, ok)
    ensures AllGoOn(s, t)
  {
    forall f | f in t.flights
      ensures GoesOn(s, f)
    {
      var k :| 0 <= k < |t.flights| && t.flights[k] == f;
      assert s.flights[k] in s.flights;
    }
  }

  lemma PreparedGoesOn(s: State, i: nat, reply: Reply, gate: bool)
    requires i < |s.flights|
    ensures AllGoOn(s, Prepare(s, i, reply, gate))
  {
    hide UpdateSend, Find, Input, StillQueued, InScope, AfterFailure, AllGoOn;
    var t := Prepare(s, i, reply, gate);
    assert t.flights
      in {AtStage(s, i, Persisting).flights, s.flights, Landed(s, i).flights};
    if t.flights == AtStage(s, i, Persisting).flights {
      StagedGoOn(s, t, i, Persisting);
    } else if t.flights == s.flights {
      SameGoOn(s, t);
    } else {
      LandedGoOn(s, t, i);
    }
  }

  lemma ConfirmedGoesOn(s: State, i: nat, busy: bool, gate: bool)
    requires i < |s.flights|
    ensures AllGoOn(s, Confirm(s, i, busy, gate))
  {
    hide UpdateSend, Find, Input, InScope, AfterFailure, AllGoOn;
    var t := Confirm(s, i, busy, gate);
    assert t.flights == AtStage(s, i, Verifying).flights || t.flights == s.flights || t.flights == Landed(s, i).flights;
    if t.flights == AtStage(s, i, Verifying).flights {
      StagedGoOn(s, t, i, Verifying);
    } else if t.flights == s.flights {
      SameGoOn(s, t);
    } else {
      LandedGoOn(s, t, i);
    }
  }

  lemma EnteredGoesOn(s: State, i: nat, reply: Reply, gate: bool, fits: bool)
    requires i < |s.flights|
    ensures AllGoOn(s, Enter(s, i, reply, gate, fits))
  {
    hide UpdateSend, Find, Input, InScope, AfterFailure, AllGoOn;
    var t := Enter(s, i, reply, gate, fits);
    assert t.flights == AtStage(s, i, OnWire).flights || t.flights == s.flights || t.flights == Landed(s, i).flights;
    if t.flights == AtStage(s, i, OnWire).flights {
      StagedGoOn(s, t, i, OnWire);
    } else if t.flights == s.flights {
      SameGoOn(s, t);
    } else {
      LandedGoOn(s, t, i);
    }
  }

  lemma AnsweredGoesOn(s: State, i: nat, reply: Reply, gate: bool, finished: bool)
    requires i < |s.flights|
    ensures AllGoOn(s, Answer(s, i, reply, gate, finished))
  {
    hide UpdateSend, Find, Input, InScope, AfterFailure, AllGoOn;
    var t := Answer(s, i, reply, gate, finished);
    assert t.flights == s.flights || t.flights == Landed(s, i).flights;
    if t.flights == s.flights { SameGoOn(s, t); } else { LandedGoOn(s, t, i); }
  }

  lemma OthersGoOn(s: State, e: Event)
    requires !e.Drained?
    ensures AllGoOn(s, Next(s, e))
  {
    var t := Next(s, e);
    hide AllGoOn, Prepare, Confirm, Enter, Answer;
    match e {
      case Prepared(i, reply, gate) =>
        if i < |s.flights| { PreparedGoesOn(s, i, reply, gate); } else { SameGoOn(s, t); }
      case Confirmed(i, busy, gate) =>
        if i < |s.flights| { ConfirmedGoesOn(s, i, busy, gate); } else { SameGoOn(s, t); }
      case Entered(i, reply, gate, fits) =>
        if i < |s.flights| { EnteredGoesOn(s, i, reply, gate, fits); } else { SameGoOn(s, t); }
      case Answered(i, reply, gate, finished) =>
        if i < |s.flights| { AnsweredGoesOn(s, i, reply, gate, finished); } else { SameGoOn(s, t); }
      case Wrote(outcome) =>
        if s.queue == [] {
          SameGoOn(s, t);
        } else {
          ToldGoOn(s, t, s.queue[0].waiter, Accepted(s, s.queue[0].doc, outcome));
        }
      case _ =>
        hide Compose, HoldForEdit, ChangeText, SendNow, Remove, Order, Finish, NotReady, Merge, Save, CatchUp, Transact;
        hide Adopt, Crash, Load, Begin, Switch, HoldQueued;
        SameGoOn(s, t);
    }
  }

  /** At step `k` of the run, the message was the first that waited, and the queue was drained. */
  ghost predicate WasNext(states: seq<State>, events: seq<Event>, k: nat, item: Item) {
    && k < |events| && k < |states| && events[k].Drained?
    && exists at: nat :: IsNext(states[k].doc, at) && states[k].doc.items[at] == item
  }

  /** Over any run: every send task was started when its message was the first in the document that waited. */
  lemma {:induction false} TasksStartInOrder(states: seq<State>, events: seq<Event>, n: nat, f: Flight)
    requires Run(states, events) && n < |states| && f in states[n].flights
    ensures exists k: nat :: k < n && WasNext(states, events, k, f.item)
  {
    hide Next, WasNext, GoesOn;
    if n > 0 {
      RunStep(states, events, n - 1);
      if GoesOn(states[n - 1], f) {
        var g := ComesFrom(states[n - 1], f);
        TasksStartInOrder(states, events, n - 1, g);
        var k: nat :| k < n - 1 && WasNext(states, events, k, g.item);
        assert WasNext(states, events, k, f.item);
      } else {
        OnlyDrainsStart(states[n - 1], events[n - 1], f);
        BeganHere(states, events, n - 1, f.item);
      }
    }
  }

  lemma ComesFrom(s: State, f: Flight) returns (g: Flight)
    requires GoesOn(s, f)
    ensures g in s.flights && g.item == f.item
  {
    g :| g in s.flights && g.number == f.number && g.item == f.item && g.epoch == f.epoch
         && g.activation == f.activation && g.wire == f.wire;
  }

  lemma BeganHere(states: seq<State>, events: seq<Event>, k: nat, item: Item)
    requires k < |events| && k < |states| && events[k].Drained?
    requires exists at: nat :: IsNext(states[k].doc, at) && states[k].doc.items[at] == item
    ensures WasNext(states, events, k, item)
  {
  }

  /** And so was every request that entered the wire: messages are sent in the order in which they stand. */
  lemma RequestsFollowTheOrder(states: seq<State>, events: seq<Event>, n: nat, id: Text)
    requires Run(states, events) && n < |events| && Enters(states[n], events[n], id)
    ensures exists k: nat, item: Item :: k < n && item.id == id && WasNext(states, events, k, item)
  {
    var f := states[n].flights[events[n].i];
    assert f in states[n].flights && f.item.id == id;
    hide Run, Next, WasNext;
    TasksStartInOrder(states, events, n, f);
    var k: nat :| k < n && WasNext(states, events, k, f.item);
  }

  // ----- what a result does to a message -----

  /** The message shows the delivery, unless it was delivered; nothing else of any message changes. */
  predicate Shows(d: Doc, e: Doc, id: Text, v: Delivery) {
    && e.epoch == d.epoch && e.unconfirmed == d.unconfirmed && |e.items| == |d.items|
    && (forall k :: 0 <= k < |d.items| ==>
          e.items[k] == if d.items[k].id == id && d.items[k].delivery != Some(Delivered)
                        then d.items[k].(delivery := Some(v)) else d.items[k])
    && e.revision == d.revision + (if exists k :: 0 <= k < |d.items| && d.items[k].id == id then 1 else 0)
  }

  lemma UpdateShows(d: Doc, id: Text, v: Delivery)
    requires Distinct(d)
    ensures Shows(d, UpdateSend(d, id, v), id, v)
  {
    var at := Find(d.items, id);
    hide Find;
    if at.Some? {
      forall k | 0 <= k < |d.items| && k != at.value
        ensures d.items[k].id != id
      {
        assert d.items[at.value].id == id;
      }
    }
  }

  /** The task still speaks for the conversation, the connection and the wire it was started for. */
  predicate Speaks(s: State, f: Flight) {
    s.doc.epoch == f.epoch && s.activation == f.activation && s.wire == f.wire
  }

  /** The conversation takes input, connected or not. */
  predicate Takes(s: State) {
    s.open && s.operation.None? && !s.failed && s.evidence && s.doc.epoch.Some? && !s.doc.unconfirmed
  }

  /** What an answer of the runtime makes of the message. */
  function Result(s: State, f: Flight, reply: Reply, gate: bool): Delivery {
    match reply
    case Receipt => if Takes(s) && Speaks(s, f) then Sent else Uncertain
    case Doubtful => Uncertain
    case ResponseReceived => Uncertain
    case Unknown => Uncertain
    case NotDispatched => if Speaks(s, f) && gate then Failed else Held
    case Rejected => if Speaks(s, f) && gate then Failed else Held
  }

  /** The task is over and no other has begun. */
  predicate Over(t: State, s: State, i: nat)
    requires i < |s.flights|
  {
    !t.slot && t.flights == s.flights[..i] + s.flights[i + 1..]
  }

  /**
   * After the wire: a receipt within scope is sent, one without is uncertain, and so is every answer that does not
   * prove the contrary; a message proved undispatched has failed, or is held where it may not be sent now. A receipt
   * within scope starts the run it names, unless that has finished already.
   */
  lemma AnswerTells(s: State, i: nat, reply: Reply, gate: bool, finished: bool)
    requires Inv(s) && i < |s.flights| && s.flights[i].stage == OnWire
    ensures var f, t := s.flights[i], Answer(s, i, reply, gate, finished);
            && Over(t, s, i) && Shows(s.doc, t.doc, f.item.id, Result(s, f, reply, gate))
            && t.running == (s.running || (reply == Receipt && Takes(s) && Speaks(s, f) && !finished))
            && t.queue == s.queue && t.stored == s.stored
  {
    FlightsAreOpen(s);
    OpenIsClean(s);
    hide Inv, UpdateSend, Shows;
    UpdateShows(s.doc, s.flights[i].item.id, Result(s, s.flights[i], reply, gate));
  }

  /** What becomes of a message whose task fails before the wire. */
  function Relapse(s: State, f: Flight, reply: Reply, gate: bool): Delivery {
    if reply in {Doubtful, ResponseReceived} then Uncertain
    else if !Speaks(s, f) || (!gate && reply in {NotDispatched, Rejected}) then Held
    else Failed
  }

  lemma RelapseIs(s: State, f: Flight, reply: Reply, gate: bool)
    ensures AfterFailure(s, f, reply, false, gate) == Relapse(s, f, reply, gate)
  {
  }

  /**
   * Before the wire: the request enters exactly when the model is verified, the media suit it, and the conversation
   * takes input within scope. Otherwise the task ends: held if the conversation does not take it, failed for media that
   * do not suit, and as its error says if the verification fails.
   */
  lemma EnterTells(s: State, i: nat, reply: Reply, gate: bool, fits: bool)
    requires Inv(s) && i < |s.flights| && s.flights[i].stage == Verifying
    ensures var f, t := s.flights[i], Enter(s, i, reply, gate, fits);
            if reply == Receipt && fits && Permits(s) && Speaks(s, f) && gate
            then t.doc == s.doc && t.flights == s.flights[i := f.(stage := OnWire)] && t.slot == s.slot
            else
              && Over(t, s, i) && t.past == s.past
              && Shows(s.doc, t.doc, f.item.id,
                       if reply != Receipt then Relapse(s, f, reply, gate)
                       else if Permits(s) && Speaks(s, f) && gate then Failed else Held)
    ensures var t := Enter(s, i, reply, gate, fits);
            t.queue == s.queue && t.stored == s.stored && t.running == s.running
  {
    FlightsAreOpen(s);
    OpenIsClean(s);
    var f := s.flights[i];
    RelapseIs(s, f, reply, gate);
    RelapseIs(s, f, Unknown, gate);
    hide Inv, UpdateSend, Shows, AfterFailure;
    UpdateShows(s.doc, f.item.id, Relapse(s, f, reply, gate));
    UpdateShows(s.doc, f.item.id, Failed);
    UpdateShows(s.doc, f.item.id, Held);
  }

  /**
   * When the store has answered: the task goes on exactly when its document was stored, the conversation takes input
   * within scope, and nothing runs. Otherwise the message is held, or has failed when it could not be stored within
   * scope.
   */
  lemma ConfirmTells(s: State, i: nat, busy: bool, gate: bool)
    requires Inv(s) && i < |s.flights| && s.flights[i].stage.Persisted?
    ensures var f, t := s.flights[i], Confirm(s, i, busy, gate);
            if f.stage.ok && Permits(s) && Speaks(s, f) && gate && !s.running
            then t.doc == s.doc && t.flights == s.flights[i := f.(stage := Verifying)] && t.slot == s.slot
            else
              && Over(t, s, i)
              && Shows(s.doc, t.doc, f.item.id,
                       if !f.stage.ok && Speaks(s, f) && (gate || !busy) then Failed else Held)
    ensures var t := Confirm(s, i, busy, gate);
            t.queue == s.queue && t.stored == s.stored && t.running == s.running
  {
    FlightsAreOpen(s);
    OpenIsClean(s);
    hide Inv;
    if s.flights[i].stage.ok { StoredTells(s, i, busy, gate); } else { UnstoredTells(s, i, busy, gate); }
  }

  lemma StoredTells(s: State, i: nat, busy: bool, gate: bool)
    requires s.open && Distinct(s.doc) && i < |s.flights| && s.flights[i].stage == Persisted(true)
    ensures var f, t := s.flights[i], Confirm(s, i, busy, gate);
            && t.queue == s.queue && t.stored == s.stored && t.running == s.running
            && if Permits(s) && Speaks(s, f) && gate && !s.running
               then t.doc == s.doc && t.flights == s.flights[i := f.(stage := Verifying)] && t.slot == s.slot
               else Over(t, s, i) && Shows(s.doc, t.doc, f.item.id, Held)
  {
    hide UpdateSend, Shows;
    UpdateShows(s.doc, s.flights[i].item.id, Held);
  }

  lemma UnstoredTells(s: State, i: nat, busy: bool, gate: bool)
    requires s.open && Distinct(s.doc) && i < |s.flights| && s.flights[i].stage == Persisted(false)
    ensures var f, t := s.flights[i], Confirm(s, i, busy, gate);
            && t.queue == s.queue && t.stored == s.stored && t.running == s.running && Over(t, s, i)
            && Shows(s.doc, t.doc, f.item.id, if Speaks(s, f) && (gate || !busy) then Failed else Held)
  {
    RelapseIs(s, s.flights[i], if busy then NotDispatched else Unknown, gate);
    hide UpdateSend, Shows, AfterFailure;
    UpdateShows(s.doc, s.flights[i].item.id, Held);
    UpdateShows(s.doc, s.flights[i].item.id, Failed);
  }

  /** The document still shows the message queued, with the body the task took. */
  predicate StillWaits(d: Doc, item: Item) {
    exists k :: 0 <= k < |d.items| && d.items[k].id == item.id && d.items[k].delivery == Some(Queued)
                && d.items[k].body == item.body
  }

  /** And with the key it took. */
  predicate StillSame(d: Doc, item: Item) {
    exists k :: 0 <= k < |d.items| && d.items[k].id == item.id && d.items[k].delivery == Some(Queued)
                && d.items[k].body == item.body && d.items[k].key == item.key
  }

  /**
   * When the prompt is ready: the message is reserved, and its document waits for the store, exactly when the
   * conversation takes input within scope and the message is still as the task took it. Otherwise the task ends, and
   * only a message that still waits shows the failure of its prompt.
   */
  lemma PrepareTells(s: State, i: nat, reply: Reply, gate: bool)
    requires Inv(s) && i < |s.flights| && s.flights[i].stage == Preparing
    ensures var f, t := s.flights[i], Prepare(s, i, reply, gate);
            if reply == Receipt && Permits(s) && Speaks(s, f) && StillSame(s.doc, f.item)
            then
              && Shows(s.doc, t.doc, f.item.id, Sending) && t.slot == s.slot
              && t.flights == s.flights[i := f.(stage := Persisting)]
              && t.queue == s.queue + [Write(t.doc, Some(f.number))]
            else
              && Over(t, s, i) && t.queue == s.queue
              && if reply != Receipt && StillWaits(s.doc, f.item)
                 then Shows(s.doc, t.doc, f.item.id, Relapse(s, f, reply, gate)) else t.doc == s.doc
  {
    FlightsAreOpen(s);
    OpenIsClean(s);
    hide Inv;
    if reply == Receipt { ReadyTells(s, i, gate); } else { UnreadyTells(s, i, reply, gate); }
  }

  lemma ReadyTells(s: State, i: nat, gate: bool)
    requires s.open && Distinct(s.doc) && i < |s.flights| && s.flights[i].stage == Preparing
    ensures var f, t := s.flights[i], Prepare(s, i, Receipt, gate);
            if Permits(s) && Speaks(s, f) && StillSame(s.doc, f.item)
            then
              && Shows(s.doc, t.doc, f.item.id, Sending) && t.slot == s.slot
              && t.flights == s.flights[i := f.(stage := Persisting)]
              && t.queue == s.queue + [Write(t.doc, Some(f.number))]
            else Over(t, s, i) && t.queue == s.queue && t.doc == s.doc
  {
    StillIs(s.doc, s.flights[i]);
    hide UpdateSend, StillQueued, StillSame, Shows;
    UpdateShows(s.doc, s.flights[i].item.id, Sending);
  }

  lemma UnreadyTells(s: State, i: nat, reply: Reply, gate: bool)
    requires s.open && Distinct(s.doc) && i < |s.flights| && s.flights[i].stage == Preparing && reply != Receipt
    ensures var f, t := s.flights[i], Prepare(s, i, reply, gate);
            && Over(t, s, i) && t.queue == s.queue
            && if StillWaits(s.doc, f.item) then Shows(s.doc, t.doc, f.item.id, Relapse(s, f, reply, gate))
               else t.doc == s.doc
  {
    StillIs(s.doc, s.flights[i]);
    RelapseIs(s, s.flights[i], reply, gate);
    hide UpdateSend, StillQueued, StillWaits, Shows, AfterFailure, Relapse;
    UpdateShows(s.doc, s.flights[i].item.id, Relapse(s, s.flights[i], reply, gate));
  }

  lemma StillIs(d: Doc, f: Flight)
    requires Distinct(d)
    ensures StillQueued(d, f) <==> StillWaits(d, f.item)
    ensures StillQueued(d, f) && d.items[Find(d.items, f.item.id).value].key == f.item.key <==> StillSame(d, f.item)
  {
    var at := Find(d.items, f.item.id);
    hide Find;
    if at.Some? {
      assert forall k :: 0 <= k < |d.items| && d.items[k].id == f.item.id ==> k == at.value;
    }
  }

  // ----- what the user does -----

  /** How many messages are pending, counted by their places. */
  lemma {:induction false} PendingIsCounted(items: seq<Item>)
    ensures PendingCount(items)
         == |set k: nat | k < |items| && items[k].delivery in {Some(Queued), Some(Held), Some(Sending)}|
  {
    var places := set k: nat | k < |items| && items[k].delivery in {Some(Queued), Some(Held), Some(Sending)};
    if items != [] {
      var less, last := items[..|items| - 1], |items| - 1;
      PendingIsCounted(less);
      var before := set k: nat | k < |less| && less[k].delivery in {Some(Queued), Some(Held), Some(Sending)};
      assert places
        == before + if items[last].delivery in {Some(Queued), Some(Held), Some(Sending)} then {last} else {};
    } else {
      assert places == {};
    }
  }

  /** A new message stands last, queued in the conversation's epoch under its own key. */
  predicate Appends(d: Doc, e: Doc, id: Text, body: nat) {
    && e.items == d.items + [Item(id, true, Some(id), body, d.epoch, Some(Queued))]
    && e.revision == d.revision + 1 && e.epoch == d.epoch && e.unconfirmed == d.unconfirmed
  }

  /** A message is composed, and a command queued, exactly when input is permitted and fewer than 32 are pending. */
  lemma ComposeTells(s: State, id: Text, body: nat, gate: bool)
    requires id != [] && id !in s.past.ids
    ensures var may := Permits(s) && gate && PendingCount(s.doc.items) < 32;
            var t, c := Compose(s, id, body, gate), Order(s, id, body, gate);
            if may then
              && Appends(s.doc, t.doc, id, body) && t.queue == s.queue
              && Appends(s.doc, c.doc, id, body) && c.queue == s.queue + [Write(c.doc, Some(s.nextNumber))]
              && c.commands == s.commands + [Command(s.nextNumber, id, s.doc.epoch, s.activation, s.wire, None)]
            else t == s && c == s
  {
    hide PendingCount;
  }

  /** Local changes are permitted. */
  predicate Changes(s: State) { s.open && s.operation.None? && !s.failed }

  /** The message may be taken back: the user's own, with a key, and queued, held or failed. */
  predicate TakenBack(d: Doc, id: Text, k: nat) {
    && k < |d.items| && d.items[k].id == id && d.items[k].owned && d.items[k].key.Some? && d.items[k].key.value != []
    && d.items[k].delivery in {Some(Queued), Some(Held), Some(Failed)}
  }

  /** Only the message at `k` changes. */
  predicate Becomes(d: Doc, e: Doc, k: nat, item: Item)
    requires k < |d.items|
  {
    && e.items == d.items[k := item] && e.revision == d.revision + 1
    && e.epoch == d.epoch && e.unconfirmed == d.unconfirmed
  }

  /**
   * Editing holds the message, saving it changes its body, removing it takes away it alone; each exactly when it may be
   * taken back. Sending it now queues it in the present epoch, exactly when it is held and input is permitted.
   */
  lemma ActionTells(s: State, id: Text, body: nat, gate: bool, k: nat)
    requires Distinct(s.doc) && k < |s.doc.items| && s.doc.items[k].id == id
    ensures var item, taken := s.doc.items[k], TakenBack(s.doc, id, k);
            && (if Changes(s) && taken then Becomes(s.doc, HoldForEdit(s, id).doc, k, item.(delivery := Some(Held)))
                else HoldForEdit(s, id) == s)
            && (if s.open && taken && item.delivery == Some(Held)
                then Becomes(s.doc, ChangeText(s, id, body).doc, k, item.(body := body))
                else ChangeText(s, id, body) == s)
            && (if Changes(s) && taken
                then Remove(s, id).doc.items == s.doc.items[..k] + s.doc.items[k + 1..]
                     && Remove(s, id).doc.revision == s.doc.revision + 1
                else Remove(s, id) == s)
            && (if Permits(s) && gate && item.owned && item.key.Some? && item.key.value != []
                   && item.delivery == Some(Held)
                then Becomes(s.doc, SendNow(s, id, gate).doc, k, item.(epoch := s.doc.epoch, delivery := Some(Queued)))
                else SendNow(s, id, gate) == s)
  {
    FoundAt(s.doc.items, id, k);
    hide Find;
  }

  lemma FoundAt(items: seq<Item>, id: Text, k: nat)
    requires DistinctItems(items) && k < |items| && items[k].id == id
    ensures Find(items, id) == Some(k)
  {
    var at := Find(items, id);
    hide Find;
    assert at.Some? && items[at.value].id == id;
  }

  /** An action on a message that is not there does nothing. */
  lemma NothingToActOn(s: State, id: Text, body: nat, gate: bool)
    requires !Has(s.doc, id)
    ensures HoldForEdit(s, id) == s && ChangeText(s, id, body) == s && Remove(s, id) == s && SendNow(s, id, gate) == s
  {
    assert Find(s.doc.items, id).None?;
    hide Find;
  }

  /** The end of a command: nothing more when it stands, else its message is shown as held. */
  lemma FinishTells(s: State, k: nat, gate: bool)
    requires Distinct(s.doc) && k < |s.commands|
    ensures var c, t := s.commands[k], Finish(s, k, gate);
            if c.told.None? then t == s
            else
              && t.commands == s.commands[..k] + s.commands[k + 1..] && t.queue == s.queue && t.flights == s.flights
              && if c.told == Some(true) && Permits(s) && gate && s.doc.epoch == c.epoch && s.activation == c.activation
                    && s.wire == c.wire
                 then t.doc == s.doc else Shows(s.doc, t.doc, c.id, Held)
  {
    hide UpdateSend;
    UpdateShows(s.doc, s.commands[k].id, Held);
  }

  // ----- the connection, the store and the session -----

  /** Each message, and nothing else, becomes what it is mapped to. */
  predicate EachBecomes(d: Doc, e: Doc, f: Item -> Item) {
    |e.items| == |d.items| && forall k :: 0 <= k < |d.items| ==> e.items[k] == f(d.items[k])
  }

  /** A queued message is held, any other is as it was. */
  function Paused(item: Item): Item { if item.delivery == Some(Queued) then item.(delivery := Some(Held)) else item }

  /** A message at rest: without authority to send, and uncertain where a request may be under way. */
  function AtRest(item: Item): Item {
    if !item.owned then item
    else match item.delivery
      case Some(Queued) => item.(delivery := Some(Held))
      case Some(Sending) => item.(delivery := Some(Uncertain))
      case _ => item
  }

  /** Losing the connection, or access, holds what is queued; nothing else of any message changes. */
  lemma DisconnectTells(s: State)
    ensures var t := NotReady(s);
            && !t.ready && (s.ready ==> t.wire == s.wire + 1 && !t.evidence) && (!s.ready ==> t.wire == s.wire)
            && (if s.open then EachBecomes(s.doc, t.doc, Paused) && t.doc.revision == s.doc.revision + 1
                else t.doc == s.doc)
    ensures s.open ==> Next(s, AccessLost).doc == NotReady(s).doc
  {
  }

  /** A read of the history delivers the user's messages it echoes, and leaves every other as it was. */
  lemma MergeTells(s: State, echoed: set<Text>, head: bool)
    requires s.open
    ensures var t := Merge(s, echoed, head);
            && EachBecomes(s.doc, t.doc, (item: Item) =>
                 if item.owned && item.id in echoed
                 then item.(delivery := Some(Delivered), epoch := s.doc.epoch) else item)
            && t.doc.revision == s.doc.revision + 1
            && (t.evidence <==> s.evidence || (head && Changes(s)))
  {
  }

  /** The store takes the documents that wait for it in the order in which they came. */
  lemma StoreTells(s: State, outcome: Outcome)
    ensures Changes(s) ==> Save(s).queue == s.queue + [Write(s.doc, None)]
    ensures !Changes(s) ==> Save(s) == s
    ensures s.queue != [] ==>
              var doc, t := s.queue[0].doc, TakeWrite(s, outcome);
              var refused := outcome == Refused || (s.stored.Some? && s.stored.value.epoch != doc.epoch);
              && t.queue == s.queue[1..] && t.doc == s.doc
              && (refused || doc.revision < s.latest ==> t.stored == s.stored && t.latest == s.latest)
              && (!refused && doc.revision >= s.latest ==>
                    t.latest == doc.revision && t.stored == if outcome == FailedBefore then s.stored else Some(doc))
  {
  }

  /** Whoever waited for that write is told whether its document, or a newer one, is stored; no one else is. */
  lemma WaiterIsTold(s: State, outcome: Outcome, k: nat)
    requires s.queue != [] && k < |s.flights|
    ensures var doc, t := s.queue[0].doc, TakeWrite(s, outcome);
            var ok := outcome != Refused && (s.stored.Some? ==> s.stored.value.epoch == doc.epoch)
                      && (doc.revision < s.latest || outcome == Done);
            && |t.flights| == |s.flights|
            && t.flights[k] == if s.queue[0].waiter == Some(s.flights[k].number)
                               then s.flights[k].(stage := Persisted(ok)) else s.flights[k]
  {
  }

  /** So is a command. */
  lemma CommandIsTold(s: State, outcome: Outcome, k: nat)
    requires s.queue != [] && k < |s.commands|
    ensures var doc, t := s.queue[0].doc, TakeWrite(s, outcome);
            var ok := outcome != Refused && (s.stored.Some? ==> s.stored.value.epoch == doc.epoch)
                      && (doc.revision < s.latest || outcome == Done);
            && |t.commands| == |s.commands|
            && t.commands[k] == if s.queue[0].waiter == Some(s.commands[k].number)
                                then s.commands[k].(told := Some(ok)) else s.commands[k]
  {
  }

  /**
   * An operation begins with the document as it is shown, and first has it stored, if what is stored is older. It goes
   * on only when that is done, and is fenced off for good when the store has another epoch.
   */
  lemma OperationTells(s: State, outcome: Outcome)
    ensures if Changes(s) then Begin(s) == s.(operation := Some(Operation(s.doc, None))) else Begin(s) == s
    ensures s.operation.Some? && s.operation.value.committed.None? && s.queue == [] ==>
              var original, t := s.operation.value.original, CatchUp(s, outcome);
              var behind := s.stored.None? || s.stored.value.revision < original.revision;
              var apart := s.stored.Some? && s.stored.value.epoch != original.epoch;
              var newer := s.latest > original.revision;
              && t.doc == s.doc && t.flights == s.flights
              && (!behind ==> t == s)
              && (behind ==>
                    (t.operation == s.operation <==> !apart && (outcome == Done || (newer && outcome != Refused))))
              && (behind && t.operation == s.operation && !newer ==> t.stored == Some(original))
              && (behind && t.operation != s.operation ==> t.operation.None? && (t.failed <==> apart))
  {
  }

  /** A message that outlives a new physical session: the user's own input that is not known to have arrived. */
  predicate Outlives(item: Item) {
    item.owned && item.key.Some? && item.key.value != []
    && item.delivery in {Some(Queued), Some(Held), Some(Sending), Some(Uncertain), Some(Failed)}
  }

  /** `kept` are the messages of `items` that outlive a session, in their order. */
  ghost predicate KeepsThose(items: seq<Item>, kept: seq<Item>) {
    && (forall x :: x in kept <==> x in items && Outlives(x))
    && DistinctItems(kept)
    && (forall i, j, a, b | 0 <= i < j < |items| && 0 <= a < |kept| && 0 <= b < |kept|
                            && kept[a].id == items[i].id && kept[b].id == items[j].id :: a < b)
  }

  lemma RetainedOutlive(items: seq<Item>)
    requires DistinctItems(items)
    ensures KeepsThose(items, Retained(items))
  {
    var kept := Retained(items);
    RetainedAreDistinct(items);
    assert forall x :: x in kept <==> x in items && Outlives(x);
    hide Retained;
    forall i, j, a, b | 0 <= i < j < |items| && 0 <= a < |kept| && 0 <= b < |kept|
                        && kept[a].id == items[i].id && kept[b].id == items[j].id
      ensures a < b
    {
      RetainedKeepOrder(items, i, j, a, b);
    }
  }

  lemma RetainedStep(items: seq<Item>)
    requires items != []
    ensures Retained(items)
         == Retained(items[..|items| - 1]) + if Outlives(items[|items| - 1]) then [items[|items| - 1]] else []
  {
  }

  lemma LastIsApart(items: seq<Item>)
    requires DistinctItems(items) && items != []
    ensures DistinctItems(items[..|items| - 1])
    ensures var kept, last := Retained(items[..|items| - 1]), items[|items| - 1];
            forall a :: 0 <= a < |kept| ==> kept[a].id != last.id
  {
    var less := items[..|items| - 1];
    assert forall x :: x in Retained(less) ==> x in less;
    assert forall a :: 0 <= a < |Retained(less)| ==> Retained(less)[a] in Retained(less);
  }

  lemma {:induction false} RetainedAreDistinct(items: seq<Item>)
    requires DistinctItems(items)
    ensures DistinctItems(Retained(items))
  {
    if items != [] {
      LastIsApart(items);
      RetainedAreDistinct(items[..|items| - 1]);
      RetainedStep(items);
      hide Retained;
    }
  }

  lemma {:induction false} RetainedKeepOrder(items: seq<Item>, i: nat, j: nat, a: nat, b: nat)
    requires DistinctItems(items) && i < j < |items| && a < |Retained(items)| && b < |Retained(items)|
    requires Retained(items)[a].id == items[i].id && Retained(items)[b].id == items[j].id
    ensures a < b
  {
    var less, last := items[..|items| - 1], items[|items| - 1];
    LastIsApart(items);
    RetainedStep(items);
    var before := Retained(less);
    hide Retained;
    assert items[i].id != last.id && less[i] == items[i];
    assert a < |before|;
    if j < |less| {
      assert items[j].id != last.id && less[j] == items[j];
      assert b < |before|;
      RetainedKeepOrder(less, i, j, a, b);
    }
  }

  /** Nothing but the user's own input that no task may be sending. */
  predicate OnlyInput(items: seq<Item>) {
    forall x :: x in items ==> Outlives(x) && x.delivery != Some(Queued) && x.delivery != Some(Sending)
  }

  /** The stored document is the very one the operation started from, and the store takes up the move. */
  predicate TakenUp(s: State, original: Doc, epoch: Option<Id>, outcome: Outcome) {
    && s.stored.Some? && s.stored.value.revision == original.revision && s.stored.value.epoch == original.epoch
    && (epoch.Some? ==> epoch.value !in s.past.epochs) && outcome != Refused
  }

  /** And it may be moved to the epoch. */
  predicate MayMove(s: State, original: Doc, epoch: Option<Id>, outcome: Outcome) {
    TakenUp(s, original, epoch, outcome) && (epoch.None? ==> OnlyInput(original.items))
  }

  /** One revision on: the same messages under a binding, those that outlive it under a new epoch. */
  ghost predicate Moved(d: Doc, e: Doc, epoch: Option<Id>) {
    && e.revision == d.revision + 1 && e.unconfirmed == d.unconfirmed
    && (epoch.None? ==> e.items == d.items && e.epoch == d.epoch)
    && (epoch.Some? ==> KeepsThose(d.items, e.items) && e.epoch == epoch)
  }

  /**
   * A new physical session is bound, or a new epoch begun, only from the very document it started from, and it is all
   * or nothing. When it cannot be known whether it happened, or when the document to be bound holds more than input at
   * rest, the fence stays.
   */
  lemma TransactTells(s: State, epoch: Option<Id>, outcome: Outcome)
    requires s.operation.Some? && s.operation.value.committed.None? && s.queue == []
    requires s.stored.Some? && Distinct(s.stored.value)
    ensures var original, t := s.operation.value.original, Transact(s, epoch, outcome);
            var may := MayMove(s, original, epoch, outcome);
            && t.doc == s.doc && t.flights == s.flights
            && (!may ==> t == s.(operation := None, failed := s.failed || TakenUp(s, original, epoch, outcome)))
            && (may && outcome == FailedBefore ==> t.stored == s.stored && t.failed && t.operation.None?)
            && (may && outcome != FailedBefore ==>
                  && t.stored.Some? && t.latest == t.stored.value.revision
                  && Moved(s.stored.value, t.stored.value, epoch))
            && (may && outcome == FailedAfter ==> t.failed && t.operation.None?)
            && (may && outcome == Done ==> t.operation == Some(Operation(original, t.stored)) && t.failed == s.failed)
  {
    ReplacedTells(s.stored.value, epoch);
    MayMoveIs(s, s.operation.value.original, epoch, outcome);
    hide Moved, Replaced, HeldInput, Matches, TakenUp;
  }

  lemma MayMoveIs(s: State, original: Doc, epoch: Option<Id>, outcome: Outcome)
    ensures TakenUp(s, original, epoch, outcome) <==>
              !(|| !Matches(s.stored, original) || (epoch.Some? && epoch.value in s.past.epochs) || outcome == Refused)
    ensures OnlyInput(original.items) <==> !exists x :: x in original.items && !HeldInput(x)
  {
    OnlyHeldInput(original.items);
    hide HeldInput, OnlyInput;
  }

  lemma OnlyHeldInput(items: seq<Item>)
    ensures (exists x :: x in items && !HeldInput(x)) <==> !OnlyInput(items)
  {
  }

  lemma ReplacedTells(doc: Doc, epoch: Option<Id>)
    requires Distinct(doc)
    ensures Moved(doc, Replaced(doc, epoch), epoch)
  {
    RetainedOutlive(doc.items);
    hide KeepsThose, Retained;
  }

  /** What was committed is shown at rest; a run and the evidence of the session end with its epoch. */
  lemma AdoptTells(s: State, dirty: bool)
    requires s.operation.Some? && s.operation.value.committed.Some?
    ensures var committed, t := s.operation.value.committed.value, Adopt(s, dirty);
            var same := committed.epoch == s.operation.value.original.epoch;
            && t.operation.None? && EachBecomes(committed, t.doc, AtRest) && t.doc.epoch == committed.epoch
            && t.doc.revision >= committed.revision && t.doc.revision >= s.doc.revision
            && (t.doc != committed ==> t.queue == s.queue + [Write(t.doc, None)])
            && (t.doc == committed ==> t.queue == s.queue)
            && t.running == (s.running && same) && t.evidence == (s.evidence && same)
  {
  }

  /** A restart shows the stored document at rest, one revision on exactly when that changed it, once that is stored. */
  lemma LoadTells(s: State, outcome: Outcome)
    requires !s.open && s.stored.Some? && s.stored.value.revision >= s.latest
    ensures var found, t := s.stored.value, Load(s, outcome);
            var resting := forall k :: 0 <= k < |found.items| ==> AtRest(found.items[k]) == found.items[k];
            && (t.open <==> resting || outcome == Done)
            && (t.open ==>
                  && EachBecomes(found, t.doc, AtRest) && t.doc.epoch == found.epoch && t.stored == Some(t.doc)
                  && t.doc.revision == found.revision + if resting then 0 else 1)
    ensures Load(s.(stored := None), outcome).open && Load(s.(stored := None), outcome).doc == Doc(0, [], None, false)
  {
    RecoveredTells(s.stored.value);
    hide Recovered, AtRest, EachBecomes, Settled;
  }

  lemma RecoveredTells(found: Doc)
    ensures var e := Recovered(found);
            var resting := forall k :: 0 <= k < |found.items| ==> AtRest(found.items[k]) == found.items[k];
            && EachBecomes(found, e, AtRest) && e.epoch == found.epoch && (e == found <==> resting)
            && e.revision == found.revision + if resting then 0 else 1
  {
    assert forall k :: 0 <= k < |found.items| ==> Settled(found.items[k]) == AtRest(found.items[k]);
    assert (forall k :: 0 <= k < |found.items| ==> AtRest(found.items[k]) == found.items[k])
      <==> Each(found.items, Settled) == found.items;
  }
}