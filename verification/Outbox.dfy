/**
 * Delivery of the user's messages in one conversation: the queue, the request in flight, the durable document,
 * restarts.
 */
module Outbox {
  import opened Wrappers
  import opened HistoryTypes

  const PENDING_LIMIT := 32

  /** One of the conversation's messages, with what delivery depends on. `body` stands for text and media. */
  datatype Item = Item(
    id: Text, owned: bool, key: Option<Text>, body: nat, epoch: Option<Id>,
    delivery: Option<Delivery>)

  datatype Doc = Doc(revision: nat, items: seq<Item>, epoch: Option<Id>, unconfirmed: bool)

  /** How far a send task has come. It waits for its document to be stored, verifies the model, then is on the wire. */
  datatype Stage = Preparing | Persisting | Persisted(ok: bool) | Verifying | OnWire

  /** A send task: the message as it was picked, and the conversation, connection and wire it was picked for. */
  datatype Flight = Flight(number: nat, item: Item, epoch: Option<Id>, activation: nat, wire: nat, stage: Stage)

  /**
   * A setting command that waits for its message to be stored: the message, the conversation, connection and wire it
   * was queued for, and what the store has answered.
   */
  datatype Command = Command(number: nat, id: Text, epoch: Option<Id>, activation: nat, wire: nat, told: Option<bool>)

  /** A document waiting for the store's lock, and the send or the command that waits for it. */
  datatype Write = Write(doc: Doc, waiter: Option<nat>)

  /** A physical history operation fences the conversation: what it started from, and what it has committed. */
  datatype Operation = Operation(original: Doc, committed: Option<Doc>)

  /** How one store write ends. A failing write may or may not have replaced the document. */
  datatype Outcome = Refused | FailedBefore | FailedAfter | Done

  /** What the runtime says of a send. `Unknown` is any error that says nothing about dispatch. */
  datatype Reply = Receipt | NotDispatched | Rejected | Doubtful | ResponseReceived | Unknown

  /** What has happened, kept only to state properties. */
  datatype Record = Record(
    granted: map<Text, nat>,   // how often the user has authorized each message
    entered: map<Text, nat>,   // how often a request for it has entered the wire
    exposed: set<Text>,        // those whose last request may have reached the backend
    ids: set<Text>,            // every message ID ever used
    epochs: set<Id>,           // every epoch ever used
    withheld: set<Text>)       // those a command has shown as held while they were being sent

  datatype State = State(
    open: bool, doc: Doc, ready: bool, evidence: bool, activation: nat, wire: nat, running: bool,
    slot: bool, flights: seq<Flight>, commands: seq<Command>, nextNumber: nat,
    operation: Option<Operation>, failed: bool,
    stored: Option<Doc>, latest: nat, queue: seq<Write>,
    past: Record)

  // ----- documents -----

  function Find(items: seq<Item>, id: Text): (at: Option<nat>)
    ensures at.Some? ==>
              at.value < |items| && items[at.value].id == id && forall k :: 0 <= k < at.value ==> items[k].id != id
    ensures at.None? <==> forall k :: 0 <= k < |items| ==> items[k].id != id
  {
    if items == [] then None
    else if items[0].id == id then Some(0)
    else
      var rest := Find(items[1..], id);
      assert forall k :: 1 <= k < |items| ==> items[k] == items[1..][k - 1];
      if rest.Some? then Some(rest.value + 1) else None
  }

  function With(doc: Doc, at: nat, item: Item): Doc
    requires at < |doc.items|
  {
    doc.(items := doc.items[at := item], revision := doc.revision + 1)
  }

  /** `delivered` is final: a task's own result never takes it back. */
  function UpdateSend(doc: Doc, id: Text, delivery: Delivery): Doc {
    var at := Find(doc.items, id);
    if at.None? then doc
    else if doc.items[at.value].delivery == Some(Delivered) then doc.(revision := doc.revision + 1)
    else With(doc, at.value, doc.items[at.value].(delivery := Some(delivery)))
  }

  function Hold(item: Item): Item {
    if item.delivery == Some(Queued) then item.(delivery := Some(Held)) else item
  }

  /** Authority that did not outlive a restart or a new physical session: queued is held, sending is uncertain. */
  function Settled(item: Item): Item {
    if item.owned && item.delivery == Some(Queued) then item.(delivery := Some(Held))
    else if item.owned && item.delivery == Some(Sending) then item.(delivery := Some(Uncertain))
    else item
  }

  function Each(items: seq<Item>, f: Item -> Item): (r: seq<Item>)
    ensures |r| == |items| && forall k :: 0 <= k < |items| ==> r[k] == f(items[k])
  {
    seq(|items|, k requires 0 <= k < |items| => f(items[k]))
  }

  function HoldQueued(doc: Doc): Doc { doc.(items := Each(doc.items, Hold), revision := doc.revision + 1) }

  predicate Editable(item: Item) {
    item.owned && item.key.Some? && item.key.value != [] && item.delivery in {Some(Queued), Some(Held), Some(Failed)}
  }

  predicate Retainable(item: Item) {
    item.owned && item.key.Some? && item.key.value != []
    && item.delivery in {Some(Queued), Some(Held), Some(Sending), Some(Uncertain), Some(Failed)}
  }

  predicate HeldInput(item: Item) {
    item.owned && item.key.Some? && item.key.value != [] && item.delivery in {Some(Held), Some(Uncertain), Some(Failed)}
  }

  function Retained(items: seq<Item>): (kept: seq<Item>)
    ensures forall x :: x in kept <==> x in items && Retainable(x)
  {
    if items == [] then []
    else Retained(items[..|items| - 1]) + if Retainable(items[|items| - 1]) then [items[|items| - 1]] else []
  }

  /** The first owned message queued in the document's own epoch. */
  function FirstQueued(doc: Doc): (at: Option<nat>)
    ensures at.Some? ==> at.value < |doc.items| && Sendable(doc.items[at.value], doc.epoch)
  {
    FirstFrom(doc, 0)
  }

  predicate Sendable(item: Item, epoch: Option<Id>)
  {
    item.owned && item.delivery == Some(Queued) && item.epoch == epoch
  }

  function FirstFrom(doc: Doc, k: nat): (at: Option<nat>)
    requires k <= |doc.items|
    ensures at.Some? ==> at.value < |doc.items| && Sendable(doc.items[at.value], doc.epoch)
    decreases |doc.items| - k
  {
    if k == |doc.items| then None
    else if Sendable(doc.items[k], doc.epoch) then Some(k)
    else FirstFrom(doc, k + 1)
  }

  function PendingCount(items: seq<Item>): nat {
    if items == [] then 0
    else PendingCount(items[..|items| - 1])
         + if items[|items| - 1].delivery in {Some(Queued), Some(Held), Some(Sending)} then 1 else 0
  }

  // ----- fences -----

  predicate LocalChanges(s: State) { s.open && s.operation.None? && !s.failed }

  predicate Input(s: State) { LocalChanges(s) && s.evidence && s.doc.epoch.Some? && !s.doc.unconfirmed }

  /** The send still speaks for the conversation, connection and wire it was started for. */
  predicate InScope(s: State, f: Flight) {
    s.doc.epoch == f.epoch && s.activation == f.activation && s.wire == f.wire
  }

  // ----- the store -----

  /** Whether the waiting task is told that its document was stored. */
  predicate Accepted(s: State, doc: Doc, outcome: Outcome) {
    outcome != Refused && (s.stored.Some? ==> s.stored.value.epoch == doc.epoch)
    && (doc.revision < s.latest || outcome == Done)
  }

  /** One write under the lock. The newest revision is noted before the document is replaced. */
  function Stored(s: State, doc: Doc, outcome: Outcome): (t: State)
    ensures t == s.(latest := t.latest, stored := t.stored)
  {
    if outcome == Refused || (s.stored.Some? && s.stored.value.epoch != doc.epoch) || doc.revision < s.latest then s
    else s.(latest := doc.revision, stored := if outcome == FailedBefore then s.stored else Some(doc))
  }

  function Told(flights: seq<Flight>, number: Option<nat>, ok: bool): (r: seq<Flight>)
    ensures |r| == |flights|
    ensures forall k :: 0 <= k < |flights| ==>
              r[k] == if number == Some(flights[k].number) then flights[k].(stage := Persisted(ok)) else flights[k]
  {
    seq(|flights|, k requires 0 <= k < |flights| =>
      if number == Some(flights[k].number) then flights[k].(stage := Persisted(ok)) else flights[k])
  }

  function Reported(commands: seq<Command>, number: Option<nat>, ok: bool): (r: seq<Command>)
    ensures |r| == |commands|
    ensures forall k :: 0 <= k < |commands| ==>
              r[k] == if number == Some(commands[k].number) then commands[k].(told := Some(ok)) else commands[k]
  {
    seq(|commands|, k requires 0 <= k < |commands| =>
      if number == Some(commands[k].number) then commands[k].(told := Some(ok)) else commands[k])
  }

  /** The store takes the next waiting document. */
  function TakeWrite(s: State, outcome: Outcome): (t: State)
    ensures t.past == s.past
    ensures t.doc == s.doc && t.open == s.open
  {
    if s.queue == [] then s
    else
      var w := s.queue[0];
      var ok := Accepted(s, w.doc, outcome);
      Stored(s, w.doc, outcome).(queue := s.queue[1..], flights := Told(s.flights, w.waiter, ok),
                                 commands := Reported(s.commands, w.waiter, ok))
  }

  function Save(s: State): (t: State)
    ensures t.flights == s.flights && t.past == s.past
    ensures t.doc == s.doc && t.open == s.open
  {
    if LocalChanges(s) then s.(queue := s.queue + [Write(s.doc, None)]) else s
  }

  // ----- the user -----

  function Count(m: map<Text, nat>, id: Text): nat { if id in m then m[id] else 0 }

  function Granted(past: Record, id: Text): Record { past.(granted := past.granted[id := Count(past.granted, id) + 1]) }

  predicate Admits(s: State, id: Text, gate: bool) {
    Input(s) && s.ready && gate && id != [] && id !in s.past.ids && PendingCount(s.doc.items) < PENDING_LIMIT
  }

  /** A new message is queued under a new ID. `gate` stands for connection, access and model checks. */
  function Compose(s: State, id: Text, body: nat, gate: bool): (t: State)
    ensures t.flights == s.flights && s.past.ids <= t.past.ids
    ensures t.past == s.past.(granted := t.past.granted, ids := t.past.ids)
  {
    if Admits(s, id, gate) then
      s.(doc := s.doc.(items := s.doc.items + [Item(id, true, Some(id), body, s.doc.epoch, Some(Queued))],
                       revision := s.doc.revision + 1),
         past := Granted(s.past, id).(ids := s.past.ids + {id}))
    else s
  }

  function HoldForEdit(s: State, id: Text): (t: State)
    ensures t.flights == s.flights && t.past == s.past
  {
    var at := Find(s.doc.items, id);
    if LocalChanges(s) && at.Some? && Editable(s.doc.items[at.value]) then
      s.(doc := With(s.doc, at.value, s.doc.items[at.value].(delivery := Some(Held))))
    else s
  }

  /** Saving an edit, or taking it back when it could not be stored. */
  function ChangeText(s: State, id: Text, body: nat): (t: State)
    ensures t.flights == s.flights && t.past == s.past
  {
    var at := Find(s.doc.items, id);
    if s.open && at.Some? && Editable(s.doc.items[at.value]) && s.doc.items[at.value].delivery == Some(Held) then
      s.(doc := With(s.doc, at.value, s.doc.items[at.value].(body := body)))
    else s
  }

  function SendNow(s: State, id: Text, gate: bool): (t: State)
    ensures t.flights == s.flights && s.past.ids <= t.past.ids
    ensures t.past == s.past.(granted := t.past.granted, ids := t.past.ids)
  {
    var at := Find(s.doc.items, id);
    if Input(s) && s.ready && gate && at.Some? then
      var item := s.doc.items[at.value];
      if item.owned && item.key.Some? && item.key.value != [] && item.delivery == Some(Held) then
        s.(doc := With(s.doc, at.value, item.(epoch := s.doc.epoch, delivery := Some(Queued))),
           past := Granted(s.past, id))
      else s
    else s
  }

  function Remove(s: State, id: Text): (t: State)
    ensures t.flights == s.flights && t.past == s.past
  {
    var at := Find(s.doc.items, id);
    if LocalChanges(s) && at.Some? && Editable(s.doc.items[at.value]) then
      s.(doc := s.doc.(items := s.doc.items[..at.value] + s.doc.items[at.value + 1..], revision := s.doc.revision + 1))
    else s
  }

  // ----- setting commands -----

  /** The message has been reserved by a task. */
  predicate Late(f: Flight) { f.stage != Preparing }

  /** A task holds the message, or its last request may have reached the backend. */
  predicate Dispatching(s: State, id: Text) {
    id in s.past.exposed || exists k :: 0 <= k < |s.flights| && Late(s.flights[k]) && s.flights[k].item.id == id
  }

  /** A setting command is an ordinary queued message, which its caller also waits to see stored. */
  function Order(s: State, id: Text, body: nat, gate: bool): (t: State)
    ensures t.flights == s.flights && s.past.ids <= t.past.ids
    ensures t.past == s.past.(granted := t.past.granted, ids := t.past.ids)
  {
    var t := Compose(s, id, body, gate);
    if !Admits(s, id, gate) then s
    else t.(queue := s.queue + [Write(t.doc, Some(s.nextNumber))], nextNumber := s.nextNumber + 1,
            commands := s.commands + [Command(s.nextNumber, id, s.doc.epoch, s.activation, s.wire, None)])
  }

  /** The command may go on: it is stored, and still speaks for the conversation, connection and wire. */
  predicate Stands(s: State, c: Command, gate: bool) {
    c.told == Some(true)
    && Input(s) && s.doc.epoch == c.epoch && s.activation == c.activation && s.wire == c.wire && s.ready && gate
  }

  /** The command's message is shown as held, whatever has become of it. */
  function Withhold(s: State, id: Text): (t: State)
    ensures t == s.(doc := t.doc, past := s.past.(withheld := t.past.withheld))
  {
    var at := Find(s.doc.items, id);
    s.(doc := UpdateSend(s.doc, id, Held),
       past := if Dispatching(s, id) && at.Some? && s.doc.items[at.value].delivery != Some(Delivered)
               then s.past.(withheld := s.past.withheld + {id}) else s.past)
  }

  /** The store has answered the command. Unless it stands, its message is shown as held. */
  function Finish(s: State, k: nat, gate: bool): (t: State)
    requires k < |s.commands|
    ensures t.flights == s.flights && t.past == s.past.(withheld := t.past.withheld)
  {
    var c, t := s.commands[k], s.(commands := s.commands[..k] + s.commands[k + 1..]);
    if c.told.None? then s else if Stands(s, c, gate) then t else Withhold(t, c.id)
  }

  // ----- the send task -----

  function Drain(s: State, gate: bool): (t: State)
    ensures t.past == s.past
    ensures t.doc == s.doc && t.open == s.open
  {
    var at := FirstQueued(s.doc);
    if Input(s) && s.ready && gate && !s.running && !s.slot && at.Some? && s.doc.items[at.value].key.Some? then
      s.(slot := true, nextNumber := s.nextNumber + 1,
         flights := s.flights
         + [Flight(s.nextNumber, s.doc.items[at.value], s.doc.epoch, s.activation, s.wire, Preparing)])
    else s
  }

  function Landed(s: State, i: nat): State
    requires i < |s.flights|
  {
    s.(slot := false, flights := s.flights[..i] + s.flights[i + 1..])
  }

  function AtStage(s: State, i: nat, stage: Stage): State
    requires i < |s.flights|
  {
    s.(flights := s.flights[i := s.flights[i].(stage := stage)])
  }

  /** Where a message goes when its task fails. */
  function AfterFailure(s: State, f: Flight, reply: Reply, entered: bool, gate: bool): (d: Delivery)
    ensures d in {Uncertain, Held, Failed}
  {
    if reply == Doubtful || reply == ResponseReceived || (entered && reply == Unknown) then Uncertain
    else if !InScope(s, f) || (!gate && (reply == NotDispatched || reply == Rejected)) then Held
    else Failed
  }

  /** The message is still queued exactly as the send picked it. */
  predicate StillQueued(doc: Doc, f: Flight) {
    var at := Find(doc.items, f.item.id);
    at.Some? && doc.items[at.value].delivery == Some(Queued) && doc.items[at.value].body == f.item.body
  }

  /** The prompt is ready: reserve the message before waiting for the store. */
  function Prepare(s: State, i: nat, reply: Reply, gate: bool): (t: State)
    requires i < |s.flights|
    ensures t.open == s.open
            && (t.doc == s.doc || exists d :: d != Queued && t.doc == UpdateSend(s.doc, s.flights[i].item.id, d))
    ensures t.past == s.past
  {
    var f := s.flights[i];
    if f.stage != Preparing then s
    else if reply != Receipt then
      var next := if StillQueued(s.doc, f)
                  then s.(doc := UpdateSend(s.doc, f.item.id, AfterFailure(s, f, reply, false, gate)))
                  else s;
      Landed(next, i)
    else if Input(s) && InScope(s, f) && s.ready && StillQueued(s.doc, f)
         && s.doc.items[Find(s.doc.items, f.item.id).value].key == f.item.key then
      var doc := UpdateSend(s.doc, f.item.id, Sending);
      AtStage(s.(doc := doc, queue := s.queue + [Write(doc, Some(f.number))]), i, Persisting)
    else Landed(s, i)
  }

  /** The store has answered: verify the model next, or give the message back. */
  function Confirm(s: State, i: nat, busy: bool, gate: bool): (t: State)
    requires i < |s.flights|
    ensures t.open == s.open
            && (t.doc == s.doc || exists d :: d != Queued && t.doc == UpdateSend(s.doc, s.flights[i].item.id, d))
    ensures t.past == s.past
  {
    var f := s.flights[i];
    if !f.stage.Persisted? then s
    else if !f.stage.ok then
      Landed(s.(doc := UpdateSend(s.doc, f.item.id,
                                  AfterFailure(s, f, if busy then NotDispatched else Unknown, false, gate))), i)
    else if Input(s) && InScope(s, f) && s.ready && gate && !s.running then AtStage(s, i, Verifying)
    else Landed(s.(doc := UpdateSend(s.doc, f.item.id, Held)), i)
  }

  /** The checks are done: enter the wire, or give the message back. `fits` says the media suit the model. */
  function Enter(s: State, i: nat, reply: Reply, gate: bool, fits: bool): (t: State)
    requires i < |s.flights|
    ensures t.open == s.open
            && (t.doc == s.doc || exists d :: d != Queued && t.doc == UpdateSend(s.doc, s.flights[i].item.id, d))
    ensures s.past.exposed <= t.past.exposed
    ensures t.past == s.past.(entered := t.past.entered, exposed := t.past.exposed)
  {
    var f := s.flights[i];
    if f.stage != Verifying then s
    else if reply != Receipt then
           Landed(s.(doc := UpdateSend(s.doc, f.item.id, AfterFailure(s, f, reply, false, gate))), i)
    else if !(Input(s) && InScope(s, f) && s.ready && gate) then
           Landed(s.(doc := UpdateSend(s.doc, f.item.id, Held)), i)
    else if !fits then Landed(s.(doc := UpdateSend(s.doc, f.item.id, AfterFailure(s, f, Unknown, false, gate))), i)
    else
      AtStage(s, i, OnWire).(past := s.past.(
        entered := s.past.entered[f.item.id := Count(s.past.entered, f.item.id) + 1],
                                             exposed := s.past.exposed + {f.item.id}))
  }

  predicate ProvenUnsent(reply: Reply) { reply == NotDispatched || reply == Rejected }

  /** The runtime answers. */
  function Answer(s: State, i: nat, reply: Reply, gate: bool, finished: bool): (t: State)
    requires i < |s.flights|
    ensures t.past == s.past.(exposed := t.past.exposed)
    ensures s.past.exposed - {s.flights[i].item.id} <= t.past.exposed
    ensures (!ProvenUnsent(reply) || s.flights[i].stage != OnWire) ==> s.past.exposed <= t.past.exposed
    ensures t.open == s.open
            && (t.doc == s.doc || exists d :: d != Queued && t.doc == UpdateSend(s.doc, s.flights[i].item.id, d))
  {
    var f := s.flights[i];
    if f.stage != OnWire then s
    else if reply == Receipt then
      if Input(s) && InScope(s, f) then
        Landed(s.(doc := UpdateSend(s.doc, f.item.id, Sent), running := !finished || s.running), i)
      else Landed(s.(doc := UpdateSend(s.doc, f.item.id, Uncertain)), i)
    else
      Landed(s.(doc := UpdateSend(s.doc, f.item.id, AfterFailure(s, f, reply, true, gate)),
                past := if ProvenUnsent(reply) then s.past.(exposed := s.past.exposed - {f.item.id}) else s.past), i)
  }

  // ----- the connection -----

  function NotReady(s: State): (t: State)
    ensures t.flights == s.flights && t.past == s.past
  {
    var t := if s.ready then s.(wire := s.wire + 1, evidence := false) else s;
    t.(ready := false, doc := if s.open then HoldQueued(s.doc) else s.doc)
  }

  function Switch(s: State): (t: State)
    ensures t.flights == s.flights && t.past == s.past
    ensures t.doc == s.doc && t.open == s.open
  { s.(activation := s.activation + 1, wire := s.wire + 1, evidence := false) }

  function Marked(item: Item, echoed: set<Text>, epoch: Option<Id>): Item {
    if item.owned && item.id in echoed then item.(delivery := Some(Delivered), epoch := epoch) else item
  }

  /** A history read is applied: the user's messages it shows are delivered, the others stay. */
  function Merge(s: State, echoed: set<Text>, head: bool): (t: State)
    ensures t.flights == s.flights && t.past == s.past
  {
    if !s.open then s
    else s.(doc := s.doc.(items := Each(s.doc.items, x => Marked(x, echoed, s.doc.epoch)),
                          revision := s.doc.revision + 1),
            evidence := s.evidence || (head && LocalChanges(s)))
  }

  // ----- a new physical session -----

  function Begin(s: State): (t: State)
    ensures t.flights == s.flights && t.past == s.past
    ensures t.doc == s.doc && t.open == s.open
  {
    if LocalChanges(s) then s.(operation := Some(Operation(s.doc, None))) else s
  }

  predicate Waiting(s: State) { s.operation.Some? && s.operation.value.committed.None? && s.queue == [] }

  /** Bring the stored document up to the one the operation started from. */
  function CatchUp(s: State, outcome: Outcome): (t: State)
    ensures t.flights == s.flights && t.past == s.past
    ensures t.doc == s.doc && t.open == s.open
  {
    if Waiting(s) && (s.stored.None? || s.stored.value.revision < s.operation.value.original.revision) then
      var doc := s.operation.value.original;
      var t := Stored(s, doc, outcome);
      if Accepted(s, doc, outcome) then t
      else t.(operation := None, failed := s.stored.Some? && s.stored.value.epoch != doc.epoch)
    else s
  }

  predicate Matches(stored: Option<Doc>, original: Doc) {
    stored.Some? && stored.value.revision == original.revision && stored.value.epoch == original.epoch
  }

  /** What the transaction writes: held input kept in the same epoch, or what outlives a new one. */
  function Replaced(doc: Doc, epoch: Option<Id>): Doc {
    if epoch.None? then doc.(revision := doc.revision + 1)
    else doc.(items := Retained(doc.items), epoch := epoch, revision := doc.revision + 1)
  }

  /**
   * Bind the session, or roll over to a new epoch. It happens entirely or not at all; when that is unknown, or the
   * document is none that may be bound, the fence stays.
   */
  function Transact(s: State, epoch: Option<Id>, outcome: Outcome): (t: State)
    ensures t.flights == s.flights && t.past == s.past.(epochs := t.past.epochs)
    ensures t.doc == s.doc && t.open == s.open
  {
    if !Waiting(s) then s
    else
      var original := s.operation.value.original;
      if !Matches(s.stored, original) || (epoch.Some? && epoch.value in s.past.epochs) || outcome == Refused then
        s.(operation := None)
      else if epoch.None? && exists x :: x in original.items && !HeldInput(x) then s.(operation := None, failed := true)
      else
        var doc := Replaced(s.stored.value, epoch);
        var used := if epoch.Some? then s.past.(epochs := s.past.epochs + {epoch.value}) else s.past;
        if outcome == FailedBefore then s.(operation := None, failed := true, past := used)
        else if outcome == FailedAfter then
               s.(operation := None, failed := true, past := used, stored := Some(doc), latest := doc.revision)
        else s.(operation := Some(Operation(original, Some(doc))), past := used, stored := Some(doc),
                latest := doc.revision)
  }

  /** Adopt what was committed, with no authority to send any of it. */
  function Adopt(s: State, dirty: bool): (t: State)
    ensures t.flights == s.flights && t.past == s.past
  {
    if s.operation.Some? && s.operation.value.committed.Some? then
      var committed, original := s.operation.value.committed.value, s.operation.value.original;
      var base := committed.(items := Each(committed.items, Settled),
                             revision := if committed.revision < s.doc.revision then s.doc.revision
                                         else committed.revision);
      var doc := if base != committed || dirty then base.(revision := base.revision + 1) else base;
      s.(doc := doc, operation := None,
         queue := if doc != committed then s.queue + [Write(doc, None)] else s.queue,
         running := s.running && committed.epoch == original.epoch,
         evidence := s.evidence && committed.epoch == original.epoch)
    else s
  }

  // ----- the process -----

  /** The process ends: memory is gone, and whatever still waited for the store. */
  function Crash(s: State): (t: State)
    ensures t.flights == [] && t.past == s.past
  {
    s.(open := false, ready := false, evidence := false, running := false, slot := false, flights := [],
       commands := [], operation := None,
       failed := false, latest := 0, queue := [])
  }

  function Recovered(doc: Doc): Doc {
    var items := Each(doc.items, Settled);
    if items == doc.items then doc else doc.(items := items, revision := doc.revision + 1)
  }

  /** Read the conversation after a restart. What a restart settles is stored before it is shown. */
  function Load(s: State, outcome: Outcome): (t: State)
    ensures t.flights == s.flights && t.past == s.past
  {
    if s.open then s
    else if s.stored.None? then s.(open := true, doc := Doc(0, [], None, false))
    else Show(s.(latest := if s.latest < s.stored.value.revision then s.stored.value.revision else s.latest),
              Recovered(s.stored.value), outcome)
  }

  /** Show the recovered document, once it is stored if recovery changed it. */
  function Show(s: State, doc: Doc, outcome: Outcome): (t: State)
    ensures t.flights == s.flights && t.past == s.past
  {
    if s.stored == Some(doc) then s.(open := true, doc := doc)
    else if Accepted(s, doc, outcome) then Stored(s, doc, outcome).(open := true, doc := doc)
    else Stored(s, doc, outcome)
  }

  // ----- steps -----

  datatype Event =
    | Composed(id: Text, body: nat, gate: bool)
    | Editing(id: Text)
    | Edited(id: Text, body: nat)
    | SentNow(id: Text, gate: bool)
    | Removed(id: Text)
    | Ordered(id: Text, body: nat, gate: bool)
    | Finished(k: nat, gate: bool)
    | Drained(gate: bool)
    | Prepared(i: nat, reply: Reply, gate: bool)
    | Confirmed(i: nat, busy: bool, gate: bool)
    | Entered(i: nat, reply: Reply, gate: bool, fits: bool)
    | Answered(i: nat, reply: Reply, gate: bool, finished: bool)
    | Disconnected
    | Connected
    | Switched
    | AccessLost
    | RunChanged(running: bool)
    | Merged(echoed: set<Text>, head: bool)
    | Saved
    | Wrote(outcome: Outcome)
    | Began
    | Abandoned
    | CaughtUp(outcome: Outcome)
    | Transacted(epoch: Option<Id>, outcome: Outcome)
    | Adopted(dirty: bool)
    | Crashed
    | Loaded(outcome: Outcome)

  function Next(s: State, e: Event): State {
    match e
    case Composed(id, body, gate) => Compose(s, id, body, gate)
    case Editing(id) => HoldForEdit(s, id)
    case Edited(id, body) => ChangeText(s, id, body)
    case SentNow(id, gate) => SendNow(s, id, gate)
    case Removed(id) => Remove(s, id)
    case Ordered(id, body, gate) => Order(s, id, body, gate)
    case Finished(k, gate) => if k < |s.commands| then Finish(s, k, gate) else s
    case Drained(gate) => Drain(s, gate)
    case Prepared(i, reply, gate) => if i < |s.flights| then Prepare(s, i, reply, gate) else s
    case Confirmed(i, busy, gate) => if i < |s.flights| then Confirm(s, i, busy, gate) else s
    case Entered(i, reply, gate, fits) => if i < |s.flights| then Enter(s, i, reply, gate, fits) else s
    case Answered(i, reply, gate, finished) => if i < |s.flights| then Answer(s, i, reply, gate, finished) else s
    case Disconnected => NotReady(s)
    case Connected => s.(ready := true)
    case Switched => Switch(s)
    case AccessLost => if s.open then s.(doc := HoldQueued(s.doc)) else s
    case RunChanged(running) => s.(running := running)
    case Merged(echoed, head) => Merge(s, echoed, head)
    case Saved => Save(s)
    case Wrote(outcome) => TakeWrite(s, outcome)
    case Began => Begin(s)
    case Abandoned => if s.operation.Some? && s.operation.value.committed.None? then s.(operation := None) else s
    case CaughtUp(outcome) => CatchUp(s, outcome)
    case Transacted(epoch, outcome) => Transact(s, epoch, outcome)
    case Adopted(dirty) => Adopt(s, dirty)
    case Crashed => Crash(s)
    case Loaded(outcome) => Load(s, outcome)
  }
}
