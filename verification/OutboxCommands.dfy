/**
 * What a setting command may undo: a run in which one shows its message as held while a task sends it, and the message
 * is sent twice.
 */
module OutboxCommands {
  import opened Wrappers
  import opened HistoryTypes
  import opened Outbox
  import opened OutboxSafety

  function Setting(delivery: Delivery): Item { Item([1], true, Some([1]), 0, Some(0), Some(delivery)) }

  function Showing(revision: nat, delivery: Delivery): Doc { Doc(revision, [Setting(delivery)], Some(0), false) }

  function Empty(revision: nat): Doc { Doc(revision, [], Some(0), false) }

  function Task(number: nat, stage: Stage): Flight { Flight(number, Setting(Queued), Some(0), 0, 0, stage) }

  function Waiting(told: Option<bool>): Command { Command(0, [1], Some(0), 0, 0, told) }

  /** How often the message was authorized, how often a request for it entered the wire, and what was withheld. */
  function Past(granted: nat, entered: nat, withheld: set<Text>): Record {
    Record(if granted == 0 then map[] else map[[1] := granted], if entered == 0 then map[] else map[[1] := entered],
           if entered == 0 then {} else {[1]}, if granted == 0 then {} else {[1]}, {0}, withheld)
  }

  function Closed(doc: Doc, next: nat, stored: Doc, past: Record): State {
    State(false, doc, false, false, 0, 0, false, false, [], [], next, None, false, Some(stored), 0, [], past)
  }

  function At(doc: Doc, flights: seq<Flight>, commands: seq<Command>, next: nat, stored: Doc, latest: nat,
              queue: seq<Write>, past: Record): State {
    State(true, doc, true, true, 0, 0, false, flights != [], flights, commands, next, None, false, Some(stored), latest,
          queue, past)
  }

  function Read(doc: Doc, next: nat, past: Record): State {
    Closed(doc, next, doc, past).(open := true, latest := doc.revision)
  }

  function Queueing(flights: seq<Flight>, next: nat): State {
    At(Showing(2, Queued), flights, [Waiting(None)], next, Empty(0), 0, [Write(Showing(2, Queued), Some(0))],
       Past(1, 0, {}))
  }

  /**
   * A command is queued while a run is active. The run ends, and a task reserves the command's message. The command's
   * own write fails, so the message is shown as held, which an autosave stores; the task, whose write succeeds, enters
   * the wire. After a crash the message reads as held, and the user sends it again.
   */
  function EventAt(k: nat): Event {
    match k
    case 0 => Loaded(Done)
    case 1 => Connected
    case 2 => Merged({}, true)
    case 3 => RunChanged(true)
    case 4 => Ordered([1], 0, true)
    case 5 => RunChanged(false)
    case 6 => Drained(true)
    case 7 => Prepared(0, Receipt, true)
    case 8 => Wrote(FailedBefore)
    case 9 => Finished(0, true)
    case 10 => Wrote(Done)
    case 11 => Confirmed(0, false, true)
    case 12 => Saved
    case 13 => Wrote(Done)
    case 14 => Entered(0, Receipt, true, true)
    case 15 => Crashed
    case 16 => Loaded(Done)
    case 17 => Connected
    case 18 => Merged({}, true)
    case 19 => SentNow([1], true)
    case 20 => Drained(true)
    case 21 => Prepared(0, Receipt, true)
    case 22 => Wrote(Done)
    case 23 => Confirmed(0, false, true)
    case _ => Entered(0, Receipt, true, true)
  }

  function StateAt(k: nat): State {
    match k
    case 0 => Closed(Empty(0), 0, Empty(0), Past(0, 0, {}))
    case 1 => Read(Empty(0), 0, Past(0, 0, {}))
    case 2 => Read(Empty(0), 0, Past(0, 0, {})).(ready := true)
    case 3 => At(Empty(1), [], [], 0, Empty(0), 0, [], Past(0, 0, {}))
    case 4 => At(Empty(1), [], [], 0, Empty(0), 0, [], Past(0, 0, {})).(running := true)
    case 5 => Queueing([], 1).(running := true)
    case 6 => Queueing([], 1)
    case 7 => Queueing([Task(1, Preparing)], 2)
    case 8 =>
      At(Showing(3, Sending), [Task(1, Persisting)], [Waiting(None)], 2, Empty(0), 0,
         [Write(Showing(2, Queued), Some(0)), Write(Showing(3, Sending), Some(1))], Past(1, 0, {}))
    case 9 =>
      At(Showing(3, Sending), [Task(1, Persisting)], [Waiting(Some(false))], 2, Empty(0), 2,
         [Write(Showing(3, Sending), Some(1))], Past(1, 0, {}))
    case 10 =>
      At(Showing(4, Held), [Task(1, Persisting)], [], 2, Empty(0), 2, [Write(Showing(3, Sending), Some(1))],
         Past(1, 0, {[1]}))
    case 11 =>
      At(Showing(4, Held), [Task(1, Persisted(true))], [], 2, Showing(3, Sending), 3, [], Past(1, 0, {[1]}))
    case 12 => At(Showing(4, Held), [Task(1, Verifying)], [], 2, Showing(3, Sending), 3, [], Past(1, 0, {[1]}))
    case 13 =>
      At(Showing(4, Held), [Task(1, Verifying)], [], 2, Showing(3, Sending), 3, [Write(Showing(4, Held), None)],
         Past(1, 0, {[1]}))
    case 14 => At(Showing(4, Held), [Task(1, Verifying)], [], 2, Showing(4, Held), 4, [], Past(1, 0, {[1]}))
    case 15 => At(Showing(4, Held), [Task(1, OnWire)], [], 2, Showing(4, Held), 4, [], Past(1, 1, {[1]}))
    case 16 => Closed(Showing(4, Held), 2, Showing(4, Held), Past(1, 1, {[1]}))
    case 17 => Read(Showing(4, Held), 2, Past(1, 1, {[1]}))
    case 18 => Read(Showing(4, Held), 2, Past(1, 1, {[1]})).(ready := true)
    case 19 => At(Showing(5, Held), [], [], 2, Showing(4, Held), 4, [], Past(1, 1, {[1]}))
    case 20 => At(Showing(6, Queued), [], [], 2, Showing(4, Held), 4, [], Past(2, 1, {[1]}))
    case 21 =>
      At(Showing(6, Queued), [Task(2, Preparing)], [], 3, Showing(4, Held), 4, [], Past(2, 1, {[1]}))
    case 22 =>
      At(Showing(7, Sending), [Task(2, Persisting)], [], 3, Showing(4, Held), 4,
         [Write(Showing(7, Sending), Some(2))], Past(2, 1, {[1]}))
    case 23 =>
      At(Showing(7, Sending), [Task(2, Persisted(true))], [], 3, Showing(7, Sending), 7, [], Past(2, 1, {[1]}))
    case 24 => At(Showing(7, Sending), [Task(2, Verifying)], [], 3, Showing(7, Sending), 7, [], Past(2, 1, {[1]}))
    case _ => At(Showing(7, Sending), [Task(2, OnWire)], [], 3, Showing(7, Sending), 7, [], Past(2, 2, {[1]}))
  }

  predicate Steps(k: nat) { Next(StateAt(k), EventAt(k)) == StateAt(k + 1) }

  lemma Single(revision: nat, from: Delivery, to: Delivery)
    requires from != Delivered
    ensures Find([Setting(from)], [1]) == Some(0)
    ensures UpdateSend(Showing(revision, from), [1], to) == Showing(revision + 1, to)
  {
  }

  lemma Step0()
    ensures Steps(0)
  {
  }

  lemma Step1()
    ensures Steps(1)
  {
  }

  lemma Step2()
    ensures Steps(2)
  {
  }

  lemma Step3()
    ensures Steps(3)
  {
  }

  lemma Step4()
    ensures Steps(4)
  {
    assert PendingCount([]) == 0;
    hide PendingCount;
    assert Admits(StateAt(4), [1], true);
    assert Compose(StateAt(4), [1], 0, true) == StateAt(5).(queue := [], commands := [], nextNumber := 0);
    hide Admits, Compose;
  }

  lemma Step5()
    ensures Steps(5)
  {
  }

  lemma Step6()
    ensures Steps(6)
  {
  }

  lemma Step7()
    ensures Steps(7)
  {
    Single(2, Queued, Sending);
    hide UpdateSend, Find;
  }

  lemma Step8()
    ensures Steps(8)
  {
  }

  lemma Step9()
    ensures Steps(9)
  {
    Single(3, Sending, Held);
    hide UpdateSend, Find;
    assert Late(StateAt(9).flights[0]);
    assert {} + {[1]} == {[1]};
  }

  lemma Step10()
    ensures Steps(10)
  {
  }

  lemma Step11()
    ensures Steps(11)
  {
  }

  lemma Step12()
    ensures Steps(12)
  {
  }

  lemma Step13()
    ensures Steps(13)
  {
  }

  lemma Step14()
    ensures Steps(14)
  {
    hide UpdateSend, Find, AfterFailure;
  }

  lemma Step15()
    ensures Steps(15)
  {
  }

  lemma Step16()
    ensures Steps(16)
  {
  }

  lemma Step17()
    ensures Steps(17)
  {
  }

  lemma Step18()
    ensures Steps(18)
  {
    hide UpdateSend, Find;
  }

  lemma Step19()
    ensures Steps(19)
  {
    Single(5, Held, Queued);
    hide UpdateSend, Find;
  }

  lemma Step20()
    ensures Steps(20)
  {
    hide UpdateSend, Find;
  }

  lemma Step21()
    ensures Steps(21)
  {
    Single(6, Queued, Sending);
    hide UpdateSend, Find;
  }

  lemma Step22()
    ensures Steps(22)
  {
    hide UpdateSend, Find;
  }

  lemma Step23()
    ensures Steps(23)
  {
    hide UpdateSend, Find, AfterFailure;
  }

  lemma Step24()
    ensures Steps(24)
  {
    hide UpdateSend, Find, AfterFailure;
  }

  lemma EveryStep(k: nat)
    requires k < 25
    ensures Steps(k)
  {
    hide Steps;
    match k
    case 0 => Step0();
    case 1 => Step1();
    case 2 => Step2();
    case 3 => Step3();
    case 4 => Step4();
    case 5 => Step5();
    case 6 => Step6();
    case 7 => Step7();
    case 8 => Step8();
    case 9 => Step9();
    case 10 => Step10();
    case 11 => Step11();
    case 12 => Step12();
    case 13 => Step13();
    case 14 => Step14();
    case 15 => Step15();
    case 16 => Step16();
    case 17 => Step17();
    case 18 => Step18();
    case 19 => Step19();
    case 20 => Step20();
    case 21 => Step21();
    case 22 => Step22();
    case 23 => Step23();
    case 24 => Step24();
  }

  function States(): (states: seq<State>)
    ensures |states| == 26 && forall k :: 0 <= k < 26 ==> states[k] == StateAt(k)
  {
    seq(26, k requires 0 <= k < 26 => StateAt(k))
  }

  function Events(): (events: seq<Event>)
    ensures |events| == 25 && forall k :: 0 <= k < 25 ==> events[k] == EventAt(k)
  {
    seq(25, k requires 0 <= k < 25 => EventAt(k))
  }

  lemma EveryStepFollows(k: nat)
    requires k < 25
    ensures Follows(States(), Events(), k)
  {
    EveryStep(k);
    hide Next, StateAt, EventAt, States, Events;
  }

  lemma ItRuns()
    ensures Run(States(), Events())
  {
    assert Start(StateAt(0));
    forall k: nat | k < |Events()|
      ensures Follows(States(), Events(), k)
    {
      EveryStepFollows(k);
    }
    hide Follows, StateAt, EventAt, Start, States, Events;
  }

  lemma CommandWithholds()
    ensures Withholds(StateAt(9), EventAt(9), [1])
  {
    assert Late(StateAt(9).flights[0]);
  }

  lemma BothEnter()
    ensures Enters(StateAt(14), EventAt(14), [1]) && Enters(StateAt(24), EventAt(24), [1])
  {
    hide Next;
    Step14();
    Step24();
    assert StateAt(14).past.exposed == {} && StateAt(15).past.exposed == {[1]};
    assert StateAt(24).past.entered[[1]] == 1 && StateAt(25).past.entered[[1]] == 2;
  }

  /**
   * One message enters the wire twice in this run, without any word from the runtime between. A command has withheld
   * it before: a restart reads it as held although a request for it is with the backend.
   */
  lemma CommandsMaySendTwice()
    ensures var states, events := States(), Events();
            && Run(states, events) && Withholds(states[9], events[9], [1])
            && Enters(states[14], events[14], [1]) && Enters(states[24], events[24], [1])
            && (forall k :: 14 < k < 24 ==> !Clears(states[k], events[k], [1]))
            && [1] in states[17].past.exposed && states[17].doc == Showing(4, Held)
  {
    hide Next, Run, Withholds, Enters, Clears, States, Events;
    assert [1] in StateAt(17).past.exposed && StateAt(17).doc == Showing(4, Held);
    hide StateAt, EventAt;
    ItRuns();
    CommandWithholds();
    BothEnter();
    NoAnswer();
  }

  lemma NoAnswer()
    ensures forall k :: 14 < k < 24 ==> !Clears(StateAt(k), EventAt(k), [1])
  {
    forall k | 14 < k < 24
      ensures !EventAt(k).Answered?
    {
    }
    hide EventAt, StateAt;
  }
}
