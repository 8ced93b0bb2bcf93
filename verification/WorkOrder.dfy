/** Placing a conversation's work in the order its history gives, without moving any other record. */
module WorkOrder {
  import opened Wrappers
  import opened HistoryTypes
  import opened WorkSequences
  import opened StableSort

  datatype Scoped = Scoped(connection: Text, agent: Text, session: Text, epoch: Option<Id>)

  /** `content` stands for what ordering never reads. */
  datatype Step = Step(id: Text, order: int, content: nat)
  datatype Run = Run(id: Text, scope: Scoped, order: int, steps: seq<Step>, content: nat)
  datatype Review = Review(id: Text, order: int, content: nat)
  datatype Journal = Journal(nextOrder: int, runs: seq<Run>, reviews: seq<Review>)

  /** What a history read says: its runs and, by run, its steps, in its own order. */
  datatype Reading = Reading(
    scope: Scoped, runs: seq<Text>, steps: map<Text, seq<Text>>, earlier: bool,
    live: set<Text>, known: set<Text>)

  datatype Mark = Mark(id: Text, order: int)

  // ----- records -----

  function ByOrder(m: Mark): int { m.order }
  function RunOrder(r: Run): int { r.order }

  function MarkIds(marks: seq<Mark>): (ids: seq<Text>)
    ensures |ids| == |marks| && forall i :: 0 <= i < |ids| ==> ids[i] == marks[i].id
  {
    seq(|marks|, i requires 0 <= i < |marks| => marks[i].id)
  }

  function RunIds(runs: seq<Run>): (ids: seq<Text>)
    ensures |ids| == |runs| && forall i :: 0 <= i < |ids| ==> ids[i] == runs[i].id
  {
    seq(|runs|, i requires 0 <= i < |runs| => runs[i].id)
  }

  function StepMarks(run: Run): (marks: seq<Mark>)
    ensures |marks| == |run.steps|
            && forall i :: 0 <= i < |marks| ==> marks[i] == Mark(run.steps[i].id, run.steps[i].order)
  {
    seq(|run.steps|, i requires 0 <= i < |run.steps| => Mark(run.steps[i].id, run.steps[i].order))
  }

  function ReviewMarks(reviews: seq<Review>): (marks: seq<Mark>)
    ensures |marks| == |reviews| && forall i :: 0 <= i < |marks| ==> marks[i] == Mark(reviews[i].id, reviews[i].order)
  {
    seq(|reviews|, i requires 0 <= i < |reviews| => Mark(reviews[i].id, reviews[i].order))
  }

  function MarksOf(run: Run): seq<Mark> { [Mark(run.id, run.order)] + StepMarks(run) }

  function RunMarks(runs: seq<Run>): seq<Mark> {
    if runs == [] then [] else RunMarks(runs[..|runs| - 1]) + MarksOf(runs[|runs| - 1])
  }

  /** Every record of the journal that holds an order. */
  function Marks(j: Journal): seq<Mark> { ReviewMarks(j.reviews) + RunMarks(j.runs) }

  /** The journal's rule: every record has its own ID and its own order, below the next one. */
  ghost predicate Valid(j: Journal) {
    var marks := Marks(j);
    && j.nextOrder >= 0
    && Distinct(MarkIds(marks))
    && (forall a, b :: 0 <= a < b < |marks| ==> marks[a].order != marks[b].order)
    && (forall m :: m in marks ==> 0 <= m.order < j.nextOrder)
  }

  // ----- the new order -----

  function InScope(runs: seq<Run>, scope: Scoped): (r: seq<Run>)
    ensures forall x :: x in r <==> x in runs && x.scope == scope
  {
    if runs == [] then []
    else InScope(runs[..|runs| - 1], scope) + if runs[|runs| - 1].scope == scope then [runs[|runs| - 1]] else []
  }

  /** The conversation's runs, in their present order. */
  function Existing(j: Journal, scope: Scoped): seq<Run> { SortBy(InScope(j.runs, scope), RunOrder) }

  function RunNamed(runs: seq<Run>, id: Text): (run: Option<Run>)
    ensures run.Some? ==> run.value in runs && run.value.id == id
    ensures run.None? ==> forall r :: r in runs ==> r.id != id
  {
    if runs == [] then None else if runs[0].id == id then Some(runs[0]) else RunNamed(runs[1..], id)
  }

  function StepIds(run: Run): seq<Text> { MarkIds(SortBy(StepMarks(run), ByOrder)) }

  /** The part of the read that names known records, each once. */
  function Known(values: seq<Text>, ids: seq<Text>): seq<Text> { Filter(Unique(values), Elements(ids)) }

  function Source(j: Journal, q: Reading): seq<Text> { Known(q.runs, RunIds(Existing(j, q.scope))) }

  /** An earlier page only places runs that were not shown before it. */
  function RunOrdering(j: Journal, q: Reading): seq<Text> {
    Arranged(RunIds(Existing(j, q.scope)), if q.earlier then Without(Source(j, q), q.known) else Source(j, q),
             q.earlier, q.live)
  }

  function StepOrdering(run: Run, q: Reading): seq<Text> {
    Arranged(StepIds(run), Known(if run.id in q.steps then q.steps[run.id] else [], StepIds(run)), q.earlier, q.live)
  }

  function Block(runs: seq<Run>, id: Text, q: Reading): seq<Text> {
    var run := RunNamed(runs, id);
    if run.None? then [] else [id] + StepOrdering(run.value, q)
  }

  /** Each run followed by its steps. */
  function Flattened(runs: seq<Run>, order: seq<Text>, q: Reading): seq<Text> {
    if order == [] then [] else Flattened(runs, order[..|order| - 1], q) + Block(runs, order[|order| - 1], q)
  }

  function FlatOf(j: Journal, q: Reading): seq<Text> { Flattened(Existing(j, q.scope), RunOrdering(j, q), q) }

  function Prior(j: Journal): seq<Text> { MarkIds(SortBy(Marks(j), ByOrder)) }

  function Position(s: seq<Text>, id: Text): (at: nat)
    requires id in s
    ensures at < |s| && s[at] == id
  {
    if s[|s| - 1] == id then |s| - 1 else Position(s[..|s| - 1], id)
  }

  function Number(result: seq<Text>, id: Text, order: int): int {
    if id in result then Position(result, id) else order
  }

  function Renumbered(run: Run, result: seq<Text>): Run {
    run.(order := Number(result, run.id, run.order),
         steps := seq(|run.steps|, i requires 0 <= i < |run.steps| =>
                    run.steps[i].(order := Number(result, run.steps[i].id, run.steps[i].order))))
  }

  function RenumberedRuns(runs: seq<Run>, result: seq<Text>): (r: seq<Run>)
    ensures |r| == |runs| && forall i :: 0 <= i < |r| ==> r[i] == Renumbered(runs[i], result)
  {
    seq(|runs|, i requires 0 <= i < |runs| => Renumbered(runs[i], result))
  }

  function RenumberedReviews(reviews: seq<Review>, result: seq<Text>): (r: seq<Review>)
    ensures |r| == |reviews|
            && forall i :: 0 <= i < |r| ==>
                 r[i] == reviews[i].(order := Number(result, reviews[i].id, reviews[i].order))
  {
    seq(|reviews|,
        i requires 0 <= i < |reviews| => reviews[i].(order := Number(result, reviews[i].id, reviews[i].order)))
  }

  function Reordered(j: Journal, result: seq<Text>): Journal {
    Journal(|result|, SortBy(RenumberedRuns(j.runs, result), RunOrder), RenumberedReviews(j.reviews, result))
  }

  /** Every ID in its new place: the conversation's records together, where the first of them stood. */
  function NewOrder(j: Journal, q: Reading): seq<Text> {
    Splice(Prior(j), Elements(FlatOf(j, q)), FlatOf(j, q))
  }

  function Merged(j: Journal, q: Reading): Journal {
    if Source(j, q) == [] || !Distinct(NewOrder(j, q)) then j else Reordered(j, NewOrder(j, q))
  }
}
