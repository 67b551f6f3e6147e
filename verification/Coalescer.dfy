/** Lookups that arrive close together share one call to the provider.

    A lookup queues; a timer, or a full queue, calls for a flush; a flush takes a batch off the
    front of the queue. Timers that have fired cannot be stopped, so flushes may come late, more
    than once, or to an empty queue.
 */
module Coalescing {
  import opened Text

  const MAX_BATCH := 100

  /** `who` numbers the lookups in the order they arrived. */
  datatype Item = Item(who: nat, key: string)

  datatype Answer = Answer(result: string) | Error(reason: string)

  /** What came of a batch: no call was made or it panicked, or it returned some results. */
  datatype Outcome = Refused(reason: string) | Returned(results: seq<Answer>)

  datatype Send = Send(who: nat, answer: Answer)

  /** A call of flush that has yet to take the lock: a timer's, or one made by a full queue. */
  datatype Call = ByTimer(timer: nat) | Direct

  /** The batch's items were numbered from `first`; `reply` is what came of it, once its answers are sent. */
  datatype Batch = Batch(first: nat, items: seq<Item>, reply: Option<Outcome>)

  /** `armed` are the timers that may still fire, `calls` the flushes on their way, and `asked` the keys
      looked up, in order. */
  datatype State = State(
    pending: seq<Item>,
    timer: Option<nat>,
    armed: set<nat>,
    calls: multiset<Call>,
    timers: nat,
    arrived: nat,
    asked: seq<string>,
    batches: seq<Batch>,
    sent: multiset<Send>)

  const EMPTY := State([], None, {}, multiset{}, 0, 0, [], [], multiset{})

  // ----- the locked sections ----------------------------------------------------------------------

  function StartTimer(s: State): State {
    s.(timer := Some(s.timers), armed := s.armed + {s.timers}, timers := s.timers + 1)
  }

  function StopTimer(s: State): State {
    if s.timer.None? then s else s.(timer := None, armed := s.armed - {s.timer.value})
  }

  function Queued(s: State, key: string): State {
    s.(pending := s.pending + [Item(s.arrived, key)], arrived := s.arrived + 1, asked := s.asked + [key])
  }

  /** A lookup joins the queue. */
  function Enqueue(s: State, key: string): State {
    var queued := Queued(s, key);
    if |queued.pending| >= MAX_BATCH then StopTimer(queued).(calls := s.calls + multiset{Direct})
    else if s.timer.None? then StartTimer(queued)
    else queued
  }

  function BatchSize(pending: seq<Item>): (n: nat)
    ensures n <= |pending|
  {
    if |pending| > MAX_BATCH then MAX_BATCH else |pending|
  }

  /** A flush takes the front of the queue, and calls for another when that is not all of it. */
  function Take(s: State, call: Call): State {
    if s.pending == [] then s.(calls := s.calls - multiset{call}, timer := None)
    else
      var taken := TakeFront(s, call);
      if taken.pending != [] then StartTimer(taken) else taken.(timer := None)
  }

  function TakeFront(s: State, call: Call): State
    requires s.pending != []
  {
    var n := BatchSize(s.pending);
    s.(calls := s.calls - multiset{call}, pending := s.pending[n..],
       batches := s.batches + [Batch(s.pending[0].who, s.pending[..n], None)])
  }

  function Fire(s: State, timer: nat): State {
    s.(armed := s.armed - {timer}, calls := s.calls + multiset{ByTimer(timer)})
  }

  /** The answer of each item, by position. */
  function Answers(items: seq<Item>, reply: Outcome): (sends: seq<Send>)
    ensures |sends| == |items|
  {
    seq(|items|, p requires 0 <= p < |items| => Send(items[p].who,
      if reply.Refused? then Error(reply.reason)
      else if p < |reply.results| then reply.results[p]
      else Error("batch lookup omitted result")))
  }

  function Deliver(s: State, k: nat, reply: Outcome): State
    requires k < |s.batches|
  {
    s.(batches := s.batches[k := s.batches[k].(reply := Some(reply))],
       sent := s.sent + multiset(Answers(s.batches[k].items, reply)))
  }

  // ----- every interleaving ---------------------------------------------------------------------------

  datatype Step =
    | Looked(key: string)
    | Fired(timer: nat)
    | Flushed(call: Call)
    | Delivered(k: nat, reply: Outcome)

  ghost predicate Enabled(s: State, step: Step) {
    match step
    case Looked(_) => true
    case Fired(timer) => timer in s.armed
    case Flushed(call) => call in s.calls
    case Delivered(k, _) => k < |s.batches| && s.batches[k].reply.None?
  }

  ghost function Apply(s: State, step: Step): State
    requires Enabled(s, step)
  {
    match step
    case Looked(key) => Enqueue(s, key)
    case Fired(timer) => Fire(s, timer)
    case Flushed(call) => Take(s, call)
    case Delivered(k, reply) => Deliver(s, k, reply)
  }

  // ----- nobody waits without a flush to come ------------------------------------------------------------

  ghost predicate Live(s: State) {
    s.armed != {} || s.calls != multiset{}
  }

  /** The queue is never left without a flush to come, and the timer on record is one of those
      that are still to flush. */
  ghost predicate Attended(s: State) {
    && (s.pending != [] ==> Live(s))
    && (s.timer.Some? ==> s.timer.value in s.armed || ByTimer(s.timer.value) in s.calls)
    && (forall t <- s.armed :: t < s.timers)
    && (forall t: nat :: ByTimer(t) in s.calls ==> t < s.timers && t !in s.armed && s.calls[ByTimer(t)] == 1)
  }

  /** Once a flush has taken the lock, its timer is no longer on record. */
  lemma CalledStaysAttended(s: State, call: Call)
    requires Attended(s) && call in s.calls
    ensures Attended(s.(calls := s.calls - multiset{call}, timer := None, pending := []))
  {
  }

  lemma StartStaysAttended(s: State, pending: seq<Item>, batches: seq<Batch>)
    requires Attended(s) && s.timer.None?
    ensures Attended(StartTimer(s.(pending := pending, batches := batches)))
  {
    assert s.timers in StartTimer(s).armed;
  }

  lemma TakeStaysAttended(s: State, call: Call)
    requires Attended(s) && call in s.calls
    ensures Attended(Take(s, call))
  {
    CalledStaysAttended(s, call);
    var called, t := s.(calls := s.calls - multiset{call}, timer := None, pending := []), Take(s, call);
    if s.pending != [] {
      if t.pending != [] {
        StartStaysAttended(called, t.pending, t.batches);
        assert t == StartTimer(called.(pending := t.pending, batches := t.batches));
      } else {
        assert t == called.(batches := t.batches);
      }
    }
  }

  lemma EnqueueStaysAttended(s: State, key: string)
    requires Attended(s)
    ensures Attended(Enqueue(s, key))
  {
    var t := Enqueue(s, key);
    if |s.pending| + 1 >= MAX_BATCH { assert Direct in t.calls; } else { assert t.timer.Some?; }
  }

  lemma FireStaysAttended(s: State, timer: nat)
    requires Attended(s) && timer in s.armed
    ensures Attended(Fire(s, timer))
  {
    assert ByTimer(timer) in Fire(s, timer).calls;
  }

  lemma StaysAttended(s: State, step: Step)
    requires Attended(s) && Enabled(s, step)
    ensures Attended(Apply(s, step))
  {
    match step
    case Looked(key) => EnqueueStaysAttended(s, key);
    case Fired(timer) => FireStaysAttended(s, timer);
    case Flushed(call) => TakeStaysAttended(s, call);
    case Delivered(k, reply) =>
  }

  // ----- batches are runs of arrivals, each answered once -----------------------------------------------

  /** The items are the lookups from number `first` on, each with the key it asked for. */
  ghost predicate Consecutive(items: seq<Item>, first: nat, asked: seq<string>) {
    && first + |items| <= |asked|
    && forall p | 0 <= p < |items| :: items[p].who == first + p && items[p].key == asked[first + p]
  }

  function End(b: Batch): nat {
    b.first + |b.items|
  }

  /** The batches and then the queue are all arrivals, in order and without a gap. */
  ghost predicate InOrder(s: State) {
    && |s.pending| <= s.arrived == |s.asked| && Consecutive(s.pending, s.arrived - |s.pending|, s.asked)
    && (forall k | 0 <= k < |s.batches| :: Consecutive(s.batches[k].items, s.batches[k].first, s.asked))
    && (forall k | 0 <= k < |s.batches| :: 0 < |s.batches[k].items| <= MAX_BATCH)
    && (forall k | 0 <= k < |s.batches| - 1 :: End(s.batches[k]) == s.batches[k + 1].first)
    && (s.batches != [] ==> s.batches[0].first == 0)
    && Taken(s.batches) == s.arrived - |s.pending|
  }

  /** How many arrivals are in batches that follow on from each other. */
  function Taken(batches: seq<Batch>): nat {
    if batches == [] then 0 else End(batches[|batches| - 1])
  }

  lemma TakeFrontStaysInOrder(s: State, call: Call)
    requires InOrder(s) && s.pending != []
    ensures InOrder(TakeFront(s, call))
  {
    var t, n := TakeFront(s, call), BatchSize(s.pending);
    assert s.pending[0].who == s.arrived - |s.pending|;
    Splits(s.pending, s.arrived - |s.pending|, s.asked, n);
    BatchJoins(s, t, Batch(s.pending[0].who, s.pending[..n], None));
  }

  lemma Splits(items: seq<Item>, first: nat, asked: seq<string>, n: nat)
    requires Consecutive(items, first, asked) && n <= |items|
    ensures Consecutive(items[..n], first, asked) && Consecutive(items[n..], first + n, asked)
  {
  }

  /** A batch that goes on where the others end. */
  lemma BatchJoins(s: State, t: State, b: Batch)
    requires InOrder(s) && t.batches == s.batches + [b] && t.asked == s.asked && t.arrived == s.arrived
    requires b.first == Taken(s.batches) && 0 < |b.items| <= MAX_BATCH && Consecutive(b.items, b.first, s.asked)
    requires |t.pending| + |b.items| == |s.pending| && Consecutive(t.pending, t.arrived - |t.pending|, t.asked)
    ensures InOrder(t)
  {
    assert forall k | 0 <= k < |s.batches| :: t.batches[k] == s.batches[k];
    assert t.batches[|s.batches|] == b;
  }

  lemma TimersKeepOrder(s: State, t: State)
    requires InOrder(s) && t.pending == s.pending && t.batches == s.batches
    requires t.arrived == s.arrived && t.asked == s.asked
    ensures InOrder(t)
  {
  }

  lemma TakeStaysInOrder(s: State, call: Call)
    requires InOrder(s) && s.pending != []
    ensures InOrder(Take(s, call))
  {
    TakeFrontStaysInOrder(s, call);
    TimersKeepOrder(TakeFront(s, call), Take(s, call));
  }

  lemma EnqueueStaysInOrder(s: State, key: string)
    requires InOrder(s)
    ensures InOrder(Enqueue(s, key))
  {
    var t := Enqueue(s, key);
    assert t.batches == s.batches && t.asked == s.asked + [key];
    QueueGrows(s.pending, s.arrived - |s.pending|, s.asked, key);
    forall k | 0 <= k < |s.batches| ensures Consecutive(s.batches[k].items, s.batches[k].first, t.asked) {
      MoreAsked(s.batches[k].items, s.batches[k].first, s.asked, key);
    }
  }

  lemma QueueGrows(items: seq<Item>, first: nat, asked: seq<string>, key: string)
    requires Consecutive(items, first, asked) && first + |items| == |asked|
    ensures Consecutive(items + [Item(|asked|, key)], first, asked + [key])
  {
  }

  lemma MoreAsked(items: seq<Item>, first: nat, asked: seq<string>, key: string)
    requires Consecutive(items, first, asked)
    ensures Consecutive(items, first, asked + [key])
  {
  }

  lemma DeliverStaysInOrder(s: State, k: nat, reply: Outcome)
    requires InOrder(s) && k < |s.batches|
    ensures InOrder(Deliver(s, k, reply))
  {
    var t := Deliver(s, k, reply);
    assert forall l | 0 <= l < |s.batches| ::
      t.batches[l].first == s.batches[l].first && t.batches[l].items == s.batches[l].items;
  }

  lemma StaysInOrder(s: State, step: Step)
    requires InOrder(s) && Enabled(s, step)
    ensures InOrder(Apply(s, step))
  {
    match step
    case Looked(key) => EnqueueStaysInOrder(s, key);
    case Fired(_) =>
    case Flushed(call) => if s.pending != [] { TakeStaysInOrder(s, call); }
    case Delivered(k, reply) => DeliverStaysInOrder(s, k, reply);
  }

  predicate Holds(b: Batch, who: nat) {
    b.first <= who < End(b)
  }

  lemma {:induction false} BatchesAscend(s: State, k: nat, l: nat)
    requires InOrder(s) && k < l < |s.batches|
    ensures End(s.batches[k]) <= s.batches[l].first
    decreases l
  {
    if k + 1 < l { BatchesAscend(s, k, l - 1); }
  }

  /** Batch `b` was answered, and that is the answer for its p-th item. */
  ghost predicate AnswerIs(b: Batch, p: nat, answer: Answer) {
    && b.reply.Some?
    && match b.reply.value
       case Refused(reason) => answer == Error(reason)
       case Returned(results) =>
         answer == if p < |results| then results[p] else Error("batch lookup omitted result")
  }

  ghost predicate Answered(s: State, who: nat, answer: Answer) {
    exists k :: 0 <= k < |s.batches| && Holds(s.batches[k], who)
      && AnswerIs(s.batches[k], who - s.batches[k].first, answer)
  }

  /** Every lookup of an answered batch has been sent its own answer, once, and nothing else has been sent. */
  ghost predicate SentOnce(s: State) {
    forall who: nat, answer :: s.sent[Send(who, answer)] == if Answered(s, who, answer) then 1 else 0
  }

  lemma {:induction false} OneEach(sends: seq<Send>, first: nat, who: nat, answer: Answer)
    requires forall p | 0 <= p < |sends| :: sends[p].who == first + p
    ensures multiset(sends)[Send(who, answer)] ==
      if first <= who < first + |sends| && sends[who - first].answer == answer then 1 else 0
  {
    if sends != [] {
      var front := sends[..|sends| - 1];
      OneEach(front, first, who, answer);
      assert sends == front + [sends[|sends| - 1]];
    }
  }

  lemma DeliverSendsOnce(s: State, k: nat, reply: Outcome)
    requires InOrder(s) && SentOnce(s) && k < |s.batches| && s.batches[k].reply.None?
    ensures SentOnce(Deliver(s, k, reply))
  {
    var t := Deliver(s, k, reply);
    forall who: nat, answer ensures t.sent[Send(who, answer)] == if Answered(t, who, answer) then 1 else 0 {
      DeliverSendsTo(s, k, reply, who, answer);
    }
  }

  lemma DeliverSendsTo(s: State, k: nat, reply: Outcome, who: nat, answer: Answer)
    requires InOrder(s) && SentOnce(s) && k < |s.batches| && s.batches[k].reply.None?
    ensures
      var t := Deliver(s, k, reply);
      t.sent[Send(who, answer)] == if Answered(t, who, answer) then 1 else 0
  {
    var t, b := Deliver(s, k, reply), s.batches[k];
    assert Consecutive(b.items, b.first, s.asked);
    OwnAnswer(b, s.asked, reply, who, answer);
    OthersAnswer(s, t, k, who, answer);
    assert s.sent[Send(who, answer)] == if Answered(s, who, answer) then 1 else 0;
    if Holds(b, who) { OnlyBatch(s, k, who); }
  }

  /** The answers of a batch hold each of its lookups' own answer once. */
  lemma OwnAnswer(b: Batch, asked: seq<string>, reply: Outcome, who: nat, answer: Answer)
    requires Consecutive(b.items, b.first, asked)
    ensures multiset(Answers(b.items, reply))[Send(who, answer)] ==
      if Holds(b, who) && AnswerIs(b.(reply := Some(reply)), who - b.first, answer) then 1 else 0
  {
    OneEach(Answers(b.items, reply), b.first, who, answer);
  }

  lemma OnlyBatch(s: State, k: nat, who: nat)
    requires InOrder(s) && k < |s.batches| && Holds(s.batches[k], who)
    ensures forall l | 0 <= l < |s.batches| && l != k :: !Holds(s.batches[l], who)
  {
    forall l | 0 <= l < |s.batches| && l != k ensures !Holds(s.batches[l], who) {
      if l < k { BatchesAscend(s, l, k); } else { BatchesAscend(s, k, l); }
    }
  }

  lemma OthersAnswer(s: State, t: State, k: nat, who: nat, answer: Answer)
    requires k < |s.batches| == |t.batches| && s.batches[k].reply.None?
    requires t.batches[k].first == s.batches[k].first && t.batches[k].items == s.batches[k].items
    requires forall l | 0 <= l < |s.batches| && l != k :: t.batches[l] == s.batches[l]
    ensures Answered(t, who, answer) <==>
      Answered(s, who, answer)
      || (Holds(t.batches[k], who) && AnswerIs(t.batches[k], who - t.batches[k].first, answer))
  {
    forall l | 0 <= l < |s.batches| && Holds(s.batches[l], who)
               && AnswerIs(s.batches[l], who - s.batches[l].first, answer)
      ensures Answered(t, who, answer)
    {
      assert t.batches[l] == s.batches[l];
    }
  }

  lemma TakeSendsNothing(s: State, call: Call)
    requires SentOnce(s)
    ensures SentOnce(Take(s, call))
  {
    var t := Take(s, call);
    assert s.batches <= t.batches;
    forall who: nat, answer ensures Answered(t, who, answer) <==> Answered(s, who, answer) {
      UnansweredMore(s, t, who, answer);
    }
  }

  lemma UnansweredMore(s: State, t: State, who: nat, answer: Answer)
    requires s.batches <= t.batches && forall k | |s.batches| <= k < |t.batches| :: t.batches[k].reply.None?
    ensures Answered(t, who, answer) <==> Answered(s, who, answer)
  {
    forall k | 0 <= k < |s.batches| && Holds(s.batches[k], who)
               && AnswerIs(s.batches[k], who - s.batches[k].first, answer)
      ensures Answered(t, who, answer)
    {
      assert t.batches[k] == s.batches[k];
    }
  }

  /** A step that leaves batches and channels alone. */
  lemma SameBatchesSentOnce(s: State, t: State)
    requires SentOnce(s) && t.batches == s.batches && t.sent == s.sent
    ensures SentOnce(t)
  {
    assert forall who, answer :: Answered(t, who, answer) <==> Answered(s, who, answer);
  }

  lemma StaysSentOnce(s: State, step: Step)
    requires InOrder(s) && SentOnce(s) && Enabled(s, step)
    ensures SentOnce(Apply(s, step))
  {
    match step
    case Delivered(k, reply) => DeliverSendsOnce(s, k, reply);
    case Flushed(call) => TakeSendsNothing(s, call);
    case Looked(key) => SameBatchesSentOnce(s, Enqueue(s, key));
    case Fired(timer) => SameBatchesSentOnce(s, Fire(s, timer));
  }

  // ----- the guarantee over every run ---------------------------------------------------------------------

  ghost predicate IsRun(run: seq<State>, steps: seq<Step>) {
    && |run| == |steps| + 1 && run[0] == EMPTY
    && forall k | 0 <= k < |steps| :: Enabled(run[k], steps[k]) && run[k + 1] == Apply(run[k], steps[k])
  }

  lemma {:induction false} InvInEveryRun(run: seq<State>, steps: seq<Step>, n: nat)
    requires IsRun(run, steps) && n < |run|
    ensures Attended(run[n]) && InOrder(run[n]) && SentOnce(run[n])
  {
    if n > 0 {
      InvInEveryRun(run, steps, n - 1);
      StaysAttended(run[n - 1], steps[n - 1]);
      StaysInOrder(run[n - 1], steps[n - 1]);
      StaysSentOnce(run[n - 1], steps[n - 1]);
    }
  }

  /** The keys looked up in the course of a run. */
  ghost function KeysOf(steps: seq<Step>): seq<string> {
    if steps == [] then []
    else
      var last := steps[|steps| - 1];
      KeysOf(steps[..|steps| - 1]) + if last.Looked? then [last.key] else []
  }

  lemma {:induction false} AskedInEveryRun(run: seq<State>, steps: seq<Step>, n: nat)
    requires IsRun(run, steps) && n < |run|
    ensures run[n].asked == KeysOf(steps[..n])
  {
    if n > 0 {
      AskedInEveryRun(run, steps, n - 1);
      assert steps[..n][..n - 1] == steps[..n - 1] && run[n] == Apply(run[n - 1], steps[n - 1]);
    }
  }

  /** Nothing was sent to `who` but `answer`, and that once. */
  ghost predicate SentJust(s: State, who: nat, answer: Answer) {
    s.sent[Send(who, answer)] == 1 && forall other | other != answer :: s.sent[Send(who, other)] == 0
  }

  ghost predicate SentNothing(s: State, who: nat) {
    forall answer :: s.sent[Send(who, answer)] == 0
  }

  /** What became of lookup `who`, which asked for `key`, in the batch that took it: nothing yet, or the
      call's error, or its own result by position, or an error if the call returned too few. */
  ghost predicate Served(s: State, b: Batch, who: nat, key: string) {
    && Holds(b, who) && |b.items| <= MAX_BATCH && b.items[who - b.first].key == key
    && match b.reply
       case None => SentNothing(s, who)
       case Some(Refused(reason)) => SentJust(s, who, Error(reason))
       case Some(Returned(results)) =>
         if who < b.first + |results| then SentJust(s, who, results[who - b.first])
         else SentJust(s, who, Error("batch lookup omitted result"))
  }

  /** In every interleaving: a queue that is not empty has a flush to come; the who-th lookup is in the
      queue, with nothing sent to it, or in exactly one batch of at most a hundred consecutive arrivals,
      under the key it asked for; and once that batch is answered, it has been sent just its own answer. */
  lemma EveryLookupIsAnsweredOnce(run: seq<State>, steps: seq<Step>, n: nat, who: nat)
    requires IsRun(run, steps) && n < |run| && who < run[n].arrived
    ensures
      var s := run[n];
      && (s.pending != [] ==> Live(s))
      && s.arrived == |KeysOf(steps[..n])|
      && if who >= s.arrived - |s.pending| then SentNothing(s, who)
         else exists k :: 0 <= k < |s.batches| && Served(s, s.batches[k], who, KeysOf(steps[..n])[who])
                      && forall l | 0 <= l < |s.batches| && l != k :: !Holds(s.batches[l], who)
  {
    var s := run[n];
    InvInEveryRun(run, steps, n);
    AskedInEveryRun(run, steps, n);
    if who >= s.arrived - |s.pending| {
      forall k | 0 <= k < |s.batches| ensures !Holds(s.batches[k], who) {
        if k < |s.batches| - 1 { BatchesAscend(s, k, |s.batches| - 1); }
      }
    } else {
      var k := BatchOf(s, who, |s.batches|);
      OnlyBatch(s, k, who);
      BatchServes(s, k, who);
    }
  }

  lemma BatchServes(s: State, k: nat, who: nat)
    requires InOrder(s) && SentOnce(s) && k < |s.batches| && Holds(s.batches[k], who)
    requires forall l | 0 <= l < |s.batches| && l != k :: !Holds(s.batches[l], who)
    ensures who < |s.asked| && Served(s, s.batches[k], who, s.asked[who])
  {
    var b := s.batches[k];
    assert b.items[who - b.first].key == s.asked[b.first + (who - b.first)];
    forall answer ensures s.sent[Send(who, answer)] == if AnswerIs(b, who - b.first, answer) then 1 else 0 {
      assert Answered(s, who, answer) <==> AnswerIs(b, who - b.first, answer);
    }
  }

  lemma {:induction false} BatchOf(s: State, who: nat, n: nat) returns (k: nat)
    requires InOrder(s) && 0 < n <= |s.batches| && who < End(s.batches[n - 1])
    ensures k < |s.batches| && Holds(s.batches[k], who)
  {
    if s.batches[n - 1].first <= who { return n - 1; }
    k := BatchOf(s, who, n - 1);
  }

  // ----- the object --------------------------------------------------------------------------------------------

  /** The coalescer, with the timers, flush calls, batches and channels around it as ghosts. */
  class Coalescer {
    var pending: seq<Item>
    var batchTimer: Option<nat>
    var timers: nat
    var arrived: nat
    ghost var armed: set<nat>
    ghost var calls: multiset<Call>
    ghost var batches: seq<Batch>
    ghost var asked: seq<string>
    ghost var sent: multiset<Send>

    ghost function Model(): State
      reads this
    {
      State(pending, batchTimer, armed, calls, timers, arrived, asked, batches, sent)
    }

    constructor ()
      ensures Model() == EMPTY
    {
      pending, batchTimer, timers, arrived := [], None, 0, 0;
      armed, calls, asked, batches, sent := {}, multiset{}, [], [], multiset{};
    }

    method ArmTimer()
      modifies this`batchTimer, this`timers, this`armed
      ensures Model() == StartTimer(old(Model()))
    {
      batchTimer, armed, timers := Some(timers), armed + {timers}, timers + 1;
    }

    method Queue(key: string)
      modifies this`pending, this`arrived, this`asked
      ensures Model() == Queued(old(Model()), key)
    {
      pending, arrived, asked := pending + [Item(arrived, key)], arrived + 1, asked + [key];
    }

    /** The locked section of a lookup. */
    method Lookup(key: string) returns (flushNow: bool)
      modifies this`pending, this`batchTimer, this`timers, this`arrived, this`asked, this`armed, this`calls
      ensures Model() == Enqueue(old(Model()), key) && flushNow == (|pending| >= MAX_BATCH)
    {
      Queue(key);
      flushNow := |pending| >= MAX_BATCH;
      if !flushNow && batchTimer.None? { ArmTimer(); }
      if flushNow && batchTimer.Some? {
        armed := armed - {batchTimer.value};
        batchTimer := None;
      }
      if flushNow { calls := calls + multiset{Direct}; }
    }

    /** Takes a batch off the front of the queue. */
    method Grab(ghost call: Call) returns (batch: seq<Item>)
      requires pending != []
      modifies this`pending, this`calls, this`batches
      ensures Model() == TakeFront(old(Model()), call) && old(pending) == batch + pending
      ensures |batch| == if |old(pending)| < 100 then |old(pending)| else 100
    {
      calls := calls - multiset{call};
      var n := if |pending| > MAX_BATCH then MAX_BATCH else |pending|;
      batch := pending[..n];
      assert pending == batch + pending[n..];
      batches := batches + [Batch(pending[0].who, batch, None)];
      pending := pending[n..];
    }

    /** The locked section of a flush. */
    method Flush(ghost call: Call) returns (batch: seq<Item>)
      requires call in calls
      modifies this`pending, this`batchTimer, this`timers, this`armed, this`calls, this`batches
      ensures Model() == Take(old(Model()), call) && old(pending) == batch + pending
      ensures |batch| == if |old(pending)| < 100 then |old(pending)| else 100
    {
      if |pending| == 0 {
        calls := calls - multiset{call};
        batchTimer := None;
        return [];
      }
      batch := Grab(call);
      if |pending| == 0 { batchTimer := None; } else { ArmTimer(); }
    }

    /** The answers of one batch. */
    static method Compose(items: seq<Item>, reply: Outcome) returns (sends: seq<Send>)
      ensures |sends| == |items| && forall p | 0 <= p < |sends| :: sends[p].who == items[p].who
      ensures forall p | 0 <= p < |sends| ::
        sends[p].answer == if reply.Refused? then Error(reply.reason)
                           else if p < |reply.results| then reply.results[p]
                           else Error("batch lookup omitted result")
    {
      sends := [];
      if reply.Refused? {
        for p := 0 to |items|
          invariant |sends| == p && forall q | 0 <= q < p :: sends[q] == Send(items[q].who, Error(reply.reason))
        {
          sends := sends + [Send(items[p].who, Error(reply.reason))];
        }
      } else {
        for p := 0 to |items|
          invariant |sends| == p && forall q | 0 <= q < p :: sends[q].who == items[q].who
          invariant forall q | 0 <= q < p ::
            sends[q].answer ==
              if q < |reply.results| then reply.results[q] else Error("batch lookup omitted result")
        {
          if p < |reply.results| {
            sends := sends + [Send(items[p].who, reply.results[p])];
          } else {
            sends := sends + [Send(items[p].who, Error("batch lookup omitted result"))];
          }
        }
      }
    }

    /** Sends the answers of one batch: an error to all, or to each its own by position. */
    method Reply(ghost k: nat, items: seq<Item>, reply: Outcome) returns (sends: seq<Send>)
      requires k < |batches| && batches[k].items == items
      modifies this`batches, this`sent
      ensures Model() == Deliver(old(Model()), k, reply)
      ensures |sends| == |items| && forall p | 0 <= p < |sends| :: sends[p].who == items[p].who
      ensures forall p | 0 <= p < |sends| ::
        sends[p].answer == if reply.Refused? then Error(reply.reason)
                           else if p < |reply.results| then reply.results[p]
                           else Error("batch lookup omitted result")
    {
      sends := Compose(items, reply);
      assert sends == Answers(items, reply);
      sent := sent + multiset(sends);
      batches := batches[k := batches[k].(reply := Some(reply))];
    }
  }
}
