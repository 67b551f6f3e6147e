/** The reservation ledger at the grain of its compare-and-swaps.

    Any number of threads run ledger calls against one shared ledger. Every successful
    compare-and-swap, and every load that only decides which way a call goes, is one atomic
    step: each swap writes a function of the very word it compares, so a load followed by a
    successful swap is one read-modify-write, and a failed swap changes nothing.

    A run is a schedule: at every step any thread moves, and an idle thread may begin any call.
 */
module LedgerCas {
  import opened Words
  import opened Books

  /** What a thread is about to do. */
  datatype Pc =
    | Idle
    | Bucketing(sec: u32)                           // state raised, ring not yet
    | Carrying(spilled: Word)                       // ring done, carry not yet
    | TakingAt(sec: u32)
    | CheckingCleared(sec: u32)
    | TakingCarry(minSec: u32)
    | TakingOne(sec: u32, step: nat)
    | Lowering                                      // a count taken, state not yet lowered
    | Noting(cutoff: u32)
    | Clearing(cutoff: u32, i: nat, freed: u32)     // bucket i next; carry when i is the ring size
    | Freeing(freed: u32)                           // counts dropped, state not yet lowered

  datatype Call =
    | Reserve(sec: u32)
    | ReleaseAt(sec: u32)
    | Release(sec: u32)
    | SetWarm(warm: u32)
    | ClearBefore(cutoff: u32)

  datatype State = State(book: Book, threads: seq<Pc>)

  function Begin(b: Book, call: Call): (Book, Pc) {
    match call
    case Reserve(sec) =>
      if b.out >= b.warm then (b, Idle) else (b.(out := Wrap(b.out + 1)), Bucketing(sec))
    case ReleaseAt(sec) => (b, TakingAt(sec))
    case Release(sec) => (b, TakingOne(sec, 0))
    case SetWarm(warm) => (b.(warm := warm), Idle)
    case ClearBefore(cutoff) => (b, Noting(cutoff))
  }

  /** The two swaps of a reservation after it has raised outstanding. */
  function Recording(b: Book, pc: Pc): (Book, Pc)
    requires |b.buckets| > 0 && (pc.Bucketing? || pc.Carrying?)
  {
    match pc
    case Bucketing(sec) =>
      var i := Slot(sec, |b.buckets|);
      var (w, spilled) := AddTo(b.buckets[i], sec);
      (b.(buckets := b.buckets[i := w]), if spilled.lo > 0 then Carrying(spilled) else Idle)
    case Carrying(spilled) => (b.(carry := CarryIn(b.carry, spilled)), Idle)
  }

  function TakeBucket(b: Book, i: nat): (Book, Pc)
    requires i < |b.buckets| && b.buckets[i].lo > 0
  {
    (b.(buckets := b.buckets[i := TakeOneOff(b.buckets[i])]), Lowering)
  }

  /** The loads and swaps by which a release finds the count it takes back. */
  function Taking(b: Book, pc: Pc): (Book, Pc)
    requires |b.buckets| > 0 && (pc.TakingAt? || pc.CheckingCleared? || pc.TakingCarry? || pc.TakingOne?)
  {
    var n := |b.buckets|;
    match pc
    case TakingAt(sec) =>
      var w := b.buckets[Slot(sec, n)];
      if w.lo == 0 || w.hi != sec then (b, CheckingCleared(sec)) else TakeBucket(b, Slot(sec, n))
    case CheckingCleared(sec) => (b, if sec < b.cleared then Idle else TakingCarry(sec))
    case TakingCarry(minSec) =>
      if b.carry.lo == 0 || b.carry.hi < minSec then (b, Idle)
      else (b.(carry := TakeOneOff(b.carry)), Lowering)
    case TakingOne(sec, step) =>
      if step >= n then (b, TakingCarry(0))
      else
        var i := Slot(Wrap(sec - step), n);
        if b.buckets[i].lo == 0 then (b, TakingOne(sec, step + 1)) else TakeBucket(b, i)
  }

  /** The swaps of a poll clearing what its report accounts for. */
  function Dropping(b: Book, pc: Pc): (Book, Pc)
    requires pc.Noting? || pc.Clearing?
  {
    match pc
    case Noting(cutoff) =>
      (b.(cleared := if cutoff > b.cleared then cutoff else b.cleared), Clearing(cutoff, 0, 0))
    case Clearing(cutoff, i, freed) =>
      if i < |b.buckets| then
        if Droppable(b.buckets[i], cutoff) then
          (b.(buckets := b.buckets[i := ZERO]), Clearing(cutoff, i + 1, Wrap(freed + b.buckets[i].lo)))
        else (b, Clearing(cutoff, i + 1, freed))
      else if Droppable(b.carry, cutoff) then (b.(carry := ZERO), AfterClearing(Wrap(freed + b.carry.lo)))
      else (b, AfterClearing(freed))
  }

  /** One atomic step of a thread; `call` is what an idle thread begins. */
  function Next(b: Book, pc: Pc, call: Call): (Book, Pc)
    requires |b.buckets| > 0
  {
    match pc
    case Idle => Begin(b, call)
    case Bucketing(_) => Recording(b, pc)
    case Carrying(_) => Recording(b, pc)
    case Lowering => (if b.out == 0 then b else b.(out := Wrap(b.out - 1)), Idle)
    case Freeing(freed) => (b.(out := Wrap(b.out - freed)), Idle)
    case Noting(_) => Dropping(b, pc)
    case Clearing(_, _, _) => Dropping(b, pc)
    case _ => Taking(b, pc)
  }

  function AfterClearing(freed: u32): Pc {
    if freed == 0 then Idle else Freeing(freed)
  }

  datatype Move = Move(thread: nat, call: Call)

  function Step(s: State, m: Move): State
    requires m.thread < |s.threads| && |s.book.buckets| > 0
  {
    var (b, pc) := Next(s.book, s.threads[m.thread], m.call);
    State(b, s.threads[m.thread := pc])
  }

  ghost predicate ValidMoves(moves: seq<Move>, threads: nat) {
    forall m <- moves :: m.thread < threads
  }

  /** The state a schedule leads to. */
  ghost function Exec(s: State, moves: seq<Move>): (t: State)
    requires ValidMoves(moves, |s.threads|) && |s.book.buckets| > 0
    ensures |t.threads| == |s.threads| && |t.book.buckets| == |s.book.buckets|
    decreases |moves|
  {
    if moves == [] then s
    else Step(Exec(s, moves[..|moves| - 1]), moves[|moves| - 1])
  }

  ghost predicate Initial(s: State) {
    && |s.book.buckets| > 0
    && s.book == EmptyBook(|s.book.buckets|)
    && forall pc <- s.threads :: pc == Idle
  }

  // ----- conservation, over every schedule of every call ------------------------------------

  /** Counts a thread has added to outstanding and not yet placed, from second `since` on. */
  function Carried(pc: Pc, since: nat): nat {
    match pc
    case Bucketing(sec) => if sec >= since then 1 else 0
    case Carrying(spilled) => Tail(since)(spilled)
    case _ => 0
  }

  /** Counts a thread has taken out of the ring or carry and still owes to outstanding. */
  function Debt(pc: Pc): nat {
    match pc
    case Lowering => 1
    case Clearing(_, _, freed) => freed
    case Freeing(freed) => freed
    case _ => 0
  }

  function InTransit(since: nat): Pc -> nat {
    (pc: Pc) => Carried(pc, since)
  }

  function Owed(): Pc -> nat {
    (pc: Pc) => Debt(pc)
  }

  ghost predicate Conserved(s: State) {
    && |s.book.buckets| > 0
    && s.book.out == Placed(s.book) + Sum(InTransit(0), s.threads) + Sum(Owed(), s.threads)
  }

  /** Rewriting one bucket moves exactly the counts it gains or loses. */
  lemma BucketRewritten(b: Book, i: nat, w: Word)
    requires i < |b.buckets|
    ensures Placed(b.(buckets := b.buckets[i := w])) + b.buckets[i].lo == Placed(b) + w.lo
    ensures Placed(b) >= b.buckets[i].lo + b.carry.lo
  {
    SumUpdate(Tail(0), b.buckets, i, w);
  }

  ghost predicate Balanced(b: Book, pc: Pc, others: nat) {
    b.out == Placed(b) + Carried(pc, 0) + Debt(pc) + others
  }

  lemma RecordingBalances(b: Book, pc: Pc, others: nat)
    requires |b.buckets| > 0 && (pc.Bucketing? || pc.Carrying?)
    requires Balanced(b, pc, others)
    ensures var (b', pc') := Recording(b, pc); Balanced(b', pc', others)
  {
    if pc.Bucketing? {
      var i := Slot(pc.sec, |b.buckets|);
      BucketRewritten(b, i, AddTo(b.buckets[i], pc.sec).0);
    }
  }

  lemma TakingBalances(b: Book, pc: Pc, others: nat)
    requires |b.buckets| > 0 && (pc.TakingAt? || pc.CheckingCleared? || pc.TakingCarry? || pc.TakingOne?)
    requires Balanced(b, pc, others)
    ensures var (b', pc') := Taking(b, pc); Balanced(b', pc', others)
  {
    forall i | 0 <= i < |b.buckets| && b.buckets[i].lo > 0
      ensures var (b', pc') := TakeBucket(b, i); Balanced(b', pc', others)
    {
      BucketRewritten(b, i, TakeOneOff(b.buckets[i]));
    }
  }

  lemma DroppingBalances(b: Book, pc: Pc, others: nat)
    requires pc.Noting? || pc.Clearing?
    requires Balanced(b, pc, others)
    ensures var (b', pc') := Dropping(b, pc); Balanced(b', pc', others)
  {
    if pc.Clearing? && pc.i < |b.buckets| {
      BucketRewritten(b, pc.i, ZERO);
    }
  }

  /** What one thread's step does to the balance, whatever the `others` hold. */
  lemma NextBalances(b: Book, pc: Pc, call: Call, others: nat)
    requires |b.buckets| > 0
    requires Balanced(b, pc, others)
    ensures var (b', pc') := Next(b, pc, call); Balanced(b', pc', others)
  {
    match pc
    case Idle =>
    case Lowering =>
    case Freeing(_) =>
    case Bucketing(_) => RecordingBalances(b, pc, others);
    case Carrying(_) => RecordingBalances(b, pc, others);
    case Noting(_) => DroppingBalances(b, pc, others);
    case Clearing(_, _, _) => DroppingBalances(b, pc, others);
    case _ => TakingBalances(b, pc, others);
  }

  /** Every single step keeps outstanding equal to what is in the ring, in carry and in the
      hands of threads between two swaps. */
  lemma StepConserves(s: State, m: Move)
    requires Conserved(s) && m.thread < |s.threads|
    ensures Conserved(Step(s, m))
  {
    var pc := s.threads[m.thread];
    var pc' := Next(s.book, pc, m.call).1;
    SumUpdate(InTransit(0), s.threads, m.thread, pc');
    SumUpdate(Owed(), s.threads, m.thread, pc');
    NextBalances(s.book, pc, m.call,
                  Sum(InTransit(0), s.threads) - Carried(pc, 0) + Sum(Owed(), s.threads) - Debt(pc));
  }

  lemma InitialConserved(s: State)
    requires Initial(s)
    ensures Conserved(s)
  {
    SumUniform(Tail(0), s.book.buckets, 0);
    SumUniform(InTransit(0), s.threads, 0);
    SumUniform(Owed(), s.threads, 0);
  }

  lemma {:induction false} ConservedInEveryRun(s: State, moves: seq<Move>)
    requires Initial(s) && ValidMoves(moves, |s.threads|)
    ensures Conserved(Exec(s, moves))
    decreases |moves|
  {
    if moves == [] {
      InitialConserved(s);
    } else {
      ConservedInEveryRun(s, moves[..|moves| - 1]);
      StepConserves(Exec(s, moves[..|moves| - 1]), moves[|moves| - 1]);
    }
  }

  /** In every reachable state no half-word wraps and nothing underflows: a thread that took a
      count finds outstanding positive, a poll subtracts no more than outstanding, and no sum
      of counts exceeds 32 bits. A reservation that succeeds leaves outstanding at most the
      warm capacity in the same word. */
  lemma NothingWraps(s: State, m: Move)
    requires Conserved(s) && m.thread < |s.threads|
    ensures
      var b, pc := s.book, s.threads[m.thread];
      && (pc.Lowering? ==> b.out > 0)
      && (pc.Freeing? ==> pc.freed <= b.out)
      && (pc.Bucketing? ==> b.buckets[Slot(pc.sec, |b.buckets|)].lo < MAX_U32)
      && (pc.Carrying? ==> b.carry.lo + pc.spilled.lo <= MAX_U32)
      && (pc.Clearing? && pc.i < |b.buckets| ==> pc.freed + b.buckets[pc.i].lo <= MAX_U32)
      && (pc.Clearing? ==> pc.freed + b.carry.lo <= MAX_U32)
      && (pc.Idle? && m.call.Reserve? && Step(s, m).threads[m.thread] != Idle
          ==> Step(s, m).book.out == b.out + 1 <= Step(s, m).book.warm == b.warm)
  {
    var b, pc := s.book, s.threads[m.thread];
    SumUpdate(InTransit(0), s.threads, m.thread, pc);
    SumUpdate(Owed(), s.threads, m.thread, pc);
    forall i | 0 <= i < |b.buckets|
      ensures b.buckets[i].lo + b.carry.lo <= Placed(b)
    {
      BucketRewritten(b, i, b.buckets[i]);
    }
  }

  // ----- no live reservation is ever dropped, over every schedule without releases ----------

  /** What happened so far: the second of every reservation made, the seconds folded into
      carry since it was last dropped, and the largest cutoff any poll has begun with. */
  datatype History = History(made: seq<u32>, carried: seq<u32>, cut: nat)

  function Copies(w: Word): seq<u32> {
    seq(w.lo, _ => w.hi)
  }

  function Remember(h: History, b: Book, pc: Pc, call: Call): History {
    if pc.Idle? && call.Reserve? && b.out < b.warm then h.(made := h.made + [call.sec])
    else if pc.Idle? && call.ClearBefore? && call.cutoff > h.cut then h.(cut := call.cutoff)
    else if pc.Carrying? then h.(carried := h.carried + Copies(pc.spilled))
    else if pc.Clearing? && pc.i >= |b.buckets| && Droppable(b.carry, pc.cutoff) then h.(carried := [])
    else h
  }

  ghost predicate NoReleases(moves: seq<Move>) {
    forall m <- moves :: !m.call.ReleaseAt? && !m.call.Release?
  }

  ghost function HistoryOf(s: State, moves: seq<Move>): History
    requires ValidMoves(moves, |s.threads|) && |s.book.buckets| > 0
    decreases |moves|
  {
    if moves == [] then History([], [], 0)
    else
      var m, t := moves[|moves| - 1], Exec(s, moves[..|moves| - 1]);
      Remember(HistoryOf(s, moves[..|moves| - 1]), t.book, t.threads[m.thread], m.call)
  }

  /** Where the reservations of second `since` and later are. */
  ghost function Found(b: Book, h: History, since: nat): nat {
    Sum(Tail(since), b.buckets) + CountFrom(since, h.carried)
  }

  /** A thread's place in a run without releases: its cutoff, if any, is accounted for. */
  ghost predicate Polling(pc: Pc, cut: nat) {
    && (pc.Noting? || pc.Clearing? ==> pc.cutoff <= cut) && (pc.Carrying? ==> pc.spilled.lo > 0)
    && (pc.Idle? || pc.Bucketing? || pc.Carrying? || pc.Noting? || pc.Clearing? || pc.Freeing?)
  }

  ghost predicate CarryLabelled(b: Book, h: History) {
    && |h.carried| == b.carry.lo && (forall sec <- h.carried :: sec <= b.carry.hi)
    && (if b.carry.lo == 0 then b.carry == ZERO else b.carry.hi in h.carried)
  }

  /** Nothing made at or after every cutoff so far is missing: bucket, transit and carry hold,
      for each such second, exactly as many reservations as were made. */
  ghost predicate NothingDropped(s: State, h: History) {
    && CarryLabelled(s.book, h)
    && (forall pc <- s.threads :: Polling(pc, h.cut))
    && forall since: nat :: since >= h.cut ==>
         CountFrom(since, h.made) == Found(s.book, h, since) + Sum(InTransit(since), s.threads)
  }

  lemma BucketMoved(b: Book, h: History, i: nat, w: Word, since: nat)
    requires i < |b.buckets|
    ensures Found(b.(buckets := b.buckets[i := w]), h, since) + Tail(since)(b.buckets[i])
         == Found(b, h, since) + Tail(since)(w)
  {
    SumUpdate(Tail(since), b.buckets, i, w);
  }

  lemma {:induction false} CountBelow(since: nat, secs: seq<u32>)
    requires forall sec <- secs :: sec < since
    ensures CountFrom(since, secs) == 0
  {
    SumUniform(AtOrAfter(since), secs, 0);
  }

  lemma ReservingKeeps(b: Book, h: History, pc: Pc, call: Call, since: nat)
    requires |b.buckets| > 0 && pc.Idle? && !call.ReleaseAt? && !call.Release?
    requires since >= Remember(h, b, pc, call).cut
    ensures
      var (b', pc') := Next(b, pc, call);
      var h' := Remember(h, b, pc, call);
      && Found(b', h', since) == Found(b, h, since)
      && CountFrom(since, h'.made) == CountFrom(since, h.made) + Carried(pc', since)
  {
    if call.Reserve? && b.out < b.warm {
      SumAppend(AtOrAfter(since), h.made, [call.sec]);
    }
  }

  lemma RecordingKeeps(b: Book, h: History, pc: Pc, call: Call, since: nat)
    requires |b.buckets| > 0 && (pc.Bucketing? || pc.Carrying?)
    requires pc.Bucketing? ==> b.buckets[Slot(pc.sec, |b.buckets|)].lo < MAX_U32
    ensures
      var (b', pc') := Recording(b, pc);
      var h' := Remember(h, b, pc, call);
      && Found(b', h', since) + Carried(pc', since) == Found(b, h, since) + Carried(pc, since)
      && h'.made == h.made
  {
    match pc
    case Bucketing(sec) =>
      var i := Slot(sec, |b.buckets|);
      BucketMoved(b, h, i, AddTo(b.buckets[i], sec).0, since);
    case Carrying(sp) =>
      SumAppend<u32>(AtOrAfter(since), h.carried, Copies(sp));
      SumUniform<u32>(AtOrAfter(since), Copies(sp), AtOrAfter(since)(sp.hi));
  }

  lemma DroppingKeeps(b: Book, h: History, pc: Pc, call: Call, since: nat)
    requires (pc.Noting? || pc.Clearing?) && pc.cutoff <= since
    requires CarryLabelled(b, h)
    ensures
      var (b', pc') := Dropping(b, pc);
      var h' := Remember(h, b, pc, call);
      Found(b', h', since) == Found(b, h, since) && h'.made == h.made && Carried(pc', since) == 0
  {
    if pc.Clearing? {
      if pc.i < |b.buckets| {
        if Droppable(b.buckets[pc.i], pc.cutoff) { BucketMoved(b, h, pc.i, ZERO, since); }
      } else if Droppable(b.carry, pc.cutoff) {
        CountBelow(since, h.carried);
      }
    }
  }

  lemma NextDropsNothing(b: Book, h: History, pc: Pc, call: Call, since: nat)
    requires |b.buckets| > 0 && !call.ReleaseAt? && !call.Release?
    requires Polling(pc, h.cut) && CarryLabelled(b, h)
    requires since >= Remember(h, b, pc, call).cut
    requires pc.Bucketing? ==> b.buckets[Slot(pc.sec, |b.buckets|)].lo < MAX_U32
    ensures
      var (b', pc') := Next(b, pc, call);
      var h' := Remember(h, b, pc, call);
      Found(b', h', since) + Carried(pc', since) + CountFrom(since, h.made)
        == Found(b, h, since) + Carried(pc, since) + CountFrom(since, h'.made)
  {
    match pc
    case Idle => ReservingKeeps(b, h, pc, call, since);
    case Bucketing(_) => RecordingKeeps(b, h, pc, call, since);
    case Carrying(_) => RecordingKeeps(b, h, pc, call, since);
    case Noting(_) => DroppingKeeps(b, h, pc, call, since);
    case Clearing(_, _, _) => DroppingKeeps(b, h, pc, call, since);
    case Freeing(_) =>
  }

  lemma CarryStaysLabelled(b: Book, h: History, pc: Pc, call: Call)
    requires |b.buckets| > 0 && !call.ReleaseAt? && !call.Release? && CarryLabelled(b, h) && Polling(pc, h.cut)
    requires pc.Carrying? ==> b.carry.lo + pc.spilled.lo <= MAX_U32
    ensures CarryLabelled(Next(b, pc, call).0, Remember(h, b, pc, call))
  {
    if pc.Carrying? {
      var carried := h.carried + Copies(pc.spilled);
      assert carried[|h.carried|] == pc.spilled.hi;
      assert b.carry.lo > 0 ==> b.carry.hi in carried;
      assert b.carry.lo == 0 ==> h.carried == [];
    }
  }

  lemma StepKeepsLabels(s: State, h: History, m: Move)
    requires Conserved(s) && CarryLabelled(s.book, h) && m.thread < |s.threads|
    requires !m.call.ReleaseAt? && !m.call.Release?
    requires forall pc <- s.threads :: Polling(pc, h.cut)
    ensures
      var h' := Remember(h, s.book, s.threads[m.thread], m.call);
      CarryLabelled(Step(s, m).book, h') && forall pc <- Step(s, m).threads :: Polling(pc, h'.cut)
  {
    NothingWraps(s, m);
    var h' := Remember(h, s.book, s.threads[m.thread], m.call);
    assert Polling(s.threads[m.thread], h.cut);
    CarryStaysLabelled(s.book, h, s.threads[m.thread], m.call);
    assert forall pc <- s.threads :: Polling(pc, h'.cut);
    assert Polling(Next(s.book, s.threads[m.thread], m.call).1, h'.cut);
  }

  /** One step without a release keeps every live reservation. */
  lemma StepDropsNothing(s: State, h: History, m: Move)
    requires Conserved(s) && NothingDropped(s, h) && m.thread < |s.threads|
    requires !m.call.ReleaseAt? && !m.call.Release?
    ensures NothingDropped(Step(s, m), Remember(h, s.book, s.threads[m.thread], m.call))
  {
    var pc := s.threads[m.thread];
    var h' := Remember(h, s.book, pc, m.call);
    var pc' := Next(s.book, pc, m.call).1;
    StepKeepsLabels(s, h, m);
    NothingWraps(s, m);
    forall since: nat | since >= h'.cut
      ensures CountFrom(since, h'.made)
           == Found(Step(s, m).book, h', since) + Sum(InTransit(since), Step(s, m).threads)
    {
      SumUpdate(InTransit(since), s.threads, m.thread, pc');
      NextDropsNothing(s.book, h, pc, m.call, since);
    }
  }

  lemma {:induction false} NothingDroppedInEveryRun(s: State, moves: seq<Move>)
    requires Initial(s) && ValidMoves(moves, |s.threads|) && NoReleases(moves)
    ensures NothingDropped(Exec(s, moves), HistoryOf(s, moves))
    decreases |moves|
  {
    if moves == [] {
      forall since: nat
        ensures Sum(Tail(since), s.book.buckets) == Sum(InTransit(since), s.threads) == 0
      {
        SumUniform(Tail(since), s.book.buckets, 0);
        SumUniform(InTransit(since), s.threads, 0);
      }
    } else {
      var before := moves[..|moves| - 1];
      ConservedInEveryRun(s, before);
      NothingDroppedInEveryRun(s, before);
      StepDropsNothing(Exec(s, before), HistoryOf(s, before), moves[|moves| - 1]);
    }
  }

  /** So capacity is never overstated: at every moment of every run without releases, between
      the two halves of a report included, what is shown available leaves room for every
      reservation made at or after all cutoffs so far. */
  lemma NeverOverstated(s: State, moves: seq<Move>)
    requires Initial(s) && ValidMoves(moves, |s.threads|) && NoReleases(moves)
    ensures
      var b, h := Exec(s, moves).book, HistoryOf(s, moves);
      && CountFrom(h.cut, h.made) <= b.out
      && (Available(b) == 0 || Available(b) + CountFrom(h.cut, h.made) <= b.warm)
  {
    var t, h := Exec(s, moves), HistoryOf(s, moves);
    ConservedInEveryRun(s, moves);
    NothingDroppedInEveryRun(s, moves);
    SumMonotone(Tail(h.cut), Tail(0), t.book.buckets);
    SumMonotone(InTransit(h.cut), InTransit(0), t.threads);
    SumMonotone(AtOrAfter(h.cut), AtOrAfter(0), h.carried);
    CountAll(h.carried);
  }

  // ----- what a poll frees, over every schedule of every call ----------------------------------

  /** The count of a word from before `cutoff`. */
  function Stale(cutoff: u32): Word -> nat {
    (w: Word) => if w.hi < cutoff then w.lo else 0
  }

  lemma {:induction false} StaleAndTail(ws: seq<Word>, cutoff: u32)
    ensures Sum(Tail(0), ws) == Sum(Tail(cutoff), ws) + Sum(Stale(cutoff), ws)
  {
    if ws != [] { StaleAndTail(ws[1..], cutoff); }
  }

  /** How many counts from before `cutoff` a thread's next swap sets down in the ring or in carry. */
  function SetDown(b: Book, pc: Pc, cutoff: u32): nat
    requires |b.buckets| > 0
  {
    match pc
    case Bucketing(sec) => if sec < cutoff && b.buckets[Slot(sec, |b.buckets|)].hi <= sec then 1 else 0
    case Carrying(spilled) => if spilled.hi < cutoff then spilled.lo else 0
    case _ => 0
  }

  /** Counts from before `cutoff` that were set down since move `from`. */
  ghost function SetDownSince(s: State, moves: seq<Move>, cutoff: u32, from: nat): nat
    requires ValidMoves(moves, |s.threads|) && |s.book.buckets| > 0
    decreases |moves|
  {
    if |moves| <= from then 0
    else
      var m, t := moves[|moves| - 1], Exec(s, moves[..|moves| - 1]);
      SetDownSince(s, moves[..|moves| - 1], cutoff, from) + SetDown(t.book, t.threads[m.thread], cutoff)
  }

  /** What a poll has passed holds no more counts from before its cutoff than were set down since. */
  ghost predicate Swept(b: Book, pc: Pc, cutoff: u32, late: nat) {
    match pc
    case Noting(c) => c == cutoff
    case Clearing(c, i, _) => c == cutoff && i <= |b.buckets| && Sum(Stale(cutoff), b.buckets[..i]) <= late
    case Freeing(_) => Sum(Stale(cutoff), b.buckets) + Stale(cutoff)(b.carry) <= late
    case Idle => Sum(Stale(cutoff), b.buckets) + Stale(cutoff)(b.carry) <= late
    case _ => false
  }

  /** Rewriting one bucket changes what a prefix of the ring holds by no more than that bucket's change. */
  lemma PrefixRewritten(ws: seq<Word>, i: nat, w: Word, n: nat, cutoff: u32, more: nat)
    requires i < |ws| && n <= |ws| && Stale(cutoff)(w) <= Stale(cutoff)(ws[i]) + more
    ensures Sum(Stale(cutoff), ws[i := w][..n]) <= Sum(Stale(cutoff), ws[..n]) + more
  {
    if i < n {
      assert ws[i := w][..n] == ws[..n][i := w];
      SumUpdate(Stale(cutoff), ws[..n], i, w);
    } else {
      assert ws[i := w][..n] == ws[..n];
    }
  }

  /** One step of a thread sets down no more than it says, wherever in the ring. */
  lemma StepSetsDown(b: Book, pc: Pc, call: Call, cutoff: u32, n: nat)
    requires |b.buckets| > 0 && n <= |b.buckets|
    ensures
      var b' := Next(b, pc, call).0;
      && |b'.buckets| == |b.buckets|
      && Sum(Stale(cutoff), b'.buckets[..n]) <= Sum(Stale(cutoff), b.buckets[..n]) + SetDown(b, pc, cutoff)
      && Sum(Stale(cutoff), b'.buckets[..n]) + Stale(cutoff)(b'.carry)
         <= Sum(Stale(cutoff), b.buckets[..n]) + Stale(cutoff)(b.carry) + SetDown(b, pc, cutoff)
  {
    match pc
    case Bucketing(sec) =>
      var i := Slot(sec, |b.buckets|);
      PrefixRewritten(b.buckets, i, AddTo(b.buckets[i], sec).0, n, cutoff, SetDown(b, pc, cutoff));
    case Clearing(c, i, _) => if i < |b.buckets| { PrefixRewritten(b.buckets, i, ZERO, n, cutoff, 0); }
    case TakingAt(sec) => TakingSetsNothingDown(b, Slot(sec, |b.buckets|), n, cutoff);
    case TakingOne(sec, step) => TakingSetsNothingDown(b, Slot(Wrap(sec - step), |b.buckets|), n, cutoff);
    case _ =>
  }

  lemma TakingSetsNothingDown(b: Book, i: nat, n: nat, cutoff: u32)
    requires i < |b.buckets| && n <= |b.buckets|
    ensures b.buckets[i].lo > 0 ==>
      Sum(Stale(cutoff), TakeBucket(b, i).0.buckets[..n]) <= Sum(Stale(cutoff), b.buckets[..n])
  {
    if b.buckets[i].lo > 0 { PrefixRewritten(b.buckets, i, TakeOneOff(b.buckets[i]), n, cutoff, 0); }
  }

  /** A step of the poll itself sweeps on. */
  lemma PollSweepsOn(b: Book, pc: Pc, call: Call, cutoff: u32, late: nat)
    requires |b.buckets| > 0 && Swept(b, pc, cutoff, late) && !pc.Idle?
    ensures var (b', pc') := Next(b, pc, call); Swept(b', pc', cutoff, late)
  {
    if pc.Clearing? && pc.i < |b.buckets| {
      var b' := Next(b, pc, call).0;
      assert b'.buckets[..pc.i + 1] == b.buckets[..pc.i] + [b'.buckets[pc.i]];
      SumAppend(Stale(cutoff), b.buckets[..pc.i], [b'.buckets[pc.i]]);
    } else if pc.Clearing? {
      assert b.buckets[..pc.i] == b.buckets;
    }
  }

  /** A step of any other thread leaves no more behind than it sets down. */
  lemma OthersLeaveSwept(b: Book, pc: Pc, other: Pc, call: Call, cutoff: u32, late: nat)
    requires |b.buckets| > 0 && Swept(b, pc, cutoff, late)
    ensures Swept(Next(b, other, call).0, pc, cutoff, late + SetDown(b, other, cutoff))
  {
    var b' := Next(b, other, call).0;
    StepSetsDown(b, other, call, cutoff, |b.buckets|);
    assert b.buckets[..|b.buckets|] == b.buckets && b'.buckets[..|b.buckets|] == b'.buckets;
    if pc.Clearing? { StepSetsDown(b, other, call, cutoff, pc.i); }
  }

  /** Thread `t` begins a clearing with move `from` and is at it ever since. */
  ghost predicate Clears(s: State, moves: seq<Move>, from: nat, t: nat, cutoff: u32)
    requires ValidMoves(moves, |s.threads|) && |s.book.buckets| > 0
  {
    && from < |moves| && t < |s.threads| && moves[from] == Move(t, ClearBefore(cutoff))
    && Exec(s, moves[..from]).threads[t].Idle?
    && forall k | from < k < |moves| :: !Exec(s, moves[..k]).threads[t].Idle?
  }

  lemma {:induction false} SweptInEveryRun(s: State, moves: seq<Move>, from: nat, t: nat, cutoff: u32)
    requires ValidMoves(moves, |s.threads|) && |s.book.buckets| > 0 && Clears(s, moves, from, t, cutoff)
    ensures Swept(Exec(s, moves).book, Exec(s, moves).threads[t], cutoff, SetDownSince(s, moves, cutoff, from + 1))
    decreases |moves|
  {
    var before, m := moves[..|moves| - 1], moves[|moves| - 1];
    var u := Exec(s, before);
    if |moves| > from + 1 {
      assert forall k | 0 <= k < |moves| :: before[..k] == moves[..k];
      SweptInEveryRun(s, before, from, t, cutoff);
      var late := SetDownSince(s, before, cutoff, from + 1);
      if m.thread == t {
        PollSweepsOn(u.book, u.threads[t], m.call, cutoff, late);
      } else {
        OthersLeaveSwept(u.book, u.threads[t], u.threads[m.thread], m.call, cutoff, late);
      }
    } else {
      assert before == moves[..from];
    }
  }

  /** When a clearing is over, in every run of every call, outstanding is no more than what is from the
      cutoff on, what is on its way, and the older counts that others set down meanwhile; and all the
      rest of warm is shown available. */
  lemma PollFrees(s: State, moves: seq<Move>, from: nat, t: nat, cutoff: u32)
    requires Initial(s) && ValidMoves(moves, |s.threads|) && Clears(s, moves, from, t, cutoff)
    requires Exec(s, moves).threads[t].Idle?
    ensures
      var u := Exec(s, moves);
      var atMost := Sum(Tail(cutoff), u.book.buckets) + (if u.book.carry.hi >= cutoff then u.book.carry.lo else 0)
                    + Sum(InTransit(0), u.threads) + Sum(Owed(), u.threads)
                    + SetDownSince(s, moves, cutoff, from + 1);
      u.book.out <= atMost && u.book.warm <= Available(u.book) + atMost
  {
    ConservedInEveryRun(s, moves);
    SweptInEveryRun(s, moves, from, t, cutoff);
    StaleAndTail(Exec(s, moves).book.buckets, cutoff);
  }

  /** Without releases: no more than the reservations made from the cutoff on, those in carry that are
      older than its label, those that others set down meanwhile, and what is on its way. So with the
      latest cutoff outstanding is bounded from both sides. */
  lemma PollFreesReservations(s: State, moves: seq<Move>, from: nat, t: nat, cutoff: u32)
    requires Initial(s) && ValidMoves(moves, |s.threads|) && Clears(s, moves, from, t, cutoff) && NoReleases(moves)
    requires Exec(s, moves).threads[t].Idle? && HistoryOf(s, moves).cut <= cutoff
    ensures
      var u, h := Exec(s, moves), HistoryOf(s, moves);
      var older := if u.book.carry.hi >= cutoff then |h.carried| - CountFrom(cutoff, h.carried) else 0;
      && CountFrom(cutoff, h.made) <= u.book.out
      && u.book.out <= CountFrom(cutoff, h.made) + older + SetDownSince(s, moves, cutoff, from + 1)
                       + Sum(InTransit(0), u.threads) - Sum(InTransit(cutoff), u.threads) + Sum(Owed(), u.threads)
  {
    var u, h := Exec(s, moves), HistoryOf(s, moves);
    PollFrees(s, moves, from, t, cutoff);
    NothingDroppedInEveryRun(s, moves);
    ConservedInEveryRun(s, moves);
    SumMonotone(Tail(cutoff), Tail(0), u.book.buckets);
    SumMonotone(InTransit(cutoff), InTransit(0), u.threads);
    SumMonotone(AtOrAfter(cutoff), AtOrAfter(0), h.carried);
    CountAll(h.carried);
    if u.book.carry.hi < cutoff { CountBelow(cutoff, h.carried); }
  }

  lemma {:induction false} CountAll(secs: seq<u32>)
    ensures CountFrom(0, secs) == |secs|
  {
    if secs != [] { CountAll(secs[1..]); }
  }
}
