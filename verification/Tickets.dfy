/** The reservation ledger with each call atomic, refined to a plain log of tickets. */
module Tickets {
  import opened Words
  import opened Books
  import ColdStarts

  // ----- the calls as functions of the ledger ------------------------------------------------

  /** Counts a reservation in the bucket for its second, carrying what the ring cannot keep. */
  function Record(b: Book, sec: u32): Book
    requires |b.buckets| > 0
  {
    var i := Slot(sec, |b.buckets|);
    var (w, spilled) := AddTo(b.buckets[i], sec);
    var counted := b.(buckets := b.buckets[i := w]);
    if spilled.lo > 0 then counted.(carry := CarryIn(b.carry, spilled)) else counted
  }

  function TryReserve(b: Book, sec: u32): (Book, bool)
    requires |b.buckets| > 0
  {
    if b.out >= b.warm then (b, false) else (Record(b.(out := Wrap(b.out + 1)), sec), true)
  }

  function Lower(b: Book): (Book, bool) {
    if b.out == 0 then (b, false) else (b.(out := Wrap(b.out - 1)), true)
  }

  /** Undoes one reservation recorded at `sec`: from its bucket if that still holds the second,
      else from carry unless a poll has already cleared the second. */
  function ReleaseAt(b: Book, sec: u32): (Book, bool)
    requires |b.buckets| > 0
  {
    var i := Slot(sec, |b.buckets|);
    var w := b.buckets[i];
    if w.lo != 0 && w.hi == sec then Lower(b.(buckets := b.buckets[i := TakeOneOff(w)]))
    else if sec < b.cleared || b.carry.lo == 0 || b.carry.hi < sec then (b, false)
    else Lower(b.(carry := TakeOneOff(b.carry)))
  }

  /** The first bucket that holds any count, going backwards from `sec`; the ring's size if none does. */
  function Nearest(ring: seq<Word>, sec: u32, step: nat): (i: nat)
    requires |ring| > 0
    ensures i <= |ring| && (i < |ring| ==> ring[i].lo > 0)
    decreases |ring| - step
  {
    if step >= |ring| then |ring|
    else
      var i := Slot(Wrap(sec - step), |ring|);
      if ring[i].lo != 0 then i else Nearest(ring, sec, step + 1)
  }

  function Back(ring: seq<Word>, sec: u32, step: nat): Word
    requires |ring| > 0
  {
    ring[Slot(Wrap(sec - step), |ring|)]
  }

  /** It is the first one met: all buckets between are empty, and all of them if there is none. */
  lemma {:induction false} NearestIsFirstMet(ring: seq<Word>, sec: u32, step: nat) returns (met: nat)
    requires 0 < |ring| && step <= |ring|
    ensures step <= met <= |ring| && forall s | step <= s < met :: Back(ring, sec, s).lo == 0
    ensures Nearest(ring, sec, step) == if met < |ring| then Slot(Wrap(sec - met), |ring|) else |ring|
    ensures met < |ring| ==> Back(ring, sec, met).lo > 0
    decreases |ring| - step
  {
    if step == |ring| || Back(ring, sec, step).lo != 0 {
      met := step;
    } else {
      met := NearestIsFirstMet(ring, sec, step + 1);
    }
  }

  /** Undoes some reservation: from the nearest bucket, else from carry. */
  function Release(b: Book, sec: u32): (Book, bool)
    requires |b.buckets| > 0
  {
    var i := Nearest(b.buckets, sec, 0);
    if i < |b.buckets| then Lower(b.(buckets := b.buckets[i := TakeOneOff(b.buckets[i])]))
    else if b.carry.lo == 0 then (b, false)
    else Lower(b.(carry := TakeOneOff(b.carry)))
  }

  function SetWarm(b: Book, reported: int): Book {
    b.(warm := if reported > MAX_U32 then MAX_U32 else if reported > 0 then reported else 0)
  }

  function Kept(w: Word, cutoff: u32): Word {
    if Droppable(w, cutoff) then ZERO else w
  }

  function KeptAll(ws: seq<Word>, cutoff: u32): (kept: seq<Word>)
    ensures |kept| == |ws| && forall i | 0 <= i < |ws| :: kept[i] == Kept(ws[i], cutoff)
  {
    seq(|ws|, i requires 0 <= i < |ws| => Kept(ws[i], cutoff))
  }

  /** Drops the reservations that a report fetched after `cutoff` accounts for. */
  function ClearBefore(b: Book, cutoff: u32): Book {
    var swept := b.(buckets := KeptAll(b.buckets, cutoff), carry := Kept(b.carry, cutoff),
                    cleared := if cutoff > b.cleared then cutoff else b.cleared);
    swept.(out := Wrap(b.out - (Placed(b) - Placed(swept))))
  }

  // ----- the log ------------------------------------------------------------------------------

  /** The reservations of one second that are in its bucket. */
  function InBucket(b: Book, sec: u32): nat
    requires |b.buckets| > 0
  {
    var w := b.buckets[Slot(sec, |b.buckets|)];
    if w.hi == sec then w.lo else 0
  }

  ghost predicate Settled(b: Book, carried: multiset<u32>) {
    && |b.buckets| > 0
    && b.out == Placed(b)
    && |carried| == b.carry.lo
    && (forall sec <- carried :: sec <= b.carry.hi)
    && forall i | 0 <= i < |b.buckets| :: b.buckets[i].lo > 0 ==> Slot(b.buckets[i].hi, |b.buckets|) == i
  }

  /** The ledger `b` stands for the log `open` of tickets not yet given back: for each second at
      or after the largest cutoff, its open tickets are exactly those in its bucket and in carry. */
  ghost predicate Refines(b: Book, open: multiset<u32>, carried: multiset<u32>) {
    && Settled(b, carried)
    && forall sec: u32 :: sec >= b.cleared ==> open[sec] == InBucket(b, sec) + carried[sec]
  }

  lemma EmptyRefines(size: nat)
    requires size > 0
    ensures Refines(EmptyBook(size), multiset{}, multiset{})
  {
    SumUniform(Tail(0), EmptyBook(size).buckets, 0);
  }

  /** What carry holds after a reservation at `sec`. */
  ghost function CarriedAfter(b: Book, sec: u32, carried: multiset<u32>): multiset<u32>
    requires |b.buckets| > 0
  {
    var spilled := AddTo(b.buckets[Slot(sec, |b.buckets|)], sec).1;
    carried[spilled.hi := carried[spilled.hi] + spilled.lo]
  }

  lemma RecordPlaces(b: Book, sec: u32)
    requires |b.buckets| > 0 && Placed(b) < MAX_U32
    ensures Placed(Record(b, sec)) == Placed(b) + 1
    ensures Record(b, sec).carry.lo == b.carry.lo + AddTo(b.buckets[Slot(sec, |b.buckets|)], sec).1.lo
  {
    var i := Slot(sec, |b.buckets|);
    SumUpdate(Tail(0), b.buckets, i, AddTo(b.buckets[i], sec).0);
  }

  lemma RecordSettles(b: Book, sec: u32, carried: multiset<u32>)
    requires Settled(b, carried) && b.out < MAX_U32
    ensures Settled(Record(b, sec).(out := b.out + 1), CarriedAfter(b, sec, carried))
  {
    RecordPlaces(b, sec);
  }

  lemma RecordCounts(b: Book, sec: u32, carried: multiset<u32>, s: u32)
    requires Settled(b, carried) && b.out < MAX_U32
    ensures InBucket(Record(b, sec), s) + CarriedAfter(b, sec, carried)[s]
         == InBucket(b, s) + carried[s] + if s == sec then 1 else 0
  {
    SumUpdate(Tail(0), b.buckets, Slot(sec, |b.buckets|), ZERO);
  }

  lemma ReserveRefines(b: Book, sec: u32, open: multiset<u32>, carried: multiset<u32>)
    requires Refines(b, open, carried) && b.out < b.warm
    ensures
      var (b', ok) := TryReserve(b, sec);
      && ok && b'.out == b.out + 1 <= b'.warm
      && Refines(b', open + multiset{sec}, CarriedAfter(b, sec, carried))
  {
    RecordSettles(b, sec, carried);
    forall s: u32 { RecordCounts(b, sec, carried, s); }
  }

  lemma TakeOff(b: Book, i: nat)
    requires i < |b.buckets| && b.buckets[i].lo > 0
    ensures Placed(b.(buckets := b.buckets[i := TakeOneOff(b.buckets[i])])) + 1 == Placed(b)
  {
    SumUpdate(Tail(0), b.buckets, i, TakeOneOff(b.buckets[i]));
  }

  /** What carry holds after a ticket of second `sec` is given back. */
  ghost function CarriedWithout(b: Book, sec: u32, carried: multiset<u32>): multiset<u32>
    requires |b.buckets| > 0
  {
    if InBucket(b, sec) > 0 then carried else carried - multiset{sec}
  }

  lemma ReleaseSettles(b: Book, sec: u32, carried: multiset<u32>)
    requires Settled(b, carried) && sec >= b.cleared && (InBucket(b, sec) > 0 || sec in carried)
    ensures
      var (b', ok) := ReleaseAt(b, sec);
      ok && b'.out == b.out - 1 && Settled(b', CarriedWithout(b, sec, carried))
  {
    if InBucket(b, sec) > 0 {
      TakeOff(b, Slot(sec, |b.buckets|));
    }
  }

  lemma ReleaseCounts(b: Book, sec: u32, carried: multiset<u32>, s: u32)
    requires Settled(b, carried) && sec >= b.cleared && (InBucket(b, sec) > 0 || sec in carried)
    requires s >= b.cleared
    ensures InBucket(ReleaseAt(b, sec).0, s) + CarriedWithout(b, sec, carried)[s]
          + (if s == sec then 1 else 0) == InBucket(b, s) + carried[s]
  {
    ReleaseSettles(b, sec, carried);
  }

  /** Giving back a ticket whose second is at or after the largest cutoff always succeeds and
      lowers outstanding by exactly one, even after its bucket wrapped into carry. */
  lemma LiveReleaseRefines(b: Book, sec: u32, open: multiset<u32>, carried: multiset<u32>)
    requires Refines(b, open, carried) && sec in open && sec >= b.cleared
    ensures
      var (b', ok) := ReleaseAt(b, sec);
      && ok && b'.out == b.out - 1
      && Refines(b', open - multiset{sec}, CarriedWithout(b, sec, carried))
  {
    assert open[sec] == InBucket(b, sec) + carried[sec];
    ReleaseSettles(b, sec, carried);
    forall s: u32 | s >= b.cleared { ReleaseCounts(b, sec, carried, s); }
  }

  /** Why a ticket must be given back only once: giving back a live second that has no open
      ticket takes the reservation of some other ticket, exactly when carry is not empty and is
      labelled that recent. */
  lemma SpentTicketStealsFromCarry(b: Book, sec: u32, open: multiset<u32>, carried: multiset<u32>)
    requires Refines(b, open, carried) && sec !in open && sec >= b.cleared
    ensures ReleaseAt(b, sec).1 <==> b.carry.lo > 0 && b.carry.hi >= sec
    ensures ReleaseAt(b, sec).1 ==> ReleaseAt(b, sec).0.out + 1 == b.out
  {
    assert open[sec] == InBucket(b, sec) + carried[sec];
  }

  /** Giving back a ticket from before the largest cutoff never touches a live one. */
  lemma StaleReleaseRefines(b: Book, sec: u32, open: multiset<u32>, carried: multiset<u32>)
    requires Refines(b, open, carried) && sec < b.cleared
    ensures Refines(ReleaseAt(b, sec).0, open - multiset{sec}, carried)
  {
    var i := Slot(sec, |b.buckets|);
    var b' := ReleaseAt(b, sec).0;
    if InBucket(b, sec) > 0 {
      TakeOff(b, i);
    }
    assert Settled(b', carried);
    forall s: u32 | s >= b'.cleared
      ensures (open - multiset{sec})[s] == InBucket(b', s) + carried[s]
    {
      assert open[s] == InBucket(b, s) + carried[s];
    }
  }

  lemma {:induction false} KeptSum(ws: seq<Word>, cutoff: u32)
    ensures Sum(Tail(0), KeptAll(ws, cutoff)) <= Sum(Tail(0), ws)
  {
    if ws != [] {
      assert KeptAll(ws, cutoff)[1..] == KeptAll(ws[1..], cutoff);
      KeptSum(ws[1..], cutoff);
    }
  }

  lemma {:induction false} KeptTail(ws: seq<Word>, cutoff: u32)
    ensures Sum(Tail(0), KeptAll(ws, cutoff)) == Sum(Tail(cutoff), ws)
  {
    if ws != [] {
      assert KeptAll(ws, cutoff)[1..] == KeptAll(ws[1..], cutoff);
      KeptTail(ws[1..], cutoff);
    }
  }

  /** A word that is empty or holds a second not before the cutoff. */
  predicate Recent(w: Word, cutoff: u32) {
    w.lo == 0 || w.hi >= cutoff
  }

  /** Every count from before the cutoff is freed and no other: what is left in the ring and in carry is as
      it was and from the cutoff on, and outstanding is just that. */
  ghost predicate Freed(b: Book, b': Book, cutoff: u32) {
    && |b'.buckets| == |b.buckets| && Recent(b'.carry, cutoff)
    && (forall i | 0 <= i < |b.buckets| :: Recent(b'.buckets[i], cutoff))
    && (forall i | 0 <= i < |b.buckets| && b.buckets[i].hi >= cutoff :: b'.buckets[i] == b.buckets[i])
    && (b.carry.hi >= cutoff ==> b'.carry == b.carry)
    && b'.cleared == (if b.cleared < cutoff then cutoff else b.cleared)
    && (b.out == Placed(b) ==>
          b'.out == Sum(Tail(cutoff), b.buckets) + if b.carry.hi >= cutoff then b.carry.lo else 0)
  }

  lemma ClearFrees(b: Book, cutoff: u32)
    ensures Freed(b, ClearBefore(b, cutoff), cutoff) && ClearBefore(b, cutoff).warm == b.warm
  {
    KeptTail(b.buckets, cutoff);
    KeptSum(b.buckets, cutoff);
  }

  /** Recording a report frees the same, whatever it says. */
  lemma ReportFrees(b: Book, warm: int, cutoff: u32)
    ensures Freed(b, ClearBefore(SetWarm(b, warm), cutoff), cutoff)
  {
    ClearFrees(SetWarm(b, warm), cutoff);
  }

  lemma ClearRefines(b: Book, cutoff: u32, open: multiset<u32>, carried: multiset<u32>)
    requires Refines(b, open, carried)
    ensures Refines(ClearBefore(b, cutoff), open,
                    if Droppable(b.carry, cutoff) then multiset{} else carried)
    ensures ClearBefore(b, cutoff).out
         == Sum(Tail(cutoff), b.buckets) + if b.carry.hi >= cutoff then b.carry.lo else 0
  {
    ClearFrees(b, cutoff);
    KeptSum(b.buckets, cutoff);
    var b' := ClearBefore(b, cutoff);
    var carried' := if Droppable(b.carry, cutoff) then multiset{} else carried;
    assert Settled(b', carried');
    forall sec: u32 | sec >= b'.cleared
      ensures open[sec] == InBucket(b', sec) + carried'[sec]
    {
      assert open[sec] == InBucket(b, sec) + carried[sec];
      if Droppable(b.carry, cutoff) { assert sec !in carried; }
    }
  }

  // ----- every sequence of calls --------------------------------------------------------------

  datatype Op =
    | Reserve(sec: u32)
    | GiveBack(sec: u32)
    | Report(warm: int, cutoff: u32)     // the two halves of recording a report, in order

  function Apply(b: Book, op: Op): Book
    requires |b.buckets| > 0
  {
    match op
    case Reserve(sec) => TryReserve(b, sec).0
    case GiveBack(sec) => ReleaseAt(b, sec).0
    case Report(warm, cutoff) => ClearBefore(SetWarm(b, warm), cutoff)
  }

  /** The log itself: tickets are added when a reservation succeeds and removed when given back. */
  function Log(open: multiset<u32>, b: Book, op: Op): multiset<u32> {
    match op
    case Reserve(sec) => if b.out < b.warm then open + multiset{sec} else open
    case GiveBack(sec) => open - multiset{sec}
    case Report(_, _) => open
  }

  ghost function BookAfter(size: nat, ops: seq<Op>): (b: Book)
    requires size > 0
    ensures |b.buckets| == size
  {
    if ops == [] then EmptyBook(size) else Apply(BookAfter(size, ops[..|ops| - 1]), ops[|ops| - 1])
  }

  ghost function LogAfter(size: nat, ops: seq<Op>): multiset<u32>
    requires size > 0
  {
    if ops == [] then multiset{}
    else Log(LogAfter(size, ops[..|ops| - 1]), BookAfter(size, ops[..|ops| - 1]), ops[|ops| - 1])
  }

  /** Every ticket given back is one that was handed out and is given back for the first time. */
  ghost predicate TicketsHonoured(size: nat, ops: seq<Op>)
    requires size > 0
  {
    forall k | 0 <= k < |ops| :: ops[k].GiveBack? ==> ops[k].sec in LogAfter(size, ops[..k])
  }

  lemma GiveBackRefines(b: Book, sec: u32, open: multiset<u32>, carried: multiset<u32>)
    returns (carried': multiset<u32>)
    requires Refines(b, open, carried) && sec in open
    ensures Refines(ReleaseAt(b, sec).0, open - multiset{sec}, carried')
  {
    if sec >= b.cleared {
      LiveReleaseRefines(b, sec, open, carried);
      carried' := CarriedWithout(b, sec, carried);
    } else {
      StaleReleaseRefines(b, sec, open, carried);
      carried' := carried;
    }
  }

  lemma OpRefines(b: Book, op: Op, open: multiset<u32>, carried: multiset<u32>) returns (carried': multiset<u32>)
    requires Refines(b, open, carried) && (op.GiveBack? ==> op.sec in open)
    ensures Refines(Apply(b, op), Log(open, b, op), carried')
  {
    carried' := carried;
    match op
    case Reserve(sec) =>
      if b.out < b.warm {
        ReserveRefines(b, sec, open, carried);
        carried' := CarriedAfter(b, sec, carried);
      }
    case GiveBack(sec) => carried' := GiveBackRefines(b, sec, open, carried);
    case Report(warm, cutoff) =>
      var b1 := SetWarm(b, warm);
      assert Refines(b1, open, carried);
      ClearRefines(b1, cutoff, open, carried);
      carried' := if Droppable(b1.carry, cutoff) then multiset{} else carried;
  }

  /** After any sequence of calls that gives each ticket back at most once, the ledger refines
      the log. */
  lemma {:induction false} RefinesAfterEveryRun(size: nat, ops: seq<Op>) returns (carried: multiset<u32>)
    requires size > 0 && TicketsHonoured(size, ops)
    ensures Refines(BookAfter(size, ops), LogAfter(size, ops), carried)
  {
    if ops == [] {
      EmptyRefines(size);
      carried := multiset{};
    } else {
      var before, op := ops[..|ops| - 1], ops[|ops| - 1];
      assert forall k | 0 <= k < |before| :: before[..k] == ops[..k];
      carried := RefinesAfterEveryRun(size, before);
      carried := OpRefines(BookAfter(size, before), op, LogAfter(size, before), carried);
    }
  }

  /** In every reachable ledger, a live open ticket can be given back, and doing so frees
      exactly one reservation. */
  lemma LiveTicketsCanBeGivenBack(size: nat, ops: seq<Op>, sec: u32)
    requires size > 0 && TicketsHonoured(size, ops)
    requires sec in LogAfter(size, ops) && sec >= BookAfter(size, ops).cleared
    ensures
      var (b', ok) := ReleaseAt(BookAfter(size, ops), sec);
      ok && b'.out + 1 == BookAfter(size, ops).out
  {
    var carried := RefinesAfterEveryRun(size, ops);
    LiveReleaseRefines(BookAfter(size, ops), sec, LogAfter(size, ops), carried);
  }

  // ----- what the ring is large enough for ----------------------------------------------------

  /** A bucket keeps the later of two seconds, and gives up the counts of the other. */
  lemma KeepsTheLater(w: Word, sec: u32)
    requires w.lo < MAX_U32
    ensures
      var (kept, spilled) := AddTo(w, sec);
      && kept.lo + spilled.lo == w.lo + 1 && kept.hi == (if w.hi < sec then sec else w.hi)
      && (w.hi == sec ==> spilled == ZERO) && (w.hi > sec ==> kept == w) && (w.hi < sec ==> spilled == w)
  {
  }

  /** Every bucket in use holds a second of the window, and carry is empty. */
  ghost predicate AllInRing(b: Book, from: nat) {
    && |b.buckets| > 0 && b.carry == ZERO
    && forall i | 0 <= i < |b.buckets| :: WithinRing(b.buckets[i], i, from, |b.buckets|)
  }

  ghost predicate WithinRing(w: Word, i: nat, from: nat, size: nat)
    requires size > 0
  {
    if w.lo == 0 then w == ZERO else from <= w.hi < from + size && Slot(w.hi, size) == i
  }

  /** Two seconds of one window that share a bucket are the same. */
  lemma OneSecondABucket(a: nat, b: nat, from: nat, size: nat)
    requires size > 0 && from <= a < from + size && from <= b < from + size && a % size == b % size
    ensures a == b
  {
    if a < b { ColdStarts.SameSlotApart(a, b, size); }
    if b < a { ColdStarts.SameSlotApart(b, a, size); }
  }

  lemma ReserveInRing(b: Book, sec: u32, from: nat)
    requires AllInRing(b, from) && from <= sec < from + |b.buckets| && b.out < b.warm && b.out == Placed(b)
    ensures AllInRing(TryReserve(b, sec).0, from)
  {
    var i := Slot(sec, |b.buckets|);
    var w := b.buckets[i];
    assert WithinRing(w, i, from, |b.buckets|);
    SumUpdate(Tail(0), b.buckets, i, ZERO);
    if w.lo > 0 { OneSecondABucket(w.hi, sec, from, |b.buckets|); }
  }

  lemma ReleaseInRing(b: Book, sec: u32, from: nat)
    requires AllInRing(b, from)
    ensures AllInRing(ReleaseAt(b, sec).0, from)
  {
  }

  lemma ReportInRing(b: Book, warm: int, cutoff: u32, from: nat)
    requires AllInRing(b, from)
    ensures AllInRing(ClearBefore(SetWarm(b, warm), cutoff), from)
  {
  }

  /** As long as reservations fall within one window of the ring's size, none is ever carried: each second
      has a bucket to itself, and every poll can clear it by itself. */
  lemma {:induction false} NothingCarriedWithinTheRing(size: nat, ops: seq<Op>, from: nat)
    requires size > 0 && TicketsHonoured(size, ops)
    requires forall k | 0 <= k < |ops| && ops[k].Reserve? :: from <= ops[k].sec < from + size
    ensures AllInRing(BookAfter(size, ops), from)
  {
    if ops != [] {
      var before, op := ops[..|ops| - 1], ops[|ops| - 1];
      assert forall k | 0 <= k < |before| :: before[..k] == ops[..k];
      NothingCarriedWithinTheRing(size, before, from);
      var carried := RefinesAfterEveryRun(size, before);
      var b := BookAfter(size, before);
      match op
      case Reserve(sec) => if b.out < b.warm { ReserveInRing(b, sec, from); }
      case GiveBack(sec) => ReleaseInRing(b, sec, from);
      case Report(warm, cutoff) => ReportInRing(b, warm, cutoff, from);
    }
  }

  // ----- a ticket given back twice -------------------------------------------------------------

  lemma OneMoreOp(size: nat, ops: seq<Op>, op: Op)
    requires size > 0
    ensures BookAfter(size, ops + [op]) == Apply(BookAfter(size, ops), op)
    ensures LogAfter(size, ops + [op]) == Log(LogAfter(size, ops), BookAfter(size, ops), op)
    ensures TicketsHonoured(size, ops) && (op.GiveBack? ==> op.sec in LogAfter(size, ops))
        ==> TicketsHonoured(size, ops + [op])
  {
    var more := ops + [op];
    assert more[..|more| - 1] == ops;
    if TicketsHonoured(size, ops) && (op.GiveBack? ==> op.sec in LogAfter(size, ops)) {
      forall k | 0 <= k < |more| && more[k].GiveBack? ensures more[k].sec in LogAfter(size, more[..k]) {
        assert more[..k] == if k < |ops| then ops[..k] else ops;
      }
    }
  }

  const REPORTED := [Report(4, 0)]
  const TWO_RESERVED := REPORTED + [Reserve(10)] + [Reserve(11)]
  const FOUR_RESERVED := TWO_RESERVED + [Reserve(18)] + [Reserve(19)]

  /** The ledger of a ring of eight once 10 and 11 were pushed into carry by 18 and 19. */
  const WRAPPED := Book(4, 4, EmptyBook(8).buckets[2 := Word(18, 1)][3 := Word(19, 1)], Word(11, 2), 0)

  lemma FourReserved()
    ensures BookAfter(8, FOUR_RESERVED) == WRAPPED && LogAfter(8, FOUR_RESERVED) == multiset{10, 11, 18, 19}
    ensures TicketsHonoured(8, FOUR_RESERVED)
  {
    var empty := EmptyBook(8);
    OneMoreOp(8, [], Report(4, 0));
    assert [] + [Report(4, 0)] == REPORTED;
    assert KeptAll(empty.buckets, 0) == empty.buckets;
    var warm := empty.(warm := 4);
    assert BookAfter(8, REPORTED) == warm;
    OneMoreOp(8, REPORTED, Reserve(10));
    OneMoreOp(8, REPORTED + [Reserve(10)], Reserve(11));
    var two := warm.(out := 2, buckets := empty.buckets[2 := Word(10, 1)][3 := Word(11, 1)]);
    assert BookAfter(8, TWO_RESERVED) == two;
    OneMoreOp(8, TWO_RESERVED, Reserve(18));
    OneMoreOp(8, TWO_RESERVED + [Reserve(18)], Reserve(19));
    assert two.buckets[2 := Word(18, 1)][3 := Word(19, 1)] == WRAPPED.buckets;
  }

  /** Releasing 10 twice from the wrapped ledger succeeds twice, and then 11 cannot be released. */
  lemma TwiceReleased(b: Book)
    requires b == WRAPPED
    ensures ReleaseAt(b, 10) == (b.(out := 3, carry := Word(11, 1)), true)
    ensures ReleaseAt(b.(out := 3, carry := Word(11, 1)), 10) == (b.(out := 2, carry := ZERO), true)
    ensures !ReleaseAt(b.(out := 2, carry := ZERO), 11).1
  {
    assert b.buckets[2] == Word(18, 1) && b.buckets[3] == Word(19, 1) && |b.buckets| == 8;
  }

  /** A reachable ledger in which giving one ticket back twice robs another: the second time takes
      the reservation of 11, whose own ticket then cannot be given back. */
  lemma SpentTicketRobs(ops: seq<Op>, b: Book)
    requires ops == FOUR_RESERVED + [GiveBack(10)] && b == BookAfter(8, ops)
    ensures TicketsHonoured(8, ops) && LogAfter(8, ops) == multiset{11, 18, 19}
    ensures ReleaseAt(b, 10).1 && !ReleaseAt(ReleaseAt(b, 10).0, 11).1
  {
    FourReserved();
    ReservedThenReleased(FOUR_RESERVED, WRAPPED);
    TwiceReleased(WRAPPED);
  }

  lemma ReservedThenReleased(ops: seq<Op>, b: Book)
    requires BookAfter(8, ops) == b && LogAfter(8, ops) == multiset{10, 11, 18, 19} && TicketsHonoured(8, ops)
    ensures BookAfter(8, ops + [GiveBack(10)]) == ReleaseAt(b, 10).0
    ensures LogAfter(8, ops + [GiveBack(10)]) == multiset{11, 18, 19} && TicketsHonoured(8, ops + [GiveBack(10)])
  {
    OneMoreOp(8, ops, GiveBack(10));
  }
}
