/** The ring of cold placements, which forgets what it overwrites and carries nothing. */
module ColdStarts {
  import opened Words
  import opened Books

  function AddCold(ring: seq<Word>, sec: u32): (r: seq<Word>)
    requires |ring| > 0
    ensures |r| == |ring|
  {
    var i := Slot(sec, |ring|);
    ring[i := AddTo(ring[i], sec).0]
  }

  /** The ring after every placement of a history. */
  ghost function RingOf(size: nat, log: seq<u32>): (r: seq<Word>)
    requires size > 0
    ensures |r| == size
  {
    if log == [] then EmptyBook(size).buckets
    else AddCold(RingOf(size, log[..|log| - 1]), log[|log| - 1])
  }

  /** Placements still counted as in flight at `now`; the start of the window wraps. */
  function InFlight(ring: seq<Word>, now: u32, window: u32): nat {
    Sum(Tail(Wrap(now - window + 1)), ring)
  }

  ghost predicate Chronological(log: seq<u32>) {
    forall i, j | 0 <= i < j < |log| :: log[i] <= log[j]
  }

  function Times(log: seq<u32>, sec: u32): nat {
    multiset(log)[sec]
  }

  /** No single second sees 2^32 placements, so no bucket count can wrap. */
  ghost predicate Countable(log: seq<u32>) {
    forall sec: u32 :: Times(log, sec) <= MAX_U32
  }

  /** Each non-empty bucket holds the exact number of placements of the latest second of its
      slot, and only slots no placement ever used are empty. */
  ghost predicate Tallied(ring: seq<Word>, log: seq<u32>)
    requires |ring| > 0
  {
    && (forall w <- ring :: w.lo == 0 ==> w == ZERO)
    && (forall i | 0 <= i < |ring| && ring[i].lo > 0 ::
          Slot(ring[i].hi, |ring|) == i && ring[i].lo == Times(log, ring[i].hi) && ring[i].hi in log)
    && forall sec <- log :: ring[Slot(sec, |ring|)].lo > 0 && sec <= ring[Slot(sec, |ring|)].hi
  }

  lemma SameSlotApart(a: nat, b: nat, size: nat)
    requires size > 0 && a < b && a % size == b % size
    ensures a + size <= b
  {
    var k := b / size - a / size;
    assert b - a == k * size;
    Grows(k, size);
  }

  lemma Grows(k: int, size: nat)
    ensures k >= 1 ==> k * size >= size
    ensures k <= 0 ==> k * size <= 0
  {
  }

  lemma OneMore(before: seq<u32>, sec: u32, s: u32)
    ensures Times(before + [sec], s) == Times(before, s) + if s == sec then 1 else 0
  {
  }

  lemma NeverSeen(before: seq<u32>, sec: u32)
    requires sec !in before
    ensures Times(before, sec) == 0
  {
  }

  /** The new word of the one slot that changes. */
  lemma SlotTallied(w: Word, before: seq<u32>, sec: u32)
    requires forall s <- before :: s <= sec
    requires if w.lo > 0 then w.hi in before && w.lo == Times(before, w.hi) else w == ZERO
    requires sec in before ==> w.lo > 0 && sec <= w.hi
    requires Times(before + [sec], sec) <= MAX_U32
    ensures AddTo(w, sec).0 == Word(sec, Times(before + [sec], sec))
  {
    OneMore(before, sec, sec);
    if sec !in before { NeverSeen(before, sec); }
  }

  lemma StaysTallied(ring: seq<Word>, before: seq<u32>, sec: u32)
    requires |ring| > 0 && Tallied(ring, before) && forall s <- before :: s <= sec
    requires Times(before + [sec], sec) <= MAX_U32
    ensures Tallied(AddCold(ring, sec), before + [sec])
  {
    var log, i, ring' := before + [sec], Slot(sec, |ring|), AddCold(ring, sec);
    SlotTallied(ring[i], before, sec);
    forall j | 0 <= j < |ring| && ring'[j].lo > 0
      ensures Slot(ring'[j].hi, |ring|) == j && ring'[j].lo == Times(log, ring'[j].hi) && ring'[j].hi in log
    {
      if j != i { OneMore(before, sec, ring[j].hi); }
    }
    assert ring'[i].lo > 0 by { OneMore(before, sec, sec); }
  }

  /** The history up to its last placement, which is its latest. */
  lemma UpToTheLast(before: seq<u32>, sec: u32)
    requires Chronological(before + [sec]) && Countable(before + [sec])
    ensures Chronological(before) && Countable(before)
    ensures (forall s <- before :: s <= sec) && Times(before + [sec], sec) <= MAX_U32
  {
    var log := before + [sec];
    assert forall i | 0 <= i < |before| :: log[i] == before[i] && log[i] <= log[|before|];
    assert Times(log, sec) <= MAX_U32;
    forall s: u32 ensures Times(before, s) <= MAX_U32 {
      OneMore(before, sec, s);
      assert Times(log, s) <= MAX_U32;
    }
  }

  /** For a history in order, the counts from `since` on survive every overwrite, as long as
      the ring reaches back to `since` from the latest second. */
  lemma {:induction false} RingCounts(size: nat, log: seq<u32>, since: nat)
    requires size > 0 && Chronological(log) && Countable(log)
    requires forall sec <- log :: sec < since + size
    ensures Tallied(RingOf(size, log), log)
    ensures Sum(Tail(since), RingOf(size, log)) == CountFrom(since, log)
  {
    if log == [] {
      SumUniform(Tail(since), RingOf(size, log), 0);
    } else {
      var before, sec := log[..|log| - 1], log[|log| - 1];
      assert log == before + [sec];
      UpToTheLast(before, sec);
      assert sec in log;
      RingCounts(size, before, since);
      StaysTallied(RingOf(size, before), before, sec);
      CountedOnce(RingOf(size, before), before, sec, since);
    }
  }

  lemma CountedOnce(ring: seq<Word>, before: seq<u32>, sec: u32, since: nat)
    requires |ring| > 0 && Tallied(ring, before) && forall s <- before :: s <= sec
    requires sec < since + |ring| && Times(before + [sec], sec) <= MAX_U32
    requires Sum(Tail(since), ring) == CountFrom(since, before)
    ensures Sum(Tail(since), AddCold(ring, sec)) == CountFrom(since, before + [sec])
  {
    var i := Slot(sec, |ring|);
    var w := ring[i];
    SlotTallied(w, before, sec);
    OneMore(before, sec, sec);
    SumUpdate(Tail(since), ring, i, AddTo(w, sec).0);
    SumAppend(AtOrAfter(since), before, [sec]);
    if w.lo > 0 && w.hi < sec {
      SameSlotApart(w.hi, sec, |ring|);
      NeverSeen(before, sec);
    }
  }

  /** The count of cold starts in flight is exactly the number of placements in the last
      `window` seconds of the full history, although overwritten buckets are forgotten. That
      is so exactly when a whole window has passed since second 0, or nothing was placed:
      before then the start of the window wraps round and every placement is missed. */
  lemma InFlightIsExact(size: nat, log: seq<u32>, now: u32, window: u32)
    requires 1 <= window <= size
    requires Chronological(log) && Countable(log) && forall sec <- log :: sec <= now
    ensures
      var windowStart := if now + 1 >= window then now + 1 - window else 0;
      (InFlight(RingOf(size, log), now, window) == CountFrom(windowStart, log))
        <==> (now + 1 >= window || log == [])
  {
    if now + 1 >= window {
      RingCounts(size, log, now + 1 - window);
    } else {
      var since := Wrap(now - window + 1);
      assert since == now - window + 1 + 0x1_0000_0000;
      RingCounts(size, log, since);
      NoneFrom(since, log);
      AllFrom(log);
    }
  }

  lemma {:induction false} NoneFrom(since: nat, log: seq<u32>)
    requires forall sec <- log :: sec < since
    ensures CountFrom(since, log) == 0
  {
    SumUniform(AtOrAfter(since), log, 0);
  }

  lemma {:induction false} AllFrom(log: seq<u32>)
    ensures CountFrom(0, log) == |log|
  {
    SumUniform(AtOrAfter(0), log, 1);
  }
}
