/** A call whose thread is never interrupted is the atomic call: the two models of the ledger
    are one. */
module LedgerSolo {
  import opened Words
  import opened Books
  import Tickets
  import opened LedgerCas

  /** A bound on the steps a thread still takes when it runs alone. */
  function Rank(pc: Pc, size: nat): nat {
    match pc
    case Idle => 0
    case Lowering => 1
    case Freeing(_) => 1
    case Carrying(_) => 1
    case Bucketing(_) => 2
    case TakingCarry(_) => 2
    case CheckingCleared(_) => 3
    case TakingAt(_) => 4
    case TakingOne(_, step) => if step >= size then 3 else 3 + size - step
    case Clearing(_, i, _) => if i >= size then 2 else 2 + size - i
    case Noting(_) => 3 + size
  }

  /** Runs a thread by itself until its call returns. */
  function Alone(b: Book, pc: Pc): Book
    requires |b.buckets| > 0
    decreases Rank(pc, |b.buckets|)
  {
    if pc.Idle? then b
    else var (b', pc') := Next(b, pc, SetWarm(0)); Alone(b', pc')
  }

  /** What a reservation or a release that runs alone from here returns: a reservation that has raised
      outstanding has succeeded, and a release succeeds when it lowers outstanding. */
  predicate Succeeds(b: Book, pc: Pc)
    requires |b.buckets| > 0
    decreases Rank(pc, |b.buckets|)
  {
    match pc
    case Idle => false
    case Bucketing(_) => true
    case Carrying(_) => true
    case Lowering => b.out > 0
    case _ => var (b', pc') := Next(b, pc, SetWarm(0)); Succeeds(b', pc')
  }

  function Solo(b: Book, call: Call): (Book, bool)
    requires |b.buckets| > 0
  {
    var (b', pc') := Begin(b, call); (Alone(b', pc'), Succeeds(b', pc'))
  }

  lemma SoloReserve(b: Book, sec: u32)
    requires |b.buckets| > 0
    ensures Solo(b, Reserve(sec)) == Tickets.TryReserve(b, sec)
  {
    if b.out < b.warm {
      var b1 := b.(out := Wrap(b.out + 1));
      var (b2, pc2) := Next(b1, Bucketing(sec), SetWarm(0));
      assert Alone(b1, Bucketing(sec)) == Alone(b2, pc2);
      if pc2.Carrying? {
        var (b3, pc3) := Next(b2, pc2, SetWarm(0));
        assert Alone(b2, pc2) == Alone(b3, pc3) == b3;
      }
    }
  }

  lemma SoloLower(b: Book)
    requires |b.buckets| > 0
    ensures (Alone(b, Lowering), Succeeds(b, Lowering)) == Tickets.Lower(b)
  {
    assert Alone(b, Lowering) == Alone(Next(b, Lowering, SetWarm(0)).0, Idle);
  }

  lemma SoloReleaseAt(b: Book, sec: u32)
    requires |b.buckets| > 0
    ensures Solo(b, ReleaseAt(sec)) == Tickets.ReleaseAt(b, sec)
  {
    var (b1, pc1) := Taking(b, TakingAt(sec));
    assert Alone(b, TakingAt(sec)) == Alone(b1, pc1) && Succeeds(b, TakingAt(sec)) == Succeeds(b1, pc1);
    if pc1.Lowering? { SoloLower(b1); }
    if pc1.CheckingCleared? {
      var (b2, pc2) := Taking(b1, pc1);
      assert Alone(b1, pc1) == Alone(b2, pc2) && Succeeds(b1, pc1) == Succeeds(b2, pc2);
      if pc2.TakingCarry? {
        var (b3, pc3) := Taking(b2, pc2);
        assert Alone(b2, pc2) == Alone(b3, pc3) && Succeeds(b2, pc2) == Succeeds(b3, pc3);
        if pc3.Lowering? { SoloLower(b3); }
      }
    }
  }

  /** The ring with its first `i` buckets already swept. */
  function SweptTo(b: Book, cutoff: u32, i: nat): Book
    requires i <= |b.buckets|
  {
    b.(buckets := Tickets.KeptAll(b.buckets[..i], cutoff) + b.buckets[i..])
  }

  lemma SweepOne(b: Book, cutoff: u32, i: nat)
    requires i < |b.buckets|
    ensures
      var b1 := SweptTo(b, cutoff, i);
      && b1.buckets[i] == b.buckets[i]
      && SweptTo(b, cutoff, i + 1) == b1.(buckets := b1.buckets[i := Tickets.Kept(b.buckets[i], cutoff)])
      && Placed(SweptTo(b, cutoff, i + 1)) + b.buckets[i].lo
           == Placed(b1) + Tickets.Kept(b.buckets[i], cutoff).lo
  {
    var b1 := SweptTo(b, cutoff, i);
    assert SweptTo(b, cutoff, i + 1).buckets == b1.buckets[i := Tickets.Kept(b.buckets[i], cutoff)];
    BucketRewritten(b1, i, Tickets.Kept(b.buckets[i], cutoff));
  }

  lemma {:induction false} SoloSweep(b: Book, cutoff: u32, i: nat, freed: u32)
    requires |b.buckets| > 0 && i <= |b.buckets| && cutoff <= b.cleared
    requires b.out == Placed(b)
    requires freed + Placed(SweptTo(b, cutoff, i)) == Placed(b)
    ensures Alone(SweptTo(b, cutoff, i), Clearing(cutoff, i, freed)) == Tickets.ClearBefore(b, cutoff)
    decreases |b.buckets| - i
  {
    var b1 := SweptTo(b, cutoff, i);
    var (b2, pc2) := Dropping(b1, Clearing(cutoff, i, freed));
    assert Alone(b1, Clearing(cutoff, i, freed)) == Alone(b2, pc2);
    if i < |b.buckets| {
      SweepOne(b, cutoff, i);
      assert b2 == SweptTo(b, cutoff, i + 1);
      SoloSweep(b, cutoff, i + 1, pc2.freed);
    } else {
      assert b1.buckets == Tickets.KeptAll(b.buckets, cutoff);
      assert Placed(b1) >= b1.carry.lo;
      if pc2.Freeing? {
        assert Alone(b2, pc2) == b2.(out := Wrap(b2.out - pc2.freed));
      }
    }
  }

  lemma SoloClearBefore(b: Book, cutoff: u32)
    requires |b.buckets| > 0 && b.out == Placed(b)
    ensures Solo(b, ClearBefore(cutoff)).0 == Tickets.ClearBefore(b, cutoff)
  {
    var (b1, pc1) := Dropping(b, Noting(cutoff));
    assert Alone(b, Noting(cutoff)) == Alone(b1, pc1);
    assert SweptTo(b1, cutoff, 0) == b1;
    SoloSweep(b1, cutoff, 0, 0);
  }

  lemma SoloSetWarm(b: Book, warm: u32)
    requires |b.buckets| > 0
    ensures Solo(b, SetWarm(warm)).0 == Tickets.SetWarm(b, warm)
  {
    assert Begin(b, SetWarm(warm)) == (Tickets.SetWarm(b, warm), Idle);
  }

  /** A release that has found the ring empty so far. */
  lemma {:induction false} SoloWalk(b: Book, sec: u32, step: nat)
    requires |b.buckets| > 0 && step <= |b.buckets|
    requires Tickets.Nearest(b.buckets, sec, 0) == Tickets.Nearest(b.buckets, sec, step)
    ensures (Alone(b, TakingOne(sec, step)), Succeeds(b, TakingOne(sec, step))) == Tickets.Release(b, sec)
    decreases |b.buckets| - step
  {
    var (b1, pc1) := Taking(b, TakingOne(sec, step));
    assert Alone(b, TakingOne(sec, step)) == Alone(b1, pc1);
    assert Succeeds(b, TakingOne(sec, step)) == Succeeds(b1, pc1);
    if pc1.Lowering? {
      SoloLower(b1);
    } else if pc1.TakingOne? {
      SoloWalk(b, sec, step + 1);
    } else {
      var (b2, pc2) := Taking(b1, pc1);
      assert Alone(b1, pc1) == Alone(b2, pc2) && Succeeds(b1, pc1) == Succeeds(b2, pc2);
      if pc2.Lowering? { SoloLower(b2); }
    }
  }

  lemma SoloRelease(b: Book, sec: u32)
    requires |b.buckets| > 0
    ensures Solo(b, Release(sec)) == Tickets.Release(b, sec)
  {
    SoloWalk(b, sec, 0);
  }
}
