/** The ledger object: one provider's warm reservations and cold placements, updated in place. */
module Ledgers {
  import opened Words
  import opened Books
  import opened Rings
  import Tickets
  import ColdStarts

  const SECOND := 1_000_000_000

  /** The one-second bucket of a time given in Unix seconds. */
  function Epoch(now: int): u32 {
    Wrap(now)
  }

  class Ledger {
    var warm: u32
    var out: u32
    var carry: Word
    var cleared: u32
    const reservations: array<Word>
    const cold: array<Word>
    const coldWindow: u32

    ghost predicate Valid()
      reads this
    {
      && reservations != cold
      && (exists k: nat :: k < 32 && reservations.Length == Pow2(k))
      && (exists k: nat :: k < 32 && cold.Length == Pow2(k))
      && coldWindow >= 1
    }

    /** The reservation side, as the value its calls are specified on. */
    ghost function Model(): (b: Book)
      reads this, reservations
    {
      Book(warm, out, reservations[..], carry, cleared)
    }

    /** Durations are in nanoseconds. The cold ring reaches back a whole window exactly when the
        window is below 2^31 seconds. */
    constructor (grace: nat, fetchTimeout: nat, coldWindow: nat)
      ensures Valid() && fresh(reservations) && fresh(cold)
      ensures Model() == EmptyBook(RingSize((grace + fetchTimeout) / SECOND + 2))
      ensures cold[..] == ColdStarts.RingOf(RingSize(this.coldWindow + 1), [])
      ensures this.coldWindow == if Wrap(coldWindow / SECOND) < 1 then 1 else Wrap(coldWindow / SECOND)
      ensures this.coldWindow <= cold.Length <==> this.coldWindow < 0x8000_0000
    {
      var window: u32 := if Wrap(coldWindow / SECOND) < 1 then 1 else Wrap(coldWindow / SECOND);
      RingSizeCovers((grace + fetchTimeout) / SECOND + 2);
      RingSizeCovers(window + 1);
      assert window <= RingSize(window + 1) <==> window < 0x8000_0000;
      this.coldWindow := window;
      warm, out, carry, cleared := 0, 0, ZERO, 0;
      reservations := new Word[RingSize((grace + fetchTimeout) / SECOND + 2)](_ => ZERO);
      cold := new Word[RingSize(window + 1)](_ => ZERO);
    }

    method SetWarm(reported: int)
      requires Valid()
      modifies this`warm
      ensures Model() == Tickets.SetWarm(old(Model()), reported)
    {
      warm := if reported > MAX_U32 then MAX_U32 else if reported > 0 then reported else 0;
    }

    method TryReserve(now: int) returns (sec: u32, ok: bool)
      requires Valid()
      modifies this, reservations
      ensures Model() == Tickets.TryReserve(old(Model()), Epoch(now)).0
      ensures ok == (old(out) < old(warm)) && (ok ==> sec == Epoch(now))
    {
      if out >= warm { return 0, false; }
      out := Wrap(out + 1);
      sec := Epoch(now);
      Record(sec);
      return sec, true;
    }

    method Record(sec: u32)
      requires Valid()
      modifies this`carry, reservations
      ensures Model() == Tickets.Record(old(Model()), sec)
    {
      var spilled := Add(reservations, sec);
      if spilled.lo > 0 { carry := CarryIn(carry, spilled); }
    }

    method ReleaseAt(sec: u32) returns (ok: bool)
      requires Valid()
      modifies this, reservations
      ensures (Model(), ok) == Tickets.ReleaseAt(old(Model()), sec)
    {
      var took := TakeAt(sec);
      if !took {
        if sec < cleared { return false; }
        took := TakeFromCarryAt(sec);
        if !took { return false; }
      }
      ok := Decrement();
    }

    method TakeAt(sec: u32) returns (ok: bool)
      requires Valid()
      modifies reservations
      ensures
        var i := Slot(sec, reservations.Length);
        var w := old(reservations[i]);
        && ok == (w.lo != 0 && w.hi == sec)
        && reservations[..] == if ok then old(reservations[..])[i := TakeOneOff(w)] else old(reservations[..])
    {
      var i := Slot(sec, reservations.Length);
      var w := reservations[i];
      if w.lo == 0 || w.hi != sec { return false; }
      reservations[i] := TakeOneOff(w);
      return true;
    }

    method TakeFromCarryAt(minSec: u32) returns (ok: bool)
      modifies this`carry
      ensures ok == (old(carry).lo != 0 && old(carry).hi >= minSec)
      ensures carry == if ok then TakeOneOff(old(carry)) else old(carry)
    {
      if carry.lo == 0 || carry.hi < minSec { return false; }
      carry := TakeOneOff(carry);
      return true;
    }

    method Decrement() returns (ok: bool)
      modifies this`out
      ensures ok == (old(out) > 0) && out == if ok then old(out) - 1 else 0
    {
      if out == 0 { return false; }
      out := Wrap(out - 1);
      return true;
    }

    /** Undoes some reservation: it succeeds exactly when any is outstanding, and then takes
        exactly one count out of the ring or carry and one off outstanding. */
    method Release(now: int) returns (ok: bool)
      requires Valid() && out == Placed(Model())
      modifies this, reservations
      ensures (Model(), ok) == Tickets.Release(old(Model()), Epoch(now))
      ensures ok == (old(out) > 0)
      ensures out == (if ok then old(out) - 1 else old(out)) && out == Placed(Model())
      ensures warm == old(warm) && cleared == old(cleared)
    {
      var took := TakeOne(Epoch(now));
      if !took {
        took := TakeFromCarryAt(0);
        if !took { return false; }
      }
      ok := Decrement();
    }

    /** Takes one count from the nearest non-empty bucket going backwards from `sec`. */
    method TakeOne(sec: u32) returns (ok: bool)
      requires Valid()
      modifies reservations
      ensures
        var i := Tickets.Nearest(old(reservations[..]), sec, 0);
        && ok == (i < reservations.Length)
        && reservations[..] ==
             if ok then old(reservations[..])[i := TakeOneOff(old(reservations[i]))] else old(reservations[..])
      ensures ok == (Sum(Tail(0), old(reservations[..])) > 0)
      ensures Sum(Tail(0), reservations[..]) + (if ok then 1 else 0) == Sum(Tail(0), old(reservations[..]))
    {
      var i := FindOne(sec);
      if i == reservations.Length { return false; }
      TakeLowersSum(reservations[..], i);
      reservations[i] := TakeOneOff(reservations[i]);
      assert reservations[..] == old(reservations[..])[i := TakeOneOff(old(reservations[i]))];
      return true;
    }

    /** The bucket to take it from, or the ring's size if all are empty. */
    method FindOne(sec: u32) returns (i: nat)
      requires Valid()
      ensures i == Tickets.Nearest(reservations[..], sec, 0)
      ensures i == reservations.Length ==> Sum(Tail(0), reservations[..]) == 0
    {
      var n := reservations.Length;
      var step := 0;
      while step < n
        invariant 0 <= step <= n
        invariant Tickets.Nearest(reservations[..], sec, 0) == Tickets.Nearest(reservations[..], sec, step)
        invariant forall s | 0 <= s < step :: reservations[SlotBack(sec, s, n)].lo == 0
      {
        i := SlotBack(sec, step, n);
        if reservations[i].lo != 0 { return i; }
        step := step + 1;
      }
      AllEmpty(reservations[..], sec);
      return n;
    }

    /** Drops what a report fetched after `cutoff` accounts for, bucket by bucket. */
    method ClearBefore(cutoff: int)
      requires Valid() && out == Placed(Model())
      modifies this, reservations
      ensures Model() == Tickets.ClearBefore(old(Model()), Epoch(cutoff))
      ensures Tickets.Recent(carry, Epoch(cutoff))
      ensures forall i | 0 <= i < reservations.Length :: Tickets.Recent(reservations[i], Epoch(cutoff))
      ensures out == Sum(Tail(Epoch(cutoff)), old(reservations[..]))
                     + if old(carry).hi >= Epoch(cutoff) then old(carry).lo else 0
    {
      var sec := Epoch(cutoff);
      ghost var was, ring := Model(), reservations[..];
      if sec > cleared { cleared := sec; }
      var freed: u32 := 0;
      for i := 0 to reservations.Length
        invariant cleared == (if sec > was.cleared then sec else was.cleared)
        invariant warm == was.warm && out == was.out && carry == was.carry
        invariant forall j | 0 <= j < reservations.Length ::
          reservations[j] == if j < i then Tickets.Kept(ring[j], sec) else ring[j]
        invariant freed + Sum(Tail(0), reservations[..]) == Sum(Tail(0), ring)
      {
        var w := reservations[i];
        if Droppable(w, sec) {
          SumUpdate(Tail(0), reservations[..], i, ZERO);
          ghost var ws := reservations[..];
          reservations[i] := ZERO;
          assert reservations[..] == ws[i := ZERO];
          freed := Wrap(freed + w.lo);
        }
      }
      assert reservations[..] == Tickets.KeptAll(ring, sec);
      if Droppable(carry, sec) {
        freed := Wrap(freed + carry.lo);
        carry := ZERO;
      }
      if freed != 0 { out := Wrap(out - freed); }
      Tickets.ClearFrees(was, sec);
    }

    method RecordCold(now: int)
      requires Valid()
      modifies cold
      ensures cold[..] == ColdStarts.AddCold(old(cold[..]), Epoch(now))
    {
      var _ := Add(cold, Epoch(now));
    }

    method InFlightCold(now: int) returns (n: nat)
      requires Valid()
      ensures n == ColdStarts.InFlight(cold[..], Epoch(now), coldWindow)
    {
      n := SumSince(cold, Wrap(Epoch(now) - coldWindow + 1));
    }
  }

  lemma TakeLowersSum(ring: seq<Word>, i: nat)
    requires i < |ring| && ring[i].lo > 0
    ensures Sum(Tail(0), ring[i := TakeOneOff(ring[i])]) + 1 == Sum(Tail(0), ring)
  {
    SumUpdate(Tail(0), ring, i, TakeOneOff(ring[i]));
  }

  lemma AllEmpty(ring: seq<Word>, sec: u32)
    requires exists k: nat :: k < 32 && |ring| == Pow2(k)
    requires forall s | 0 <= s < |ring| :: ring[SlotBack(sec, s, |ring|)].lo == 0
    ensures Sum(Tail(0), ring) == 0
  {
    var k: nat :| k < 32 && |ring| == Pow2(k);
    forall i | 0 <= i < |ring| ensures ring[i].lo == 0 {
      EverySlotVisited(sec, k, i);
    }
    SumUniform(Tail(0), ring, 0);
  }

  /** Counts one in the bucket for `sec`; what the ring cannot keep is returned. */
  method Add(ring: array<Word>, sec: u32) returns (spilled: Word)
    requires ring.Length > 0
    modifies ring
    ensures
      var i := Slot(sec, ring.Length);
      var added := AddTo(old(ring[i]), sec);
      ring[..] == old(ring[..])[i := added.0] && spilled == added.1
  {
    var i := Slot(sec, ring.Length);
    var w := ring[i];
    if w.hi == sec {
      ring[i] := Word(sec, Wrap(w.lo + 1));
      return ZERO;
    } else if w.hi > sec {
      return Word(sec, 1);
    } else {
      ring[i] := Word(sec, 1);
      return w;
    }
  }

  method SumSince(ring: array<Word>, since: u32) returns (n: nat)
    ensures n == Sum(Tail(since), ring[..])
  {
    n := 0;
    for i := 0 to ring.Length
      invariant n == Sum(Tail(since), ring[..i])
    {
      var w := ring[i];
      if w.lo > 0 && w.hi >= since { n := n + w.lo; }
      assert ring[..i + 1] == ring[..i] + [w];
      SumAppend(Tail(since), ring[..i], [w]);
    }
    assert ring[..ring.Length] == ring[..];
  }
}
