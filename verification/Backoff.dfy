/** The recovery backoff, whose shift wraps in 64 bits. Durations are in nanoseconds. */
module Backoff {
  import opened Words
  import opened Rings

  const BASE := 100_000_000
  const CAP := 2_000_000_000

  /** The longest a recovery step may sleep: the base shifted left by the step number, signed
      and in 64 bits, or the cap when that exceeds it or is not positive. */
  function Ceiling(step: nat): (ceil: int)
    ensures 0 < ceil <= CAP
  {
    var ceil := I64(BASE * Pow2(step));
    if ceil > CAP || ceil <= 0 then CAP else ceil
  }

  lemma Reassociate(a: int, b: int, c: int)
    ensures a * (b * c) == b * (a * c)
  {
  }

  lemma MultipleOfPow2(a: nat, step: nat, k: nat)
    requires step >= k
    ensures (a * Pow2(step)) % Pow2(k) == 0
  {
    Pow2Monotone(k, step);
    var q := Pow2(step) / Pow2(k);
    assert Pow2(step) == Pow2(k) * q;
    Reassociate(a, Pow2(k), q);
    Multiple(Pow2(k), a * q);
  }

  /** Wrapping keeps a multiple of 2^31 a multiple of 2^31. */
  lemma WrapKeepsMultiple(x: int)
    requires x % 0x8000_0000 == 0
    ensures I64(x) % 0x8000_0000 == 0
  {
    var y := x + 0x8000_0000_0000_0000;
    ModDivides(y, 0x8000_0000, 0x1_0000_0000_0000_0000);
  }

  /** However large the step, the ceiling is the lesser of the cap and the base doubled `step`
      times: a shift large enough to wrap yields a multiple of 2^31, which is either above the
      cap or not positive. */
  lemma CeilingIsCappedDoubling(step: nat)
    ensures Ceiling(step) == if BASE * Pow2(step) < CAP then BASE * Pow2(step) else CAP
  {
    assert Pow2(4) == 16;
    assert Pow2(5) == 32;
    if step < 5 {
      Pow2Monotone(step, 4);
    } else {
      Pow2Monotone(5, step);
      if step <= 31 {
        Pow2Concrete();
        Pow2Monotone(step, 31);
      } else {
        Pow2Concrete();
        MultipleOfPow2(BASE, step, 31);
        WrapKeepsMultiple(BASE * Pow2(step));
      }
    }
  }

  lemma CeilingIsAtLeastBase(step: nat)
    ensures Ceiling(step) >= BASE
  {
    CeilingIsCappedDoubling(step);
    Pow2Monotone(0, step);
  }
}
