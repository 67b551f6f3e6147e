/** Sizes of the one-second rings, and the index arithmetic a power-of-two size allows. */
module Rings {
  import opened Words
  import opened Books

  function Pow2(k: nat): (p: nat)
    ensures p >= 1
  {
    if k == 0 then 1 else 2 * Pow2(k - 1)
  }

  /** The number of bits needed to write `x`. */
  function BitLen(x: nat): nat {
    if x == 0 then 0 else 1 + BitLen(x / 2)
  }

  /** The size of a ring asked to cover `seconds`: 1 shifted left by the bit length of
      seconds - 1, in 32 bits, and never below 8. */
  function RingSize(seconds: nat): (size: nat)
    requires seconds > 0
    ensures size >= 8
  {
    var size := Wrap(Pow2(BitLen(seconds - 1)));
    if size < 8 then 8 else size
  }

  lemma {:induction false} BitLenBounds(x: nat)
    ensures x < Pow2(BitLen(x)) && (x > 0 ==> Pow2(BitLen(x)) <= 2 * x)
  {
    if x > 0 { BitLenBounds(x / 2); }
  }

  lemma {:induction false} Pow2Monotone(j: nat, k: nat)
    requires j <= k
    ensures Pow2(j) <= Pow2(k) && Pow2(k) % Pow2(j) == 0
  {
    if j < k {
      Pow2Monotone(j, k - 1);
      var q := Pow2(k - 1) / Pow2(j);
      assert Pow2(k) == Pow2(j) * (2 * q);
      Multiple(Pow2(j), 2 * q);
    } else {
      Multiple(Pow2(j), 1);
    }
  }

  lemma Multiple(m: nat, q: nat)
    requires m > 0
    ensures (m * q) % m == 0
  {
    assert m * q == q * m + 0;
    DivModUnique(m * q, m, q, 0);
  }

  lemma MulSign(k: int, m: nat)
    ensures (k >= 1 ==> k * m >= m) && (k <= -1 ==> k * m + m <= 0)
  {
  }

  lemma DivModUnique(x: int, m: nat, q: int, r: int)
    requires m > 0 && x == q * m + r && 0 <= r < m
    ensures x % m == r
  {
    var q', r' := x / m, x % m;
    assert (q - q') * m == r' - r;
    MulSign(q - q', m);
  }

  /** A remainder by a multiple of n keeps the remainder by n. */
  lemma ModOfMod(x: int, n: nat, c: nat)
    requires n > 0 && c > 0 && c * n > 0
    ensures (x % (c * n)) % n == x % n
  {
    var q := x / (c * n);
    var r := x % n;
    assert x == q * (c * n) + x % (c * n);
    assert q * (c * n) == (q * c) * n;
    var a := x / n;
    assert x % (c * n) == (a - q * c) * n + r by { assert a * n - (q * c) * n == (a - q * c) * n; }
    DivModUnique(x % (c * n), n, a - q * c, r);
  }

  lemma Pow2Concrete()
    ensures Pow2(3) == 8 && Pow2(31) == 0x8000_0000 && Pow2(32) == 0x1_0000_0000
  {
    assert Pow2(8) == 256;
    assert Pow2(16) == 0x1_0000;
    assert Pow2(24) == 0x100_0000;
    assert Pow2(31) == 0x8000_0000;
  }

  /** A ring is a power of two in size, and covers what it was asked to cover exactly when
      that is at most 2^31 seconds: beyond it the 32-bit shift loses its only bit. */
  lemma RingSizeCovers(seconds: nat)
    requires seconds > 0
    ensures exists k: nat :: k < 32 && RingSize(seconds) == Pow2(k)
    ensures RingSize(seconds) >= seconds <==> seconds <= 0x8000_0000
    ensures seconds > 0x8000_0000 ==> RingSize(seconds) == 8
  {
    var k := BitLen(seconds - 1);
    BitLenBounds(seconds - 1);
    Pow2Concrete();
    if k >= 32 {
      Pow2Monotone(32, k);
      assert RingSize(seconds) == Pow2(3);
    } else {
      Pow2Monotone(k, 31);
      assert RingSize(seconds) == Pow2(if Pow2(k) < 8 then 3 else k);
      assert seconds - 1 < Pow2(k) <= Pow2(31);
    }
  }

  /** The bitwise conjunction of two natural numbers. */
  function BitAnd(a: nat, b: nat): nat {
    if a == 0 || b == 0 then 0 else (a % 2) * (b % 2) + 2 * BitAnd(a / 2, b / 2)
  }

  lemma HalvedRemainder(x: nat, p: nat)
    requires p > 0
    ensures x % (2 * p) == 2 * ((x / 2) % p) + x % 2
  {
    var half := x / 2;
    var q, r := half / p, half % p;
    Recompose(half, p, q, r);
    DivModUnique(x, 2 * p, q, 2 * r + x % 2);
  }

  lemma Recompose(half: nat, p: nat, q: nat, r: nat)
    requires p > 0 && q == half / p && r == half % p
    ensures 2 * half == q * (2 * p) + 2 * r
  {
    assert half == p * q + r;
    assert 2 * (p * q) == q * (2 * p);
  }

  lemma BitAndOdd(x: nat, p: nat)
    requires p > 0
    ensures BitAnd(x, 2 * p - 1) == x % 2 + 2 * BitAnd(x / 2, p - 1)
  {
    assert (2 * p - 1) % 2 == 1 && (2 * p - 1) / 2 == p - 1;
  }

  /** Masking a second with size - 1, as the ring does, is taking its remainder: the slot
      function used throughout is the masked index whenever the size is a power of two. */
  lemma {:induction false} MaskIsSlot(sec: nat, k: nat)
    ensures BitAnd(sec, Pow2(k) - 1) == sec % Pow2(k)
  {
    if k == 0 {
      assert Pow2(0) == 1;
    } else {
      MaskIsSlot(sec / 2, k - 1);
      MaskOneMoreBit(sec, Pow2(k - 1));
      assert Pow2(k) == 2 * Pow2(k - 1);
    }
  }

  lemma MaskOneMoreBit(sec: nat, p: nat)
    requires p > 0 && BitAnd(sec / 2, p - 1) == (sec / 2) % p
    ensures BitAnd(sec, 2 * p - 1) == sec % (2 * p)
  {
    HalvedRemainder(sec, p);
    BitAndOdd(sec, p);
  }

  /** The slot `step` seconds before `sec`; the unsigned subtraction wraps. */
  function SlotBack(sec: u32, step: nat, size: nat): (i: nat)
    requires size > 0
    ensures i < size
  {
    Slot(Wrap(sec - step), size)
  }

  lemma StepBack(sec: int, n: nat, i: nat)
    requires i < n
    ensures (sec - (sec - i) % n) % n == i
  {
    var a := (sec - i) / n;
    assert sec - i == a * n + (sec - i) % n;
    DivModUnique(sec - (sec - i) % n, n, a, i);
  }

  lemma ModDivides(x: int, n: nat, m: nat)
    requires n > 0 && m > 0 && m % n == 0
    ensures (x % m) % n == x % n
  {
    var c := m / n;
    assert m == c * n;
    ModOfMod(x, n, c);
  }

  /** Wrapping at 2^32 keeps the remainder by a smaller power of two. */
  lemma WrapKeepsSlot(x: int, k: nat)
    requires k <= 32
    ensures Wrap(x) % Pow2(k) == x % Pow2(k)
  {
    Pow2Concrete();
    Pow2Monotone(k, 32);
    ModDivides(x, Pow2(k), Pow2(32));
  }

  /** Counting down from any second visits every slot within one trip round the ring, even
      where the unsigned subtraction wraps, because the size divides 2^32. */
  lemma EverySlotVisited(sec: u32, k: nat, i: nat)
    requires k <= 32 && i < Pow2(k)
    ensures
      var n := Pow2(k);
      var step := (sec - i) % n;
      0 <= step < n && SlotBack(sec, step, n) == i
  {
    var n := Pow2(k);
    var step := (sec - i) % n;
    StepBack(sec, n, i);
    WrapKeepsSlot(sec - step, k);
  }
}
