/** The 32-bit halves that every counter of the ledger is packed into.

    A 64-bit word holds two unsigned 32-bit halves: (second, count) in a ring bucket and in
    carry, (warm, outstanding) in the state word. All arithmetic on a half is unsigned and wraps
    at 2^32; that it never wraps is proved where it holds, not assumed here.
 */
module Words {

  type u32 = x: int | 0 <= x < 0x1_0000_0000

  const MAX_U32: u32 := 0xFFFF_FFFF

  function Wrap(x: int): (r: u32)
    ensures 0 <= x < 0x1_0000_0000 ==> r == x
  {
    x % 0x1_0000_0000
  }

  /** Signed 64-bit wrap-around. */
  function I64(x: int): (r: int)
    ensures -0x8000_0000_0000_0000 <= x < 0x8000_0000_0000_0000 ==> r == x
  {
    (x + 0x8000_0000_0000_0000) % 0x1_0000_0000_0000_0000 - 0x8000_0000_0000_0000
  }

  datatype Word = Word(hi: u32, lo: u32)

  const ZERO := Word(0, 0)

  /** What is left of a counter word when one count is taken from it: an emptied word is
      reset entirely, its second included. */
  function TakeOneOff(w: Word): Word
    requires w.lo > 0
  {
    if w.lo > 1 then Word(w.hi, w.lo - 1) else ZERO
  }

  /** Adding one count for second `sec` to the bucket word `w`: the new word, and the
      (second, count) that the bucket could not keep. */
  function AddTo(w: Word, sec: u32): (Word, Word) {
    if w.hi == sec then (Word(sec, Wrap(w.lo + 1)), ZERO)
    else if w.hi > sec then (w, Word(sec, 1))
    else (Word(sec, 1), w)
  }

  /** Folding `spilled` into the carry word. */
  function CarryIn(carry: Word, spilled: Word): Word {
    Word(if spilled.hi > carry.hi then spilled.hi else carry.hi, Wrap(carry.lo + spilled.lo))
  }

  /** A word is dropped by a poll only when all of its seconds are before the cutoff. */
  predicate Droppable(w: Word, cutoff: u32) {
    w.lo != 0 && w.hi < cutoff
  }

  // ----- sums over sequences ---------------------------------------------------------------

  function Sum<T>(f: T -> nat, xs: seq<T>): nat {
    if xs == [] then 0 else f(xs[0]) + Sum(f, xs[1..])
  }

  lemma {:induction false} SumUpdate<T>(f: T -> nat, xs: seq<T>, i: nat, x: T)
    requires i < |xs|
    ensures Sum(f, xs[i := x]) + f(xs[i]) == Sum(f, xs) + f(x)
    ensures Sum(f, xs) >= f(xs[i])
  {
    if i == 0 {
      assert xs[i := x] == [x] + xs[1..];
    } else {
      assert xs[i := x][1..] == xs[1..][i - 1 := x];
      SumUpdate(f, xs[1..], i - 1, x);
    }
  }

  lemma {:induction false} SumMonotone<T>(f: T -> nat, g: T -> nat, xs: seq<T>)
    requires forall x <- xs :: f(x) <= g(x)
    ensures Sum(f, xs) <= Sum(g, xs)
  {
    if xs != [] {
      SumMonotone(f, g, xs[1..]);
    }
  }

  lemma {:induction false} SumAppend<T>(f: T -> nat, xs: seq<T>, ys: seq<T>)
    ensures Sum(f, xs + ys) == Sum(f, xs) + Sum(f, ys)
  {
    if xs == [] {
      assert xs + ys == ys;
    } else {
      assert (xs + ys)[1..] == xs[1..] + ys;
      SumAppend(f, xs[1..], ys);
    }
  }

  lemma {:induction false} SumUniform<T>(f: T -> nat, xs: seq<T>, each: nat)
    requires forall x <- xs :: f(x) == each
    ensures Sum(f, xs) == |xs| * each
  {
    if xs != [] {
      SumUniform(f, xs[1..], each);
    }
  }

  /** How many of the seconds `secs` are `since` or later. */
  function CountFrom(since: nat, secs: seq<u32>): nat {
    Sum(AtOrAfter(since), secs)
  }

  function AtOrAfter(since: nat): u32 -> nat {
    (sec: u32) => if sec >= since then 1 else 0
  }
}
