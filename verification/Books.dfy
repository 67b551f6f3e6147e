/** The shared state of one provider's reservation ledger, as a value. */
module Books {
  import opened Words

  /** (warm, out) is the state word, `buckets` the reservation ring, `carry` the reservations
      whose bucket was reused before a poll cleared them, and `cleared` the latest cutoff. */
  datatype Book = Book(warm: u32, out: u32, buckets: seq<Word>, carry: Word, cleared: u32)

  function EmptyBook(size: nat): Book {
    Book(0, 0, seq(size, _ => ZERO), ZERO, 0)
  }

  /** The bucket a second is counted in. */
  function Slot(sec: u32, size: nat): (i: nat)
    requires size > 0
    ensures i < size
  {
    sec % size
  }

  /** The count of a word, if its second is `since` or later. */
  function Tail(since: nat): Word -> nat {
    (w: Word) => if w.hi >= since then w.lo else 0
  }

  /** All counts in the ring and in carry. */
  function Placed(b: Book): nat {
    Sum(Tail(0), b.buckets) + b.carry.lo
  }

  /** What a ledger shows as available. */
  function Available(b: Book): nat {
    if b.out >= b.warm then 0 else b.warm - b.out
  }
}
