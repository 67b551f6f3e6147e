/** Strings in byte order, and sorting.

    A Go string is a sequence of bytes; here its characters are the bytes.
 */
module Text {

  datatype Option<+T> = None | Some(value: T)

  /** Byte-wise lexicographic order. */
  predicate Less(a: string, b: string) {
    b != "" && (a == "" || a[0] < b[0] || (a[0] == b[0] && Less(a[1..], b[1..])))
  }

  /** `a` is a proper prefix of `b`, or has the lesser byte where they first differ, which is at `k`. */
  ghost predicate DiffersAt(a: string, b: string, k: nat) {
    k <= |a| && k < |b| && a[..k] == b[..k] && (k == |a| || a[k] < b[k])
  }

  lemma {:induction false} LessIsLexicographic(a: string, b: string)
    ensures Less(a, b) <==> exists k: nat :: DiffersAt(a, b, k)
  {
    forall k: nat | DiffersAt(a, b, k) && k > 0 ensures a != "" && a[0] == b[0] { assert a[..k][0] == b[..k][0]; }
    if b != "" && (a == "" || a[0] != b[0]) {
      if Less(a, b) { assert DiffersAt(a, b, 0); }
    } else if b != "" {
      LessIsLexicographic(a[1..], b[1..]);
      if k: nat :| DiffersAt(a[1..], b[1..], k) {
        assert a[..k + 1] == [a[0]] + a[1..][..k] && b[..k + 1] == [b[0]] + b[1..][..k];
        assert DiffersAt(a, b, k + 1);
      }
      if k: nat :| DiffersAt(a, b, k) {
        assert k > 0;
        assert a[1..][..k - 1] == a[..k][1..] && b[1..][..k - 1] == b[..k][1..];
        assert DiffersAt(a[1..], b[1..], k - 1);
      }
    }
  }

  lemma {:induction false} LessTotal(a: string, b: string)
    ensures a == b || Less(a, b) || Less(b, a)
  {
    if a != "" && b != "" && a[0] == b[0] {
      LessTotal(a[1..], b[1..]);
      assert a == [a[0]] + a[1..] && b == [b[0]] + b[1..];
    }
  }

  lemma {:induction false} LessTransitive(a: string, b: string, c: string)
    requires Less(a, b) && Less(b, c)
    ensures Less(a, c)
  {
    if a != "" && a[0] == b[0] == c[0] {
      LessTransitive(a[1..], b[1..], c[1..]);
    }
  }

  lemma {:induction false} LessIrreflexive(a: string)
    ensures !Less(a, a)
  {
    if a != "" { LessIrreflexive(a[1..]); }
  }

  lemma LessAsymmetric(a: string, b: string)
    requires Less(a, b)
    ensures !Less(b, a)
  {
    if Less(b, a) {
      LessTransitive(a, b, a);
      LessIrreflexive(a);
    }
  }

  // ----- the sorted keys of a map -----------------------------------------------------------

  ghost predicate Ascending(keys: seq<string>) {
    forall i, j | 0 <= i < j < |keys| :: Less(keys[i], keys[j])
  }

  /** `keys` lists exactly the members of `members`, in byte order. */
  ghost predicate SortedKeys(keys: seq<string>, members: set<string>) {
    Ascending(keys) && forall k :: k in keys <==> k in members
  }

  /** There is only one way to list a set in byte order. */
  lemma {:induction false} SortedKeysUnique(xs: seq<string>, ys: seq<string>, members: set<string>)
    requires SortedKeys(xs, members) && SortedKeys(ys, members)
    ensures xs == ys
    decreases |xs|
  {
    assert (xs != [] ==> xs[0] in members) && (ys != [] ==> ys[0] in members);
    if xs != [] {
      HeadIsLeast(xs, ys[0]);
      HeadIsLeast(ys, xs[0]);
      if xs[0] != ys[0] { LessAsymmetric(xs[0], ys[0]); }
      TailKeys(xs, members);
      TailKeys(ys, members);
      SortedKeysUnique(xs[1..], ys[1..], members - {xs[0]});
    }
  }

  lemma HeadIsLeast(keys: seq<string>, k: string)
    requires Ascending(keys) && k in keys
    ensures keys[0] == k || Less(keys[0], k)
  {
  }

  lemma TailKeys(keys: seq<string>, members: set<string>)
    requires SortedKeys(keys, members) && keys != []
    ensures SortedKeys(keys[1..], members - {keys[0]})
  {
    LessIrreflexive(keys[0]);
  }

  /** The place of the first key that is not less. */
  method PlaceOf(keys: seq<string>, k: string) returns (i: nat)
    ensures i <= |keys| && (forall j | 0 <= j < i :: Less(keys[j], k)) && (i < |keys| ==> !Less(keys[i], k))
  {
    i := 0;
    while i < |keys| && Less(keys[i], k)
      invariant 0 <= i <= |keys|
      invariant forall j | 0 <= j < i :: Less(keys[j], k)
    {
      i := i + 1;
    }
  }

  /** Collects the keys of a map in whatever order iteration yields them, then sorts them. */
  method SortKeys(members: set<string>) returns (keys: seq<string>)
    ensures SortedKeys(keys, members) && |keys| == |members|
  {
    var rest := members;
    keys := [];
    while rest != {}
      invariant rest <= members && |keys| + |rest| == |members|
      invariant SortedKeys(keys, members - rest)
      decreases |rest|
    {
      var k :| k in rest;
      var i := PlaceOf(keys, k);
      InsertKey(keys, members - rest, k, i);
      keys := keys[..i] + [k] + keys[i..];
      rest := rest - {k};
      assert members - rest == members - (rest + {k}) + {k};
    }
    assert members - rest == members;
  }

  /** Any set can be listed in byte order. */
  lemma {:induction false} SortedKeysExist(members: set<string>) returns (keys: seq<string>)
    ensures SortedKeys(keys, members) && |keys| == |members|
  {
    if members == {} { return []; }
    var k :| k in members;
    var rest := SortedKeysExist(members - {k});
    var i := 0;
    while i < |rest| && Less(rest[i], k)
      invariant 0 <= i <= |rest|
      invariant forall j | 0 <= j < i :: Less(rest[j], k)
    {
      i := i + 1;
    }
    InsertKey(rest, members - {k}, k, i);
    assert members - {k} + {k} == members;
    return rest[..i] + [k] + rest[i..];
  }

  lemma InsertKey(keys: seq<string>, members: set<string>, k: string, i: nat)
    requires SortedKeys(keys, members) && k !in members && i <= |keys|
    requires forall j | 0 <= j < i :: Less(keys[j], k)
    requires i < |keys| ==> !Less(keys[i], k)
    ensures SortedKeys(keys[..i] + [k] + keys[i..], members + {k})
  {
    var keys' := keys[..i] + [k] + keys[i..];
    forall j | i <= j < |keys| ensures Less(k, keys[j]) {
      LessTotal(keys[i], k);
      assert keys[i] in keys && keys[i] in members;
      if j > i { LessTransitive(k, keys[i], keys[j]); }
    }
    forall x ensures x in keys' <==> x in members + {k} {
      assert keys == keys[..i] + keys[i..];
    }
  }

  // ----- stable sorting by a comparator ------------------------------------------------------

  /** Inserts `x` before the first element that does not come before it. */
  function Insert<T>(before: (T, T) -> bool, x: T, s: seq<T>): (r: seq<T>)
    ensures multiset(r) == multiset{x} + multiset(s)
  {
    if s != [] && before(s[0], x) then
      assert s == [s[0]] + s[1..];
      [s[0]] + Insert(before, x, s[1..])
    else [x] + s
  }

  function StableSort<T>(before: (T, T) -> bool, s: seq<T>): (r: seq<T>)
    ensures multiset(r) == multiset(s) && |r| == |s|
  {
    if s == [] then []
    else
      assert s == [s[0]] + s[1..];
      var r := Insert(before, s[0], StableSort(before, s[1..]));
      assert |multiset(r)| == |multiset(s)|;
      r
  }

  /** The comparator orders like a total preorder. */
  ghost predicate WeakOrder<T(!new)>(before: (T, T) -> bool) {
    && (forall a, b :: before(a, b) ==> !before(b, a))
    && (forall a, b, c :: !before(b, a) && !before(c, b) ==> !before(c, a))
  }

  ghost predicate SortedBy<T>(before: (T, T) -> bool, s: seq<T>) {
    forall i, j | 0 <= i < j < |s| :: !before(s[j], s[i])
  }

  lemma {:induction false} InsertSorts<T(!new)>(before: (T, T) -> bool, x: T, s: seq<T>)
    requires WeakOrder(before) && SortedBy(before, s)
    ensures SortedBy(before, Insert(before, x, s))
  {
    if s != [] && before(s[0], x) {
      InsertSorts(before, x, s[1..]);
      var r := Insert(before, x, s[1..]);
      forall j | 0 <= j < |r| ensures !before(r[j], s[0]) {
        assert r[j] in multiset(r);
        if r[j] != x { assert r[j] in s[1..]; }
      }
    } else {
      forall j | 0 <= j < |s| ensures !before(s[j], x) {
        if j > 0 { assert !before(s[j], s[0]); }
      }
    }
  }

  lemma {:induction false} StableSortSorts<T(!new)>(before: (T, T) -> bool, s: seq<T>)
    requires WeakOrder(before)
    ensures SortedBy(before, StableSort(before, s))
  {
    if s != [] {
      StableSortSorts(before, s[1..]);
      InsertSorts(before, s[0], StableSort(before, s[1..]));
    }
  }
}
