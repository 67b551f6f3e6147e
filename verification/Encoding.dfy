/** The bytes that are hashed to identify a claim's spec and a provider's configuration.
    A hash itself is not modelled: what is proved is that the hashed bytes decode uniquely. */
module Encoding {
  import opened Text

  const MAX_LENGTH := 0x7fff_ffff_ffff_ffff

  /** The program's byte strings and maps have lengths that fit in an int. */
  ghost predicate Fits(s: string) {
    |s| <= MAX_LENGTH
  }

  ghost predicate MapFits(m: map<string, string>) {
    |m| <= MAX_LENGTH && forall k | k in m :: Fits(k) && Fits(m[k])
  }

  // ----- numbers ------------------------------------------------------------------------------------

  function Power(k: nat): (p: nat)
    ensures p > 0
  {
    if k == 0 then 1 else 256 * Power(k - 1)
  }

  /** The byte of weight 256^k. */
  function Byte(n: nat, k: nat): char {
    ((n / Power(k)) % 256) as char
  }

  lemma Quotient(n: nat, d: nat, q: nat, r: nat)
    requires d > 0 && n == d * q + r && r < d
    ensures n / d == q
  {
    var e := n / d;
    var gap := e - q;
    assert d * gap == r - n % d by { assert d * e == d * q + d * gap; }
    if gap > 0 { Grows(d, gap); }
  }

  lemma Grows(d: nat, k: nat)
    requires k > 0
    ensures d * k >= d
  {
  }

  lemma Regroup(b: nat, p: nat, t: nat)
    ensures 256 * (b * p + t) == (256 * b) * p + 256 * t
  {
  }

  lemma DivideTwice(n: nat, b: nat)
    requires b > 0
    ensures n / (256 * b) == (n / 256) / b
  {
    var q, r := n / 256, n % 256;
    var p, t := q / b, q % b;
    assert q == b * p + t;
    Regroup(b, p, t);
    Quotient(n, 256 * b, p, 256 * t + r);
  }

  lemma ByteOfRest(n: nat, k: nat)
    ensures Byte(n, k + 1) == Byte(n / 256, k)
  {
    DivideTwice(n, Power(k));
  }

  /** A number is known by its bytes. */
  lemma {:induction false} BytesAreUnique(n: nat, m: nat, k: nat)
    requires n < Power(k) && m < Power(k)
    requires forall j | 0 <= j < k :: Byte(n, j) == Byte(m, j)
    ensures n == m
  {
    if k > 0 {
      assert Byte(n, 0) == Byte(m, 0) && Power(0) == 1;
      forall j | 0 <= j < k - 1 ensures Byte(n / 256, j) == Byte(m / 256, j) {
        ByteOfRest(n, j);
        ByteOfRest(m, j);
        assert Byte(n, j + 1) == Byte(m, j + 1);
      }
      BytesAreUnique(n / 256, m / 256, k - 1);
    }
  }

  const TWO_64 := 0x1_0000_0000_0000_0000

  lemma PowerOfEight()
    ensures Power(8) == TWO_64
  {
    assert Power(2) == 0x1_0000;
    assert Power(4) == 0x1_0000_0000;
    assert Power(6) == 0x1_0000_0000_0000;
  }

  /** A 64-bit number, signed or not, in big-endian order. */
  function U64(n: int): (bs: string)
    ensures |bs| == 8
  {
    seq(8, i requires 0 <= i < 8 => Byte(n % TWO_64, 7 - i))
  }

  lemma U64IsUnique(n: int, m: int)
    requires U64(n) == U64(m)
    ensures n % TWO_64 == m % TWO_64
  {
    PowerOfEight();
    forall j | 0 <= j < 8 ensures Byte(n % TWO_64, j) == Byte(m % TWO_64, j) {
      assert U64(n)[7 - j] == U64(m)[7 - j];
    }
    BytesAreUnique(n % TWO_64, m % TWO_64, 8);
  }

  lemma SizeIsUnique(n: nat, m: nat)
    requires n <= MAX_LENGTH && m <= MAX_LENGTH && U64(n) == U64(m)
    ensures n == m
  {
    U64IsUnique(n, m);
  }

  // ----- fields and maps ------------------------------------------------------------------------------

  /** A byte string with its length before it. */
  function Field(s: string): string {
    U64(|s|) + s
  }

  /** What starts with a field starts with one field only. */
  lemma FieldIsPrefixFree(a: string, x: string, b: string, y: string)
    requires Fits(a) && Fits(b)
    requires Field(a) + x == Field(b) + y
    ensures a == b && x == y
  {
    var bs := Field(a) + x;
    assert bs[..8] == U64(|a|) && bs[..8] == U64(|b|);
    SizeIsUnique(|a|, |b|);
    assert bs[8..] == a + x && bs[8..] == b + y;
    assert a == bs[8..][..|a|] && b == bs[8..][..|a|];
    assert x == bs[8..][|a|..] && y == bs[8..][|a|..];
  }

  function Entries(keys: seq<string>, m: map<string, string>): string
    requires forall k <- keys :: k in m
  {
    if keys == [] then "" else Field(keys[0]) + Field(m[keys[0]]) + Entries(keys[1..], m)
  }

  /** `bs` encodes the map: its size, then its entries in byte order of their keys. */
  ghost predicate IsMap(bs: string, m: map<string, string>) {
    exists keys: seq<string> :: IsMapBy(bs, m, keys)
  }

  ghost predicate IsMapBy(bs: string, m: map<string, string>, keys: seq<string>) {
    Lists(keys, m) && (forall k <- keys :: k in m) && bs == U64(|m|) + Entries(keys, m)
  }

  lemma EntryIsPrefixFree(k: string, v: string, x: string, l: string, w: string, y: string)
    requires Fits(k) && Fits(v) && Fits(l) && Fits(w)
    requires Field(k) + Field(v) + x == Field(l) + Field(w) + y
    ensures k == l && v == w && x == y
  {
    assert Field(k) + Field(v) + x == Field(k) + (Field(v) + x);
    assert Field(l) + Field(w) + y == Field(l) + (Field(w) + y);
    FieldIsPrefixFree(k, Field(v) + x, l, Field(w) + y);
    FieldIsPrefixFree(v, x, w, y);
  }

  lemma EntriesStep(keys: seq<string>, m: map<string, string>, x: string)
    requires keys != [] && forall k <- keys :: k in m
    ensures Entries(keys, m) + x == Field(keys[0]) + Field(m[keys[0]]) + (Entries(keys[1..], m) + x)
  {
  }

  /** The two maps agree on the keys listed. */
  ghost predicate Agree(keys: seq<string>, m: map<string, string>, n: map<string, string>) {
    forall k <- keys :: k in m && k in n && m[k] == n[k]
  }

  /** As many entries read from the same bytes are the same entries. */
  lemma {:induction false} EntriesArePrefixFree(ks: seq<string>, m: map<string, string>, x: string,
                                                ls: seq<string>, n: map<string, string>, y: string)
    requires MapFits(m) && MapFits(n)
    requires (forall k <- ks :: k in m) && (forall l <- ls :: l in n) && |ks| == |ls|
    requires Entries(ks, m) + x == Entries(ls, n) + y
    ensures ks == ls && x == y && Agree(ks, m, n)
  {
    if ks == [] {
      assert Entries(ks, m) + x == x && Entries(ls, n) + y == y;
    } else {
      EntriesStep(ks, m, x);
      EntriesStep(ls, n, y);
      EntryIsPrefixFree(ks[0], m[ks[0]], Entries(ks[1..], m) + x, ls[0], n[ls[0]], Entries(ls[1..], n) + y);
      EntriesArePrefixFree(ks[1..], m, x, ls[1..], n, y);
      assert ks == [ks[0]] + ks[1..] && ls == [ls[0]] + ls[1..];
    }
  }

  lemma SameEntriesSameMap(keys: seq<string>, m: map<string, string>, n: map<string, string>)
    requires SortedKeys(keys, m.Keys) && SortedKeys(keys, n.Keys)
    requires Agree(keys, m, n)
    ensures m == n
  {
    assert forall k :: k in m.Keys <==> k in keys;
    assert forall k :: k in n.Keys <==> k in keys;
  }

  lemma Regrouped(a: string, b: string, c: string)
    ensures a + b + c == a + (b + c)
  {
  }

  lemma SplitHead(p: string, u: string, q: string, v: string)
    requires |p| == |q| && p + u == q + v
    ensures p == q && u == v
  {
    assert p == (p + u)[..|p|] && q == (q + v)[..|p|];
    assert u == (p + u)[|p|..] && v == (q + v)[|p|..];
  }

  lemma SizesMatch(n: nat, u: string, m: nat, v: string)
    requires n <= MAX_LENGTH && m <= MAX_LENGTH && U64(n) + u == U64(m) + v
    ensures n == m && u == v
  {
    SplitHead(U64(n), u, U64(m), v);
    SizeIsUnique(n, m);
  }

  ghost predicate Lists(keys: seq<string>, m: map<string, string>) {
    SortedKeys(keys, m.Keys) && |keys| == |m|
  }

  lemma ListedKeysAreIn(keys: seq<string>, m: map<string, string>)
    requires Lists(keys, m)
    ensures forall k <- keys :: k in m
  {
  }

  lemma MapByIsPrefixFree(m: map<string, string>, ks: seq<string>, u: string, x: string,
                          n: map<string, string>, ls: seq<string>, v: string, y: string)
    requires MapFits(m) && MapFits(n) && Lists(ks, m) && Lists(ls, n)
    requires (forall k <- ks :: k in m) && (forall l <- ls :: l in n)
    requires u == Entries(ks, m) && v == Entries(ls, n) && |m| == |n| && u + x == v + y
    ensures m == n && u == v && x == y
  {
    EntriesArePrefixFree(ks, m, x, ls, n, y);
    SameEntriesSameMap(ks, m, n);
  }

  /** What starts with a map starts with one map only. */
  lemma MapIsPrefixFree(b: string, m: map<string, string>, x: string, c: string, n: map<string, string>, y: string)
    requires MapFits(m) && MapFits(n) && IsMap(b, m) && IsMap(c, n) && b + x == c + y
    ensures m == n && b == c && x == y
  {
    var ks :| IsMapBy(b, m, ks);
    var ls :| IsMapBy(c, n, ls);
    ListedKeysAreIn(ks, m);
    ListedKeysAreIn(ls, n);
    var u, v := Entries(ks, m), Entries(ls, n);
    Regrouped(U64(|m|), u, x);
    Regrouped(U64(|n|), v, y);
    SizesMatch(|m|, u + x, |n|, v + y);
    MapByIsPrefixFree(m, ks, u, x, n, ls, v, y);
  }

  /** A map has one encoding, whatever order its keys were collected in. */
  lemma MapEncodingIsUnique(b: string, c: string, m: map<string, string>)
    requires IsMap(b, m) && IsMap(c, m)
    ensures b == c
  {
    var ks :| IsMapBy(b, m, ks);
    var ls :| IsMapBy(c, m, ls);
    SortedKeysUnique(ks, ls, m.Keys);
  }

  method WriteMap(m: map<string, string>) returns (bs: string)
    ensures IsMap(bs, m)
  {
    var sorted := SortKeys(m.Keys);
    assert forall i | 0 <= i < |sorted| :: sorted[i] in sorted;
    var keys: seq<string> := sorted;
    bs := U64(|keys|);
    for i := 0 to |keys|
      invariant bs + Entries(keys[i..], m) == U64(|m|) + Entries(keys, m)
    {
      assert keys[i] in keys && keys[i..][1..] == keys[i + 1..];
      bs := bs + Field(keys[i]);
      bs := bs + Field(m[keys[i]]);
    }
    assert keys[|keys|..] == [];
    assert IsMapBy(bs, m, keys);
  }

  // ----- the spec of a claim -----------------------------------------------------------------------------

  const SECOND := 1_000_000_000
  const MAX_DURATION := 0x7fff_ffff_ffff_ffff
  const MIN_DURATION := -0x8000_0000_0000_0000

  type Duration = d: int | MIN_DURATION <= d <= MAX_DURATION

  function Abs(x: int): nat {
    if x < 0 then -x else x
  }

  /** Whole seconds of a duration, rounded half away from zero; a duration whose nearest second
      does not fit in one keeps the extreme duration, and so its whole seconds. */
  function WholeSeconds(d: Duration): int {
    var r := Abs(d) % SECOND;
    var rounded :=
      if r + r < SECOND then Abs(d) - r
      else if d < 0 then if Abs(d) + SECOND - r <= -MIN_DURATION then Abs(d) + SECOND - r else -MIN_DURATION
      else if Abs(d) + SECOND - r <= MAX_DURATION then Abs(d) + SECOND - r
      else MAX_DURATION;
    if d < 0 then -(rounded / SECOND) else rounded / SECOND
  }

  const MOST_SECONDS := 9_223_372_036

  /** Exactly the nearest second, halves away from zero, for every duration but those within
      half a second of the type's ends, whose nearest second is one more than fits. */
  lemma NearestSecond(d: Duration)
    ensures Abs(WholeSeconds(d)) == if Abs(d) >= MOST_SECONDS * SECOND + SECOND / 2 then MOST_SECONDS
                                    else (Abs(d) + SECOND / 2) / SECOND
    ensures WholeSeconds(d) == 0 || (WholeSeconds(d) < 0 <==> d < 0)
  {
    var q, r := Abs(d) / SECOND, Abs(d) % SECOND;
    assert Abs(d) == q * SECOND + r;
    if r + r < SECOND {
      assert (Abs(d) - r) / SECOND == q;
    } else {
      assert Abs(d) + SECOND - r == (q + 1) * SECOND;
    }
  }

  /** A claim's spec; no labels is the same as an empty map of them. */
  datatype Spec = Spec(template: string, labels: Option<map<string, string>>, ttl: Duration)

  function Labels(s: Spec): map<string, string> {
    if s.labels.Some? then s.labels.value else map[]
  }

  ghost predicate EncodesSpec(bs: string, s: Spec) {
    exists labels: string :: IsMap(labels, Labels(s)) && bs == SpecBytes(s, labels)
  }

  function SpecBytes(s: Spec, labels: string): string {
    Field(s.template) + (labels + U64(WholeSeconds(s.ttl)))
  }

  method SpecPreimage(s: Spec) returns (bs: string)
    ensures EncodesSpec(bs, s)
  {
    bs := Field(s.template);
    var labels := WriteMap(Labels(s));
    bs := bs + labels;
    bs := bs + U64(WholeSeconds(s.ttl));
    assert bs == SpecBytes(s, labels);
  }

  lemma SecondsFit(d: Duration)
    ensures -TWO_64 / 2 <= WholeSeconds(d) < TWO_64 / 2
  {
    NearestSecond(d);
  }

  ghost predicate SpecFits(s: Spec) {
    Fits(s.template) && MapFits(Labels(s))
  }

  /** Two specs hash the same bytes exactly when their templates and labels are the same and
      their lifetimes round to the same second. */
  lemma SpecsAreIdentified(b: string, s: Spec, c: string, t: Spec)
    requires SpecFits(s) && SpecFits(t) && EncodesSpec(b, s) && EncodesSpec(c, t)
    ensures b == c <==>
      s.template == t.template && Labels(s) == Labels(t) && WholeSeconds(s.ttl) == WholeSeconds(t.ttl)
  {
    var ls :| IsMap(ls, Labels(s)) && b == SpecBytes(s, ls);
    var lt :| IsMap(lt, Labels(t)) && c == SpecBytes(t, lt);
    if b == c { SameBytesSameSpec(s, ls, t, lt); }
    if Labels(s) == Labels(t) { MapEncodingIsUnique(ls, lt, Labels(s)); }
  }

  lemma SameBytesSameSpec(s: Spec, ls: string, t: Spec, lt: string)
    requires SpecFits(s) && SpecFits(t) && IsMap(ls, Labels(s)) && IsMap(lt, Labels(t))
    requires SpecBytes(s, ls) == SpecBytes(t, lt)
    ensures s.template == t.template && Labels(s) == Labels(t) && WholeSeconds(s.ttl) == WholeSeconds(t.ttl)
  {
    var u, v := U64(WholeSeconds(s.ttl)), U64(WholeSeconds(t.ttl));
    FieldIsPrefixFree(s.template, ls + u, t.template, lt + v);
    MapIsPrefixFree(ls, Labels(s), u, lt, Labels(t), v);
    SameSeconds(s.ttl, t.ttl);
  }

  lemma SameSeconds(d: Duration, e: Duration)
    requires U64(WholeSeconds(d)) == U64(WholeSeconds(e))
    ensures WholeSeconds(d) == WholeSeconds(e)
  {
    U64IsUnique(WholeSeconds(d), WholeSeconds(e));
    SecondsFit(d);
    SecondsFit(e);
    SameResidue(WholeSeconds(d), WholeSeconds(e));
  }

  lemma SameResidue(a: int, b: int)
    requires -TWO_64 / 2 <= a < TWO_64 / 2 && -TWO_64 / 2 <= b < TWO_64 / 2
    requires a % TWO_64 == b % TWO_64
    ensures a == b
  {
    assert a == a / TWO_64 * TWO_64 + a % TWO_64 && -1 <= a / TWO_64 <= 0;
    assert b == b / TWO_64 * TWO_64 + b % TWO_64 && -1 <= b / TWO_64 <= 0;
  }

  // ----- the configuration of a provider --------------------------------------------------------------------

  datatype Config = Config(
    adapter: string,
    providerID: string,
    endpoint: string,
    options: map<string, string>,
    credentials: map<string, string>,
    templates: map<string, string>)

  function HeadBytes(c: Config): string {
    Field(c.adapter) + Field(c.providerID) + Field(c.endpoint)
  }

  function ConfigBytes(c: Config, options: string, credentials: string, templates: string): string {
    HeadBytes(c) + (options + (credentials + templates))
  }

  ghost predicate EncodesBy(bs: string, c: Config, options: string, credentials: string, templates: string) {
    && IsMap(options, c.options) && IsMap(credentials, c.credentials) && IsMap(templates, c.templates)
    && bs == ConfigBytes(c, options, credentials, templates)
  }

  ghost predicate EncodesConfig(bs: string, c: Config) {
    exists options, credentials, templates :: EncodesBy(bs, c, options, credentials, templates)
  }

  method ConfigPreimage(c: Config) returns (bs: string)
    ensures EncodesConfig(bs, c)
  {
    bs := Field(c.adapter);
    bs := bs + Field(c.providerID);
    bs := bs + Field(c.endpoint);
    assert bs == HeadBytes(c);
    var options := WriteMap(c.options);
    bs := bs + options;
    var credentials := WriteMap(c.credentials);
    bs := bs + credentials;
    var templates := WriteMap(c.templates);
    bs := bs + templates;
    Regrouped(HeadBytes(c) + options, credentials, templates);
    Regrouped(HeadBytes(c), options, credentials + templates);
    assert EncodesBy(bs, c, options, credentials, templates);
  }

  ghost predicate ConfigFits(c: Config) {
    && Fits(c.adapter) && Fits(c.providerID) && Fits(c.endpoint)
    && MapFits(c.options) && MapFits(c.credentials) && MapFits(c.templates)
  }

  lemma HeadIsIdentified(c: Config, maps: string, d: Config, maps': string)
    requires ConfigFits(c) && ConfigFits(d) && HeadBytes(c) + maps == HeadBytes(d) + maps'
    ensures c.adapter == d.adapter && c.providerID == d.providerID && c.endpoint == d.endpoint && maps == maps'
  {
    assert HeadBytes(c) + maps == Field(c.adapter) + Field(c.providerID) + (Field(c.endpoint) + maps);
    assert HeadBytes(d) + maps' == Field(d.adapter) + Field(d.providerID) + (Field(d.endpoint) + maps');
    EntryIsPrefixFree(c.adapter, c.providerID, Field(c.endpoint) + maps,
                      d.adapter, d.providerID, Field(d.endpoint) + maps');
    FieldIsPrefixFree(c.endpoint, maps, d.endpoint, maps');
  }

  lemma MapsAreIdentified(o: string, cr: string, te: string, c: Config, o': string, cr': string, te': string, d: Config)
    requires ConfigFits(c) && ConfigFits(d)
    requires IsMap(o, c.options) && IsMap(cr, c.credentials) && IsMap(te, c.templates)
    requires IsMap(o', d.options) && IsMap(cr', d.credentials) && IsMap(te', d.templates)
    requires o + (cr + te) == o' + (cr' + te')
    ensures c.options == d.options && c.credentials == d.credentials && c.templates == d.templates
  {
    MapIsPrefixFree(o, c.options, cr + te, o', d.options, cr' + te');
    MapIsPrefixFree(cr, c.credentials, te, cr', d.credentials, te');
    assert te + "" == te' + "";
    MapIsPrefixFree(te, c.templates, "", te', d.templates, "");
  }

  /** Two configurations hash the same bytes exactly when they are the same. */
  lemma ConfigsAreIdentified(b: string, c: Config, e: string, d: Config)
    requires ConfigFits(c) && ConfigFits(d) && EncodesConfig(b, c) && EncodesConfig(e, d)
    ensures b == e <==> c == d
  {
    var o, cr, te :| EncodesBy(b, c, o, cr, te);
    var o', cr', te' :| EncodesBy(e, d, o', cr', te');
    if b == e {
      HeadIsIdentified(c, o + (cr + te), d, o' + (cr' + te'));
      MapsAreIdentified(o, cr, te, c, o', cr', te', d);
    }
    if c == d {
      MapEncodingIsUnique(o, o', c.options);
      MapEncodingIsUnique(cr, cr', c.credentials);
      MapEncodingIsUnique(te, te', c.templates);
    }
  }
}
