/** The leader's cache of claims in flight and recently completed, one per idempotency key. */
module FlightCache {
  import opened Text

  /** A claimed sandbox, as far as the cache looks at it. */
  datatype Handle = Handle(provider: string, id: string, expiresAt: Option<int>)

  datatype Flight =
    | Running(specHash: string)
    | Completed(specHash: string, handle: Handle, until: int)

  /** `order` is the first-in first-out list of completed keys; it may hold stale and repeated
      entries. `evictedUntil` is the latest expiry of any completed claim evicted early. */
  datatype Cache = Cache(flights: map<string, Flight>, order: seq<string>, evictedUntil: int)

  const SWEEP_AT := 64

  // ----- the cache's operations as functions --------------------------------------------------

  predicate Expired(f: Flight, now: int) {
    f.Completed? && now >= f.until
  }

  /** A request for `key` joins an existing flight rather than starting its own. */
  predicate Joins(c: Cache, key: string, now: int) {
    key in c.flights && !Expired(c.flights[key], now)
  }

  function Unexpired(flights: map<string, Flight>, now: int): map<string, Flight> {
    map k | k in flights && !Expired(flights[k], now) :: flights[k]
  }

  /** Starts a flight for a key that has none to join; a crowded cache is swept first. */
  function Begin(c: Cache, key: string, now: int, specHash: string): Cache {
    var others := c.flights - {key};
    var swept := if |others| >= SWEEP_AT then Unexpired(others, now) else others;
    c.(flights := swept[key := Running(specHash)])
  }

  /** How long a completed claim is replayed: its lifetime, or the sandbox's own earlier expiry. */
  function ReplayUntil(now: int, ttl: int, expiresAt: Option<int>): int {
    if expiresAt.Some? && now < expiresAt.value < now + ttl then expiresAt.value else now + ttl
  }

  /** The first eviction loop: drops stale and expired entries from the front. */
  function DropFront(c: Cache, now: int): Cache
    decreases |c.order|
  {
    if c.order == [] then c
    else
      var front := c.order[0];
      if front !in c.flights || c.flights[front].Running? then DropFront(c.(order := c.order[1..]), now)
      else if Expired(c.flights[front], now) then
        DropFront(c.(flights := c.flights - {front}, order := c.order[1..]), now)
      else c
  }

  /** The second: evicts the oldest completed flights until the cache fits. */
  function EvictOldest(c: Cache, now: int, cap: nat): Cache
    decreases |c.order|
  {
    if |c.flights| <= cap || c.order == [] then c
    else
      var oldest, rest := c.order[0], c.(order := c.order[1..]);
      if oldest !in c.flights || c.flights[oldest].Running? then EvictOldest(rest, now, cap)
      else
        var until := c.flights[oldest].until;
        EvictOldest(rest.(flights := c.flights - {oldest},
                          evictedUntil := if now < until && until > c.evictedUntil then until else c.evictedUntil),
                    now, cap)
  }

  function Enforce(c: Cache, now: int, cap: nat): Cache {
    EvictOldest(DropFront(c, now), now, cap)
  }

  function Land(c: Cache, key: string, specHash: string, handle: Handle, until: int): Cache {
    c.(flights := c.flights[key := Completed(specHash, handle, until)], order := c.order + [key])
  }

  function Finish(c: Cache, key: string, specHash: string, handle: Handle, until: int, now: int, cap: nat): Cache {
    Enforce(Land(c, key, specHash, handle, until), now, cap)
  }

  function Fail(c: Cache, key: string): Cache {
    c.(flights := c.flights - {key})
  }

  predicate Names(f: Flight, provider: string, id: string) {
    f.Completed? && f.handle.provider == provider && (id == "" || f.handle.id == id)
  }

  /** Forgets the completed flights of a sandbox that was deleted. */
  function Evict(c: Cache, provider: string, id: string): Cache {
    c.(flights := map k | k in c.flights && !Names(c.flights[k], provider, id) :: c.flights[k])
  }

  // ----- what every operation keeps --------------------------------------------------------------

  predicate IsCompleted(c: Cache, key: string) {
    key in c.flights && c.flights[key].Completed?
  }

  function CompletedKeys(c: Cache): set<string> {
    set k | k in c.flights && IsCompleted(c, k)
  }

  /** Every completed cached flight is listed for eviction. */
  ghost predicate Listed(c: Cache) {
    forall k | IsCompleted(c, k) :: k in c.order
  }

  /** A completed claim that has not expired is still cached, or was evicted early and every
      fresh request looks it up until it expires. */
  ghost predicate Remembered(c: Cache, key: string, until: int, now: int) {
    now < until ==> (IsCompleted(c, key) && c.flights[key].until == until) || until <= c.evictedUntil
  }

  /** Popping the front entry is safe once its flight is gone or not completed. */
  lemma PopKeepsListed(c: Cache, d: Cache)
    requires Listed(c) && c.order != [] && d.order == c.order[1..]
    requires forall k | k in d.flights :: k in c.flights && d.flights[k] == c.flights[k]
    requires !IsCompleted(d, c.order[0])
    ensures Listed(d)
  {
    forall k | IsCompleted(d, k) ensures k in d.order {
      assert IsCompleted(c, k) && c.order == [c.order[0]] + d.order;
    }
  }

  lemma {:induction false} DropFrontKeeps(c: Cache, now: int)
    ensures
      var d := DropFront(c, now);
      && (Listed(c) ==> Listed(d))
      && d.evictedUntil == c.evictedUntil
      && d.flights.Keys <= c.flights.Keys && (forall k | k in d.flights :: d.flights[k] == c.flights[k])
      && (forall k | k in c.flights && k !in d.flights :: Expired(c.flights[k], now))
    decreases |c.order|
  {
    if c.order != [] {
      var front, rest := c.order[0], c.(order := c.order[1..]);
      if front !in c.flights || c.flights[front].Running? {
        if Listed(c) { PopKeepsListed(c, rest); }
        DropFrontKeeps(rest, now);
      } else if Expired(c.flights[front], now) {
        var without := rest.(flights := c.flights - {front});
        if Listed(c) { PopKeepsListed(c, without); }
        DropFrontKeeps(without, now);
      }
    }
  }

  lemma {:induction false} EvictOldestKeeps(c: Cache, now: int, cap: nat)
    ensures
      var d := EvictOldest(c, now, cap);
      && (Listed(c) ==> Listed(d))
      && d.evictedUntil >= c.evictedUntil
      && d.flights.Keys <= c.flights.Keys && (forall k | k in d.flights :: d.flights[k] == c.flights[k])
      && (forall k | k in c.flights && k !in d.flights ::
            c.flights[k].Completed? && (now < c.flights[k].until ==> c.flights[k].until <= d.evictedUntil))
      && (|d.flights| <= cap || d.order == [])
    decreases |c.order|
  {
    if |c.flights| > cap && c.order != [] {
      var oldest, rest := c.order[0], c.(order := c.order[1..]);
      if oldest !in c.flights || c.flights[oldest].Running? {
        if Listed(c) { PopKeepsListed(c, rest); }
        EvictOldestKeeps(rest, now, cap);
      } else {
        var until := c.flights[oldest].until;
        var without := rest.(flights := c.flights - {oldest},
                             evictedUntil := if now < until && until > c.evictedUntil then until else c.evictedUntil);
        if Listed(c) { PopKeepsListed(c, without); }
        EvictOldestKeeps(without, now, cap);
      }
    }
  }

  /** Evicting keeps every listed claim remembered, loses no flight in progress, and leaves no
      more completed flights than the cap allows. */
  lemma EnforceKeeps(c: Cache, now: int, cap: nat)
    requires Listed(c)
    ensures
      var d := Enforce(c, now, cap);
      && Listed(d) && |CompletedKeys(d)| <= cap
      && d.evictedUntil >= c.evictedUntil
      && (forall k | k in c.flights && c.flights[k].Running? :: k in d.flights && d.flights[k] == c.flights[k])
      && (forall k | k in d.flights :: k in c.flights && d.flights[k] == c.flights[k])
      && (forall k, until | Remembered(c, k, until, now) :: Remembered(d, k, until, now))
  {
    var m := DropFront(c, now);
    DropFrontKeeps(c, now);
    EvictOldestKeeps(m, now, cap);
    var d := Enforce(c, now, cap);
    if d.order == [] {
      NoneCompleted(d);
    } else {
      SubsetIsSmaller(CompletedKeys(d), d.flights.Keys);
    }
  }

  lemma NoneCompleted(c: Cache)
    requires Listed(c) && c.order == []
    ensures CompletedKeys(c) == {}
  {
  }

  lemma {:induction false} SubsetIsSmaller(small: set<string>, big: set<string>)
    requires small <= big
    ensures |small| <= |big|
  {
    if small != {} {
      var x :| x in small;
      SubsetIsSmaller(small - {x}, big - {x});
    }
  }

  // ----- every run --------------------------------------------------------------------------------

  datatype Op =
    | Tick(now: int)
    | Request(key: string, specHash: string)
    | Succeed(key: string, handle: Handle, until: int)
    | Abort(key: string)
    | Deleted(provider: string, id: string)

  /** The cache, the clock, and the expiry of every claim that completed and was not deleted. */
  datatype State = State(cache: Cache, now: int, promised: map<string, int>)

  ghost predicate Enabled(s: State, op: Op) {
    match op
    case Tick(now) => now >= s.now
    case Request(_, _) => true
    case Succeed(key, _, _) => key in s.cache.flights && s.cache.flights[key].Running?
    case Abort(key) => key in s.cache.flights && s.cache.flights[key].Running?
    case Deleted(_, _) => true
  }

  ghost function Apply(s: State, op: Op, cap: nat): State
    requires Enabled(s, op)
  {
    match op
    case Tick(now) => s.(now := now)
    case Request(key, specHash) =>
      if Joins(s.cache, key, s.now) then s else s.(cache := Begin(s.cache, key, s.now, specHash))
    case Succeed(key, handle, until) =>
      s.(cache := Finish(s.cache, key, s.cache.flights[key].specHash, handle, until, s.now, cap),
         promised := s.promised[key := until])
    case Abort(key) => s.(cache := Fail(s.cache, key))
    case Deleted(provider, id) =>
      s.(cache := Evict(s.cache, provider, id),
         promised := s.promised - (set k | k in s.cache.flights && Names(s.cache.flights[k], provider, id)))
  }

  ghost predicate Inv(s: State, cap: nat) {
    && Listed(s.cache)
    && |CompletedKeys(s.cache)| <= cap
    && forall k | k in s.promised :: Remembered(s.cache, k, s.promised[k], s.now)
  }

  /** Starting a flight disturbs nothing but expired claims. */
  lemma BeginKeepsOthers(c: Cache, key: string, now: int, specHash: string)
    requires !Joins(c, key, now)
    ensures
      var d := Begin(c, key, now, specHash);
      && d.order == c.order && d.evictedUntil == c.evictedUntil
      && key in d.flights && d.flights[key].Running?
      && (forall k | k in d.flights && k != key :: k in c.flights && d.flights[k] == c.flights[k])
      && (forall k | k in c.flights && k != key && !Expired(c.flights[k], now) :: k in d.flights)
  {
  }

  lemma BeginRemembers(c: Cache, key: string, now: int, specHash: string)
    requires !Joins(c, key, now)
    ensures
      var d := Begin(c, key, now, specHash);
      && (Listed(c) ==> Listed(d))
      && (forall k, until | Remembered(c, k, until, now) :: Remembered(d, k, until, now))
  {
    BeginKeepsOthers(c, key, now, specHash);
    var d := Begin(c, key, now, specHash);
    assert forall k | IsCompleted(d, k) :: IsCompleted(c, k);
    forall k, until | Remembered(c, k, until, now) ensures Remembered(d, k, until, now) {
      if k != key && IsCompleted(c, k) && !Expired(c.flights[k], now) { assert d.flights[k] == c.flights[k]; }
    }
  }

  lemma BeginKeeps(s: State, key: string, specHash: string, cap: nat)
    requires Inv(s, cap) && !Joins(s.cache, key, s.now)
    ensures Inv(s.(cache := Begin(s.cache, key, s.now, specHash)), cap)
  {
    var c := Begin(s.cache, key, s.now, specHash);
    BeginKeepsOthers(s.cache, key, s.now, specHash);
    BeginRemembers(s.cache, key, s.now, specHash);
    assert forall k | IsCompleted(c, k) :: IsCompleted(s.cache, k);
    SubsetIsSmaller(CompletedKeys(c), CompletedKeys(s.cache));
  }

  lemma LandListed(c: Cache, key: string, specHash: string, handle: Handle, until: int)
    requires Listed(c)
    ensures Listed(Land(c, key, specHash, handle, until))
  {
    var landed := Land(c, key, specHash, handle, until);
    forall k | IsCompleted(landed, k) ensures k in landed.order {
      if k == key { assert landed.order[|c.order|] == key; } else { assert IsCompleted(c, k); }
    }
  }

  lemma FinishKeeps(s: State, key: string, handle: Handle, until: int, cap: nat)
    requires Inv(s, cap) && Enabled(s, Succeed(key, handle, until))
    ensures Inv(Apply(s, Succeed(key, handle, until), cap), cap)
  {
    var landed := Land(s.cache, key, s.cache.flights[key].specHash, handle, until);
    LandListed(s.cache, key, s.cache.flights[key].specHash, handle, until);
    var t := Apply(s, Succeed(key, handle, until), cap);
    EnforceKeeps(landed, s.now, cap);
    forall k | k in t.promised ensures Remembered(t.cache, k, t.promised[k], s.now) {
      if k != key { assert Remembered(s.cache, k, s.promised[k], s.now); }
      assert Remembered(landed, k, t.promised[k], s.now);
    }
  }

  lemma StepKeeps(s: State, op: Op, cap: nat)
    requires Inv(s, cap) && Enabled(s, op)
    ensures Inv(Apply(s, op, cap), cap)
  {
    var t := Apply(s, op, cap);
    match op
    case Tick(now) =>
      forall k | k in t.promised ensures Remembered(t.cache, k, t.promised[k], t.now) {
        assert Remembered(s.cache, k, s.promised[k], s.now);
      }
    case Request(key, specHash) =>
      if !Joins(s.cache, key, s.now) { BeginKeeps(s, key, specHash, cap); }
    case Succeed(key, handle, until) => FinishKeeps(s, key, handle, until, cap);
    case Abort(key) =>
      assert CompletedKeys(t.cache) == CompletedKeys(s.cache);
      assert forall k | IsCompleted(t.cache, k) :: IsCompleted(s.cache, k);
      forall k | k in t.promised ensures Remembered(t.cache, k, t.promised[k], t.now) {
        assert Remembered(s.cache, k, s.promised[k], s.now);
      }
    case Deleted(provider, id) =>
      assert forall k | IsCompleted(t.cache, k) :: IsCompleted(s.cache, k);
      SubsetIsSmaller(CompletedKeys(t.cache), CompletedKeys(s.cache));
      forall k | k in t.promised ensures Remembered(t.cache, k, t.promised[k], t.now) {
        assert Remembered(s.cache, k, s.promised[k], s.now);
      }
  }

  ghost predicate IsRun(run: seq<State>, ops: seq<Op>, cap: nat) {
    && |run| == |ops| + 1
    && run[0].cache == Cache(map[], [], run[0].cache.evictedUntil) && run[0].promised == map[]
    && forall k | 0 <= k < |ops| :: Enabled(run[k], ops[k]) && run[k + 1] == Apply(run[k], ops[k], cap)
  }

  /** In every state of every run, every completed flight is listed, no more are cached than the
      cap allows, and every claim that completed, has not expired and was not deleted is still
      cached or covered by `evictedUntil`. */
  lemma {:induction false} InvInEveryRun(run: seq<State>, ops: seq<Op>, cap: nat, n: nat)
    requires IsRun(run, ops, cap) && n < |run|
    ensures Inv(run[n], cap)
  {
    if n == 0 {
      assert CompletedKeys(run[0].cache) == {};
    } else {
      InvInEveryRun(run, ops, cap, n - 1);
      StepKeeps(run[n - 1], ops[n - 1], cap);
    }
  }

  // ----- a completed claim is replayed -----------------------------------------------------------------

  /** A claim is replayed for its lifetime, but never past its sandbox's expiry, if that is still to come. */
  lemma ReplayEnds(now: int, ttl: int, expiresAt: Option<int>, t: int)
    requires t > now
    ensures t < ReplayUntil(now, ttl, expiresAt) <==>
      t < now + ttl && (expiresAt.Some? && now < expiresAt.value ==> t < expiresAt.value)
  {
  }

  /** A flight is joined while it runs, and then until its replay ends. */
  lemma JoinedUntilItEnds(c: Cache, key: string, now: int)
    ensures Joins(c, key, now) <==>
      key in c.flights && (c.flights[key].Running? || now < c.flights[key].until)
  {
  }

  /** The key's sandbox is cached as it landed, or was evicted early and is looked up instead. */
  ghost predicate Replays(c: Cache, key: string, landed: Flight)
    requires landed.Completed?
  {
    (key in c.flights && c.flights[key] == landed) || landed.until <= c.evictedUntil
  }

  lemma EnforceReplays(c: Cache, now: int, cap: nat, key: string, landed: Flight)
    requires landed.Completed? && Replays(c, key, landed) && now < landed.until
    ensures Replays(Enforce(c, now, cap), key, landed)
  {
    DropFrontKeeps(c, now);
    EvictOldestKeeps(DropFront(c, now), now, cap);
  }

  lemma StepReplays(s: State, op: Op, cap: nat, key: string, landed: Flight)
    requires Enabled(s, op) && landed.Completed? && Replays(s.cache, key, landed) && s.now < landed.until
    requires !(op.Deleted? && Names(landed, op.provider, op.id))
    ensures Replays(Apply(s, op, cap).cache, key, landed) && s.now <= Apply(s, op, cap).now
  {
    match op
    case Request(k, specHash) => if !Joins(s.cache, k, s.now) { BeginKeepsOthers(s.cache, k, s.now, specHash); }
    case Succeed(k, handle, until) =>
      var c := Land(s.cache, k, s.cache.flights[k].specHash, handle, until);
      EnforceReplays(c, s.now, cap, key, landed);
    case _ =>
  }

  /** A step keeps the clock going, and a landed claim replayed that it does not delete. */
  ghost predicate StillReplays(s: State, op: Op, t: State, key: string, landed: Flight)
    requires landed.Completed?
  {
    && s.now <= t.now
    && (s.now < landed.until && Replays(s.cache, key, landed) && !(op.Deleted? && Names(landed, op.provider, op.id)) ==>
          Replays(t.cache, key, landed))
  }

  lemma EachStepReplays(run: seq<State>, ops: seq<Op>, cap: nat, key: string, landed: Flight)
    requires IsRun(run, ops, cap) && landed.Completed?
    ensures forall m | 0 <= m < |ops| :: StillReplays(run[m], ops[m], run[m + 1], key, landed)
  {
    forall m | 0 <= m < |ops| ensures StillReplays(run[m], ops[m], run[m + 1], key, landed) {
      var s, op := run[m], ops[m];
      assert Enabled(s, op) && run[m + 1] == Apply(s, op, cap);
      if s.now < landed.until && Replays(s.cache, key, landed) && !(op.Deleted? && Names(landed, op.provider, op.id)) {
        StepReplays(s, op, cap, key, landed);
      }
    }
  }

  lemma {:induction false} StaysReplayed(run: seq<State>, ops: seq<Op>, k: nat, n: nat, key: string, landed: Flight)
    requires |run| == |ops| + 1 && k < n < |run| && landed.Completed? && Replays(run[k + 1].cache, key, landed)
    requires forall m | 0 <= m < |ops| :: StillReplays(run[m], ops[m], run[m + 1], key, landed)
    requires run[n].now < landed.until
    requires forall m | k < m < n :: !(ops[m].Deleted? && Names(landed, ops[m].provider, ops[m].id))
    ensures Replays(run[n].cache, key, landed)
    decreases n
  {
    if k + 1 < n {
      assert StillReplays(run[n - 1], ops[n - 1], run[n], key, landed);
      StaysReplayed(run, ops, k, n - 1, key, landed);
    }
  }

  lemma {:induction false} ClockGoesOn(run: seq<State>, ops: seq<Op>, k: nat, n: nat, key: string, landed: Flight)
    requires |run| == |ops| + 1 && k <= n < |run| && landed.Completed?
    requires forall m | 0 <= m < |ops| :: StillReplays(run[m], ops[m], run[m + 1], key, landed)
    ensures run[k].now <= run[n].now
    decreases n
  {
    if k < n {
      assert StillReplays(run[n - 1], ops[n - 1], run[n], key, landed);
      ClockGoesOn(run, ops, k, n - 1, key, landed);
    }
  }

  lemma LandedReplays(s: State, op: Op, cap: nat, landed: Flight)
    requires Enabled(s, op) && op.Succeed?
    requires landed == Completed(s.cache.flights[op.key].specHash, op.handle, op.until) && s.now < landed.until
    ensures Replays(Apply(s, op, cap).cache, op.key, landed)
  {
    EnforceReplays(Land(s.cache, op.key, landed.specHash, landed.handle, landed.until), s.now, cap, op.key, landed);
  }

  /** Until its replay ends, a claim that succeeded is answered with its own sandbox, unless that was deleted,
      or evicted early and so looked up. */
  lemma ReplayedUntilItEnds(run: seq<State>, ops: seq<Op>, cap: nat, k: nat, n: nat, landed: Flight)
    requires IsRun(run, ops, cap) && k < n < |run| && ops[k].Succeed?
    requires landed == Completed(run[k].cache.flights[ops[k].key].specHash, ops[k].handle, ops[k].until)
    requires run[n].now < landed.until
    requires forall m | k < m < n :: !(ops[m].Deleted? && Names(landed, ops[m].provider, ops[m].id))
    ensures Replays(run[n].cache, ops[k].key, landed)
  {
    EachStepReplays(run, ops, cap, ops[k].key, landed);
    ClockGoesOn(run, ops, k, n, ops[k].key, landed);
    LandedReplays(run[k], ops[k], cap, landed);
    StaysReplayed(run, ops, k, n, ops[k].key, landed);
  }

  // ----- eviction takes no more than it must -------------------------------------------------------------

  /** What a flight's name in the first `n` places of the listing makes of it. */
  predicate Passed(c: Cache, key: string, n: nat)
    requires n <= |c.order|
  {
    key in c.order[..n] && IsCompleted(c, key)
  }

  /** Eviction works off the listing from the front: it forgets just the completed flights named in what it
      works off, leaves the cache full if it forgets any, and the mark is either as it was or the expiry of
      one of those that had yet to expire. */
  ghost predicate WorksOff(c: Cache, d: Cache, now: int, cap: nat, n: nat) {
    && n <= |c.order| && d.order == c.order[n..] && Forgets(c, d, n)
    && (d.flights.Keys != c.flights.Keys ==> |d.flights| >= cap)
    && (d.evictedUntil != c.evictedUntil ==> exists k :: Marks(c, k, n, now, d.evictedUntil))
  }

  ghost predicate Forgets(c: Cache, d: Cache, n: nat)
    requires n <= |c.order|
  {
    forall k :: k in d.flights <==> k in c.flights && !Passed(c, k, n)
  }

  predicate Marks(c: Cache, key: string, n: nat, now: int, mark: int)
    requires n <= |c.order|
  {
    Passed(c, key, n) && now < c.flights[key].until == mark
  }

  lemma PassedNext(c: Cache, d: Cache, key: string, n: nat)
    requires c.order != [] && d.order == c.order[1..] && n < |c.order|
    requires d.flights == c.flights - (if IsCompleted(c, c.order[0]) then {c.order[0]} else {})
    ensures Passed(c, key, n + 1) <==> (key == c.order[0] && IsCompleted(c, key)) || Passed(d, key, n)
  {
    assert c.order[..n + 1] == [c.order[0]] + d.order[..n];
  }

  /** Passing over the front entry, and forgetting the flight it names if that is completed. */
  ghost predicate PassesOver(c: Cache, rest: Cache, now: int) {
    && c.order != [] && rest.order == c.order[1..]
    && rest.flights == c.flights - (if IsCompleted(c, c.order[0]) then {c.order[0]} else {})
    && (rest.evictedUntil != c.evictedUntil ==>
          IsCompleted(c, c.order[0]) && now < c.flights[c.order[0]].until == rest.evictedUntil)
  }

  lemma OneMoreForgotten(c: Cache, rest: Cache, d: Cache, now: int, n: nat, m: nat)
    requires PassesOver(c, rest, now) && n < |c.order| && m == n + 1 && Forgets(rest, d, n)
    ensures Forgets(c, d, m)
  {
    forall k ensures Passed(c, k, m) <==> (k == c.order[0] && IsCompleted(c, k)) || Passed(rest, k, n) {
      PassedNext(c, rest, k, n);
    }
  }

  lemma OneMoreMarked(c: Cache, rest: Cache, d: Cache, now: int, n: nat, m: nat)
    requires PassesOver(c, rest, now) && n < |c.order| && m == n + 1 && d.evictedUntil != c.evictedUntil
    requires d.evictedUntil != rest.evictedUntil ==> exists k :: Marks(rest, k, n, now, d.evictedUntil)
    ensures exists k :: Marks(c, k, m, now, d.evictedUntil)
  {
    if d.evictedUntil != rest.evictedUntil {
      var k :| Marks(rest, k, n, now, d.evictedUntil);
      PassedNext(c, rest, k, n);
      assert Marks(c, k, m, now, d.evictedUntil);
    } else {
      PassedNext(c, rest, c.order[0], n);
      assert Marks(c, c.order[0], m, now, d.evictedUntil);
    }
  }

  lemma OneMoreWorkedOff(c: Cache, rest: Cache, d: Cache, now: int, cap: nat, n: nat)
    requires PassesOver(c, rest, now) && WorksOff(rest, d, now, cap, n) && |c.flights| > cap
    ensures WorksOff(c, d, now, cap, n + 1)
  {
    OneMoreForgotten(c, rest, d, now, n, n + 1);
    if d.evictedUntil != c.evictedUntil { OneMoreMarked(c, rest, d, now, n, n + 1); }
    if d.flights.Keys == rest.flights.Keys { SameSize(d, rest); }
  }

  lemma SameSize(c: Cache, d: Cache)
    requires c.flights.Keys == d.flights.Keys
    ensures |c.flights| == |d.flights|
  {
    assert |c.flights.Keys| == |c.flights| && |d.flights.Keys| == |d.flights|;
  }

  lemma EvictsOne(c: Cache, now: int, cap: nat) returns (rest: Cache)
    requires |c.flights| > cap && c.order != []
    ensures PassesOver(c, rest, now) && EvictOldest(c, now, cap) == EvictOldest(rest, now, cap)
  {
    rest := c.(order := c.order[1..]);
    if IsCompleted(c, c.order[0]) {
      var until := c.flights[c.order[0]].until;
      rest := rest.(flights := c.flights - {c.order[0]},
                    evictedUntil := if now < until && until > c.evictedUntil then until else c.evictedUntil);
    }
  }

  lemma {:induction false} EvictsOldestFirst(c: Cache, now: int, cap: nat) returns (n: nat)
    ensures WorksOff(c, EvictOldest(c, now, cap), now, cap, n)
    decreases |c.order|
  {
    if |c.flights| <= cap || c.order == [] {
      n := 0;
    } else {
      var rest := EvictsOne(c, now, cap);
      n := EvictsOldestFirst(rest, now, cap);
      OneMoreWorkedOff(c, rest, EvictOldest(c, now, cap), now, cap, n);
      n := n + 1;
    }
  }

  /** A cache that fits loses nothing to eviction but what has expired. */
  lemma EvictsOnlyWhenFull(c: Cache, now: int, cap: nat)
    requires |c.flights| <= cap
    ensures
      var d := Enforce(c, now, cap);
      && d.evictedUntil == c.evictedUntil
      && forall k | k in c.flights && !Expired(c.flights[k], now) :: k in d.flights && d.flights[k] == c.flights[k]
  {
    DropFrontKeeps(c, now);
    SubsetIsSmaller(DropFront(c, now).flights.Keys, c.flights.Keys);
  }

  // ----- the cache object -----------------------------------------------------------------------------

  class Flights {
    var flights: map<string, Flight>
    var completedOrder: seq<string>
    var evictedUnexpiredUntil: int
    const maxCompletedKeys: nat

    constructor (maxCompletedKeys: nat)
      ensures Model() == Cache(map[], [], 0)
      ensures this.maxCompletedKeys == maxCompletedKeys
    {
      flights, completedOrder, evictedUnexpiredUntil := map[], [], 0;
      this.maxCompletedKeys := maxCompletedKeys;
    }

    function Model(): Cache
      reads this
    {
      Cache(flights, completedOrder, evictedUnexpiredUntil)
    }

    /** The locked section at the start of a claim: joins the key's flight, or starts one. */
    method Enter(key: string, now: int, specHash: string) returns (joined: Option<Flight>)
      modifies this`flights
      ensures joined == if old(Joins(Model(), key, now)) then Some(old(flights)[key]) else None
      ensures Model() == if joined.Some? then old(Model()) else Begin(old(Model()), key, now, specHash)
    {
      if key in flights {
        if !Expired(flights[key], now) { return Some(flights[key]); }
        flights := flights - {key};
      }
      assert flights == old(flights) - {key};
      if |flights| >= SWEEP_AT { Sweep(now); }
      flights := flights[key := Running(specHash)];
      return None;
    }

    /** Deletes every expired flight, visiting the keys in any order. */
    method Sweep(now: int)
      modifies this`flights
      ensures flights == Unexpired(old(flights), now)
    {
      var before := flights;
      var rest := flights.Keys;
      while rest != {}
        invariant rest <= before.Keys
        invariant flights == map k | k in before && (k in rest || !Expired(before[k], now)) :: before[k]
        decreases |rest|
      {
        var k :| k in rest;
        if Expired(flights[k], now) { flights := flights - {k}; }
        rest := rest - {k};
      }
    }

    /** The locked section at the end of a claim that produced a sandbox. */
    method Complete(key: string, specHash: string, handle: Handle, ttl: int, now: int)
      modifies this
      ensures Model() == Finish(old(Model()), key, specHash, handle, ReplayUntil(now, ttl, handle.expiresAt), now,
                                maxCompletedKeys)
    {
      var until := now + ttl;
      if handle.expiresAt.Some? && handle.expiresAt.value > now && handle.expiresAt.value < until {
        until := handle.expiresAt.value;
      }
      flights := flights[key := Completed(specHash, handle, until)];
      completedOrder := completedOrder + [key];
      EnforceCap(now);
    }

    method EnforceCap(now: int)
      modifies this
      ensures Model() == Enforce(old(Model()), now, maxCompletedKeys)
    {
      while |completedOrder| > 0
        invariant DropFront(Model(), now) == DropFront(old(Model()), now)
        decreases |completedOrder|
      {
        var front := completedOrder[0];
        if front !in flights || flights[front].Running? {
          completedOrder := completedOrder[1..];
          continue;
        }
        if now >= flights[front].until {
          flights := flights - {front};
          completedOrder := completedOrder[1..];
          continue;
        }
        break;
      }
      assert Model() == DropFront(old(Model()), now);
      while |flights| > maxCompletedKeys && |completedOrder| > 0
        invariant EvictOldest(Model(), now, maxCompletedKeys) == Enforce(old(Model()), now, maxCompletedKeys)
        decreases |completedOrder|
      {
        var oldest := completedOrder[0];
        completedOrder := completedOrder[1..];
        if oldest !in flights || flights[oldest].Running? { continue; }
        var until := flights[oldest].until;
        flights := flights - {oldest};
        if now < until && until > evictedUnexpiredUntil { evictedUnexpiredUntil := until; }
      }
    }

    /** The locked section at the end of a claim that failed. */
    method Abandon(key: string)
      modifies this`flights
      ensures Model() == Fail(old(Model()), key)
    {
      flights := flights - {key};
    }

    method EvictHandle(provider: string, id: string)
      modifies this`flights
      ensures Model() == Evict(old(Model()), provider, id)
    {
      var before := flights;
      var rest := flights.Keys;
      while rest != {}
        invariant rest <= before.Keys
        invariant flights == map k | k in before && (k in rest || !Names(before[k], provider, id)) :: before[k]
        decreases |rest|
      {
        var k :| k in rest;
        if Names(flights[k], provider, id) { flights := flights - {k}; }
        rest := rest - {k};
      }
    }
  }
}
