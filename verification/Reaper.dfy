/** The reaper: pages through what it owns, then deletes what has expired, a bounded number a pass. */
module Reaping {
  import opened Text
  import opened FakeProviders

  predicate Expired(s: Owned, now: int) {
    s.handle.expiresAt.Some? && now > s.handle.expiresAt.value
  }

  /** The keys, in order, whose sandboxes have expired. */
  function ExpiredKeys(keys: seq<string>, records: map<string, Record>, now: int): seq<string>
    requires forall i | 0 <= i < |keys| :: keys[i] in records
  {
    if keys == [] then []
    else
      var last := keys[|keys| - 1];
      ExpiredKeys(keys[..|keys| - 1], records, now) + if Expired(records[last].sandbox, now) then [last] else []
  }

  function ExpiredSet(records: map<string, Record>, owner: string, now: int): set<string> {
    set k | k in OwnedKeys(records, owner) && Expired(records[k].sandbox, now)
  }

  function Capped(keys: seq<string>, cap: nat): seq<string> {
    if |keys| <= cap then keys else keys[..cap]
  }

  lemma {:induction false} ExpiredKeysAre(keys: seq<string>, records: map<string, Record>, now: int)
    requires Ascending(keys) && forall i | 0 <= i < |keys| :: keys[i] in records
    ensures
      var es := ExpiredKeys(keys, records, now);
      Ascending(es) && forall k :: k in es <==> k in keys && Expired(records[k].sandbox, now)
  {
    if keys != [] {
      var front, last := keys[..|keys| - 1], keys[|keys| - 1];
      ExpiredKeysAre(front, records, now);
      assert keys == front + [last];
      var es := ExpiredKeys(front, records, now);
      forall i | 0 <= i < |es| ensures Less(es[i], last) {
        assert es[i] in front;
        var j :| 0 <= j < |front| && front[j] == es[i];
        assert keys[j] == es[i];
      }
    }
  }

  /** What more keys add comes after. */
  lemma {:induction false} MoreKeysAddAfter(keys: seq<string>, n: nat, m: nat, records: map<string, Record>, now: int)
    requires n <= m <= |keys| && forall i | 0 <= i < |keys| :: keys[i] in records
    ensures ExpiredKeys(keys[..n], records, now) <= ExpiredKeys(keys[..m], records, now)
    decreases m
  {
    if n < m {
      MoreKeysAddAfter(keys, n, m - 1, records, now);
      assert keys[..m][..m - 1] == keys[..m - 1];
    }
  }

  lemma ExpiredStep(keys: seq<string>, n: nat, records: map<string, Record>, now: int)
    requires n < |keys| && forall i | 0 <= i < |keys| :: keys[i] in records
    ensures ExpiredKeys(keys[..n + 1], records, now) ==
      ExpiredKeys(keys[..n], records, now) + if Expired(records[keys[n]].sandbox, now) then [keys[n]] else []
  {
    assert keys[..n + 1][..n] == keys[..n];
  }

  // ----- one pass -----------------------------------------------------------------------------------

  /** How many of `n` sandboxes fit in the pages one pass reads. */
  function Reach(n: nat, maxPages: nat, pageSize: nat): nat {
    if n <= maxPages * pageSize then n else maxPages * pageSize
  }

  /** What has been collected after the first `read` keys: the expired ones up to the cap, and
      whether there was one too many. */
  ghost predicate Collected(keys: seq<string>, read: nat, records: map<string, Record>, now: int, cap: nat,
                            expired: seq<Owned>, breaker: bool)
    requires read <= |keys| && forall i | 0 <= i < |keys| :: keys[i] in records
  {
    var es := ExpiredKeys(keys[..read], records, now);
    && Listed(Capped(es, cap), records, expired)
    && (breaker <==> |es| > cap)
  }

  ghost predicate Listed(keys: seq<string>, records: map<string, Record>, sandboxes: seq<Owned>) {
    && |sandboxes| == |keys|
    && forall i | 0 <= i < |keys| :: keys[i] in records && sandboxes[i] == records[keys[i]].sandbox
  }

  lemma CollectOne(keys: seq<string>, read: nat, records: map<string, Record>, now: int, cap: nat, expired: seq<Owned>)
    requires read < |keys| && forall i | 0 <= i < |keys| :: keys[i] in records
    requires Collected(keys, read, records, now, cap, expired, false)
    ensures
      var s := records[keys[read]].sandbox;
      if !Expired(s, now) then Collected(keys, read + 1, records, now, cap, expired, false)
      else if |expired| >= cap then Collected(keys, read + 1, records, now, cap, expired, true)
      else Collected(keys, read + 1, records, now, cap, expired + [s], false)
  {
    ExpiredStep(keys, read, records, now);
    var es, es' := ExpiredKeys(keys[..read], records, now), ExpiredKeys(keys[..read + 1], records, now);
    if |es| == cap && Expired(records[keys[read]].sandbox, now) { assert es'[..cap] == es; }
  }

  /** Once there is one too many, what comes later makes no difference. */
  lemma TrippedStays(keys: seq<string>, read: nat, more: nat, records: map<string, Record>, now: int, cap: nat,
                     expired: seq<Owned>)
    requires read <= more <= |keys| && forall i | 0 <= i < |keys| :: keys[i] in records
    requires Collected(keys, read, records, now, cap, expired, true)
    ensures Collected(keys, more, records, now, cap, expired, true)
  {
    MoreKeysAddAfter(keys, read, more, records, now);
    var es, es' := ExpiredKeys(keys[..read], records, now), ExpiredKeys(keys[..more], records, now);
    assert es'[..cap] == es[..cap];
  }

  /** Takes the expired sandboxes of one page, up to the cap. */
  method TakeExpired(page: seq<Owned>, now: int, cap: nat, soFar: seq<Owned>, ghost keys: seq<string>, ghost start: nat,
                     ghost records: map<string, Record>)
    returns (expired: seq<Owned>, breaker: bool, ghost read: nat)
    requires start + |page| <= |keys| && forall i | 0 <= i < |keys| :: keys[i] in records
    requires page == Sandboxes(records, keys)[start..start + |page|]
    requires Collected(keys, start, records, now, cap, soFar, false)
    ensures start <= read <= start + |page| && (!breaker ==> read == start + |page|)
    ensures Collected(keys, read, records, now, cap, expired, breaker)
  {
    expired, breaker, read := soFar, false, start;
    for i := 0 to |page|
      invariant read == start + i && Collected(keys, read, records, now, cap, expired, false)
    {
      assert page[i] == records[keys[read]].sandbox;
      CollectOne(keys, read, records, now, cap, expired);
      read := read + 1;
      if !Expired(page[i], now) { continue; }
      if |expired| >= cap { return expired, true, read; }
      expired := expired + [page[i]];
    }
  }

  ghost predicate OwnedInOrder(keys: seq<string>, records: map<string, Record>, owner: string) {
    && SortedKeys(keys, OwnedKeys(records, owner)) && |keys| == |OwnedKeys(records, owner)|
    && forall i | 0 <= i < |keys| :: keys[i] in records
  }

  /** Reads page number `page`, which starts at offset `token`. */
  method ReadPage(fake: Fake, owner: string, token: nat, now: int, cap: nat, soFar: seq<Owned>, ghost keys: seq<string>,
                  ghost page: nat, ghost maxPages: nat, pageSize: nat)
    returns (expired: seq<Owned>, breaker: bool, next: nat)
    requires pageSize > 0 && page < maxPages && token == page * pageSize <= |keys|
    requires OwnedInOrder(keys, fake.records, owner)
    requires Collected(keys, token, fake.records, now, cap, soFar, false)
    ensures
      if breaker || next == 0 then
        Collected(keys, Reach(|keys|, maxPages, pageSize), fake.records, now, cap, expired, breaker)
      else
        && token < next == (page + 1) * pageSize <= |keys|
        && (page + 1 == maxPages ==> next == Reach(|keys|, maxPages, pageSize))
        && Collected(keys, next, fake.records, now, cap, expired, false)
  {
    var sandboxes;
    ghost var same, read;
    sandboxes, next, same := fake.ListOwned(owner, token, pageSize);
    SortedKeysUnique(same, keys, OwnedKeys(fake.records, owner));
    PagesReach(|keys|, token, page + 1, maxPages, pageSize);
    expired, breaker, read := TakeExpired(sandboxes, now, cap, soFar, keys, token, fake.records);
    if breaker { TrippedStays(keys, read, Reach(|keys|, maxPages, pageSize), fake.records, now, cap, expired); }
  }

  /** Pages through the owner's sandboxes before anything is deleted, so that no page shifts. */
  method Collect(fake: Fake, owner: string, now: int, cap: nat, maxPages: nat, pageSize: nat)
    returns (expired: seq<Owned>, breaker: bool, ghost keys: seq<string>)
    requires pageSize > 0
    ensures OwnedInOrder(keys, fake.records, owner)
    ensures Collected(keys, Reach(|keys|, maxPages, pageSize), fake.records, now, cap, expired, breaker)
  {
    keys := SortedKeysExist(OwnedKeys(fake.records, owner));
    assert forall i | 0 <= i < |keys| :: keys[i] in keys;
    expired, breaker := [], false;
    var token, page := 0, 0;
    while page < maxPages
      invariant page <= maxPages && token == page * pageSize <= |keys| && !breaker
      invariant page == maxPages ==> token == Reach(|keys|, maxPages, pageSize)
      invariant Collected(keys, token, fake.records, now, cap, expired, false)
    {
      var next;
      expired, breaker, next := ReadPage(fake, owner, token, now, cap, expired, keys, page, maxPages, pageSize);
      if breaker || next == 0 || next == token { return; }
      token := next;
      page := page + 1;
    }
  }

  /** A page that is not the last one read ends at the next multiple of the page size. */
  lemma PagesReach(n: nat, before: nat, page: nat, maxPages: nat, pageSize: nat)
    requires pageSize > 0 && 0 < page <= maxPages && before == (page - 1) * pageSize
    ensures before + pageSize == page * pageSize <= maxPages * pageSize
    ensures n <= before + pageSize ==> Reach(n, maxPages, pageSize) == n
    ensures n > before + pageSize ==> Reach(n, maxPages, pageSize) >= before + pageSize
    ensures page == maxPages && n > before + pageSize ==> Reach(n, maxPages, pageSize) == before + pageSize
  {
    assert page * pageSize == before + pageSize;
    if page < maxPages { assert maxPages * pageSize == page * pageSize + (maxPages - page) * pageSize; }
  }

  // ----- what a pass deletes ---------------------------------------------------------------------------

  function Firsts(keys: seq<string>, n: nat): set<string>
    requires n <= |keys|
  {
    set i | 0 <= i < n :: keys[i]
  }

  /** Deletes sandboxes one by one, each at the version it was listed with; `go` says whether the
      rate limit and the deadline let the next one through. */
  method ReleaseEach(fake: Fake, sandboxes: seq<Owned>, dryRun: bool, go: nat -> bool, ghost victims: seq<string>)
    returns (done: nat)
    requires fake.Valid() && Listed(victims, fake.records, sandboxes) && Ascending(victims)
    modifies fake`records, fake`byID
    ensures fake.Valid() && done <= |victims| && (done == |victims| || !go(done))
    ensures forall k: nat | k < done :: go(k)
    ensures fake.records == if dryRun then old(fake.records) else old(fake.records) - Firsts(victims, done)
  {
    done := 0;
    while done < |sandboxes|
      invariant done <= |sandboxes| && fake.Valid() && forall k: nat | k < done :: go(k)
      invariant fake.records == if dryRun then old(fake.records) else old(fake.records) - Firsts(victims, done)
      decreases |sandboxes| - done
    {
      if !go(done) { return; }
      if !dryRun {
        FirstsGrow(victims, done);
        assert victims[done] in fake.records && fake.records[victims[done]].sandbox == sandboxes[done];
        var err := fake.Release(sandboxes[done].handle.id, sandboxes[done].version);
        assert err == None;
      }
      done := done + 1;
    }
  }

  lemma FirstsGrow(keys: seq<string>, n: nat)
    requires Ascending(keys) && n < |keys|
    ensures keys[n] !in Firsts(keys, n) && Firsts(keys, n + 1) == Firsts(keys, n) + {keys[n]}
  {
    LessIrreflexive(keys[n]);
  }

  /** The keys one pass may delete: the first expired ones of those it reads, up to the cap. */
  function Victims(keys: seq<string>, records: map<string, Record>, now: int, cap: nat, maxPages: nat, pageSize: nat)
    : seq<string>
    requires forall i | 0 <= i < |keys| :: keys[i] in records
  {
    Capped(ExpiredKeys(keys[..Reach(|keys|, maxPages, pageSize)], records, now), cap)
  }

  /** Every victim has expired, before now; and when the cap is not reached, everything in reach that has
      expired is a victim. */
  lemma VictimsHaveExpired(keys: seq<string>, records: map<string, Record>, now: int, cap: nat, maxPages: nat,
                           pageSize: nat, key: string)
    requires Ascending(keys) && forall i | 0 <= i < |keys| :: keys[i] in records
    requires key in keys[..Reach(|keys|, maxPages, pageSize)]
    ensures key in records
    ensures
      var victims, e := Victims(keys, records, now, cap, maxPages, pageSize), records[key].sandbox.handle.expiresAt;
      && |victims| <= cap
      && (key in victims ==> e.Some? && e.value < now)
      && (e.Some? && e.value < now && |victims| < cap ==> key in victims)
  {
    var front := keys[..Reach(|keys|, maxPages, pageSize)];
    ExpiredKeysAre(front, records, now);
    var es := ExpiredKeys(front, records, now);
    assert key in Capped(es, cap) ==> key in es;
  }

  lemma VictimsAscend(keys: seq<string>, records: map<string, Record>, now: int, cap: nat, maxPages: nat, pageSize: nat)
    requires Ascending(keys) && forall i | 0 <= i < |keys| :: keys[i] in records
    ensures Ascending(Victims(keys, records, now, cap, maxPages, pageSize))
  {
    ExpiredKeysAre(keys[..Reach(|keys|, maxPages, pageSize)], records, now);
  }

  /** One pass over a provider. It deletes nothing but expired sandboxes of this owner, the first
      ones in order, and never more than the cap. */
  method ReapProvider(fake: Fake, owner: string, now: int, cap: nat, maxPages: nat, pageSize: nat, dryRun: bool,
                      go: nat -> bool)
    returns (breaker: bool, done: nat, ghost keys: seq<string>)
    requires fake.Valid() && pageSize > 0
    modifies fake`records, fake`byID
    ensures fake.Valid() && OwnedInOrder(keys, old(fake.records), owner)
    ensures
      var victims := Victims(keys, old(fake.records), now, cap, maxPages, pageSize);
      && done <= |victims| && (done == |victims| || !go(done)) && (forall k: nat | k < done :: go(k))
      && fake.records == if dryRun then old(fake.records) else old(fake.records) - Firsts(victims, done)
    ensures breaker <==> |ExpiredKeys(keys[..Reach(|keys|, maxPages, pageSize)], old(fake.records), now)| > cap
  {
    var expired;
    expired, breaker, keys := Collect(fake, owner, now, cap, maxPages, pageSize);
    ghost var victims := Victims(keys, fake.records, now, cap, maxPages, pageSize);
    VictimsAscend(keys, fake.records, now, cap, maxPages, pageSize);
    done := ReleaseEach(fake, expired, dryRun, go, victims);
  }

  // ----- pass after pass ----------------------------------------------------------------------------------

  function Least(a: nat, b: nat): nat {
    if a < b then a else b
  }

  /** A pass deletes as many expired sandboxes as the cap allows, and nothing else. */
  ghost predicate OnePass(before: map<string, Record>, after: map<string, Record>, owner: string, now: int, cap: nat) {
    exists gone: set<string> :: PassDeletes(before, after, owner, now, cap, gone)
  }

  ghost predicate PassDeletes(before: map<string, Record>, after: map<string, Record>, owner: string, now: int,
                              cap: nat, gone: set<string>) {
    && gone <= ExpiredSet(before, owner, now)
    && |gone| == Least(cap, |ExpiredSet(before, owner, now)|)
    && after == before - gone
  }

  lemma {:induction false} SizeOfFirsts(keys: seq<string>, n: nat)
    requires Ascending(keys) && n <= |keys|
    ensures |Firsts(keys, n)| == n
  {
    if n > 0 {
      SizeOfFirsts(keys, n - 1);
      FirstsGrow(keys, n - 1);
    }
  }

  lemma AllExpiredKeys(keys: seq<string>, records: map<string, Record>, owner: string, now: int)
    requires OwnedInOrder(keys, records, owner)
    ensures
      var es := ExpiredKeys(keys, records, now);
      Ascending(es) && Firsts(es, |es|) == ExpiredSet(records, owner, now) && |es| == |ExpiredSet(records, owner, now)|
  {
    var es := ExpiredKeys(keys, records, now);
    ExpiredKeysAre(keys, records, now);
    SizeOfFirsts(es, |es|);
    assert forall k :: k in es <==> k in ExpiredSet(records, owner, now);
    assert forall k | k in es :: k in Firsts(es, |es|);
  }

  /** When everything owned fits in the pages of a pass and no deletion is held back, the pass
      deletes exactly the first min(cap, n) of the n expired sandboxes, and its breaker trips
      exactly when there are more than the cap. */
  lemma FullPass(keys: seq<string>, before: map<string, Record>, after: map<string, Record>, owner: string, now: int,
                 cap: nat, maxPages: nat, pageSize: nat)
    requires OwnedInOrder(keys, before, owner) && |keys| <= maxPages * pageSize
    requires
      var victims := Victims(keys, before, now, cap, maxPages, pageSize);
      after == before - Firsts(victims, |victims|)
    ensures OnePass(before, after, owner, now, cap)
    ensures |ExpiredKeys(keys[..Reach(|keys|, maxPages, pageSize)], before, now)| == |ExpiredSet(before, owner, now)|
  {
    assert keys[..Reach(|keys|, maxPages, pageSize)] == keys;
    AllExpiredKeys(keys, before, owner, now);
    var es := ExpiredKeys(keys, before, now);
    var victims := Capped(es, cap);
    SizeOfFirsts(victims, |victims|);
    assert forall k | k in Firsts(victims, |victims|) :: k in Firsts(es, |es|);
    assert PassDeletes(before, after, owner, now, cap, Firsts(victims, |victims|));
  }

  lemma PassLeaves(before: map<string, Record>, after: map<string, Record>, owner: string, now: int, cap: nat)
    requires OnePass(before, after, owner, now, cap)
    ensures |ExpiredSet(after, owner, now)|
         == |ExpiredSet(before, owner, now)| - Least(cap, |ExpiredSet(before, owner, now)|)
    ensures forall k | k in before && k !in ExpiredSet(before, owner, now) :: k in after && after[k] == before[k]
    ensures forall k | k in after :: k in before && after[k] == before[k]
  {
    var gone :| PassDeletes(before, after, owner, now, cap, gone);
    assert ExpiredSet(after, owner, now) == ExpiredSet(before, owner, now) - gone;
  }

  /** After c passes, n - c * cap expired sandboxes are left, or none; so all n are gone after
      exactly n / cap passes, rounded up, and everything else is as it was. */
  lemma {:induction false} Cycles(run: seq<map<string, Record>>, owner: string, now: int, cap: nat, c: nat)
    requires c < |run| && forall k | 0 <= k < |run| - 1 :: OnePass(run[k], run[k + 1], owner, now, cap)
    ensures
      var n := |ExpiredSet(run[0], owner, now)|;
      |ExpiredSet(run[c], owner, now)| == if n <= c * cap then 0 else n - c * cap
    ensures forall k | k in run[0] && k !in ExpiredSet(run[0], owner, now) :: k in run[c] && run[c][k] == run[0][k]
    ensures forall k | k in run[c] :: k in run[0] && run[c][k] == run[0][k]
  {
    if c > 0 {
      Cycles(run, owner, now, cap, c - 1);
      PassLeaves(run[c - 1], run[c], owner, now, cap);
      assert c * cap == (c - 1) * cap + cap;
    }
  }

  lemma AllGoneAfter(run: seq<map<string, Record>>, owner: string, now: int, cap: nat, c: nat)
    requires cap > 0 && c < |run| && forall k | 0 <= k < |run| - 1 :: OnePass(run[k], run[k + 1], owner, now, cap)
    ensures ExpiredSet(run[c], owner, now) == {} <==> c >= (|ExpiredSet(run[0], owner, now)| + cap - 1) / cap
  {
    var n := |ExpiredSet(run[0], owner, now)|;
    Cycles(run, owner, now, cap, c);
    RoundUp(n, cap, c);
    assert ExpiredSet(run[c], owner, now) == {} <==> |ExpiredSet(run[c], owner, now)| == 0;
  }

  lemma RoundUp(n: nat, cap: nat, c: nat)
    requires cap > 0
    ensures n <= c * cap <==> c >= (n + cap - 1) / cap
  {
    var m := n + cap - 1;
    var q := m / cap;
    Divided(m, cap);
    if c >= q { Scaled(q, c, cap); } else { Scaled(c + 1, q, cap); }
    assert (c + 1) * cap == c * cap + cap;
  }

  lemma Divided(m: nat, cap: nat)
    requires cap > 0
    ensures (m / cap) * cap <= m < (m / cap) * cap + cap
  {
    assert m == (m / cap) * cap + m % cap;
  }

  lemma Scaled(a: nat, b: nat, cap: nat)
    requires a <= b
    ensures a * cap <= b * cap
  {
    assert b * cap == a * cap + (b - a) * cap;
  }
}
