/** Every key, every flight, every provider: the whole claim system over all its runs. */
module ClaimSystem {
  import opened FlightCache
  import opened ClaimProtocol

  /** `flights` are the flights in progress; `live` the providers that hold a sandbox for a key,
      deleting ones aside; `mustRetry` the keys whose last answer was an error; `promised` the
      replay expiry of the last sandbox returned for a key, until the key is claimed anew. */
  datatype System = System(
    now: int,
    cache: Cache,
    flights: map<string, Pc>,
    live: map<string, set<string>>,
    mustRetry: set<string>,
    promised: map<string, int>)

  function Live(s: System, key: string): set<string> {
    if key in s.live then s.live[key] else {}
  }

  datatype Step =
    | Tick(now: int)
    | Gone(key: string, provider: string)                        // deleted, or being deleted
    | Arrive(key: string, retry: bool, specHash: string)
    | Act(key: string, ev: Event, live: set<string>)             // a flight's call, and its effect
    | Finish(key: string, ttl: nat)
    | Forget(provider: string, id: string)                       // a sandbox reported deleted

  /** What the runs assume of the world: sandboxes are gone by the replay expiry of the claim
      that returned them, clients retry after an error until they succeed, providers keep their
      contract, and only a deleted sandbox is reported deleted. */
  ghost predicate Enabled(targets: set<string>, s: System, step: Step) {
    match step
    case Tick(now) =>
      now >= s.now && forall k | k in s.promised && s.promised[k] <= now :: Live(s, k) == {}
    case Gone(_, _) => true
    case Arrive(key, retry, _) => key in s.mustRetry ==> retry
    case Act(key, ev, live) =>
      && key in s.flights && Advance(targets, s.flights[key], ev).Some?
      && Contract(Live(s, key), ev, live)
      && (ev.Decided? && s.now < s.cache.evictedUntil ==> ev.evicted)
    case Finish(key, ttl) => key in s.flights && s.flights[key].Done? && key in s.cache.flights && ttl > 0
    case Forget(provider, id) =>
      forall k | k in s.cache.flights && Names(s.cache.flights[k], provider, id) :: Live(s, k) == {}
  }

  ghost function Apply(targets: set<string>, cap: nat, s: System, step: Step): System
    requires Enabled(targets, s, step)
  {
    match step
    case Tick(now) => s.(now := now)
    case Gone(key, provider) => s.(live := s.live[key := Live(s, key) - {provider}])
    case Arrive(key, retry, specHash) =>
      if Joins(s.cache, key, s.now) then s
      else s.(cache := FlightCache.Begin(s.cache, key, s.now, specHash), flights := s.flights[key := Deciding(retry)])
    case Act(key, ev, live) =>
      s.(flights := s.flights[key := Advance(targets, s.flights[key], ev).value],
         live := s.live[key := live],
         promised := if ev.Decided? then s.promised - {key} else s.promised)
    case Finish(key, ttl) =>
      var won := s.flights[key].won;
      if won.None? then
        s.(flights := s.flights - {key}, cache := Fail(s.cache, key), mustRetry := s.mustRetry + {key})
      else
        var until := ReplayUntil(s.now, ttl, won.value.expiresAt);
        s.(flights := s.flights - {key}, mustRetry := s.mustRetry - {key},
           promised := s.promised[key := until],
           cache := FlightCache.Finish(s.cache, key, s.cache.flights[key].specHash, won.value, until, s.now, cap))
    case Forget(provider, id) => s.(cache := Evict(s.cache, provider, id))
  }

  // ----- the invariant ------------------------------------------------------------------------------

  /** A sandbox of a key with no flight is accounted for: the client will retry, or its claim
      has not expired and is still remembered. */
  ghost predicate Accounted(s: System, key: string) {
    || key in s.mustRetry
    || (key in s.promised && s.now < s.promised[key] && Remembered(s.cache, key, s.promised[key], s.now))
  }

  /** A sandbox of a key whose flight has yet to decide: the flight will probe for it. */
  ghost predicate WillProbe(s: System, key: string, retry: bool) {
    retry || (key in s.promised && s.now < s.promised[key] <= s.cache.evictedUntil)
  }

  ghost predicate KeySafe(s: System, key: string) {
    if key in s.flights then
      && Safe(s.flights[key], Live(s, key))
      && (s.flights[key].Deciding? && Live(s, key) != {} ==> WillProbe(s, key, s.flights[key].retry))
    else
      AtMostOne(Live(s, key)) && (Live(s, key) != {} ==> Accounted(s, key))
  }

  ghost predicate Inv(targets: set<string>, s: System) {
    && Listed(s.cache)
    && (forall k | k in s.flights :: k in s.cache.flights && s.cache.flights[k].Running?)
    && (forall k | k in s.cache.flights && s.cache.flights[k].Running? :: k in s.flights)
    && forall k :: Live(s, k) <= targets && KeySafe(s, k)
  }

  lemma TickKeeps(targets: set<string>, cap: nat, s: System, step: Step)
    requires Inv(targets, s) && Enabled(targets, s, step) && step.Tick?
    ensures Inv(targets, Apply(targets, cap, s, step))
  {
    var t := Apply(targets, cap, s, step);
    forall k ensures Live(t, k) <= targets && KeySafe(t, k) {
      assert KeySafe(s, k) && Live(t, k) == Live(s, k);
    }
  }

  lemma GoneKeeps(targets: set<string>, cap: nat, s: System, step: Step)
    requires Inv(targets, s) && Enabled(targets, s, step) && step.Gone?
    ensures Inv(targets, Apply(targets, cap, s, step))
  {
    var t := Apply(targets, cap, s, step);
    forall k ensures Live(t, k) <= targets && KeySafe(t, k) {
      assert KeySafe(s, k) && Live(s, k) <= targets;
      if k in s.flights { SafeShrinks(s.flights[k], Live(s, k), Live(t, k)); }
    }
  }

  lemma ArriveKeeps(targets: set<string>, cap: nat, s: System, step: Step)
    requires Inv(targets, s) && Enabled(targets, s, step) && step.Arrive?
    ensures Inv(targets, Apply(targets, cap, s, step))
  {
    var t, key := Apply(targets, cap, s, step), step.key;
    if !Joins(s.cache, key, s.now) {
      assert key !in s.flights;
      BeginKeepsOthers(s.cache, key, s.now, step.specHash);
      BeginRemembers(s.cache, key, s.now, step.specHash);
      forall k ensures Live(t, k) <= targets && KeySafe(t, k) {
        assert KeySafe(s, k) && Live(t, k) == Live(s, k) && Live(s, k) <= targets;
      }
    }
  }

  lemma ActKeeps(targets: set<string>, cap: nat, s: System, step: Step)
    requires Inv(targets, s) && Enabled(targets, s, step) && step.Act?
    ensures Inv(targets, Apply(targets, cap, s, step))
  {
    var t, key := Apply(targets, cap, s, step), step.key;
    assert KeySafe(s, key) && Live(s, key) <= targets;
    SafeAdvances(targets, s.flights[key], step.ev, Live(s, key), step.live);
    forall k ensures Live(t, k) <= targets && KeySafe(t, k) {
      assert KeySafe(s, k) && Live(s, k) <= targets;
    }
  }

  lemma FailureKeeps(targets: set<string>, cap: nat, s: System, step: Step)
    requires Inv(targets, s) && Enabled(targets, s, step) && step.Finish? && s.flights[step.key].won.None?
    ensures Inv(targets, Apply(targets, cap, s, step))
  {
    var t := Apply(targets, cap, s, step);
    assert forall k | IsCompleted(t.cache, k) :: IsCompleted(s.cache, k);
    forall k ensures Live(t, k) <= targets && KeySafe(t, k) {
      assert KeySafe(s, k) && Live(s, k) <= targets;
    }
  }

  lemma SuccessKeeps(targets: set<string>, cap: nat, s: System, step: Step)
    requires Inv(targets, s) && Enabled(targets, s, step) && step.Finish? && s.flights[step.key].won.Some?
    ensures Inv(targets, Apply(targets, cap, s, step))
  {
    var t, key, won := Apply(targets, cap, s, step), step.key, s.flights[step.key].won.value;
    var until := ReplayUntil(s.now, step.ttl, won.expiresAt);
    var landed := Land(s.cache, key, s.cache.flights[key].specHash, won, until);
    LandListed(s.cache, key, s.cache.flights[key].specHash, won, until);
    EnforceKeeps(landed, s.now, cap);
    assert Remembered(landed, key, until, s.now);
    forall k ensures Live(t, k) <= targets && KeySafe(t, k) {
      assert KeySafe(s, k) && Live(s, k) <= targets;
      if k != key && k in s.promised {
        assert Remembered(s.cache, k, s.promised[k], s.now) ==> Remembered(landed, k, s.promised[k], s.now);
      }
    }
  }

  lemma ForgetKeeps(targets: set<string>, cap: nat, s: System, step: Step)
    requires Inv(targets, s) && Enabled(targets, s, step) && step.Forget?
    ensures Inv(targets, Apply(targets, cap, s, step))
  {
    var t := Apply(targets, cap, s, step);
    assert forall k | IsCompleted(t.cache, k) :: IsCompleted(s.cache, k);
    forall k ensures Live(t, k) <= targets && KeySafe(t, k) {
      assert KeySafe(s, k) && Live(t, k) == Live(s, k) && Live(s, k) <= targets;
    }
  }

  lemma StepKeeps(targets: set<string>, cap: nat, s: System, step: Step)
    requires Inv(targets, s) && Enabled(targets, s, step)
    ensures Inv(targets, Apply(targets, cap, s, step))
  {
    match step
    case Tick(_) => TickKeeps(targets, cap, s, step);
    case Gone(_, _) => GoneKeeps(targets, cap, s, step);
    case Arrive(_, _, _) => ArriveKeeps(targets, cap, s, step);
    case Act(_, _, _) => ActKeeps(targets, cap, s, step);
    case Finish(key, _) =>
      if s.flights[key].won.None? { FailureKeeps(targets, cap, s, step); } else { SuccessKeeps(targets, cap, s, step); }
    case Forget(_, _) => ForgetKeeps(targets, cap, s, step);
  }

  // ----- every run -------------------------------------------------------------------------------------

  /** A leader starts with an empty cache. What an earlier leader left behind is one sandbox per
      key at most, and its clients retry. */
  ghost predicate Initial(targets: set<string>, s: System) {
    && s.cache.flights == map[] && s.cache.order == [] && s.flights == map[]
    && forall k :: Live(s, k) <= targets && AtMostOne(Live(s, k)) && (Live(s, k) != {} ==> k in s.mustRetry)
  }

  ghost predicate IsRun(targets: set<string>, cap: nat, run: seq<System>, steps: seq<Step>) {
    && |run| == |steps| + 1 && Initial(targets, run[0])
    && forall n | 0 <= n < |steps| ::
         Enabled(targets, run[n], steps[n]) && run[n + 1] == Apply(targets, cap, run[n], steps[n])
  }

  lemma {:induction false} InvInEveryRun(targets: set<string>, cap: nat, run: seq<System>, steps: seq<Step>, n: nat)
    requires IsRun(targets, cap, run, steps) && n < |run|
    ensures Inv(targets, run[n])
  {
    if n == 0 {
      forall k ensures Live(run[0], k) <= targets && KeySafe(run[0], k) {}
    } else {
      InvInEveryRun(targets, cap, run, steps, n - 1);
      StepKeeps(targets, cap, run[n - 1], steps[n - 1]);
    }
  }

  /** One idempotency key never yields two sandboxes: at every moment of every run, at most one
      provider holds a live sandbox for a key. */
  lemma OneKeyOneSandbox(targets: set<string>, cap: nat, run: seq<System>, steps: seq<Step>, n: nat, key: string)
    requires IsRun(targets, cap, run, steps) && n < |run|
    ensures AtMostOne(Live(run[n], key))
  {
    InvInEveryRun(targets, cap, run, steps, n);
    assert KeySafe(run[n], key);
  }

  /** And no claim is ever sent to one provider while another holds the key. */
  lemma ClaimsGoWhereTheKeyIs(targets: set<string>, cap: nat, run: seq<System>, steps: seq<Step>, n: nat)
    requires IsRun(targets, cap, run, steps) && n < |steps|
    requires steps[n].Act? && steps[n].ev.Tried?
    ensures Live(run[n], steps[n].key) <= {steps[n].ev.provider}
  {
    InvInEveryRun(targets, cap, run, steps, n);
    assert KeySafe(run[n], steps[n].key);
  }

  // ----- the flights of the binder are flights of this system ----------------------------------------------

  /** The step a flight of `key` takes by its k-th call or decision. */
  function StepOf(key: string, log: Log, k: nat, live: set<string>): Step
    requires k < |log.events|
  {
    Act(key, log.events[k], live)
  }

  /** Wherever a permitted flight has got to, its next call or decision is a step the system can
      take, whatever else goes on: if the providers keep their contract, and if a decision not to
      look first is taken only once the early-eviction mark has passed. It leads the system's
      flight to where the log says. */
  lemma FlightStepsAreEnabled(targets: set<string>, cap: nat, start: Pc, log: Log, pc: Pc, s: System, key: string,
                              k: nat, live: set<string>)
    requires Permitted(targets, start, log, pc) && k < |log.events|
    requires key in s.flights && s.flights[key] == log.path[k]
    requires Contract(Live(s, key), log.events[k], live)
    requires log.events[k].Decided? && !log.events[k].evicted ==> s.now >= s.cache.evictedUntil
    ensures Enabled(targets, s, StepOf(key, log, k, live))
    ensures
      var t := Apply(targets, cap, s, StepOf(key, log, k, live));
      && key in t.flights && t.flights[key] == log.path[k + 1] && Live(t, key) == live
      && t.now == s.now && t.cache == s.cache
  {
    assert Follows(targets, log, k);
  }

  /** The system takes the flight's k-th step, from `s` to `t`. */
  ghost predicate Takes(targets: set<string>, cap: nat, key: string, log: Log, k: nat, live: set<string>,
                        s: System, t: System)
    requires k < |log.events|
  {
    Enabled(targets, s, StepOf(key, log, k, live)) && t == Apply(targets, cap, s, StepOf(key, log, k, live))
  }

  /** What is asked of the world around a flight that begins in `s`: the providers keep their
      contract from each point to the next, and the mark has passed if the flight says so. */
  ghost predicate Around(s: System, key: string, log: Log, live: seq<set<string>>) {
    && |live| == |log.events| + 1 && live[0] == Live(s, key)
    && (forall k | 0 <= k < |log.events| :: Contract(live[k], log.events[k], live[k + 1]))
    && (log.events != [] && log.events[0] == Decided(false) ==> s.now >= s.cache.evictedUntil)
  }

  /** A permitted flight that nothing interrupts is a run of the system, from the state in which the
      key's flight begins to the one in which it ends. */
  lemma {:induction false} FlightIsARun(targets: set<string>, cap: nat, start: Pc, log: Log, pc: Pc, s: System,
                                        key: string, live: seq<set<string>>, n: nat)
    returns (run: seq<System>)
    requires Permitted(targets, start, log, pc) && Around(s, key, log, live) && n <= |log.events|
    requires key in s.flights && s.flights[key] == start
    ensures |run| == n + 1 && run[0] == s
    ensures forall k | 0 <= k < n :: Takes(targets, cap, key, log, k, live[k + 1], run[k], run[k + 1])
    ensures Reached(s, key, run[n], log.path[n], live[n])
  {
    run := [s];
    if n > 0 {
      run := FlightIsARun(targets, cap, start, log, pc, s, key, live, n - 1);
      OnlyFirstDecides(targets, start, log, pc, n - 1);
      FlightStepsAreEnabled(targets, cap, start, log, pc, run[n - 1], key, n - 1, live[n]);
      run := Extended(targets, cap, key, log, live, run, n - 1);
    }
  }

  lemma {:induction false} StepsKeep(targets: set<string>, cap: nat, key: string, log: Log, live: seq<set<string>>,
                                     run: seq<System>, n: nat)
    requires |live| == |log.events| + 1 && n <= |log.events| && |run| == |log.events| + 1 && Inv(targets, run[0])
    requires forall k | 0 <= k < |log.events| :: Takes(targets, cap, key, log, k, live[k + 1], run[k], run[k + 1])
    ensures forall k | 0 <= k <= n :: Inv(targets, run[k])
  {
    if n > 0 {
      StepsKeep(targets, cap, key, log, live, run, n - 1);
      StepKeeps(targets, cap, run[n - 1], StepOf(key, log, n - 1, live[n]));
    }
  }

  /** The flight of `key` is at `pc` in `t`, and clock and cache are as they were in `s`. */
  ghost predicate Reached(s: System, key: string, t: System, pc: Pc, live: set<string>) {
    key in t.flights && t.flights[key] == pc && Live(t, key) == live && t.now == s.now && t.cache == s.cache
  }

  ghost function Extended(targets: set<string>, cap: nat, key: string, log: Log, live: seq<set<string>>,
                          run: seq<System>, n: nat): (longer: seq<System>)
    requires n < |log.events| && |live| == |log.events| + 1 && |run| == n + 1
    requires Enabled(targets, run[n], StepOf(key, log, n, live[n + 1]))
    ensures |longer| == n + 2 && (forall k | 0 <= k <= n :: longer[k] == run[k])
    ensures longer[n + 1] == Apply(targets, cap, run[n], StepOf(key, log, n, live[n + 1]))
  {
    run + [Apply(targets, cap, run[n], StepOf(key, log, n, live[n + 1]))]
  }

  lemma OnlyFirstDecides(targets: set<string>, start: Pc, log: Log, pc: Pc, k: nat)
    requires Permitted(targets, start, log, pc) && k < |log.events|
    ensures log.events[k].Decided? ==> k == 0
  {
    assert Follows(targets, log, k);
    if k > 0 { assert Follows(targets, log, k - 1); }
  }
}
