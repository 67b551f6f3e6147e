/** One claim flight from its first lookup to its answer, and the requests that join it. */
module ClaimFlight {
  import opened Text
  import opened Policies
  import opened ClaimProtocol
  import opened ClaimEnv
  import opened ClaimAttempt
  import opened ClaimVetting
  import opened ClaimProbe
  import opened ClaimLoop
  import ClaimSystem

  /** Where a flight starts: a pinned provider is looked up first; any other request first
      decides whether to look everywhere. */
  function Start(pinned: Option<string>, retry: bool): Pc {
    if pinned.Some? then ProbingPin(pinned.value) else Deciding(retry)
  }

  /** The first thing on the log is whether, at `now`, some claim evicted early had yet to expire. */
  ghost predicate DecidedAt(now: int, evictedUntil: int, events: seq<Event>) {
    [Decided(now < evictedUntil)] <= events
  }

  /** What a flight begun at `asked` did before its first claim: the pinned provider is looked up; a retry
      looks everywhere, and so does any request while some claim that was evicted early has yet to
      expire; any other request goes straight to claiming. */
  ghost predicate Looks(env: Env, pinned: Option<string>, retry: bool, evictedUntil: int, policy: Policy, wants: Wants,
                        asked: int, deadline: int, looked: Account, events: seq<Event>, since: nat, probe: Probe) {
    if pinned.Some? then
      PinLookedUp(env.targets, env.Capable(), pinned.value, policy, wants, asked, deadline, [], looked.now, looked.used,
                  [], events, looked.seen, since, probe)
    else
      && DecidedAt(asked, evictedUntil, events)
      && if retry || asked < evictedUntil then
           EverybodyLookedUp(env.targets, env.Capable(), policy, wants, deadline, [], looked.now, looked.used,
                             [Decided(asked < evictedUntil)], events, looked.seen, since, probe)
         else probe == ClaimOn(None) && |looked.seen| == since
  }

  /** The lookups come first for a pinned provider, a retry, and a request made while some claim
      that was evicted early has yet to expire. */
  method LookFirst(env: Env, pinned: Option<string>, retry: bool, evictedUntil: int, policy: Policy, wants: Wants,
                   now: int, deadline: int)
    returns (probe: Probe)
    requires env.Valid() && env.flight.pc == Start(pinned, retry) && env.flight.log.events == [] && env.used == []
    requires now == env.now
    modifies env`cursor, env`now, env`flight, env`used, env`seen
    ensures env.Valid() && env.now >= old(env.now) && old(env.seen) <= env.seen
    ensures Settled(env, policy, wants, probe, |old(env.seen)|)
    ensures pinned.Some? && probe.ClaimOn? ==> probe.pin == pinned
    ensures Looks(env, pinned, retry, evictedUntil, policy, wants, now, deadline, AccountOf(env), env.flight.log.events,
                  |old(env.seen)|, probe)
  {
    if pinned.Some? {
      probe := LookupPinned(env, pinned.value, policy, wants, deadline);
      return;
    }
    env.Decide(now < evictedUntil);
    if retry || now < evictedUntil {
      probe := LookupRetryAll(env, policy, wants, deadline);
    } else {
      probe := ClaimOn(None);
    }
  }

  /** How a flight went: when it began and had to end, what its lookups led to, how it stood when they
      were over, and the passes of its loop if it came to that. */
  datatype Course = Course(began: int, deadline: int, probe: Probe, looked: Account, trail: seq<Turn>)

  /** The answer is that of the lookups, or else how the loop ended. */
  ghost predicate Answers(targets: map<string, Target>, policy: Policy, wants: Wants, maxSpill: nat, c: Course,
                          a: Account, out: Outcome) {
    match c.probe
    case Answer(answer) => out == answer && a == c.looked
    case ClaimOn(pin) => EndsSo(TermsOf(targets, pin, policy, wants, maxSpill, c.deadline), c.looked, a, c.trail, out)
  }

  /** The flight up to its first claim. */
  method Open(env: Env, pinned: Option<string>, retry: bool, evictedUntil: int, policy: Policy, wants: Wants,
              timeout: int)
    returns (probe: Probe, deadline: int, ghost c: Course)
    requires env.Valid() && env.flight.pc == Start(pinned, retry) && env.flight.log.events == [] && env.used == []
    modifies env`cursor, env`now, env`flight, env`prelude, env`used, env`seen
    ensures env.Valid() && old(env.seen) <= env.seen && env.prelude == env.flight.log.events
    ensures Settled(env, policy, wants, probe, |old(env.seen)|)
    ensures old(env.now) <= c.began <= env.now && deadline == c.deadline == c.began + timeout
    ensures c.probe == probe && c.looked == AccountOf(env)
    ensures Looks(env, pinned, retry, evictedUntil, policy, wants, c.began, c.deadline, c.looked, env.prelude,
                  |old(env.seen)|, c.probe)
    ensures pinned.None? ==> DecidedAt(c.began, evictedUntil, env.prelude)
  {
    var now := env.Now();
    deadline := now + timeout;
    probe := LookFirst(env, pinned, retry, evictedUntil, policy, wants, now, deadline);
    env.ClosePrelude();
    c := Course(now, deadline, probe, AccountOf(env), []);
  }

  /** The claim loop, unless the lookups were the answer. */
  method Proceed(env: Env, probe: Probe, policy: Policy, wants: Wants, maxSpill: nat, deadline: int, ghost c: Course,
                 ghost since: nat)
    returns (out: Outcome, ghost trail: seq<Turn>)
    requires env.Valid() && since <= |env.seen| && Settled(env, policy, wants, probe, since)
    requires c.probe == probe && c.looked == AccountOf(env) && c.deadline == deadline && env.calls.spilled == map[]
    modifies env`cursor, env`now, env`nextTicket, env`held, env`seen
    modifies env`flight, env`attempt, env`calls, env`used, env`asked
    ensures env.Valid() && Ended(env.flight.pc, out) && env.now >= old(env.now)
    ensures Answers(env.targets, policy, wants, maxSpill, c.(trail := trail), AccountOf(env), out)
    ensures old(env.held) <= env.held && HoldsWarm(old(env.held), env.held, out)
    ensures Sound(policy, wants, env.targets, out, env.seen, since)
  {
    match probe
    case Answer(answer) => out, trail := answer, [];
    case ClaimOn(pin) => out, trail := ClaimLoop.Run(env, pin, policy, wants, maxSpill, deadline);
  }

  lemma StillDecided(now: int, evictedUntil: int, prelude: seq<Event>, events: seq<Event>)
    requires DecidedAt(now, evictedUntil, prelude) && prelude <= events
    ensures DecidedAt(now, evictedUntil, events)
  {
  }

  /** The whole flight. Its log is a path of the flight automaton, at whose end the automaton holds
      the very sandbox the flight answers with; an unpinned flight decides by the clock whether to
      look first, and whatever it answers with met the policy in a snapshot read meanwhile. */
  method Execute(env: Env, pinned: Option<string>, retry: bool, evictedUntil: int, policy: Policy, wants: Wants,
                 maxSpill: nat, claimTimeout: int, requestTimeout: int)
    returns (out: Outcome, ghost c: Course)
    requires env.Valid() && env.start == env.flight.pc == Start(pinned, retry)
    requires env.flight.log.events == [] && env.used == [] && env.calls.spilled == map[]
    modifies env`cursor, env`now, env`nextTicket, env`held, env`seen
    modifies env`flight, env`prelude, env`attempt, env`calls, env`used, env`asked
    ensures env.Valid() && Ended(env.flight.pc, out)
    ensures Permitted(env.Capable(), Start(pinned, retry), env.flight.log, env.flight.pc)
    ensures old(env.now) <= c.began <= env.now
    ensures c.deadline == c.began + if 0 < requestTimeout < claimTimeout then requestTimeout else claimTimeout
    ensures pinned.None? ==> DecidedAt(c.began, evictedUntil, env.flight.log.events)
    ensures env.prelude <= env.flight.log.events
    ensures Looks(env, pinned, retry, evictedUntil, policy, wants, c.began, c.deadline, c.looked, env.prelude,
                  |old(env.seen)|, c.probe)
    ensures Answers(env.targets, policy, wants, maxSpill, c, AccountOf(env), out)
    ensures old(env.held) <= env.held && HoldsWarm(old(env.held), env.held, out)
    ensures Sound(policy, wants, env.targets, out, env.seen, |old(env.seen)|)
  {
    var timeout := if 0 < requestTimeout < claimTimeout then requestTimeout else claimTimeout;
    var probe, deadline;
    probe, deadline, c := Open(env, pinned, retry, evictedUntil, policy, wants, timeout);
    ghost var trail;
    out, trail := Proceed(env, probe, policy, wants, maxSpill, deadline, c, |old(env.seen)|);
    c := c.(trail := trail);
    if pinned.None? { StillDecided(c.began, evictedUntil, env.prelude, env.flight.log.events); }
  }

  /** So a flight is one of the system's: its log, played from any state in which the key's flight
      begins and the mark is the one the flight read, is a run of the system that keeps every key
      to one sandbox. */
  lemma FlightOfTheSystem(capable: set<string>, cap: nat, retry: bool, log: Log, pc: Pc, now: int,
                          s: ClaimSystem.System, key: string, live: seq<set<string>>)
    returns (run: seq<ClaimSystem.System>)
    requires Permitted(capable, Deciding(retry), log, pc) && DecidedAt(now, s.cache.evictedUntil, log.events)
    requires now <= s.now && key in s.flights && s.flights[key] == Deciding(retry)
    requires |live| == |log.events| + 1 && live[0] == ClaimSystem.Live(s, key)
    requires forall k | 0 <= k < |log.events| :: Contract(live[k], log.events[k], live[k + 1])
    requires ClaimSystem.Inv(capable, s)
    ensures |run| == |log.events| + 1 && run[0] == s
    ensures forall k | 0 <= k < |log.events| ::
              ClaimSystem.Takes(capable, cap, key, log, k, live[k + 1], run[k], run[k + 1])
    ensures forall k | 0 <= k < |run| :: ClaimSystem.Inv(capable, run[k])
    ensures ClaimSystem.Reached(s, key, run[|log.events|], pc, live[|log.events|])
  {
    run := ClaimSystem.FlightIsARun(capable, cap, Deciding(retry), log, pc, s, key, live, |log.events|);
    ClaimSystem.StepsKeep(capable, cap, key, log, live, run, |log.events|);
  }

  /** The shared sandbox is where and what the joiner asks for, so far as no snapshot is needed to tell. */
  predicate Shares(shared: Outcome, pinned: Option<string>, wants: Wants) {
    shared.Success? && Allows(pinned, shared.result.handle.provider) && (wants.warmOnly ==> shared.result.warm)
  }

  /** A request that joins a flight shares its answer, exactly if that satisfies the joiner too in the
      one snapshot it reads. */
  method Join(env: Env, sameSpec: bool, roomToJoin: bool, shared: Outcome, pinned: Option<string>, policy: Policy,
              wants: Wants)
    returns (out: Outcome)
    modifies env`cursor, env`now, env`used, env`seen
    ensures !sameSpec ==> out == Failure(ReasonSpecMismatch)
    ensures sameSpec && !roomToJoin ==> out == Failure(ReasonTooManyJoiners)
    ensures env.used == old(env.used) || env.used == old(env.used) + [Cancelled]
    ensures env.used != old(env.used) ==> sameSpec && roomToJoin && out == Failure(ReasonUnknownOutcome)
    ensures sameSpec && roomToJoin && env.used == old(env.used) && shared.Failure? ==> out == shared
    ensures old(env.seen) <= env.seen
    ensures
      if sameSpec && roomToJoin && env.used == old(env.used) && Shares(shared, pinned, wants) then
        && |env.seen| == |old(env.seen)| + 1
        && out == if Accepts(policy, wants, env.targets, shared.result.handle.provider, env.seen[|old(env.seen)|])
                  then Success(shared.result.(replay := true)) else Failure(ReasonConstraintExcluded)
      else out.Failure?
    ensures Sound(policy, wants, env.targets, out, env.seen, |old(env.seen)|)
  {
    if !sameSpec { return Failure(ReasonSpecMismatch); }
    if !roomToJoin { return Failure(ReasonTooManyJoiners); }
    var cancelled := env.CheckCancelled();
    if cancelled { return Failure(ReasonUnknownOutcome); }
    if shared.Failure? { return shared; }
    if !Shares(shared, pinned, wants) { return Failure(ReasonConstraintExcluded); }
    var ok := PassesCandidateFilters(env, shared.result.handle.provider, policy, wants);
    if !ok { return Failure(ReasonConstraintExcluded); }
    return Success(shared.result.(replay := true));
  }
}
