/** One provider attempt of a claim: the attempt itself, the retry of a key that is still being
    deleted, and the recovery of an unknown outcome, which call each other.
    Durations and times are in nanoseconds. */
module ClaimAttempt {
  import opened Text
  import opened ClaimProtocol
  import opened ClaimEnv
  import opened FlightCache
  import Backoff

  datatype Reason =
    | ReasonNoProviders | ReasonInvalidPolicy | ReasonNoCapacity | ReasonSpecMismatch
    | ReasonConstraintExcluded | ReasonRejected | ReasonBusy | ReasonKeyBusy | ReasonRateLimited
    | ReasonSlotsFull | ReasonTooManyJoiners | ReasonUnavailable | ReasonUnknownOutcome

  datatype Result = Result(handle: Handle, replay: bool, warm: bool)

  datatype Outcome = Success(result: Result) | Failure(reason: Reason)

  datatype Action = AttemptDone | RetryDecision | Spill

  const KEY_BUSY_WAIT := 100_000_000
  const MIN_SLEEP := 10_000_000

  function RetryAfterOf(r: Reply): int {
    if r.Failed? && r.retryAfter > 0 then r.retryAfter else 0
  }

  function ReasonFor(k: Kind): Reason {
    match k
    case UnknownOutcome => ReasonUnknownOutcome
    case NoCapacity => ReasonNoCapacity
    case Unavailable => ReasonUnavailable
    case Rejected => ReasonRejected
    case Busy => ReasonBusy
    case KeyConflict => ReasonSpecMismatch
    case KeyBusy => ReasonKeyBusy
  }

  // ----- what an attempt leaves behind ------------------------------------------------------------

  /** Outcomes whose reservation stands for a sandbox that exists, that may exist, or that the
      provider itself says has left its pool. */
  predicate Keeps(out: Outcome, answered: Kind) {
    out.Success? || out.reason.ReasonUnknownOutcome? || (out.reason.ReasonNoCapacity? && answered.NoCapacity?)
  }

  /** The reservations held afterwards are those held when the last claim was sent, if the outcome
      keeps them, and else those held before the attempt; a success was warm exactly when it
      claimed with a reservation. */
  ghost predicate Accounted(env: Env, before: set<nat>, out: Outcome)
    reads env`held, env`calls
  {
    && env.held == (if Keeps(out, env.calls.answered) then env.calls.held else before)
    && before <= env.held
    && (out.Success? ==> (out.result.warm <==> env.calls.held != before))
  }

  /** An attempt in progress holds `t` and, besides, what was held before it. */
  ghost predicate Carries(before: set<nat>, held: set<nat>, t: Ticket) {
    Holding(t) !! before && held == before + Holding(t)
  }

  /** The flight's place agrees with the outcome: it has ended, with the sandbox returned if any. */
  ghost predicate Ended(pc: Pc, out: Outcome) {
    pc.Done? && pc.won == if out.Success? then Some(out.result.handle) else None
  }

  /** What is promised about a successful claim on `p`. */
  ghost predicate Good(targets: map<string, Target>, p: string, warmOnly: bool, out: Outcome) {
    out.Success? ==>
      && out.result.handle.provider == p
      && (warmOnly && !out.result.replay && p in targets && !targets[p].elastic ==> out.result.warm)
  }

  /** A try spills only on the provider's word that it created nothing, and says so. */
  predicate Spilled(answered: Kind, out: Outcome) {
    Spills(answered) && out == Failure(ReasonFor(answered))
  }

  /** The outcome is what the last reply says, to a claim or to a lookup: a new sandbox or one that was
      there already, a refusal of the kind the provider gave, or the key's conflict. */
  predicate Reported(last: Option<Event>, answered: Kind, p: string, out: Outcome) {
    match last
    case Some(Tried(q, r)) =>
      && q == p
      && if r.Claimed? then out.Success? && out.result.handle == r.handle && !out.result.replay
         else (&& answered == KindOf(r) && !answered.UnknownOutcome? && !answered.KeyBusy?
               && out == Failure(ReasonFor(answered)))
    case Some(Looked(q, r)) =>
      && q == p
      && if r.Claimed? then out.Success? && out.result.handle == r.handle && out.result.replay
         else r.Failed? && r.kind.KeyConflict? && out == Failure(ReasonSpecMismatch)
    case _ => false
  }

  /** A refusal is reported under the reason of its kind, and under no other's. */
  lemma SaysWhatItHeard(p: string, k: Kind, wait: int, answered: Kind, out: Outcome)
    requires Reported(Some(Tried(p, Failed(k, wait))), answered, p, out)
    ensures out.Failure? && k != UnknownOutcome && k != KeyBusy
    ensures (k == NoCapacity <==> out.reason == ReasonNoCapacity) && (k == Busy <==> out.reason == ReasonBusy)
    ensures k == Unavailable <==> out.reason == ReasonUnavailable
    ensures k == Rejected <==> out.reason == ReasonRejected
    ensures k == KeyConflict <==> out.reason == ReasonSpecMismatch
  {
  }

  /** The outcome is what was reported, or else the flight gave up: on an unknown outcome or a key that is
      being deleted only when halted, or on a retry it had waited for and was then denied. */
  ghost predicate Warranted(last: Option<Event>, answered: Kind, p: string, elastic: bool, warmOnly: bool,
                            since: seq<Use>, used: seq<Use>, now: int, deadline: int, out: Outcome) {
    || Reported(last, answered, p, out)
    || (&& last == Some(GaveUp) && out.Failure?
        && match out.reason
           case ReasonUnknownOutcome => answered.UnknownOutcome? && Halted(since, used, now, deadline)
           case ReasonKeyBusy => answered.KeyBusy? && Halted(since, used, now, deadline)
           case why => answered.KeyBusy? && DeniedRetry(elastic, warmOnly, why, since, used))
  }

  /** A retry's wait was slept through, and then the reservation or the rate token it needs refused. */
  ghost predicate DeniedRetry(elastic: bool, warmOnly: bool, why: Reason, since: seq<Use>, used: seq<Use>) {
    && why == (if warmOnly then ReasonNoCapacity else ReasonRateLimited)
    && exists mid, from, wait ::
         |since| <= |mid| && wait > 0 && Prepared(mid, from, wait, elastic, warmOnly, None, Some(why), used)
  }

  lemma DeniedThen(before: seq<Use>, elastic: bool, warmOnly: bool, why: Reason, used: seq<Use>)
    requires why == (if warmOnly then ReasonNoCapacity else ReasonRateLimited)
    requires PreparedSomehow(before, elastic, warmOnly, None, Some(why), used)
    ensures DeniedRetry(elastic, warmOnly, why, before, used)
  {
  }

  lemma WarrantedSince(last: Option<Event>, answered: Kind, p: string, elastic: bool, warmOnly: bool, since: seq<Use>,
                       later: seq<Use>, used: seq<Use>, now: int, deadline: int, out: Outcome)
    requires |since| <= |later| && Warranted(last, answered, p, elastic, warmOnly, later, used, now, deadline, out)
    ensures Warranted(last, answered, p, elastic, warmOnly, since, used, now, deadline, out)
  {
  }

  /** The same of a flight as it stands. */
  ghost predicate Justified(env: Env, p: string, warmOnly: bool, since: seq<Use>, deadline: int, out: Outcome)
    requires p in env.targets
    reads env`flight, env`calls, env`used, env`now
  {
    Warranted(env.Last(), env.calls.answered, p, env.targets[p].elastic, warmOnly, since, env.used, env.now, deadline,
              out)
  }

  lemma JustifiedSince(env: Env, p: string, warmOnly: bool, since: seq<Use>, later: seq<Use>, deadline: int,
                       out: Outcome)
    requires p in env.targets && |since| <= |later| && Justified(env, p, warmOnly, later, deadline, out)
    ensures Justified(env, p, warmOnly, since, deadline, out)
  {
    WarrantedSince(env.Last(), env.calls.answered, p, env.targets[p].elastic, warmOnly, since, later, env.used, env.now,
                   deadline, out);
  }

  /** What an attempt that ends, or spills, leaves behind. */
  ghost predicate Leaves(env: Env, p: string, pin: Option<string>, warmOnly: bool, maySpill: bool, before: set<nat>,
                         spilled: map<string, Kind>, out: Outcome, action: Action)
    reads env`held, env`calls, env`flight
  {
    && Accounted(env, before, out) && Good(env.targets, p, warmOnly, out)
    && (action.AttemptDone? ==> Ended(env.flight.pc, out))
    && (!action.AttemptDone? ==>
          && action.Spill? && maySpill && env.flight.pc == Placing(pin) && Spilled(env.calls.answered, out)
          && env.calls.spilled == spilled[p := env.calls.answered])
  }

  // ----- waits, tokens and tickets ------------------------------------------------------------------

  /** A refused claim gives its ticket back, unless the provider itself says its pool is empty. */
  method Refuse(env: Env, k: Kind, t: Ticket, ghost before: set<nat>) returns (out: Outcome)
    requires env.Valid() && Carries(before, env.held, t) && !k.UnknownOutcome?
    modifies env`held
    ensures env.Valid() && out == Failure(ReasonFor(k))
    ensures env.held == if k.NoCapacity? then old(env.held) else before
  {
    if !k.NoCapacity? { env.Release(t); }
    return Failure(ReasonFor(k));
  }

  method GiveBack(env: Env, t: Ticket, ghost before: set<nat>)
    requires env.Valid() && Carries(before, env.held, t)
    modifies env`held
    ensures env.Valid() && env.held == before
  {
    env.Release(t);
  }

  /** The deadline has not passed and the request is not cancelled. */
  method StillOpen(env: Env, deadline: int) returns (open: bool)
    modifies env`cursor, env`now, env`used
    ensures env.now >= old(env.now)
    ensures if open then env.now < deadline && env.used == old(env.used)
            else InTime(old(env.used), env.used, deadline) && Halted(old(env.used), env.used, env.now, deadline)
  {
    var t := env.Now();
    if t >= deadline { return false; }
    var cancelled := env.CheckCancelled();
    return !cancelled;
  }

  /** A wait begun at `from` was slept through. */
  ghost predicate SleptThrough(asked: int, before: seq<Use>, from: int, wait: int, now: int, after: seq<Use>) {
    asked <= from && from + wait <= now && after == before + [Slept(from, from + wait)]
  }

  /** Sleeps, unless that would reach the deadline: every sleep leaves less time than before. */
  method Sleep(env: Env, wait: int, deadline: int) returns (awake: bool)
    requires wait > 0
    modifies env`cursor, env`now, env`used
    ensures env.now >= old(env.now) && InTime(old(env.used), env.used, deadline)
    ensures awake ==>
      && Left(deadline, env.now) < Left(deadline, old(env.now))
      && exists from :: SleptThrough(old(env.now), old(env.used), from, wait, env.now, env.used)
    ensures !awake ==> Halted(old(env.used), env.used, env.now, deadline)
  {
    var t := env.Now();
    if t + wait >= deadline {
      env.Forgo(t + wait);
      return false;
    }
    awake := env.SleepUntil(t + wait);
    assert awake ==> SleptThrough(old(env.now), old(env.used), t, wait, env.now, env.used);
  }

  /** Takes a rate token, waiting for it if it comes before the deadline. */
  method AwaitToken(env: Env, limiter: Limiter, deadline: int) returns (go: bool)
    modifies env`cursor, env`now, env`used
    ensures env.now >= old(env.now) && InTime(old(env.used), env.used, deadline)
    ensures if go then DrewOn(limiter, old(env.used), env.used) && Due(old(env.now), old(env.used), env.now, env.used)
            else Halted(old(env.used), env.used, env.now, deadline)
  {
    var t := env.Now();
    var ok, delay := env.ReserveToken(limiter);
    if !ok { return false; }
    if delay > 0 {
      if t + delay >= deadline {
        env.Forgo(t + delay);
        return false;
      }
      ok := env.SleepUntil(t + delay);
    }
    return ok;
  }

  /** A token was promised, and its delay, if any, was slept through. */
  ghost predicate DrewOn(limiter: Limiter, before: seq<Use>, after: seq<Use>) {
    && |before| < |after| && before <= after
    && after[|before|].Promised? && after[|before|].limiter == limiter
    && (after[|before|].delay > 0 ==> |after| == |before| + 2 && after[|before| + 1].Slept?)
  }

  /** The time of the token drawn has come. */
  ghost predicate Due(asked: int, before: seq<Use>, now: int, after: seq<Use>)
    requires |before| < |after| && after[|before|].Promised?
  {
    now >= asked + after[|before|].delay
  }

  /** The way to a retry of a key that is being deleted: time left, and the wait it asked for. */
  method Linger(env: Env, wait: int, deadline: int) returns (awake: bool)
    modifies env`cursor, env`now, env`used
    ensures env.now >= old(env.now) && InTime(old(env.used), env.used, deadline)
    ensures awake ==>
      && Left(deadline, env.now) < Left(deadline, old(env.now))
      && exists from :: SleptThrough(old(env.now), old(env.used), from, WaitOf(wait), env.now, env.used)
    ensures !awake ==> Halted(old(env.used), env.used, env.now, deadline)
  {
    ghost var asked := env.now;
    awake := StillOpen(env, deadline);
    if !awake { return false; }
    ghost var later := env.now;
    awake := Sleep(env, WaitOf(wait), deadline);
    if awake {
      ghost var from :| SleptThrough(later, old(env.used), from, WaitOf(wait), env.now, env.used);
      assert SleptThrough(asked, old(env.used), from, WaitOf(wait), env.now, env.used);
    }
  }

  /** A provider that does not say how long to wait is waited for a little. */
  function WaitOf(wait: int): int {
    if wait <= 0 then KEY_BUSY_WAIT else wait
  }

  /** The retry budget was drawn on, a backoff below the step's ceiling slept through, and a lookup
      token drawn. */
  ghost predicate Rested(step: nat, before: seq<Use>, after: seq<Use>) {
    exists from, until :: BackedOff(step, before, from, until, after)
  }

  ghost predicate BackedOff(step: nat, before: seq<Use>, from: int, until: int, after: seq<Use>) {
    && 0 < until - from < Backoff.Ceiling(step)
    && before + [Took(RetryBudget), Slept(from, until)] < after
    && after[|before| + 2].Promised? && after[|before| + 2].limiter == LookupRate
    && (after[|before| + 2].delay > 0 ==> |after| > |before| + 3 && after[|before| + 3].Slept?)
  }

  /** The way to a recovery step: time left, the retry budget, a jittered backoff, a lookup token. */
  method BackOff(env: Env, step: nat, deadline: int) returns (go: bool)
    modifies env`cursor, env`now, env`used
    ensures env.now >= old(env.now) && InTime(old(env.used), env.used, deadline)
    ensures go ==>
      && Left(deadline, env.now) < Left(deadline, old(env.now))
      && Rested(step, old(env.used), env.used)
    ensures !go ==> Halted(old(env.used), env.used, env.now, deadline)
  {
    go := StillOpen(env, deadline);
    if !go { return false; }
    go := env.TakeToken(RetryBudget);
    if !go { return false; }
    var sleep := env.Fraction(Backoff.Ceiling(step));
    Backoff.CeilingIsAtLeastBase(step);
    if sleep <= 0 { sleep := MIN_SLEEP; }
    ghost var drawnAt, drawn := env.now, env.used;
    go := Sleep(env, sleep, deadline);
    if !go { return false; }
    ghost var from :| SleptThrough(drawnAt, drawn, from, sleep, env.now, env.used);
    assert env.used == old(env.used) + [Took(RetryBudget), Slept(from, from + sleep)];
    go := AwaitToken(env, LookupRate, deadline);
    assert go ==> BackedOff(step, old(env.used), from, from + sleep, env.used);
  }

  /** What was heard when a warm reservation was asked for. */
  function Answered(t: Ticket): Use {
    if t.Some? then Reserved(t.value) else NoneLeft
  }

  /** A retry on a cluster provider asks for a reservation first; without one, and if it may be cold, it
      asks for a rate token. */
  function Reacquiring(elastic: bool, warmOnly: bool, retry: Ticket, denied: Option<Reason>): seq<Use> {
    (if elastic then [] else [Answered(retry)]) +
    if retry.Some? || warmOnly then [] else [if denied.None? then Took(ClaimRate) else Refused(ClaimRate)]
  }

  /** Takes a warm reservation for a retry, or else a rate token for a cold one. */
  method Reacquire(env: Env, p: string, warmOnly: bool) returns (retry: Ticket, denied: Option<Reason>)
    requires env.Valid() && p in env.Capable()
    modifies env`cursor, env`nextTicket, env`held, env`used
    ensures env.Valid() && Carries(old(env.held), env.held, retry) && (env.targets[p].elastic ==> retry.None?)
    ensures denied.Some? ==> retry.None? && denied.value == if warmOnly then ReasonNoCapacity else ReasonRateLimited
    ensures denied.None? && warmOnly ==> retry.Some?
    ensures env.used == old(env.used) + Reacquiring(env.targets[p].elastic, warmOnly, retry, denied)
  {
    retry, denied := None, None;
    if !env.targets[p].elastic { retry := env.TryReserve(); }
    if retry.None? {
      if warmOnly { return None, Some(ReasonNoCapacity); }
      var allowed := env.TakeToken(ClaimRate);
      if !allowed { return None, Some(ReasonRateLimited); }
    }
  }

  ghost predicate Prepared(before: seq<Use>, from: int, wait: int, elastic: bool, warmOnly: bool, retry: Ticket,
                           denied: Option<Reason>, after: seq<Use>) {
    after == before + [Slept(from, from + wait)] + Reacquiring(elastic, warmOnly, retry, denied)
  }

  ghost predicate PreparedSomehow(before: seq<Use>, elastic: bool, warmOnly: bool, retry: Ticket,
                                  denied: Option<Reason>, after: seq<Use>) {
    exists from, wait :: wait > 0 && Prepared(before, from, wait, elastic, warmOnly, retry, denied, after)
  }

  /** The wait that the reply asked for, or 100ms if it named none, was slept through. */
  ghost predicate WaitedAsAsked(last: Reply, before: seq<Use>, after: seq<Use>) {
    && before < after && after[|before|].Slept?
    && after[|before|].until - after[|before|].from
       == if last.Failed? && last.retryAfter > 0 then last.retryAfter else 100_000_000
  }

  lemma AsAsked(last: Reply, before: seq<Use>, from: int, more: seq<Use>)
    ensures WaitedAsAsked(last, before, before + [Slept(from, from + WaitOf(RetryAfterOf(last)))] + more)
  {
  }

  lemma AskedSince(last: Reply, before: seq<Use>, between: seq<Use>, after: seq<Use>)
    requires WaitedAsAsked(last, before, between) && between <= after
    ensures WaitedAsAsked(last, before, after)
  {
  }

  /** Waits out the provider's retry time, then takes what a retry needs. */
  method Prepare(env: Env, p: string, warmOnly: bool, last: Reply, deadline: int)
    returns (awake: bool, retry: Ticket, denied: Option<Reason>)
    requires env.Valid() && p in env.Capable()
    modifies env`cursor, env`now, env`nextTicket, env`held, env`used
    ensures env.Valid() && env.now >= old(env.now) && Carries(old(env.held), env.held, retry)
    ensures awake ==> Left(deadline, env.now) < Left(deadline, old(env.now))
    ensures !awake || denied.Some? ==> retry.None?
    ensures denied.Some? ==> denied.value == if warmOnly then ReasonNoCapacity else ReasonRateLimited
    ensures awake && denied.None? && warmOnly ==> retry.Some?
    ensures awake ==>
      && WaitedAsAsked(last, old(env.used), env.used)
      && PreparedSomehow(old(env.used), env.targets[p].elastic, warmOnly, retry, denied, env.used)
    ensures InTime(old(env.used), env.used, deadline)
    ensures !awake ==> Halted(old(env.used), env.used, env.now, deadline)
  {
    ghost var wait := WaitOf(RetryAfterOf(last));
    awake := Linger(env, RetryAfterOf(last), deadline);
    if !awake { return false, None, None; }
    ghost var from :| SleptThrough(old(env.now), old(env.used), from, wait, env.now, env.used);
    retry, denied := Reacquire(env, p, warmOnly);
    assert Prepared(old(env.used), from, wait, env.targets[p].elastic, warmOnly, retry, denied, env.used);
    AsAsked(last, old(env.used), from, Reacquiring(env.targets[p].elastic, warmOnly, retry, denied));
  }

  // ----- the recovery step ----------------------------------------------------------------------------

  method Recheck(env: Env, p: string, ghost pin: Option<string>, ghost maySpill: bool) returns (r: Reply)
    requires env.Valid() && p in env.Capable() && env.flight.pc == Recovering(p, pin, maySpill)
    modifies env`cursor, env`now, env`flight
    ensures env.Valid() && env.flight.pc == AfterRecheck(p, r, pin, maySpill) && env.now >= old(env.now)
    ensures env.flight.log.events == old(env.flight.log.events) + [Looked(p, r)] && env.Last() == Some(Looked(p, r))
    ensures r.Claimed? ==> r.handle.provider == p
  {
    r := env.Lookup(p, (r: Reply) => AfterRecheck(p, r, pin, maySpill));
  }

  /** Claims again once it is known that nothing was created, if there is still time to; without a
      warm ticket, or on an elastic provider, only with a rate token. */
  method ClaimAgain(env: Env, p: string, ghost pin: Option<string>, warmTicket: Ticket, deadline: int,
                    ghost maySpill: bool)
    returns (reply: Option<Reply>)
    requires env.Valid() && p in env.Capable() && env.flight.pc == Confirmed(p, pin, maySpill)
    modifies env`cursor, env`now, env`flight, env`calls, env`used
    ensures env.Valid() && env.now >= old(env.now) && InTime(old(env.used), env.used, deadline)
    ensures reply.None? ==> Halted(old(env.used), env.used, env.now, deadline)
    ensures reply.None? ==>
      env.flight.pc == old(env.flight.pc) && env.flight.log == old(env.flight.log) && env.calls == old(env.calls)
    ensures reply.Some? ==>
      && old(env.now) < deadline
      && (env.targets[p].elastic || warmTicket.None? ==> DrewOn(ClaimRate, old(env.used), env.used))
      && Sent(env, p, pin, maySpill, old(env.calls.spilled), reply.value) && old(env.calls.sent) < env.calls.sent
      && env.flight.log.events == old(env.flight.log.events) + [Tried(p, reply.value)]
  {
    var go := StillOpen(env, deadline);
    if !go { return None; }
    if env.targets[p].elastic || warmTicket.None? {
      go := AwaitToken(env, ClaimRate, deadline);
      if !go { return None; }
    }
    var r := env.Claim(p, pin, maySpill);
    return Some(r);
  }

  /** A claim on `p` was the last thing the flight did, and `r` its reply. */
  ghost predicate Sent(env: Env, p: string, pin: Option<string>, maySpill: bool, spilled: map<string, Kind>, r: Reply)
    reads env`flight, env`held, env`calls
  {
    && env.flight.pc == AfterTry(p, r, pin, maySpill) && env.calls.held == env.held && env.Last() == Some(Tried(p, r))
    && if r.Claimed? then r.handle.provider == p && env.calls.spilled == spilled
       else env.calls.answered == KindOf(r) && env.calls.spilled == SpilledBy(spilled, p, env.calls.answered)
  }

  /** What one recovery step finds out. */
  datatype Finding =
    | Stuck                                        // no time, budget or token left
    | StillUnknown
    | StillDeleting(reply: Reply)                  // the key's previous sandbox
    | Resolved(out: Outcome, action: Action)

  /** One step of a recovery: waits, looks, and claims again if nothing was created. */
  method RecoveryStep(env: Env, p: string, ghost pin: Option<string>, warmOnly: bool, warmTicket: Ticket, step: nat,
                      deadline: int, maySpill: bool, ghost before: set<nat>)
    returns (found: Finding)
    requires env.Valid() && p in env.Capable() && env.flight.pc == Recovering(p, pin, maySpill)
    requires Carries(before, env.held, warmTicket) && env.calls.held == env.held && env.calls.answered.UnknownOutcome?
    requires warmOnly && !env.targets[p].elastic ==> warmTicket.Some?
    modifies env`cursor, env`now, env`held, env`flight, env`calls, env`used
    ensures env.Valid() && env.now >= old(env.now) && old(env.calls.sent) <= env.calls.sent
    ensures !found.Stuck? ==>
      Left(deadline, env.now) < Left(deadline, old(env.now)) && Rested(step, old(env.used), env.used)
    ensures found.Stuck? ==> Halted(old(env.used), env.used, env.now, deadline)
    ensures !found.Stuck? ==> LookedFirst(p, old(env.flight.log.events), env.flight.log.events)
    ensures |old(env.flight.log.events)| <= |env.flight.log.events|
    ensures InTime(old(env.used), env.used, deadline)
    ensures !found.Stuck? ==> Heeds(env.Last(), maySpill, found)
    ensures Finds(env, p, pin, warmOnly, maySpill, before, old(env.held), old(env.calls.spilled), found)
  {
    var go := BackOff(env, step, deadline);
    if !go { return Stuck; }
    ghost var rested := env.used;
    found := LookAndTry(env, p, pin, warmOnly, warmTicket, deadline, maySpill, before);
    InTimeOn(old(env.used), rested, env.used, deadline);
    RestedStays(step, old(env.used), rested, env.used);
  }

  /** Looks, and claims again if nothing was created. */
  method LookAndTry(env: Env, p: string, ghost pin: Option<string>, warmOnly: bool, warmTicket: Ticket, deadline: int,
                    maySpill: bool, ghost before: set<nat>)
    returns (found: Finding)
    requires env.Valid() && p in env.Capable() && env.flight.pc == Recovering(p, pin, maySpill)
    requires Carries(before, env.held, warmTicket) && env.calls.held == env.held && env.calls.answered.UnknownOutcome?
    requires warmOnly && !env.targets[p].elastic ==> warmTicket.Some?
    modifies env`cursor, env`now, env`held, env`flight, env`calls, env`used
    ensures env.Valid() && env.now >= old(env.now) && old(env.calls.sent) <= env.calls.sent
    ensures |old(env.flight.log.events)| <= |env.flight.log.events|
    ensures InTime(old(env.used), env.used, deadline)
    ensures if found.Stuck? then Halted(old(env.used), env.used, env.now, deadline)
            else LookedFirst(p, old(env.flight.log.events), env.flight.log.events)
    ensures !found.Stuck? ==> Heeds(env.Last(), maySpill, found)
    ensures Finds(env, p, pin, warmOnly, maySpill, before, old(env.held), old(env.calls.spilled), found)
  {
    ghost var events := env.flight.log.events;
    var settled, r := LookAgain(env, p, pin, warmOnly, warmTicket, maySpill, before);
    assert settled.Some? ==> Checked(p, r, events, env.flight.log.events);
    if settled.Some? { return settled.value; }
    found := TryAgain(env, p, pin, warmOnly, warmTicket, deadline, maySpill, before);
    if !found.Stuck? {
      ghost var again :| env.flight.log.events == events + [Looked(p, NotFound)] + [Tried(p, again)];
      assert env.flight.log.events == events + [Looked(p, NotFound), Tried(p, again)];
    }
  }

  lemma RestedStays(step: nat, before: seq<Use>, after: seq<Use>, later: seq<Use>)
    requires Rested(step, before, after) && after <= later
    ensures Rested(step, before, later)
  {
    var from, until :| BackedOff(step, before, from, until, after);
    assert BackedOff(step, before, from, until, later);
  }

  /** The provider was asked about the key, and claimed on exactly if it did not have it. */
  ghost predicate LookedFirst(p: string, before: seq<Event>, after: seq<Event>) {
    || (exists r :: Checked(p, r, before, after))
    || (exists r :: after == before + [Looked(p, NotFound), Tried(p, r)])
  }

  ghost predicate Checked(p: string, r: Reply, before: seq<Event>, after: seq<Event>) {
    !r.NotFound? && after == before + [Looked(p, r)]
  }

  /** Where one step of a recovery may leave the flight. */
  ghost predicate Finds(env: Env, p: string, pin: Option<string>, warmOnly: bool, maySpill: bool, before: set<nat>,
                        held: set<nat>, spilled: map<string, Kind>, found: Finding)
    reads env`held, env`calls, env`flight
  {
    match found
    case Stuck =>
      && !env.flight.pc.Done? && !env.flight.pc.Deciding? && env.held == env.calls.held == held
      && env.calls.answered.UnknownOutcome?
    case StillUnknown =>
      && env.flight.pc == Recovering(p, pin, maySpill) && env.calls.answered.UnknownOutcome?
      && env.held == env.calls.held == held && env.calls.spilled == spilled
    case StillDeleting(reply) =>
      && env.flight.pc == Draining(p) && env.held == before && env.calls.answered.KeyBusy?
      && env.Last() == Some(Tried(p, reply))
    case Resolved(out, action) =>
      && Leaves(env, p, pin, warmOnly, maySpill, before, spilled, out, action)
      && Reported(env.Last(), env.calls.answered, p, out) && !Unsettled(out)
  }

  /** What a step of an attempt makes of the reply it heard last, to a lookup or to a claim. */
  predicate Heeds(last: Option<Event>, maySpill: bool, found: Finding) {
    match last
    case Some(Looked(_, r)) =>
      if r.Claimed? then found.Resolved? && found.out.Success?
      else if r.Failed? && r.kind == KeyConflict then found == Resolved(Failure(ReasonSpecMismatch), AttemptDone)
      else found == StillUnknown
    case Some(Tried(_, r)) =>
      if r.Claimed? then found.Resolved? && found.out.Success?
      else if r.NotFound? || r.kind == UnknownOutcome then found == StillUnknown
      else if r.kind == KeyBusy then found == StillDeleting(r)
      else if r.kind == KeyConflict then found == Resolved(Failure(ReasonSpecMismatch), AttemptDone)
      else found.Resolved? && found.out.Failure? && found.action == if maySpill then Spill else AttemptDone
    case _ => false
  }

  /** Answers that leave it open what became of the claim. */
  predicate Unsettled(out: Outcome) {
    out == Failure(ReasonUnknownOutcome) || out == Failure(ReasonKeyBusy)
  }

  /** Looks the key up on the provider; nothing is settled yet if it is not there. */
  method LookAgain(env: Env, p: string, ghost pin: Option<string>, warmOnly: bool, warmTicket: Ticket,
                   ghost maySpill: bool, ghost before: set<nat>)
    returns (found: Option<Finding>, ghost reply: Reply)
    requires env.Valid() && p in env.Capable() && env.flight.pc == Recovering(p, pin, maySpill)
    requires Carries(before, env.held, warmTicket) && env.calls.held == env.held && env.calls.answered.UnknownOutcome?
    modifies env`cursor, env`now, env`held, env`flight
    ensures env.Valid() && env.now >= old(env.now) && old(env.calls.sent) <= env.calls.sent
    ensures env.flight.log.events == old(env.flight.log.events) + [Looked(p, reply)]
    ensures found.None? <==> reply.NotFound?
    ensures if found.None? then env.flight.pc == Confirmed(p, pin, maySpill) && env.held == old(env.held)
            else (&& !found.value.Stuck?
                  && Heeds(env.Last(), maySpill, found.value)
                  && Finds(env, p, pin, warmOnly, maySpill, before, old(env.held), env.calls.spilled, found.value))
  {
    var looked := Recheck(env, p, pin, maySpill);
    reply := looked;
    if looked.NotFound? {
      found := None;
    } else if looked.Claimed? {
      found := Some(Resolved(Success(Result(looked.handle, true, warmTicket.Some?)), AttemptDone));
    } else if looked.kind.KeyConflict? {
      var conflict := Refuse(env, KeyConflict, warmTicket, before);
      found := Some(Resolved(conflict, AttemptDone));
    } else {
      found := Some(StillUnknown);
    }
  }

  method TryAgain(env: Env, p: string, ghost pin: Option<string>, warmOnly: bool, warmTicket: Ticket, deadline: int,
                  maySpill: bool, ghost before: set<nat>)
    returns (found: Finding)
    requires env.Valid() && p in env.Capable() && env.flight.pc == Confirmed(p, pin, maySpill)
    requires Carries(before, env.held, warmTicket) && env.calls.held == env.held && env.calls.answered.UnknownOutcome?
    requires warmOnly && !env.targets[p].elastic ==> warmTicket.Some?
    modifies env`cursor, env`now, env`held, env`flight, env`calls, env`used
    ensures env.Valid() && env.now >= old(env.now) && old(env.calls.sent) <= env.calls.sent
    ensures |old(env.flight.log.events)| <= |env.flight.log.events|
    ensures InTime(old(env.used), env.used, deadline)
    ensures found.Stuck? ==> Halted(old(env.used), env.used, env.now, deadline)
    ensures !found.Stuck? ==> exists r :: env.flight.log.events == old(env.flight.log.events) + [Tried(p, r)]
    ensures !found.Stuck? ==> Heeds(env.Last(), maySpill, found)
    ensures Finds(env, p, pin, warmOnly, maySpill, before, old(env.held), old(env.calls.spilled), found)
  {
    var again := ClaimAgain(env, p, pin, warmTicket, deadline, maySpill);
    if again.None? { return Stuck; }
    found := Settle(env, p, pin, warmOnly, warmTicket, again.value, maySpill, before, old(env.calls.spilled));
  }

  /** A refusal of a claim is final, or a spill if one is allowed. */
  method Decline(env: Env, p: string, ghost pin: Option<string>, warmOnly: bool, warmTicket: Ticket, reply: Reply,
                 maySpill: bool, ghost before: set<nat>, ghost spilled: map<string, Kind>)
    returns (found: Finding)
    requires env.Valid() && Carries(before, env.held, warmTicket)
    requires Sent(env, p, pin, maySpill, spilled, reply)
    requires !reply.Claimed? && !KindOf(reply).UnknownOutcome? && !KindOf(reply).KeyBusy?
    modifies env`held
    ensures env.Valid() && found.Resolved?
    ensures Heeds(env.Last(), maySpill, found)
    ensures Finds(env, p, pin, warmOnly, maySpill, before, old(env.held), spilled, found)
  {
    var refusal := KindOf(reply);
    var out := Refuse(env, refusal, warmTicket, before);
    found := Resolved(out, if maySpill && !refusal.KeyConflict? then Spill else AttemptDone);
  }

  /** What the reply to a claim comes to. */
  method Settle(env: Env, p: string, ghost pin: Option<string>, warmOnly: bool, warmTicket: Ticket, reply: Reply,
                maySpill: bool, ghost before: set<nat>, ghost spilled: map<string, Kind>)
    returns (found: Finding)
    requires env.Valid() && Carries(before, env.held, warmTicket)
    requires Sent(env, p, pin, maySpill, spilled, reply)
    requires warmOnly && p in env.targets && !env.targets[p].elastic ==> warmTicket.Some?
    modifies env`held
    ensures env.Valid()
    ensures !found.Stuck? && (found.StillDeleting? ==> found.reply == reply)
    ensures Heeds(env.Last(), maySpill, found)
    ensures Finds(env, p, pin, warmOnly, maySpill, before, old(env.held), spilled, found)
  {
    if reply.Claimed? {
      found := Resolved(Success(Result(reply.handle, false, warmTicket.Some?)), AttemptDone);
    } else {
      match KindOf(reply)
      case UnknownOutcome => found := StillUnknown;
      case KeyBusy =>
        GiveBack(env, warmTicket, before);
        found := StillDeleting(reply);
      case _ => found := Decline(env, p, pin, warmOnly, warmTicket, reply, maySpill, before, spilled);
    }
  }

  /** Sends a claim with the ticket at hand and settles what its reply comes to. */
  method ClaimNow(env: Env, p: string, ghost pin: Option<string>, warmOnly: bool, t: Ticket, maySpill: bool,
                  ghost before: set<nat>)
    returns (found: Finding)
    requires env.Valid() && p in env.Capable()
    requires MayTry(env.flight.pc, p, pin, maySpill) && Carries(before, env.held, t)
    requires warmOnly && !env.targets[p].elastic ==> t.Some?
    modifies env`cursor, env`now, env`held, env`flight, env`calls
    ensures env.Valid() && env.now >= old(env.now) && !found.Stuck?
    ensures env.calls.sent == old(env.calls.sent) + [old(env.held)]
    ensures |env.flight.log.events| == |old(env.flight.log.events)| + 1
    ensures !found.Stuck? ==> Heeds(env.Last(), maySpill, found)
    ensures Finds(env, p, pin, warmOnly, maySpill, before, old(env.held), old(env.calls.spilled), found)
  {
    var reply := env.Claim(p, pin, maySpill);
    found := Settle(env, p, pin, warmOnly, t, reply, maySpill, before, old(env.calls.spilled));
  }

  // ----- the three calls -----------------------------------------------------------------------------

  /** Retries a claim on the provider that is still deleting the key's previous sandbox, within
      the deadline; never spills. */
  method RetryPinnedKeyBusy(env: Env, p: string, warmOnly: bool, deadline: int, initial: Reply) returns (out: Outcome)
    requires env.Valid() && p in env.Capable() && env.flight.pc == Draining(p) && env.calls.answered.KeyBusy?
    requires env.Last() == Some(Tried(p, initial))
    modifies env`cursor, env`now, env`nextTicket, env`held
    modifies env`flight, env`calls, env`used
    ensures env.Valid() && env.now >= old(env.now) && old(env.calls.sent) <= env.calls.sent
    ensures Ended(env.flight.pc, out) && Good(env.targets, p, warmOnly, out) && Accounted(env, old(env.held), out)
    ensures |old(env.flight.log.events)| <= |env.flight.log.events|
    ensures InTime(old(env.used), env.used, deadline)
    ensures Justified(env, p, warmOnly, old(env.used), deadline, out)
    decreases Left(deadline, env.now), 1
  {
    var last := initial;
    while true
      invariant env.Valid() && env.flight.pc == Draining(p) && env.held == old(env.held) && env.calls.answered.KeyBusy?
      invariant env.Last() == Some(Tried(p, last))
      invariant env.now >= old(env.now) && old(env.calls.sent) <= env.calls.sent
      invariant |old(env.flight.log.events)| <= |env.flight.log.events|
      invariant InTime(old(env.used), env.used, deadline)
      decreases Left(deadline, env.now)
    {
      ghost var sofar := env.used;
      var found := RetryOnce(env, p, warmOnly, deadline, last);
      InTimeOn(old(env.used), sofar, env.used, deadline);
      match found
      case StillDeleting(reply) => last := reply;
      case Resolved(answer, _) =>
        JustifiedSince(env, p, warmOnly, old(env.used), sofar, deadline, answer);
        return answer;
      case _ => break;
    }
    env.GiveUp();
    return Failure(ReasonKeyBusy);
  }

  /** A retry that was denied ends the flight. */
  method Deny(env: Env, p: string, warmOnly: bool, why: Reason, ghost deadline: int, ghost since: seq<Use>)
    returns (found: Finding)
    requires env.Valid() && p in env.Capable() && env.flight.pc == Draining(p) && env.calls.answered.KeyBusy?
    requires why == if warmOnly then ReasonNoCapacity else ReasonRateLimited
    requires PreparedSomehow(since, env.targets[p].elastic, warmOnly, None, Some(why), env.used)
    modifies env`flight
    ensures env.Valid() && found == Resolved(Failure(why), AttemptDone) && Ended(env.flight.pc, found.out)
    ensures |old(env.flight.log.events)| <= |env.flight.log.events|
    ensures Justified(env, p, warmOnly, since, deadline, found.out)
  {
    DeniedThen(since, env.targets[p].elastic, warmOnly, why, env.used);
    env.GiveUp();
    found := Resolved(Failure(why), AttemptDone);
  }

  /** One retry, with the recovery of its outcome if that is unknown. */
  method RetryOnce(env: Env, p: string, warmOnly: bool, deadline: int, last: Reply) returns (found: Finding)
    requires env.Valid() && p in env.Capable() && env.flight.pc == Draining(p) && env.calls.answered.KeyBusy?
    requires env.Last() == Some(Tried(p, last))
    modifies env`cursor, env`now, env`nextTicket, env`held
    modifies env`flight, env`calls, env`used
    ensures env.Valid() && env.now >= old(env.now) && old(env.calls.sent) <= env.calls.sent
    ensures |old(env.flight.log.events)| <= |env.flight.log.events|
    ensures InTime(old(env.used), env.used, deadline) && !found.StillUnknown?
    ensures !found.Resolved? ==>
      env.flight.pc == Draining(p) && env.held == old(env.held) && env.calls.answered.KeyBusy?
    ensures if found.Stuck? then Halted(old(env.used), env.used, env.now, deadline)
            else WaitedAsAsked(last, old(env.used), env.used)
    ensures found.StillDeleting? ==>
      Left(deadline, env.now) < Left(deadline, old(env.now)) && env.Last() == Some(Tried(p, found.reply))
    ensures found.Resolved? ==>
      && Ended(env.flight.pc, found.out) && Good(env.targets, p, warmOnly, found.out)
      && Accounted(env, old(env.held), found.out)
      && Justified(env, p, warmOnly, old(env.used), deadline, found.out)
    decreases Left(deadline, env.now), 0
  {
    var awake, retry, denied := Prepare(env, p, warmOnly, last, deadline);
    if !awake {
      found := Stuck;
    } else if denied.Some? {
      found := Deny(env, p, warmOnly, denied.value, deadline, old(env.used));
    } else {
      found := RetryClaim(env, p, warmOnly, retry, deadline, old(env.held), last, old(env.used));
    }
  }

  /** The claim of a retry, with the recovery of its outcome if that is unknown. */
  method RetryClaim(env: Env, p: string, warmOnly: bool, retry: Ticket, deadline: int, ghost before: set<nat>,
                    ghost last: Reply, ghost since: seq<Use>)
    returns (found: Finding)
    requires InTime(since, env.used, deadline) && WaitedAsAsked(last, since, env.used)
    requires env.Valid() && p in env.Capable() && env.flight.pc == Draining(p) && Carries(before, env.held, retry)
    requires warmOnly ==> retry.Some?
    modifies env`cursor, env`now, env`nextTicket, env`held
    modifies env`flight, env`calls, env`used
    ensures env.Valid() && env.now >= old(env.now) && old(env.calls.sent) < env.calls.sent
    ensures |old(env.flight.log.events)| <= |env.flight.log.events|
    ensures InTime(since, env.used, deadline) && WaitedAsAsked(last, since, env.used)
    ensures found.Resolved? || found.StillDeleting?
    ensures found.StillDeleting? ==>
      && env.flight.pc == Draining(p) && env.held == before && env.calls.answered.KeyBusy?
      && env.Last() == Some(Tried(p, found.reply))
    ensures found.Resolved? ==>
      && Ended(env.flight.pc, found.out) && Good(env.targets, p, warmOnly, found.out)
      && Accounted(env, before, found.out) && Justified(env, p, warmOnly, since, deadline, found.out)
    decreases Left(deadline, env.now), 2
  {
    found := ClaimNow(env, p, Some(p), warmOnly, retry, false, before);
    if found.StillUnknown? {
      var out, action;
      out, action := RecoverUnknownOutcome(env, p, Some(p), warmOnly, retry, deadline, false, before);
      found := Resolved(out, action);
      InTimeOn(since, old(env.used), env.used, deadline);
      AskedSince(last, since, old(env.used), env.used);
      JustifiedSince(env, p, warmOnly, since, old(env.used), deadline, out);
    }
  }

  /** Finds out whether a claim whose outcome is unknown took effect, and claims again on the
      same provider once it is known not to have. */
  method RecoverUnknownOutcome(env: Env, p: string, ghost pin: Option<string>, warmOnly: bool, warmTicket: Ticket,
                               deadline: int, maySpill: bool, ghost before: set<nat>)
    returns (out: Outcome, action: Action)
    requires env.Valid() && p in env.Capable() && env.flight.pc == Recovering(p, pin, maySpill)
    requires Carries(before, env.held, warmTicket) && env.calls.held == env.held && env.calls.answered.UnknownOutcome?
    requires warmOnly && !env.targets[p].elastic ==> warmTicket.Some?
    modifies env`cursor, env`now, env`nextTicket, env`held
    modifies env`flight, env`calls, env`used
    ensures env.Valid() && env.now >= old(env.now) && old(env.calls.sent) <= env.calls.sent
    ensures Leaves(env, p, pin, warmOnly, maySpill, before, old(env.calls.spilled), out, action)
    ensures |old(env.flight.log.events)| <= |env.flight.log.events|
    ensures InTime(old(env.used), env.used, deadline)
    ensures Justified(env, p, warmOnly, old(env.used), deadline, out)
    decreases Left(deadline, env.now), 1
  {
    var step := 0;
    while true
      invariant env.Valid() && env.flight.pc == Recovering(p, pin, maySpill) && env.calls.answered.UnknownOutcome?
      invariant env.held == env.calls.held == old(env.held) && env.calls.spilled == old(env.calls.spilled)
      invariant env.now >= old(env.now) && old(env.calls.sent) <= env.calls.sent
      invariant |old(env.flight.log.events)| <= |env.flight.log.events|
      invariant InTime(old(env.used), env.used, deadline)
      decreases Left(deadline, env.now)
    {
      ghost var sofar := env.used;
      var found := RecoverOnce(env, p, pin, warmOnly, warmTicket, step, deadline, maySpill, before);
      InTimeOn(old(env.used), sofar, env.used, deadline);
      match found
      case StillUnknown => step := step + 1;
      case Resolved(answer, act) =>
        JustifiedSince(env, p, warmOnly, old(env.used), sofar, deadline, answer);
        return answer, act;
      case _ => break;
    }
    env.GiveUp();
    return Failure(ReasonUnknownOutcome), AttemptDone;
  }

  /** One recovery step, with the retries that follow if the key turns out to be in deletion. */
  method RecoverOnce(env: Env, p: string, ghost pin: Option<string>, warmOnly: bool, warmTicket: Ticket, step: nat,
                     deadline: int, maySpill: bool, ghost before: set<nat>)
    returns (found: Finding)
    requires env.Valid() && p in env.Capable() && env.flight.pc == Recovering(p, pin, maySpill)
    requires Carries(before, env.held, warmTicket) && env.calls.held == env.held && env.calls.answered.UnknownOutcome?
    requires warmOnly && !env.targets[p].elastic ==> warmTicket.Some?
    modifies env`cursor, env`now, env`nextTicket, env`held
    modifies env`flight, env`calls, env`used
    ensures env.Valid() && env.now >= old(env.now) && old(env.calls.sent) <= env.calls.sent
    ensures |old(env.flight.log.events)| <= |env.flight.log.events|
    ensures InTime(old(env.used), env.used, deadline) && !found.StillDeleting?
    ensures found.Stuck? ==> Halted(old(env.used), env.used, env.now, deadline)
    ensures found.StillUnknown? ==> Left(deadline, env.now) < Left(deadline, old(env.now))
    ensures !found.Resolved? ==>
      Finds(env, p, pin, warmOnly, maySpill, before, old(env.held), old(env.calls.spilled), found)
    ensures found.Resolved? ==>
      && Leaves(env, p, pin, warmOnly, maySpill, before, old(env.calls.spilled), found.out, found.action)
      && Justified(env, p, warmOnly, old(env.used), deadline, found.out)
    decreases Left(deadline, env.now), 0
  {
    found := RecoveryStep(env, p, pin, warmOnly, warmTicket, step, deadline, maySpill, before);
    if found.StillDeleting? {
      ghost var sofar := env.used;
      var out := RetryPinnedKeyBusy(env, p, warmOnly, deadline, found.reply);
      InTimeOn(old(env.used), sofar, env.used, deadline);
      JustifiedSince(env, p, warmOnly, old(env.used), sofar, deadline, out);
      found := Resolved(out, AttemptDone);
    }
  }

  /** A cluster provider seen warm is claimed on with a reservation. */
  predicate CountsOnWarm(hadWarm: bool, target: Target) {
    hadWarm && !target.elastic
  }

  function Acquiring(warm: bool, acquired: bool, t: Ticket): Use {
    if warm then Answered(t) else if acquired then Took(ClaimRate) else Refused(ClaimRate)
  }

  /** Reserves the warm sandbox the decision counted on, or else takes a rate token; either may have
      gone to another request. */
  method Acquire(env: Env, p: string, hadWarm: bool) returns (acquired: bool, t: Ticket)
    requires env.Valid() && p in env.Capable()
    modifies env`cursor, env`nextTicket, env`held, env`used
    ensures env.Valid() && Carries(old(env.held), env.held, t)
    ensures t.Some? <==> acquired && CountsOnWarm(hadWarm, env.targets[p])
    ensures env.used == old(env.used) + [Acquiring(CountsOnWarm(hadWarm, env.targets[p]), acquired, t)]
  {
    t := None;
    if !env.targets[p].elastic && hadWarm {
      t := env.TryReserve();
      acquired := t.Some?;
    } else {
      acquired := env.TakeToken(ClaimRate);
    }
  }

  /** Acquires what the claim needs, and sends it. */
  method ClaimFirst(env: Env, p: string, ghost pin: Option<string>, hadWarm: bool, warmOnly: bool)
    returns (acquired: bool, t: Ticket, found: Finding)
    requires env.Valid() && p in env.Capable() && env.flight.pc == Placing(pin) && Allows(pin, p)
    requires warmOnly ==> hadWarm
    modifies env`cursor, env`now, env`nextTicket, env`held
    modifies env`flight, env`calls, env`used
    ensures env.Valid() && env.now >= old(env.now)
    ensures env.used == old(env.used) + [Acquiring(CountsOnWarm(hadWarm, env.targets[p]), acquired, t)]
    ensures !acquired ==>
      && t.None? && env.held == old(env.held) && env.flight == old(env.flight) && env.calls == old(env.calls)
    ensures acquired ==>
      && Claims(env, CountsOnWarm(hadWarm, env.targets[p]), old(env.used), old(env.held), old(env.calls.sent), t)
      && |env.flight.log.events| > |old(env.flight.log.events)|
      && !found.Stuck? && (warmOnly && !env.targets[p].elastic ==> t.Some?)
      && (found.StillUnknown? ==> Carries(old(env.held), env.held, t))
      && Finds(env, p, pin, warmOnly, true, old(env.held), env.held, old(env.calls.spilled), found)
  {
    acquired, t := Acquire(env, p, hadWarm);
    found := Stuck;
    if !acquired { return; }
    found := ClaimNow(env, p, pin, warmOnly, t, true, old(env.held));
  }

  /** Sees an attempt to its end once its claim was answered. */
  method Pursue(env: Env, p: string, ghost pin: Option<string>, warmOnly: bool, warmTicket: Ticket, deadline: int,
                found: Finding, ghost before: set<nat>, ghost spilled: map<string, Kind>)
    returns (out: Outcome, action: Action)
    requires env.Valid() && p in env.Capable() && !found.Stuck?
    requires found.StillUnknown? ==> Carries(before, env.held, warmTicket)
    requires warmOnly && !env.targets[p].elastic ==> warmTicket.Some?
    requires Finds(env, p, pin, warmOnly, true, before, env.held, spilled, found)
    modifies env`cursor, env`now, env`nextTicket, env`held
    modifies env`flight, env`calls, env`used
    ensures env.Valid() && env.now >= old(env.now) && old(env.calls.sent) <= env.calls.sent
    ensures Leaves(env, p, pin, warmOnly, true, before, spilled, out, action)
    ensures |old(env.flight.log.events)| <= |env.flight.log.events|
    ensures InTime(old(env.used), env.used, deadline)
    ensures Justified(env, p, warmOnly, old(env.used), deadline, out)
  {
    match found
    case StillDeleting(r) =>
      out := RetryPinnedKeyBusy(env, p, warmOnly, deadline, r);
      return out, AttemptDone;
    case StillUnknown =>
      out, action := RecoverUnknownOutcome(env, p, pin, warmOnly, warmTicket, deadline, true, before);
    case Resolved(answer, act) => return answer, act;
  }

  /** The first claim of an attempt was sent with the warm reservation just made, `t`, or else with
      none and with a rate token taken for it. */
  ghost predicate Claims(env: Env, warm: bool, used: seq<Use>, held: set<nat>, sent: seq<set<nat>>, t: Ticket)
    reads env`used, env`calls
  {
    && (t.Some? <==> warm) && Holding(t) !! held
    && used + [Acquiring(warm, true, t)] <= env.used
    && sent < env.calls.sent && env.calls.sent[|sent|] == held + Holding(t)
  }

  /** One attempt on a placed provider. */
  method AttemptProvider(env: Env, p: string, ghost pin: Option<string>, hadWarm: bool, warmOnly: bool, deadline: int)
    returns (out: Outcome, action: Action)
    requires env.Valid() && p in env.Capable() && env.flight.pc == Placing(pin) && Allows(pin, p)
    requires warmOnly ==> hadWarm
    modifies env`cursor, env`now, env`nextTicket, env`held
    modifies env`flight, env`attempt, env`calls, env`used
    ensures env.Valid() && env.now >= old(env.now) && old(env.calls.sent) <= env.calls.sent
    ensures if action.RetryDecision? then
        && env.flight.pc == Placing(pin) && env.flight.log == old(env.flight.log)
        && env.held == old(env.held) && env.calls.spilled == old(env.calls.spilled)
      else
        && Leaves(env, p, pin, warmOnly, true, old(env.held), old(env.calls.spilled), out, action)
        && old(env.calls.sent) < env.calls.sent
        && exists t :: Claims(env, CountsOnWarm(hadWarm, env.targets[p]), old(env.used), old(env.held),
                              old(env.calls.sent), t)
    ensures action.RetryDecision? ==>
      env.used == old(env.used) + [Acquiring(CountsOnWarm(hadWarm, env.targets[p]), false, None)]
    ensures InTime(old(env.used), env.used, deadline)
    ensures !action.RetryDecision? ==> Justified(env, p, warmOnly, old(env.used), deadline, out)
    ensures env.attempt == old(env.flight.log) && (action.RetryDecision? <==> env.Attempt() == [])
    ensures action.Spill? <==> CreatedNothing(env.Attempt())
  {
    env.BeginAttempt();
    var acquired, warmTicket, found := ClaimFirst(env, p, pin, hadWarm, warmOnly);
    if !acquired { return Failure(ReasonNoCapacity), RetryDecision; }
    ghost var drawn, warm := env.used, CountsOnWarm(hadWarm, env.targets[p]);
    out, action := Pursue(env, p, pin, warmOnly, warmTicket, deadline, found, old(env.held), old(env.calls.spilled));
    InTimeOn(old(env.used), drawn, env.used, deadline);
    JustifiedSince(env, p, warmOnly, old(env.used), drawn, deadline, out);
    env.AttemptMakesWay(pin);
    assert Claims(env, warm, old(env.used), old(env.held), old(env.calls.sent), warmTicket);
  }
}
