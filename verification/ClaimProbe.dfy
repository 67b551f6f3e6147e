/** The lookups before a claim: of the provider the caller pinned, or of every provider. */
module ClaimProbe {
  import opened Text
  import opened Policies
  import opened ClaimProtocol
  import opened ClaimEnv
  import opened ClaimAttempt
  import opened ClaimVetting

  /** What a lookup round leads to: an answer, or a claim, perhaps on one provider only. */
  datatype Probe = Answer(out: Outcome) | ClaimOn(pin: Option<string>)

  ghost predicate Settled(env: Env, policy: Policy, wants: Wants, probe: Probe, since: nat)
    reads env`flight, env`seen
  {
    match probe
    case Answer(out) =>
      Ended(env.flight.pc, out) && Sound(policy, wants, env.targets, out, env.seen, since)
      && (out.Success? ==> out.result.replay && !out.result.warm)
    case ClaimOn(pin) => env.flight.pc == Placing(pin)
  }

  // ----- tokens ---------------------------------------------------------------------------------------

  /** Why a round was not begun: no time, no token, none soon enough, or cancelled while waiting. */
  ghost predicate TokensDenied(deadline: int, now: int, before: seq<Use>, after: seq<Use>, why: Reason) {
    if why.ReasonRateLimited? then
      || (now >= deadline && after == before)
      || after == before + [Refused(LookupRate)]
      || exists delay :: after == before + [Promised(LookupRate, delay)] && now + delay > deadline
    else
      && why.ReasonUnknownOutcome?
      && exists delay, from, until :: after == before + [Promised(LookupRate, delay)] + [CutShort(from, until)]
  }

  /** The tokens were promised to come before the deadline, and waited for. */
  ghost predicate Granted(asked: int, deadline: int, before: seq<Use>, now: int, after: seq<Use>) {
    && DrewOn(LookupRate, before, after) && Due(asked, before, now, after)
    && asked < deadline && asked + after[|before|].delay <= deadline
  }

  /** Waits for the lookup tokens of a round, all or none. */
  method AwaitLookupTokens(env: Env, deadline: int) returns (denied: Option<Reason>)
    modifies env`cursor, env`now, env`used
    ensures env.now >= old(env.now)
    ensures if denied.Some? then TokensDenied(deadline, env.now, old(env.used), env.used, denied.value)
            else Granted(old(env.now), deadline, old(env.used), env.now, env.used)
  {
    var now := env.Now();
    if deadline - now <= 0 { return Some(ReasonRateLimited); }
    var ok, delay := env.ReserveToken(LookupRate);
    if !ok || delay > deadline - now { return Some(ReasonRateLimited); }
    if delay > 0 {
      now := env.Now();
      ok := env.SleepUntil(now + delay);
      if !ok { return Some(ReasonUnknownOutcome); }
    }
    return None;
  }

  // ----- a sandbox that was found -----------------------------------------------------------------------

  /** A sandbox that `r` found on `p` is returned exactly if the snapshot read for it lets it serve
      this request, and otherwise the request is told that it is excluded. */
  ghost predicate Adoption(targets: map<string, Target>, p: string, r: Reply, policy: Policy, wants: Wants,
                           seen: seq<Snapshot>, since: nat, probe: Probe)
    requires r.Claimed?
  {
    && since < |seen|
    && probe == Answer(
         if Accepts(policy, wants, targets, p, seen[since]) then Success(Result(r.handle, true, false))
         else Failure(ReasonConstraintExcluded))
  }

  lemma SoundReplay(targets: map<string, Target>, result: Result, policy: Policy, wants: Wants, seen: seq<Snapshot>,
                    since: nat)
    requires Fits(policy, wants, targets, result.handle.provider, seen, since) && result.replay
    ensures Sound(policy, wants, targets, Success(result), seen, since)
  {
  }

  method Adopt(env: Env, p: string, r: Reply, policy: Policy, wants: Wants) returns (probe: Probe)
    requires env.Valid() && r.Claimed? && r.handle.provider == p
    requires || env.flight.pc == Found(r.handle)
             || (&& env.flight.pc.Probing? && env.flight.pc.asked.Keys == env.Capable()
                 && p in env.flight.pc.asked && env.flight.pc.asked[p] == r)
    modifies env`cursor, env`now, env`flight, env`seen
    ensures env.Valid() && env.now >= old(env.now) && old(env.seen) <= env.seen
    ensures old(env.flight.log.events) <= env.flight.log.events
    ensures Settled(env, policy, wants, probe, |old(env.seen)|)
    ensures Adoption(env.targets, p, r, policy, wants, env.seen, |old(env.seen)|, probe)
  {
    var ok := PassesCandidateFilters(env, p, policy, wants);
    if ok {
      SoundReplay(env.targets, Result(r.handle, true, false), policy, wants, env.seen, |old(env.seen)|);
      env.Record(Adopted(p));
      probe := Answer(Success(Result(r.handle, true, false)));
    } else {
      env.GiveUp();
      probe := Answer(Failure(ReasonConstraintExcluded));
    }
  }

  // ----- the pinned provider ------------------------------------------------------------------------------

  /** The reason a lookup that neither found nor ruled out a sandbox is answered with. */
  function ReasonOfLookup(k: Kind): Reason {
    match k
    case KeyConflict => ReasonSpecMismatch
    case KeyBusy => ReasonKeyBusy
    case Busy => ReasonBusy
    case _ => ReasonUnknownOutcome
  }

  /** What the pinned provider's reply leads to. */
  ghost predicate PinAnswer(targets: map<string, Target>, p: string, r: Reply, policy: Policy, wants: Wants,
                            seen: seq<Snapshot>, since: nat, probe: Probe) {
    if r.NotFound? then probe == ClaimOn(Some(p))
    else if r.Failed? then
      probe == Answer(Failure(
        if r.kind == KeyConflict then ReasonSpecMismatch
        else if r.kind == KeyBusy then ReasonKeyBusy
        else if r.kind == Busy then ReasonBusy
        else ReasonUnknownOutcome))
    else Adoption(targets, p, r, policy, wants, seen, since, probe)
  }

  /** The pinned provider was looked up after a token for it, unless that was denied. */
  ghost predicate PinLookedUp(targets: map<string, Target>, capable: set<string>, p: string, policy: Policy,
                              wants: Wants, asked: int, deadline: int, before: seq<Use>, now: int, after: seq<Use>,
                              earlier: seq<Event>, events: seq<Event>, seen: seq<Snapshot>, since: nat, probe: Probe) {
    if p !in capable then probe == Answer(Failure(ReasonNoCapacity))
    else
      || (probe.Answer? && probe.out.Failure? && TokensDenied(deadline, now, before, after, probe.out.reason))
      || (&& Granted(asked, deadline, before, now, after)
          && exists r :: earlier + [Looked(p, r)] <= events
                      && PinAnswer(targets, p, r, policy, wants, seen, since, probe))
  }

  method LookupPinned(env: Env, p: string, policy: Policy, wants: Wants, deadline: int) returns (probe: Probe)
    requires env.Valid() && env.flight.pc == ProbingPin(p)
    modifies env`cursor, env`now, env`flight, env`used, env`seen
    ensures env.Valid() && env.now >= old(env.now) && old(env.seen) <= env.seen
    ensures old(env.flight.log.events) <= env.flight.log.events
    ensures Settled(env, policy, wants, probe, |old(env.seen)|)
    ensures PinLookedUp(env.targets, env.Capable(), p, policy, wants, old(env.now), deadline, old(env.used), env.now,
                        env.used, old(env.flight.log.events), env.flight.log.events, env.seen, |old(env.seen)|, probe)
  {
    if p !in env.targets || !env.targets[p].enabled {
      env.GiveUp();
      return Answer(Failure(ReasonNoCapacity));
    }
    var denied := AwaitLookupTokens(env, deadline);
    if denied.Some? {
      env.GiveUp();
      return Answer(Failure(denied.value));
    }
    ghost var r;
    probe, r := AskPin(env, p, policy, wants);
  }

  method AskPin(env: Env, p: string, policy: Policy, wants: Wants) returns (probe: Probe, ghost reply: Reply)
    requires env.Valid() && env.flight.pc == ProbingPin(p) && p in env.Capable()
    modifies env`cursor, env`now, env`flight, env`seen
    ensures env.Valid() && env.now >= old(env.now) && old(env.seen) <= env.seen
    ensures old(env.flight.log.events) + [Looked(p, reply)] <= env.flight.log.events
    ensures Settled(env, policy, wants, probe, |old(env.seen)|)
    ensures PinAnswer(env.targets, p, reply, policy, wants, env.seen, |old(env.seen)|, probe)
  {
    var r := env.Lookup(p, (r: Reply) =>
      if r.Claimed? then Found(r.handle) else if r.NotFound? then Placing(Some(p)) else Done(None));
    reply := r;
    if r.NotFound? { return ClaimOn(Some(p)), r; }
    if r.Failed? { return Answer(Failure(ReasonOfLookup(r.kind))), r; }
    probe := Adopt(env, p, r, policy, wants);
  }

  // ----- every provider -----------------------------------------------------------------------------------

  /** `all` are the providers in order and `replies` their answers. */
  ghost predicate Round(targets: set<string>, pc: Pc, all: seq<string>, replies: seq<Reply>) {
    && |replies| == |all| && pc.Probing? && pc.asked.Keys == targets
    && (forall p :: p in all <==> p in targets)
    && forall i | 0 <= i < |all| :: all[i] in pc.asked && pc.asked[all[i]] == replies[i]
  }

  /** One lookup of each provider, in order. */
  ghost function Questions(all: seq<string>, replies: seq<Reply>): seq<Event>
    requires |replies| <= |all|
  {
    seq(|replies|, i requires 0 <= i < |replies| => Looked(all[i], replies[i]))
  }

  lemma OneMoreQuestion(all: seq<string>, replies: seq<Reply>, r: Reply)
    requires |replies| < |all|
    ensures Questions(all, replies + [r]) == Questions(all, replies) + [Looked(all[|replies|], r)]
  {
  }

  /** Asks every claim-capable provider, unfiltered, about the key. */
  method AskAll(env: Env, all: seq<string>) returns (replies: seq<Reply>)
    requires env.Valid() && env.flight.pc == Probing(map[]) && SortedKeys(all, env.Capable())
    modifies env`cursor, env`now, env`flight
    ensures env.Valid() && env.now >= old(env.now) && Round(env.Capable(), env.flight.pc, all, replies)
    ensures env.flight.log.events == old(env.flight.log.events) + Questions(all, replies)
    ensures forall i | 0 <= i < |all| :: replies[i].Claimed? ==> replies[i].handle.provider == all[i]
  {
    replies := [];
    for i := 0 to |all|
      invariant env.Valid() && env.now >= old(env.now)
      invariant env.flight.pc.Probing? && Asked(env.flight.pc.asked, all, replies, i)
      invariant env.flight.log.events == old(env.flight.log.events) + Questions(all, replies)
    {
      AskOne(env.flight.pc.asked, all, replies, i);
      var r := Ask(env, all[i]);
      OneMoreQuestion(all, replies, r);
      replies := replies + [r];
    }
    assert all[..|all|] == all;
  }

  method Ask(env: Env, p: string) returns (r: Reply)
    requires env.Valid() && env.flight.pc.Probing? && p in env.Capable() && p !in env.flight.pc.asked
    modifies env`cursor, env`now, env`flight
    ensures env.Valid() && env.now >= old(env.now) && env.flight.pc == Probing(old(env.flight.pc.asked)[p := r])
    ensures env.flight.log.events == old(env.flight.log.events) + [Looked(p, r)]
    ensures r.Claimed? ==> r.handle.provider == p
  {
    ghost var asked := env.flight.pc.asked;
    r := env.Lookup(p, (r: Reply) => Probing(asked[p := r]));
  }

  /** The first `n` of `all` have been asked and answered. */
  ghost predicate Asked(asked: map<string, Reply>, all: seq<string>, replies: seq<Reply>, n: nat) {
    && |replies| == n <= |all|
    && (forall p :: p in asked <==> p in all[..n])
    && forall j | 0 <= j < n ::
         asked[all[j]] == replies[j] && (replies[j].Claimed? ==> replies[j].handle.provider == all[j])
  }

  lemma AskOne(asked: map<string, Reply>, all: seq<string>, replies: seq<Reply>, n: nat)
    requires Ascending(all) && n < |all| && Asked(asked, all, replies, n)
    ensures all[n] !in asked
    ensures forall r: Reply | r.Claimed? ==> r.handle.provider == all[n] ::
              Asked(asked[all[n] := r], all, replies + [r], n + 1)
  {
    LessIrreflexive(all[n]);
    assert all[..n + 1] == all[..n] + [all[n]];
    assert forall j | 0 <= j < n :: all[j] in all[..n] && all[j] != all[n];
  }

  // ----- what the replies amount to ---------------------------------------------------------------------

  predicate FailedAs(r: Reply, kind: Kind) {
    r.Failed? && r.kind == kind
  }

  ghost predicate Any(replies: seq<Reply>, kind: Kind) {
    exists i :: 0 <= i < |replies| && FailedAs(replies[i], kind)
  }

  ghost predicate AllClearIn(replies: seq<Reply>, except: set<nat>) {
    forall i | 0 <= i < |replies| && i !in except :: replies[i].NotFound?
  }

  /** What a round amounts to in which nobody has the sandbox. */
  datatype Verdict = Conflicting | BusyAs(kind: Kind) | Clear | DoubtAt(pin: string) | Doubts

  ghost predicate IsVerdict(all: seq<string>, replies: seq<Reply>, v: Verdict)
    requires |replies| == |all|
  {
    if Any(replies, KeyConflict) then v == Conflicting
    else if Any(replies, KeyBusy) then v == BusyAs(KeyBusy)
    else if Any(replies, Busy) then v == BusyAs(Busy)
    else if AllClearIn(replies, {}) then v == Clear
    else if v.DoubtAt? then OneDoubt(all, replies, v.pin)
    else v == Doubts && forall pin :: !OneDoubt(all, replies, pin)
  }

  ghost predicate OneDoubt(all: seq<string>, replies: seq<Reply>, pin: string)
    requires |replies| == |all|
  {
    exists i :: 0 <= i < |all| && pin == all[i] && Inconclusive(replies[i]) && AllClearIn(replies, {i})
  }

  method AnyConflict(replies: seq<Reply>) returns (conflict: bool)
    ensures conflict <==> Any(replies, KeyConflict)
  {
    for i := 0 to |replies|
      invariant forall j | 0 <= j < i :: !FailedAs(replies[j], KeyConflict)
    {
      if FailedAs(replies[i], KeyConflict) { return true; }
    }
    return false;
  }

  /** Sorts the replies of a round without a conflict: how many were busy, and who was inconclusive. */
  method Classify(all: seq<string>, replies: seq<Reply>) returns (busy: nat, keyBusy: bool, inconclusive: seq<string>)
    requires |replies| == |all|
    requires forall i | 0 <= i < |all| :: !replies[i].Claimed? && !FailedAs(replies[i], KeyConflict)
    ensures keyBusy <==> Any(replies, KeyBusy)
    ensures busy > 0 <==> Any(replies, Busy) || Any(replies, KeyBusy)
    ensures busy == 0 && inconclusive == [] <==> AllClearIn(replies, {})
    ensures busy == 0 && |inconclusive| == 1 ==> OneDoubt(all, replies, inconclusive[0])
    ensures |inconclusive| > 1 ==> forall pin :: !OneDoubt(all, replies, pin)
  {
    busy, keyBusy, inconclusive := 0, false, [];
    ghost var at, next := 0, 0;
    for i := 0 to |all|
      invariant keyBusy <==> Any(replies[..i], KeyBusy)
      invariant busy > 0 <==> Any(replies[..i], Busy) || Any(replies[..i], KeyBusy)
      invariant busy == 0 && inconclusive == [] <==> AllClearIn(replies[..i], {})
      invariant busy == 0 && |inconclusive| == 1 ==>
        0 <= at < i && inconclusive[0] == all[at] && Inconclusive(replies[at]) && AllClearIn(replies[..i], {at})
      invariant inconclusive != [] ==> 0 <= at < i && !replies[at].NotFound?
      invariant |inconclusive| > 1 ==> at < next < i && !replies[next].NotFound?
    {
      OneMore(replies, i, Busy);
      OneMore(replies, i, KeyBusy);
      assert forall j | 0 <= j < i :: replies[..i + 1][j] == replies[..i][j];
      assert replies[..i + 1][i] == replies[i];
      if replies[i].NotFound? { continue; }
      if replies[i].kind.Busy? || replies[i].kind.KeyBusy? {
        busy := busy + 1;
        keyBusy := keyBusy || replies[i].kind.KeyBusy?;
      } else {
        if inconclusive == [] { at := i; } else { next := i; }
        inconclusive := inconclusive + [all[i]];
      }
    }
    assert replies[..|all|] == replies;
  }

  lemma OneMore(replies: seq<Reply>, n: nat, kind: Kind)
    requires n < |replies|
    ensures Any(replies[..n + 1], kind) <==> Any(replies[..n], kind) || FailedAs(replies[n], kind)
  {
    var more, fewer := replies[..n + 1], replies[..n];
    assert more[n] == replies[n] && forall j | 0 <= j < n :: more[j] == fewer[j];
    if Any(fewer, kind) {
      var i :| 0 <= i < n && FailedAs(fewer[i], kind);
      assert FailedAs(more[i], kind);
    }
    if FailedAs(replies[n], kind) { assert FailedAs(more[n], kind); }
  }

  method Judge(all: seq<string>, replies: seq<Reply>) returns (v: Verdict)
    requires |replies| == |all| && forall i | 0 <= i < |all| :: !replies[i].Claimed?
    ensures IsVerdict(all, replies, v)
  {
    var conflict := AnyConflict(replies);
    if conflict { return Conflicting; }
    var busy, keyBusy, inconclusive := Classify(all, replies);
    if busy == 0 && |inconclusive| == 0 { return Clear; }
    if busy > 0 { return BusyAs(if keyBusy then KeyBusy else Busy); }
    if |inconclusive| == 1 { return DoubtAt(inconclusive[0]); }
    return Doubts;
  }

  // ----- the round -----------------------------------------------------------------------------------------

  /** What a round in which nobody has the sandbox leads to: a claim anywhere when all are sure of
      it, on the one that is not when only one is not and a snapshot accepts it, else an error. */
  ghost predicate Concluded(targets: map<string, Target>, v: Verdict, policy: Policy, wants: Wants,
                            seen: seq<Snapshot>, since: nat, probe: Probe) {
    if v.Clear? then probe == ClaimOn(None)
    else if v.DoubtAt? then
      && since < |seen|
      && probe == if Accepts(policy, wants, targets, v.pin, seen[since]) then ClaimOn(Some(v.pin))
                  else Answer(Failure(ReasonUnknownOutcome))
    else
      probe == Answer(Failure(
        if v.Conflicting? then ReasonSpecMismatch
        else if v == BusyAs(KeyBusy) then ReasonKeyBusy
        else if v == BusyAs(Busy) then ReasonBusy
        else ReasonUnknownOutcome))
  }

  function ReasonOfVerdict(v: Verdict): Reason {
    match v
    case Conflicting => ReasonSpecMismatch
    case BusyAs(kind) => ReasonFor(kind)
    case _ => ReasonUnknownOutcome
  }

  /** What a round leads to: the first provider that has the sandbox decides, if any has. */
  ghost predicate RoundAnswer(targets: map<string, Target>, all: seq<string>, replies: seq<Reply>, policy: Policy,
                              wants: Wants, seen: seq<Snapshot>, since: nat, probe: Probe)
    requires |replies| == |all|
  {
    if exists i :: 0 <= i < |all| && replies[i].Claimed? then
      exists i :: 0 <= i < |all| && FirstFound(replies, i)
               && Adoption(targets, all[i], replies[i], policy, wants, seen, since, probe)
    else
      exists v :: IsVerdict(all, replies, v) && Concluded(targets, v, policy, wants, seen, since, probe)
  }

  ghost predicate FirstFound(replies: seq<Reply>, i: nat) {
    i < |replies| && replies[i].Claimed? && forall j | 0 <= j < i :: !replies[j].Claimed?
  }

  /** Every capable provider was asked, unless the tokens for it were denied. */
  ghost predicate EverybodyLookedUp(targets: map<string, Target>, capable: set<string>, policy: Policy, wants: Wants,
                                    deadline: int, before: seq<Use>, now: int, after: seq<Use>, earlier: seq<Event>,
                                    events: seq<Event>, seen: seq<Snapshot>, since: nat, probe: Probe) {
    || (probe.Answer? && probe.out.Failure? && TokensDenied(deadline, now, before, after, probe.out.reason))
    || exists all, replies ::
         RoundHeld(targets, capable, policy, wants, all, replies, earlier, events, seen, since, probe)
  }

  ghost predicate RoundHeld(targets: map<string, Target>, capable: set<string>, policy: Policy, wants: Wants,
                            all: seq<string>, replies: seq<Reply>, earlier: seq<Event>, events: seq<Event>,
                            seen: seq<Snapshot>, since: nat, probe: Probe) {
    && SortedKeys(all, capable) && |replies| == |all|
    && earlier + Questions(all, replies) <= events
    && RoundAnswer(targets, all, replies, policy, wants, seen, since, probe)
  }

  /** A retry, or a request after an early eviction: nobody is claimed on before everybody was asked,
      and nobody is left unasked unless the tokens for it were denied. */
  method LookupRetryAll(env: Env, policy: Policy, wants: Wants, deadline: int)
    returns (probe: Probe)
    requires env.Valid() && env.flight.pc == Probing(map[])
    modifies env`cursor, env`now, env`flight, env`used, env`seen
    ensures env.Valid() && env.now >= old(env.now) && old(env.seen) <= env.seen
    ensures old(env.flight.log.events) <= env.flight.log.events
    ensures Settled(env, policy, wants, probe, |old(env.seen)|)
    ensures EverybodyLookedUp(env.targets, env.Capable(), policy, wants, deadline, old(env.used), env.now, env.used,
                              old(env.flight.log.events), env.flight.log.events, env.seen, |old(env.seen)|, probe)
  {
    var sorted := SortKeys(env.Capable());
    if |sorted| > 0 {
      var denied := BeginRound(env, deadline);
      if denied.Some? {
        env.GiveUp();
        return Answer(Failure(denied.value));
      }
    }
    ghost var replies;
    probe, replies := HoldRound(env, sorted, policy, wants);
    assert RoundHeld(env.targets, env.Capable(), policy, wants, sorted, replies, old(env.flight.log.events),
                     env.flight.log.events, env.seen, |old(env.seen)|, probe);
  }

  /** Providers whose lookups are batched need no token of their own here. */
  method BeginRound(env: Env, deadline: int) returns (denied: Option<Reason>)
    modifies env`cursor, env`now, env`used
    ensures env.now >= old(env.now)
    ensures if denied.Some? then TokensDenied(deadline, env.now, old(env.used), env.used, denied.value)
            else env.used == old(env.used) || Granted(old(env.now), deadline, old(env.used), env.now, env.used)
  {
    var unbatched := env.Toss();
    if !unbatched { return None; }
    denied := AwaitLookupTokens(env, deadline);
  }

  method HoldRound(env: Env, all: seq<string>, policy: Policy, wants: Wants)
    returns (probe: Probe, ghost asked: seq<Reply>)
    requires env.Valid() && env.flight.pc == Probing(map[]) && SortedKeys(all, env.Capable())
    modifies env`cursor, env`now, env`flight, env`seen
    ensures env.Valid() && env.now >= old(env.now) && old(env.seen) <= env.seen && |asked| == |all|
    ensures old(env.flight.log.events) + Questions(all, asked) <= env.flight.log.events
    ensures Settled(env, policy, wants, probe, |old(env.seen)|)
    ensures RoundAnswer(env.targets, all, asked, policy, wants, env.seen, |old(env.seen)|, probe)
  {
    var replies := AskAll(env, all);
    asked := replies;
    var found := FindFirst(replies);
    if found.Some? {
      probe := Adopt(env, all[found.value], replies[found.value], policy, wants);
    } else {
      probe := Conclude(env, all, replies, policy, wants);
    }
  }

  method FindFirst(replies: seq<Reply>) returns (i: Option<nat>)
    ensures if i.Some? then FirstFound(replies, i.value) else forall j | 0 <= j < |replies| :: !replies[j].Claimed?
  {
    for k := 0 to |replies|
      invariant forall j | 0 <= j < k :: !replies[j].Claimed?
    {
      if replies[k].Claimed? { return Some(k); }
    }
    return None;
  }

  lemma AskedClear(targets: set<string>, pc: Pc, all: seq<string>, replies: seq<Reply>)
    requires Round(targets, pc, all, replies) && IsVerdict(all, replies, Clear)
    ensures Advance(targets, pc, AllClear) == Some(Placing(None))
  {
    assert AllNotFound(pc.asked, {});
  }

  lemma AskedClearBut(targets: set<string>, pc: Pc, all: seq<string>, replies: seq<Reply>, pin: string)
    requires Round(targets, pc, all, replies) && IsVerdict(all, replies, DoubtAt(pin))
    ensures Advance(targets, pc, PinnedTo(pin)) == Some(Placing(Some(pin)))
  {
    assert AllNotFound(pc.asked, {pin});
  }

  /** No provider has the sandbox. */
  method Conclude(env: Env, all: seq<string>, replies: seq<Reply>, policy: Policy, wants: Wants) returns (probe: Probe)
    requires env.Valid() && Round(env.Capable(), env.flight.pc, all, replies)
    requires forall i | 0 <= i < |all| :: !replies[i].Claimed?
    modifies env`cursor, env`now, env`flight, env`seen
    ensures env.Valid() && env.now >= old(env.now) && old(env.seen) <= env.seen
    ensures old(env.flight.log.events) <= env.flight.log.events
    ensures Settled(env, policy, wants, probe, |old(env.seen)|)
    ensures exists v :: IsVerdict(all, replies, v)
                   && Concluded(env.targets, v, policy, wants, env.seen, |old(env.seen)|, probe)
  {
    var v := Judge(all, replies);
    if v.Clear? {
      AskedClear(env.Capable(), env.flight.pc, all, replies);
      env.Record(AllClear);
      probe := ClaimOn(None);
    } else if v.DoubtAt? {
      AskedClearBut(env.Capable(), env.flight.pc, all, replies, v.pin);
      probe := PinTo(env, v.pin, policy, wants);
    } else {
      env.GiveUp();
      probe := Answer(Failure(ReasonOfVerdict(v)));
    }
  }

  /** Claims on the one inconclusive provider exactly if the snapshot read for it accepts it. */
  method PinTo(env: Env, pin: string, policy: Policy, wants: Wants) returns (probe: Probe)
    requires env.Valid() && env.flight.pc.Probing?
    requires Advance(env.Capable(), env.flight.pc, PinnedTo(pin)) == Some(Placing(Some(pin)))
    modifies env`cursor, env`now, env`flight, env`seen
    ensures env.Valid() && env.now >= old(env.now) && old(env.seen) <= env.seen
    ensures old(env.flight.log.events) <= env.flight.log.events
    ensures Settled(env, policy, wants, probe, |old(env.seen)|)
    ensures Concluded(env.targets, DoubtAt(pin), policy, wants, env.seen, |old(env.seen)|, probe)
    ensures probe.ClaimOn? ==> Fits(policy, wants, env.targets, pin, env.seen, |old(env.seen)|)
  {
    var ok := PassesCandidateFilters(env, pin, policy, wants);
    if ok {
      env.Record(PinnedTo(pin));
      return ClaimOn(Some(pin));
    }
    env.GiveUp();
    return Answer(Failure(ReasonUnknownOutcome));
  }
}
