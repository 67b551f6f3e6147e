/** The claim loop: decide, attempt, spill to the next provider. */
module ClaimLoop {
  import opened Text
  import opened Framework
  import opened Policies
  import opened ClaimProtocol
  import opened ClaimEnv
  import opened ClaimAttempt
  import opened ClaimVetting
  import opened ClaimChoice
  import FlightCache

  // ----- why nobody served the claim -------------------------------------------------------------------------

  /** The providers that spilled, each with its reason, and how often the counted reasons occur. */
  datatype Spills = Spills(reasons: map<string, Reason>, rejected: nat, unavailable: nat, busy: nat)

  const NO_SPILLS := Spills(map[], 0, 0, 0)

  ghost function Saying(reasons: map<string, Reason>, r: Reason): set<string> {
    set p | p in reasons && reasons[p] == r
  }

  ghost predicate Counted(s: Spills) {
    && s.rejected == |Saying(s.reasons, ReasonRejected)|
    && s.unavailable == |Saying(s.reasons, ReasonUnavailable)|
    && s.busy == |Saying(s.reasons, ReasonBusy)|
  }

  lemma CountOne(reasons: map<string, Reason>, p: string, why: Reason, r: Reason)
    requires p !in reasons
    ensures |Saying(reasons[p := why], r)| == |Saying(reasons, r)| + if why == r then 1 else 0
  {
    assert Saying(reasons[p := why], r) == Saying(reasons, r) + if why == r then {p} else {};
  }

  method AddSpill(s: Spills, p: string, why: Reason) returns (s': Spills)
    requires Counted(s) && p !in s.reasons
    ensures Counted(s') && s'.reasons == s.reasons[p := why]
  {
    CountOne(s.reasons, p, why, ReasonRejected);
    CountOne(s.reasons, p, why, ReasonUnavailable);
    CountOne(s.reasons, p, why, ReasonBusy);
    s' := s.(reasons := s.reasons[p := why]);
    match why
    case ReasonRejected => s' := s'.(rejected := s.rejected + 1);
    case ReasonUnavailable => s' := s'.(unavailable := s.unavailable + 1);
    case ReasonBusy => s' := s'.(busy := s.busy + 1);
    case _ =>
  }

  /** The spills of the loop are the providers' own words that they created nothing. */
  ghost function ReasonsFor(spilled: map<string, Kind>): map<string, Reason> {
    map p | p in spilled :: ReasonFor(spilled[p])
  }

  lemma OneMoreSpilled(spilled: map<string, Kind>, p: string, k: Kind)
    ensures ReasonsFor(spilled[p := k]) == ReasonsFor(spilled)[p := ReasonFor(k)]
  {
  }

  /** As many as there are in all means all of them. */
  lemma AllOfThem(whole: set<string>, part: set<string>)
    requires part <= whole
    ensures |part| <= |whole| && (|part| == |whole| <==> part == whole)
  {
    FlightCache.SubsetIsSmaller(part, whole);
    if part != whole {
      var x :| x in whole && x !in part;
      FlightCache.SubsetIsSmaller(part, whole - {x});
    }
  }

  ghost predicate EachSays(reasons: map<string, Reason>, rs: set<Reason>) {
    forall p | p in reasons :: reasons[p] in rs
  }

  ghost function SayingAny(reasons: map<string, Reason>, rs: set<Reason>): set<string> {
    set p | p in reasons && reasons[p] in rs
  }

  lemma SayingOneMore(reasons: map<string, Reason>, rs: set<Reason>, r: Reason)
    requires r !in rs
    ensures |SayingAny(reasons, rs + {r})| == |SayingAny(reasons, rs)| + |Saying(reasons, r)|
  {
    assert SayingAny(reasons, rs + {r}) == SayingAny(reasons, rs) + Saying(reasons, r);
  }

  lemma AllSay(reasons: map<string, Reason>, rs: set<Reason>)
    ensures |SayingAny(reasons, rs)| == |reasons| <==> EachSays(reasons, rs)
  {
    AllOfThem(reasons.Keys, SayingAny(reasons, rs));
    assert EachSays(reasons, rs) <==> SayingAny(reasons, rs) == reasons.Keys;
  }

  lemma CountsTell(s: Spills)
    requires Counted(s)
    ensures s.rejected == |s.reasons| <==> EachSays(s.reasons, {ReasonRejected})
    ensures s.rejected + s.busy == |s.reasons| <==> EachSays(s.reasons, {ReasonRejected, ReasonBusy})
    ensures s.rejected + s.busy + s.unavailable == |s.reasons|
       <==> EachSays(s.reasons, {ReasonRejected, ReasonBusy, ReasonUnavailable})
  {
    var one, two := {ReasonRejected}, {ReasonRejected, ReasonBusy};
    var three := {ReasonRejected, ReasonBusy, ReasonUnavailable};
    assert SayingAny(s.reasons, {}) == {};
    SayingOneMore(s.reasons, {}, ReasonRejected);
    SayingOneMore(s.reasons, one, ReasonBusy);
    SayingOneMore(s.reasons, two, ReasonUnavailable);
    assert {} + {ReasonRejected} == one && one + {ReasonBusy} == two && two + {ReasonUnavailable} == three;
    AllSay(s.reasons, one);
    AllSay(s.reasons, two);
    AllSay(s.reasons, three);
  }

  /** The answer when every try spilled: all rejected; else all rejected or busy; else all
      rejected, busy or unavailable; else cooling down, if some provider was; else no capacity. */
  ghost function WhyNone(reasons: map<string, Reason>, cooling: bool): Reason {
    if reasons != map[] && EachSays(reasons, {ReasonRejected}) then ReasonRejected
    else if reasons != map[] && EachSays(reasons, {ReasonRejected, ReasonBusy}) then ReasonBusy
    else if reasons != map[] && EachSays(reasons, {ReasonRejected, ReasonBusy, ReasonUnavailable}) then
      ReasonUnavailable
    else if cooling then ReasonBusy
    else ReasonNoCapacity
  }

  ghost predicate EachIs(spilled: map<string, Kind>, ks: set<Kind>) {
    forall p | p in spilled :: spilled[p] in ks
  }

  lemma EachIsSaid(spilled: map<string, Kind>, ks: set<Kind>, rs: set<Reason>)
    requires forall k :: k in ks <==> ReasonFor(k) in rs
    ensures EachIs(spilled, ks) <==> EachSays(ReasonsFor(spilled), rs)
  {
    var reasons := ReasonsFor(spilled);
    assert forall p | p in spilled :: p in reasons && (spilled[p] in ks <==> reasons[p] in rs);
  }

  /** In the providers' own words: rejected if all of them rejected the claim; busy if all rejected it or
      were busy; unavailable if all rejected it, were busy or could not be reached; and if one had no
      capacity, or none was asked, busy if some provider was cooling down and else no capacity. */
  lemma AnswersTheKinds(spilled: map<string, Kind>, cooling: bool)
    ensures WhyNone(ReasonsFor(spilled), cooling) ==
      if spilled != map[] && EachIs(spilled, {Rejected}) then ReasonRejected
      else if spilled != map[] && EachIs(spilled, {Rejected, Busy}) then ReasonBusy
      else if spilled != map[] && EachIs(spilled, {Rejected, Busy, Unavailable}) then ReasonUnavailable
      else if cooling then ReasonBusy
      else ReasonNoCapacity
  {
    EachIsSaid(spilled, {Rejected}, {ReasonRejected});
    EachIsSaid(spilled, {Rejected, Busy}, {ReasonRejected, ReasonBusy});
    EachIsSaid(spilled, {Rejected, Busy, Unavailable}, {ReasonRejected, ReasonBusy, ReasonUnavailable});
    assert spilled == map[] <==> ReasonsFor(spilled) == map[];
  }

  method Exhausted(s: Spills, cooling: bool) returns (reason: Reason)
    requires Counted(s)
    ensures reason == WhyNone(s.reasons, cooling)
  {
    CountsTell(s);
    if |s.reasons| > 0 {
      if s.rejected == |s.reasons| { return ReasonRejected; }
      if s.busy > 0 && s.unavailable == 0 && s.rejected + s.busy == |s.reasons| { return ReasonBusy; }
      if s.unavailable > 0 && s.unavailable + s.busy + s.rejected == |s.reasons| { return ReasonUnavailable; }
    }
    return if cooling then ReasonBusy else ReasonNoCapacity;
  }

  // ----- the passes of the loop --------------------------------------------------------------------------------

  /** What one pass of the loop comes to. */
  datatype Pass =
    | Answered(provider: string, out: Outcome)
    | Stopped(why: Reason)
    | NobodyLeft
    | SlotsFull(provider: string)
    | TryAgain(provider: string)

  /** A pass on record: what it saw, who had spilled before it, what it came to, and what was asked
      about slots after its decision. */
  datatype Turn = Turn(view: View, tried: set<string>, pass: Pass, slot: seq<Inquiry>)

  /** With nobody to decide for, a slot came free of a provider that was full. */
  predicate FreedIn(t: Turn) {
    t.pass.NobodyLeft? && t.slot != [] && t.slot[0].yes
  }

  /** The providers that refused a slot since that last happened. */
  ghost function FullAfter(trail: seq<Turn>): set<string> {
    if trail == [] then {}
    else
      var t := trail[|trail| - 1];
      if FreedIn(t) then {}
      else FullAfter(trail[..|trail| - 1]) + if t.pass.SlotsFull? then {t.pass.provider} else {}
  }

  ghost predicate WaitedAfter(trail: seq<Turn>) {
    trail != [] && (FreedIn(trail[|trail| - 1]) || WaitedAfter(trail[..|trail| - 1]))
  }

  /** Everybody that some pass kept out for one reason. */
  ghost function KeptOutAfter(trail: seq<Turn>, e: Entrance): set<string> {
    if trail == [] then {}
    else KeptOutAfter(trail[..|trail| - 1], e) + KeptOut(trail[|trail| - 1].view, e)
  }

  /** All questions of the passes, in order. */
  ghost function AskedIn(trail: seq<Turn>): seq<Inquiry> {
    if trail == [] then []
    else
      var t := trail[|trail| - 1];
      AskedIn(trail[..|trail| - 1]) + Joined(t.view.gates) + t.slot
  }

  /** All snapshots they read. */
  ghost function SeenIn(trail: seq<Turn>): seq<seq<Candidate>> {
    if trail == [] then [] else SeenIn(trail[..|trail| - 1]) + [trail[|trail| - 1].view.cs]
  }

  /** The terms of a request: `rightful` says which decisions are, and `fits` which providers a snapshot
      lets serve it. */
  datatype Terms = Terms(
    targets: map<string, Target>,
    pin: Option<string>,
    rightful: (Scope, View, Choice) -> bool,
    fits: (string, seq<Candidate>) -> bool,
    warmOnly: bool,
    maxSpill: nat,
    deadline: int)

  ghost function TermsOf(targets: map<string, Target>, pin: Option<string>, policy: Policy, wants: Wants, maxSpill: nat,
                         deadline: int): Terms
  {
    Terms(targets, pin,
          (sc: Scope, v: View, choice: Choice) => Decides(policy, wants, sc, v, choice),
          (p: string, cs: seq<Candidate>) => FitsIn(policy, wants, targets, p, cs),
          wants.warmOnly, maxSpill, deadline)
  }

  /** The decision is for nobody who has spilled or is full. */
  ghost predicate DecisionOk(s: Terms, full: set<string>, tried: set<string>, v: View, pass: Pass) {
    var sc := Scope(s.targets, s.pin, tried + full);
    match pass
    case Stopped(ReasonNoProviders) => s.rightful(sc, v, NoneListed)
    case Stopped(why) => why.ReasonInvalidPolicy? && s.rightful(sc, v, BadPolicy)
    case NobodyLeft => s.rightful(sc, v, Nobody)
    case SlotsFull(p) => Picked(s, sc, v, p)
    case TryAgain(p) => Picked(s, sc, v, p)
    case Answered(p, _) => Picked(s, sc, v, p)
  }

  /** A provider that was picked was asked for a slot, and attempted exactly if it had one; with nobody
      left, a slot is waited for once, if some provider was full. */
  ghost predicate SlotOk(full: set<string>, waited: bool, pass: Pass, slot: seq<Inquiry>) {
    match pass
    case Stopped(_) => slot == []
    case NobodyLeft =>
      if full != {} && !waited then |slot| == 1 && slot[0] == Inquiry("", AboutFreedSlot, slot[0].yes) else slot == []
    case SlotsFull(p) => slot == [Inquiry(p, AboutSlot, false)]
    case TryAgain(p) => slot == [Inquiry(p, AboutSlot, true)]
    case Answered(p, _) => slot == [Inquiry(p, AboutSlot, true)]
  }

  ghost predicate TurnOk(s: Terms, full: set<string>, waited: bool, t: Turn) {
    DecisionOk(s, full, t.tried, t.view, t.pass) && SlotOk(full, waited, t.pass, t.slot)
  }

  ghost predicate Picked(s: Terms, sc: Scope, v: View, p: string) {
    exists warm :: s.rightful(sc, v, Pick(p, warm))
  }

  /** Who has spilled before a pass and after it. */
  ghost predicate Spilling(pass: Pass, before: set<string>, after: set<string>) {
    match pass
    case TryAgain(p) => before <= after <= before + {p}
    case Answered(_, _) => true
    case _ => after == before
  }

  predicate GoesOn(t: Turn) {
    t.pass.TryAgain? || t.pass.SlotsFull? || FreedIn(t)
  }

  /** The last pass, if any, let the loop go on. */
  predicate Open(trail: seq<Turn>) {
    trail == [] || GoesOn(trail[|trail| - 1])
  }

  /** A pass may follow those before it; after it, `tried` have spilled. */
  ghost predicate Extends(s: Terms, front: seq<Turn>, t: Turn, tried: set<string>) {
    && Open(front) && (front == [] ==> t.tried == {})
    && TurnOk(s, FullAfter(front), WaitedAfter(front), t) && Spilling(t.pass, t.tried, tried)
  }

  /** The passes of a loop so far, after which `tried` have spilled. */
  ghost predicate Trail(s: Terms, trail: seq<Turn>, tried: set<string>) {
    (trail == [] ==> tried == {}) && forall k: nat | k < |trail| :: TurnAt(s, trail, tried, k)
  }

  ghost predicate TurnAt(s: Terms, trail: seq<Turn>, tried: set<string>, k: nat)
    requires k < |trail|
  {
    Extends(s, trail[..k], trail[k], if k + 1 < |trail| then trail[k + 1].tried else tried)
  }

  /** What a loop that did not end in an answered attempt has to say: the one reason to stop, or what
      the spills call for. */
  ghost function AnswerOf(trail: seq<Turn>, reasons: map<string, Reason>): Reason {
    var spent := WhyNone(reasons, KeptOutAfter(trail, Cooling) != {});
    if Open(trail) then spent
    else
      var t := trail[|trail| - 1];
      if t.pass.Stopped? then t.pass.why
      else if t.slot != [] then ReasonSlotsFull
      else if KeptOutAfter(trail, OverRate) != {} then ReasonRateLimited
      else spent
  }

  // ----- the loop's own account ------------------------------------------------------------------------------------

  /** Where the loop stands between passes: the spills, the providers found full, over their rate or
      cooling down, and whether a slot was waited for. */
  datatype Standing =
    Standing(spills: Spills, full: set<string>, overRate: set<string>, cooling: set<string>, waited: bool)

  ghost predicate Stands(st: Standing, trail: seq<Turn>) {
    && st.full == FullAfter(trail) && st.waited == WaitedAfter(trail)
    && st.overRate == KeptOutAfter(trail, OverRate) && st.cooling == KeptOutAfter(trail, Cooling)
  }

  lemma LastTurn(trail: seq<Turn>, t: Turn)
    ensures (trail + [t])[..|trail|] == trail
    ensures AskedIn(trail + [t]) == AskedIn(trail) + Joined(t.view.gates) + t.slot
    ensures SeenIn(trail + [t]) == SeenIn(trail) + [t.view.cs]
    ensures forall e :: KeptOutAfter(trail + [t], e) == KeptOutAfter(trail, e) + KeptOut(t.view, e)
    ensures WaitedAfter(trail + [t]) == (FreedIn(t) || WaitedAfter(trail))
    ensures FullAfter(trail + [t]) ==
      if FreedIn(t) then {} else FullAfter(trail) + if t.pass.SlotsFull? then {t.pass.provider} else {}
  {
    assert (trail + [t])[..|trail|] == trail;
  }

  lemma TrailGrows(s: Terms, trail: seq<Turn>, t: Turn, tried: set<string>)
    requires Trail(s, trail, t.tried) && Extends(s, trail, t, tried)
    ensures Trail(s, trail + [t], tried)
  {
    var longer := trail + [t];
    forall k: nat | k < |longer| ensures TurnAt(s, longer, tried, k) {
      if k < |trail| {
        assert TurnAt(s, trail, t.tried, k) && longer[..k] == trail[..k];
      } else {
        assert longer[..k] == trail;
      }
    }
  }

  // ----- what the flight has to show -------------------------------------------------------------------------------

  /** The flight's place, what it holds, all it has done so far, and what it did and heard since its last
      attempt began. */
  datatype Account = Account(
    pc: Pc,
    held: set<nat>,
    sent: seq<set<nat>>,
    spilled: map<string, Kind>,
    used: seq<Use>,
    asked: seq<Inquiry>,
    seen: seq<Snapshot>,
    now: int,
    attempt: seq<Event>,
    answered: Kind)

  ghost function AccountOf(env: Env): Account
    reads env`flight, env`attempt, env`held, env`calls, env`used, env`asked, env`seen, env`now
  {
    Account(env.flight.pc, env.held, env.calls.sent, env.calls.spilled, env.used, env.asked, env.seen, env.now,
            env.Attempt(), env.calls.answered)
  }

  /** A warm answer holds a reservation that was not held before. */
  ghost predicate HoldsWarm(before: set<nat>, held: set<nat>, out: Outcome) {
    out.Success? && out.result.warm ==> before < held
  }

  ghost predicate Tracks(spilled: map<string, Kind>, spills: Spills) {
    Counted(spills) && spills.reasons == ReasonsFor(spilled)
  }

  /** Nothing that was held or done at `m` is lost, and no wait since reached the deadline. */
  ghost predicate Since(m: Account, a: Account, deadline: int) {
    m.held <= a.held && m.sent <= a.sent && InTime(m.used, a.used, deadline) && m.now <= a.now
  }

  /** The loop goes on: everything asked and every snapshot read since `m` is in the passes on record,
      and they are where the loop says it stands. */
  ghost predicate Running(s: Terms, m: Account, a: Account, trail: seq<Turn>, st: Standing) {
    && a.pc == Placing(s.pin) && Since(m, a, s.deadline) && Tracks(a.spilled, st.spills)
    && Recorded(m, a, trail) && Trail(s, trail, a.spilled.Keys) && Stands(st, trail)
  }

  ghost predicate Recorded(m: Account, a: Account, trail: seq<Turn>) {
    a.asked == m.asked + AskedIn(trail) && a.seen == m.seen + SeenIn(trail)
  }

  /** A decision has been taken, and `met` is where the loop stood, with those now found over their
      rate or cooling down. */
  ghost predicate Decided(s: Terms, m: Account, a: Account, trail: seq<Turn>, met: Standing, v: View, choice: Choice) {
    && a.pc == Placing(s.pin) && Since(m, a, s.deadline) && Tracks(a.spilled, met.spills)
    && a.asked == m.asked + AskedIn(trail) + Joined(v.gates) && a.seen == m.seen + SeenIn(trail) + [v.cs]
    && Judged(s, trail, a.spilled.Keys, met.full, v, choice) && Meets(met, trail, v)
  }

  ghost predicate Judged(s: Terms, trail: seq<Turn>, tried: set<string>, full: set<string>, v: View, choice: Choice) {
    && Trail(s, trail, tried) && Open(trail) && full == FullAfter(trail)
    && s.rightful(Scope(s.targets, s.pin, tried + full), v, choice)
  }

  ghost predicate Meets(met: Standing, trail: seq<Turn>, v: View) {
    && met.waited == WaitedAfter(trail)
    && met.overRate == KeptOutAfter(trail, OverRate) + KeptOut(v, OverRate)
    && met.cooling == KeptOutAfter(trail, Cooling) + KeptOut(v, Cooling)
  }

  datatype Next = AnswerWith(out: Outcome) | Stop(why: Option<Reason>) | GoOn

  /** The loop's answer is `why`, or else what the spills call for. */
  ghost predicate Explains(trail: seq<Turn>, reasons: map<string, Reason>, why: Option<Reason>, cooling: set<string>) {
    AnswerOf(trail, reasons) == if why.Some? then why.value else WhyNone(reasons, cooling != {})
  }

  predicate Unanswered(trail: seq<Turn>) {
    trail != [] ==> !trail[|trail| - 1].pass.Answered?
  }

  ghost function LastOf(events: seq<Event>): Option<Event> {
    if events == [] then None else Some(events[|events| - 1])
  }

  /** The attempt had its answer to give: it was not refused in a way that creates nothing, or it met the
      key in deletion; and what it answered is what it heard, or it gave up as it may. */
  ghost predicate Final(b: Account, p: string, elastic: bool, warmOnly: bool, since: seq<Use>, deadline: int,
                        out: Outcome) {
    && b.attempt != [] && !CreatedNothing(b.attempt)
    && Warranted(LastOf(b.attempt), b.answered, p, elastic, warmOnly, since, b.used, b.now, deadline, out)
  }

  lemma FinalSince(b: Account, p: string, elastic: bool, warmOnly: bool, since: seq<Use>, later: seq<Use>,
                   deadline: int, out: Outcome)
    requires |since| <= |later| && Final(b, p, elastic, warmOnly, later, deadline, out)
    ensures Final(b, p, elastic, warmOnly, since, deadline, out)
  {
    WarrantedSince(LastOf(b.attempt), b.answered, p, elastic, warmOnly, since, later, b.used, b.now, deadline, out);
  }

  /** The flight has ended with what an attempt on `p` was warranted to answer; if with success, then `p`
      fitted in a snapshot read since, and a reservation is held where one is due. */
  ghost predicate Concludes(s: Terms, m: Account, a: Account, p: string, out: Outcome) {
    && Ended(a.pc, out) && HoldsWarm(m.held, a.held, out) && Since(m, a, s.deadline) && m.sent < a.sent
    && (out.Success? ==> SoundBy(s, out, a.seen, |m.seen|))
    && p in s.targets
    && Final(a, p, s.targets[p].elastic, s.warmOnly, m.used, s.deadline, out)
  }

  ghost predicate SoundBy(s: Terms, out: Outcome, seen: seq<Snapshot>, since: nat)
    requires out.Success?
  {
    var p := out.result.handle.provider;
    (exists k | since <= k < |seen| :: s.fits(p, seen[k])) && Good(s.targets, p, s.warmOnly, out)
  }

  /** It has ended in the last pass on record. */
  ghost predicate EndsAnswered(s: Terms, m: Account, a: Account, trail: seq<Turn>, out: Outcome) {
    && Recorded(m, a, trail) && Trail(s, trail, a.spilled.Keys)
    && trail != [] && trail[|trail| - 1].pass.Answered? && trail[|trail| - 1].pass.out == out
    && Concludes(s, m, a, trail[|trail| - 1].pass.provider, out)
  }

  /** What leaves the loop with nothing but its spills to answer with. */
  ghost predicate RunsOut(s: Terms, m: Account, a: Account) {
    || |a.spilled| >= s.maxSpill
    || a.now >= s.deadline
    || (a.spilled != map[] && |m.used| < |a.used| && a.used[|a.used| - 1] == Cancelled)
  }

  /** The answer is the last attempt's, or what the passes on record come to; and if nothing stopped
      the loop in its last pass, then its spills are used up, time is up, or the client has gone. */
  ghost predicate EndsSo(s: Terms, m: Account, a: Account, trail: seq<Turn>, out: Outcome) {
    if Unanswered(trail) then EndsUnanswered(s, m, a, trail, out) else EndsAnswered(s, m, a, trail, out)
  }

  ghost predicate EndsUnanswered(s: Terms, m: Account, a: Account, trail: seq<Turn>, out: Outcome) {
    && Ended(a.pc, out) && Since(m, a, s.deadline) && Recorded(m, a, trail) && Trail(s, trail, a.spilled.Keys)
    && out == Failure(AnswerOf(trail, ReasonsFor(a.spilled))) && (Open(trail) ==> RunsOut(s, m, a))
  }

  ghost predicate StopsRightly(s: Terms, m: Account, a: Account, trail: seq<Turn>, why: Option<Reason>,
                               cooling: set<string>) {
    Explains(trail, ReasonsFor(a.spilled), why, cooling) && (Open(trail) ==> RunsOut(s, m, a)) && Unanswered(trail)
  }

  /** Where a pass leaves the flight. */
  ghost predicate After(s: Terms, m: Account, a: Account, trail: seq<Turn>, st: Standing, next: Next) {
    match next
    case AnswerWith(out) => EndsAnswered(s, m, a, trail, out)
    case Stop(why) => Running(s, m, a, trail, st) && StopsRightly(s, m, a, trail, why, st.cooling)
    case GoOn => Running(s, m, a, trail, st) && Open(trail)
  }

  // ----- putting a pass on record --------------------------------------------------------------------------------

  lemma RecordedNext(m: Account, a: Account, trail: seq<Turn>, t: Turn)
    requires a.asked == m.asked + AskedIn(trail) + Joined(t.view.gates) + t.slot
    requires a.seen == m.seen + SeenIn(trail) + [t.view.cs]
    ensures Recorded(m, a, trail + [t])
  {
    LastTurn(trail, t);
    Regroup(m.asked, AskedIn(trail), Joined(t.view.gates), t.slot);
    Regroup(m.seen, SeenIn(trail), [t.view.cs], []);
  }

  lemma Regroup<T>(a: seq<T>, b: seq<T>, c: seq<T>, d: seq<T>)
    ensures a + b + c + d == a + (b + c + d) && a + b + c == a + (b + c)
  {
  }

  lemma StopGrows(s: Terms, trail: seq<Turn>, tried: set<string>, full: set<string>, v: View, why: Reason)
    requires why.ReasonNoProviders? || why.ReasonInvalidPolicy?
    requires Judged(s, trail, tried, full, v, if why.ReasonNoProviders? then NoneListed else BadPolicy)
    ensures Trail(s, trail + [Turn(v, tried, Stopped(why), [])], tried)
  {
    TrailGrows(s, trail, Turn(v, tried, Stopped(why), []), tried);
  }

  lemma StopStands(trail: seq<Turn>, met: Standing, t: Turn, why: Reason, reasons: map<string, Reason>)
    requires t.pass == Stopped(why) && met.full == FullAfter(trail) && Meets(met, trail, t.view)
    ensures Stands(met, trail + [t]) && !Open(trail + [t]) && Unanswered(trail + [t])
    ensures Explains(trail + [t], reasons, Some(why), met.cooling)
  {
    LastTurn(trail, t);
  }

  lemma StopTurn(s: Terms, m: Account, a: Account, trail: seq<Turn>, met: Standing, v: View, why: Reason)
    returns (trail': seq<Turn>)
    requires why.ReasonNoProviders? || why.ReasonInvalidPolicy?
    requires Decided(s, m, a, trail, met, v, if why.ReasonNoProviders? then NoneListed else BadPolicy)
    ensures After(s, m, a, trail', met, Stop(Some(why)))
  {
    var t := Turn(v, a.spilled.Keys, Stopped(why), []);
    StopGrows(s, trail, a.spilled.Keys, met.full, v, why);
    StopStands(trail, met, t, why, ReasonsFor(a.spilled));
    RecordedNext(m, a, trail, t);
    trail' := trail + [t];
  }

  /** Nobody was picked, and a slot came free or did not, or was not asked for. */
  ghost predicate Waits(met: Standing, slot: seq<Inquiry>, st: Standing, next: Next) {
    && SlotOk(met.full, met.waited, NobodyLeft, slot)
    && if slot != [] && slot[0].yes then next == GoOn && st == met.(waited := true, full := {})
       else (&& st == met
             && next == Stop(if slot != [] then Some(ReasonSlotsFull)
                             else if met.overRate != {} then Some(ReasonRateLimited) else None))
  }

  lemma WaitGrows(s: Terms, trail: seq<Turn>, tried: set<string>, met: Standing, v: View, slot: seq<Inquiry>)
    requires Judged(s, trail, tried, met.full, v, Nobody) && met.waited == WaitedAfter(trail)
    requires SlotOk(met.full, met.waited, NobodyLeft, slot)
    ensures Trail(s, trail + [Turn(v, tried, NobodyLeft, slot)], tried)
  {
    TrailGrows(s, trail, Turn(v, tried, NobodyLeft, slot), tried);
  }

  lemma WaitStands(trail: seq<Turn>, met: Standing, t: Turn, st: Standing, next: Next, reasons: map<string, Reason>)
    requires t.pass.NobodyLeft? && Waits(met, t.slot, st, next)
    requires met.full == FullAfter(trail) && Meets(met, trail, t.view)
    ensures Stands(st, trail + [t]) && Unanswered(trail + [t])
    ensures (next.GoOn? <==> Open(trail + [t])) && !next.AnswerWith?
    ensures next.Stop? ==> Explains(trail + [t], reasons, next.why, st.cooling)
  {
    LastTurn(trail, t);
  }

  lemma WaitTurn(s: Terms, m: Account, a: Account, trail: seq<Turn>, met: Standing, v: View, slot: seq<Inquiry>,
                 st: Standing, next: Next)
    returns (trail': seq<Turn>)
    requires Decided(s, m, a, trail, met, v, Nobody) && Waits(met, slot, st, next)
    ensures After(s, m, a.(asked := a.asked + slot), trail', st, next)
  {
    var t := Turn(v, a.spilled.Keys, NobodyLeft, slot);
    WaitGrows(s, trail, a.spilled.Keys, met, v, slot);
    WaitStands(trail, met, t, st, next, ReasonsFor(a.spilled));
    RecordedNext(m, a.(asked := a.asked + slot), trail, t);
    trail' := trail + [t];
  }

  /** Somebody was picked, and had no slot free, or was attempted. */
  ghost predicate Tries(p: string, pass: Pass, slot: seq<Inquiry>) {
    && (pass.SlotsFull? || pass.TryAgain? || pass.Answered?)
    && pass.provider == p && slot == [Inquiry(p, AboutSlot, !pass.SlotsFull?)]
  }

  lemma PickGrows(s: Terms, trail: seq<Turn>, full: set<string>, v: View, p: string, warm: bool, pass: Pass,
                  slot: seq<Inquiry>, before: set<string>, after: set<string>)
    requires Judged(s, trail, before, full, v, Pick(p, warm)) && Tries(p, pass, slot) && Spilling(pass, before, after)
    ensures Trail(s, trail + [Turn(v, before, pass, slot)], after)
  {
    TrailGrows(s, trail, Turn(v, before, pass, slot), after);
  }

  lemma PickTurn(s: Terms, m: Account, a: Account, trail: seq<Turn>, met: Standing, v: View, p: string, warm: bool,
                 pass: Pass, slot: seq<Inquiry>, b: Account)
    returns (trail': seq<Turn>)
    requires Decided(s, m, a, trail, met, v, Pick(p, warm)) && Tries(p, pass, slot)
    requires b.asked == a.asked + slot && b.seen == a.seen && Spilling(pass, a.spilled.Keys, b.spilled.Keys)
    ensures Trail(s, trail', b.spilled.Keys) && Recorded(m, b, trail') && trail' != []
    ensures trail'[|trail'| - 1].pass == pass && (!pass.Answered? ==> Open(trail'))
    ensures
      var full := if pass.SlotsFull? then met.full + {p} else met.full;
      Stands(met.(full := full), trail')
  {
    var t := Turn(v, a.spilled.Keys, pass, slot);
    PickGrows(s, trail, met.full, v, p, warm, pass, slot, a.spilled.Keys, b.spilled.Keys);
    LastTurn(trail, t);
    RecordedNext(m, b, trail, t);
    trail' := trail + [t];
  }

  lemma DecisionTaken(s: Terms, m: Account, a: Account, b: Account, trail: seq<Turn>, st: Standing, met: Standing,
                      v: View, choice: Choice)
    requires Running(s, m, a, trail, st) && Open(trail)
    requires met == st.(overRate := st.overRate + KeptOut(v, OverRate), cooling := st.cooling + KeptOut(v, Cooling))
    requires b.asked == a.asked + Joined(v.gates) && b.seen == a.seen + [v.cs] && b.now >= a.now
    requires b == a.(asked := b.asked, seen := b.seen, now := b.now)
    requires s.rightful(Scope(s.targets, s.pin, a.spilled.Keys + st.full), v, choice)
    ensures Decided(s, m, b, trail, met, v, choice)
  {
  }

  lemma CancelledStops(s: Terms, m: Account, a: Account, b: Account, trail: seq<Turn>, st: Standing)
    requires Running(s, m, a, trail, st) && Open(trail) && b == a.(used := a.used + [Cancelled])
    ensures Running(s, m, b, trail, st)
    ensures a.spilled != map[] ==> After(s, m, b, trail, st, Stop(None))
  {
    InTimeOn(m.used, a.used, b.used, s.deadline);
  }

  lemma GivenUp(s: Terms, m: Account, a: Account, b: Account, trail: seq<Turn>, cooling: set<string>,
                why: Option<Reason>, out: Outcome)
    requires Since(m, a, s.deadline) && Recorded(m, a, trail) && Trail(s, trail, a.spilled.Keys)
    requires StopsRightly(s, m, a, trail, why, cooling)
    requires b == a.(pc := Done(None), attempt := b.attempt)
    requires out == Failure(if why.Some? then why.value else WhyNone(ReasonsFor(a.spilled), cooling != {}))
    ensures EndsSo(s, m, b, trail, out)
  {
  }

  // ----- the loop ------------------------------------------------------------------------------------------------

  /** One attempt; a spill is remembered, and leaves the flight where it was. */
  method TryOne(env: Env, p: string, ghost pin: Option<string>, warm: bool, warmOnly: bool, deadline: int,
                spills: Spills)
    returns (done: bool, out: Outcome, spills': Spills)
    requires env.Valid() && p in env.Capable() && env.flight.pc == Placing(pin) && Allows(pin, p)
    requires (warmOnly ==> warm) && Tracks(env.calls.spilled, spills) && p !in spills.reasons
    modifies env`cursor, env`now, env`nextTicket, env`held
    modifies env`flight, env`attempt, env`calls, env`used
    ensures env.Valid() && env.now >= old(env.now) && old(env.held) <= env.held
    ensures old(env.calls.sent) <= env.calls.sent && InTime(old(env.used), env.used, deadline)
    ensures done ==>
      && Ended(env.flight.pc, out) && Good(env.targets, p, warmOnly, out) && HoldsWarm(old(env.held), env.held, out)
      && old(env.calls.sent) < env.calls.sent
      && Final(AccountOf(env), p, env.targets[p].elastic, warmOnly, old(env.used), deadline, out)
    ensures env.attempt == old(env.flight.log)
    ensures !done ==>
      && env.flight.pc == Placing(pin) && Tracks(env.calls.spilled, spills')
      && (env.Attempt() == [] || CreatedNothing(env.Attempt()))
      && old(env.calls.spilled.Keys) <= env.calls.spilled.Keys <= old(env.calls.spilled.Keys) + {p}
  {
    var action;
    out, action := AttemptProvider(env, p, pin, warm, warmOnly, deadline);
    match action
    case AttemptDone =>
      assert env.Last() == LastOf(env.Attempt());
      return true, out, spills;
    case RetryDecision => return false, out, spills;
    case Spill =>
      OneMoreSpilled(old(env.calls.spilled), p, env.calls.answered);
      spills' := AddSpill(spills, p, out.reason);
      return false, out, spills';
  }

  /** Attempts the provider that was picked, if it has a slot free. */
  method TryPicked(env: Env, p: string, ghost pin: Option<string>, warm: bool, warmOnly: bool, deadline: int,
                   spills: Spills)
    returns (pass: Pass, spills': Spills, ghost slot: seq<Inquiry>)
    requires env.Valid() && p in env.Capable() && env.flight.pc == Placing(pin) && Allows(pin, p)
    requires (warmOnly ==> warm) && Tracks(env.calls.spilled, spills) && p !in spills.reasons
    modifies env`cursor, env`now, env`nextTicket, env`held
    modifies env`flight, env`attempt, env`calls, env`used, env`asked
    ensures env.Valid() && env.now >= old(env.now) && old(env.held) <= env.held
    ensures old(env.calls.sent) <= env.calls.sent && InTime(old(env.used), env.used, deadline)
    ensures env.asked == old(env.asked) + slot && Tries(p, pass, slot)
    ensures pass.Answered? ==>
      && Ended(env.flight.pc, pass.out) && Good(env.targets, p, warmOnly, pass.out)
      && HoldsWarm(old(env.held), env.held, pass.out) && old(env.calls.sent) < env.calls.sent
      && Final(AccountOf(env), p, env.targets[p].elastic, warmOnly, old(env.used), deadline, pass.out)
    ensures !pass.Answered? ==> env.flight.pc == Placing(pin) && Tracks(env.calls.spilled, spills')
    ensures Spilling(pass, old(env.calls.spilled.Keys), env.calls.spilled.Keys)
  {
    var acquired := env.Inquire(p, AboutSlot);
    slot := [Inquiry(p, AboutSlot, acquired)];
    if !acquired { return SlotsFull(p), spills, slot; }
    var done, out;
    done, out, spills' := TryOne(env, p, pin, warm, warmOnly, deadline, spills);
    pass := if done then Answered(p, out) else TryAgain(p);
  }

  /** Somebody was picked. */
  method TryPick(env: Env, ghost s: Terms, ghost m: Account, ghost trail: seq<Turn>, met: Standing, p: string,
                 warm: bool, warmOnly: bool, deadline: int, ghost v: View)
    returns (next: Next, st': Standing, ghost trail': seq<Turn>)
    requires env.Valid() && s.targets == env.targets && s.warmOnly == warmOnly && s.deadline == deadline
    requires Decided(s, m, AccountOf(env), trail, met, v, Pick(p, warm))
    requires Suits(s, env.calls.spilled.Keys + met.full, v, Pick(p, warm))
    modifies env`cursor, env`now, env`nextTicket, env`held
    modifies env`flight, env`attempt, env`calls, env`used, env`asked
    ensures env.Valid() && env.now >= old(env.now)
    ensures After(s, m, AccountOf(env), trail', st', next)
  {
    ghost var a := AccountOf(env);
    var pass, spills;
    ghost var slot;
    pass, spills, slot := TryPicked(env, p, s.pin, warm, warmOnly, deadline, met.spills);
    ghost var b := AccountOf(env);
    trail' := PickTurn(s, m, a, trail, met, v, p, warm, pass, slot, b);
    PickSince(s, m, a, b, v.cs, p, pass);
    if pass.Answered? { return AnswerWith(pass.out), met, trail'; }
    st' := met.(spills := spills, full := if pass.SlotsFull? then met.full + {p} else met.full);
    next := GoOn;
  }

  lemma PickSince(s: Terms, m: Account, a: Account, b: Account, cs: seq<Candidate>, p: string, pass: Pass)
    requires Since(m, a, s.deadline) && Since(a, b, s.deadline)
    requires b.seen == a.seen && |m.seen| < |a.seen| && a.seen[|a.seen| - 1] == cs && s.fits(p, cs)
    requires pass.Answered? ==>
      && Ended(b.pc, pass.out) && Good(s.targets, p, s.warmOnly, pass.out)
      && HoldsWarm(a.held, b.held, pass.out) && a.sent < b.sent
      && p in s.targets
      && Final(b, p, s.targets[p].elastic, s.warmOnly, a.used, s.deadline, pass.out)
    ensures Since(m, b, s.deadline) && (pass.Answered? ==> Concludes(s, m, b, p, pass.out))
  {
    InTimeOn(m.used, a.used, b.used, s.deadline);
    if pass.Answered? {
      FinalSince(b, p, s.targets[p].elastic, s.warmOnly, m.used, a.used, s.deadline, pass.out);
    }
  }

  /** Nobody to decide for: waits once for a full provider's slot, else says what stood in the way. */
  method Stuck(env: Env, met: Standing) returns (next: Next, st': Standing, ghost slot: seq<Inquiry>)
    modifies env`cursor, env`asked
    ensures env.asked == old(env.asked) + slot && Waits(met, slot, st', next)
  {
    st', slot := met, [];
    if met.full != {} && !met.waited {
      var freed := env.Inquire("", AboutFreedSlot);
      slot := [Inquiry("", AboutFreedSlot, freed)];
      if freed { return GoOn, met.(waited := true, full := {}), slot; }
      next := Stop(Some(ReasonSlotsFull));
    } else {
      next := Stop(if met.overRate != {} then Some(ReasonRateLimited) else None);
    }
  }

  /** Nobody was picked. */
  method WaitOrStop(env: Env, ghost s: Terms, ghost m: Account, ghost trail: seq<Turn>, met: Standing, ghost v: View)
    returns (next: Next, st': Standing, ghost trail': seq<Turn>)
    requires env.Valid() && Decided(s, m, AccountOf(env), trail, met, v, Nobody)
    modifies env`cursor, env`asked
    ensures env.Valid() && env.now >= old(env.now) && After(s, m, AccountOf(env), trail', st', next)
  {
    ghost var a := AccountOf(env);
    ghost var slot;
    next, st', slot := Stuck(env, met);
    trail' := WaitTurn(s, m, a, trail, met, v, slot, st', next);
    assert AccountOf(env) == a.(asked := a.asked + slot);
  }

  /** The terms are those of this flight. */
  ghost predicate Matches(env: Env, s: Terms, pin: Option<string>, policy: Policy, wants: Wants, deadline: int) {
    && s.targets == env.targets && s.pin == pin && s.warmOnly == wants.warmOnly && s.deadline == deadline
    && (forall sc, v, choice :: s.rightful(sc, v, choice) <==> Decides(policy, wants, sc, v, choice))
    && (forall p, cs :: s.fits(p, cs) <==> FitsIn(policy, wants, env.targets, p, cs))
  }

  /** The decision is as the terms would have it, and a pick may serve the request. */
  ghost predicate Suits(s: Terms, excluded: set<string>, v: View, choice: Choice) {
    var sc := Scope(s.targets, s.pin, excluded);
    && s.rightful(sc, v, choice)
    && (choice.Pick? ==>
          sc.Admits(choice.provider) && s.fits(choice.provider, v.cs) && (s.warmOnly ==> choice.warm))
  }

  /** Reads the registry and decides on the terms. */
  method DecideOn(env: Env, ghost s: Terms, pin: Option<string>, excluded: set<string>, policy: Policy, wants: Wants,
                  deadline: int)
    returns (choice: Choice, overRate: set<string>, cooling: set<string>, ghost v: View)
    requires Matches(env, s, pin, policy, wants, deadline)
    modifies env`cursor, env`now, env`asked, env`seen
    ensures env.now > old(env.now) && env.asked == old(env.asked) + Joined(v.gates)
    ensures env.seen == old(env.seen) + [v.cs] && Suits(s, excluded, v, choice)
    ensures overRate == KeptOut(v, OverRate) && cooling == KeptOut(v, Cooling)
  {
    choice, overRate, cooling, v := Decide(env, pin, excluded, policy, wants);
    if choice.Pick? { PickFits(policy, wants, Scope(env.targets, pin, excluded), v, choice); }
  }

  /** What follows from a decision. */
  method FollowUp(env: Env, ghost s: Terms, ghost m: Account, ghost trail: seq<Turn>, met: Standing, choice: Choice,
                  warmOnly: bool, deadline: int, ghost v: View)
    returns (next: Next, st': Standing, ghost trail': seq<Turn>)
    requires env.Valid() && s.targets == env.targets && s.warmOnly == warmOnly && s.deadline == deadline
    requires Decided(s, m, AccountOf(env), trail, met, v, choice)
    requires Suits(s, env.calls.spilled.Keys + met.full, v, choice)
    modifies env`cursor, env`now, env`nextTicket, env`held
    modifies env`flight, env`attempt, env`calls, env`used, env`asked
    ensures env.Valid() && env.now >= old(env.now) && After(s, m, AccountOf(env), trail', st', next)
  {
    match choice
    case NoneListed =>
      trail' := StopTurn(s, m, AccountOf(env), trail, met, v, ReasonNoProviders);
      next, st' := Stop(Some(ReasonNoProviders)), met;
    case BadPolicy =>
      trail' := StopTurn(s, m, AccountOf(env), trail, met, v, ReasonInvalidPolicy);
      next, st' := Stop(Some(ReasonInvalidPolicy)), met;
    case Nobody => next, st', trail' := WaitOrStop(env, s, m, trail, met, v);
    case Pick(p, warm) => next, st', trail' := TryPick(env, s, m, trail, met, p, warm, warmOnly, deadline, v);
  }

  method FollowDecision(env: Env, ghost s: Terms, ghost m: Account, ghost a: Account, ghost trail: seq<Turn>,
                        st: Standing, choice: Choice, overRate: set<string>, cooling: set<string>, warmOnly: bool,
                        deadline: int, ghost v: View)
    returns (next: Next, st': Standing, ghost trail': seq<Turn>)
    requires env.Valid() && s.targets == env.targets && s.warmOnly == warmOnly && s.deadline == deadline
    requires Running(s, m, a, trail, st) && Open(trail) && Suits(s, a.spilled.Keys + st.full, v, choice)
    requires overRate == KeptOut(v, OverRate) && cooling == KeptOut(v, Cooling)
    requires env.asked == a.asked + Joined(v.gates) && env.seen == a.seen + [v.cs] && env.now >= a.now
    requires AccountOf(env) == a.(asked := env.asked, seen := env.seen, now := env.now)
    modifies env`cursor, env`now, env`nextTicket, env`held
    modifies env`flight, env`attempt, env`calls, env`used, env`asked
    ensures env.Valid() && env.now >= old(env.now) && After(s, m, AccountOf(env), trail', st', next)
  {
    var met := st.(overRate := st.overRate + overRate, cooling := st.cooling + cooling);
    DecisionTaken(s, m, a, AccountOf(env), trail, st, met, v, choice);
    next, st', trail' := FollowUp(env, s, m, trail, met, choice, warmOnly, deadline, v);
  }

  method TakePass(env: Env, ghost s: Terms, ghost m: Account, ghost trail: seq<Turn>, pin: Option<string>, st: Standing,
                  policy: Policy, wants: Wants, deadline: int)
    returns (next: Next, st': Standing, ghost trail': seq<Turn>)
    requires env.Valid() && Matches(env, s, pin, policy, wants, deadline)
    requires Running(s, m, AccountOf(env), trail, st) && Open(trail)
    modifies env`cursor, env`now, env`nextTicket, env`held, env`seen
    modifies env`flight, env`attempt, env`calls, env`used, env`asked
    ensures env.Valid() && env.now > old(env.now) && After(s, m, AccountOf(env), trail', st', next)
  {
    ghost var a := AccountOf(env);
    assert st.spills.reasons.Keys == a.spilled.Keys;
    var choice, over, cool;
    ghost var v;
    choice, over, cool, v := DecideOn(env, s, pin, st.spills.reasons.Keys + st.full, policy, wants, deadline);
    next, st', trail' := FollowDecision(env, s, m, a, trail, st, choice, over, cool, wants.warmOnly, deadline, v);
  }

  /** One pass, unless the request was cancelled after a spill. */
  method OnePass(env: Env, ghost s: Terms, ghost m: Account, ghost trail: seq<Turn>, pin: Option<string>, st: Standing,
                 policy: Policy, wants: Wants, deadline: int)
    returns (next: Next, st': Standing, ghost trail': seq<Turn>)
    requires env.Valid() && Matches(env, s, pin, policy, wants, deadline)
    requires Running(s, m, AccountOf(env), trail, st) && Open(trail)
    modifies env`cursor, env`now, env`nextTicket, env`held, env`seen
    modifies env`flight, env`attempt, env`calls, env`used, env`asked
    ensures env.Valid() && env.now >= old(env.now) && (next.GoOn? ==> env.now > old(env.now))
    ensures After(s, m, AccountOf(env), trail', st', next)
  {
    ghost var a := AccountOf(env);
    var cancelled := env.CheckCancelled();
    if cancelled { CancelledStops(s, m, a, AccountOf(env), trail, st); } else { assert AccountOf(env) == a; }
    if cancelled && |st.spills.reasons| > 0 {
      next, st', trail' := Stop(None), st, trail;
    } else {
      next, st', trail' := TakePass(env, s, m, trail, pin, st, policy, wants, deadline);
    }
  }

  method Run(env: Env, pin: Option<string>, policy: Policy, wants: Wants, maxSpill: nat, deadline: int)
    returns (out: Outcome, ghost trail: seq<Turn>)
    requires env.Valid() && env.flight.pc == Placing(pin) && env.calls.spilled == map[]
    modifies env`cursor, env`now, env`nextTicket, env`held, env`seen
    modifies env`flight, env`attempt, env`calls, env`used, env`asked
    ensures env.Valid() && env.now >= old(env.now) && old(env.held) <= env.held
    ensures old(env.seen) <= env.seen && InTime(old(env.used), env.used, deadline)
    ensures Ended(env.flight.pc, out) && Sound(policy, wants, env.targets, out, env.seen, |old(env.seen)|)
    ensures HoldsWarm(old(env.held), env.held, out)
    ensures EndsSo(TermsOf(env.targets, pin, policy, wants, maxSpill, deadline), old(AccountOf(env)), AccountOf(env),
                   trail, out)
  {
    ghost var s, m := TermsOf(env.targets, pin, policy, wants, maxSpill, deadline), AccountOf(env);
    out, trail := Loop(env, s, m, pin, policy, wants, maxSpill, deadline);
  }

  method Loop(env: Env, ghost s: Terms, ghost m: Account, pin: Option<string>, policy: Policy, wants: Wants,
              maxSpill: nat, deadline: int)
    returns (out: Outcome, ghost trail: seq<Turn>)
    requires env.Valid() && env.flight.pc == Placing(pin) && env.calls.spilled == map[] && m == AccountOf(env)
    requires Matches(env, s, pin, policy, wants, deadline) && s.maxSpill == maxSpill
    modifies env`cursor, env`now, env`nextTicket, env`held, env`seen
    modifies env`flight, env`attempt, env`calls, env`used, env`asked
    ensures env.Valid() && EndsSo(s, m, AccountOf(env), trail, out)
  {
    var st := Standing(NO_SPILLS, {}, {}, {}, false);
    var why: Option<Reason> := None;
    ghost var stopped := false;
    trail := [];
    while |st.spills.reasons| < maxSpill && env.now < deadline
      invariant env.Valid() && Running(s, m, AccountOf(env), trail, st) && Open(trail)
      decreases Left(deadline, env.now)
    {
      var next;
      next, st, trail := OnePass(env, s, m, trail, pin, st, policy, wants, deadline);
      if next.AnswerWith? { return next.out, trail; }
      if next.Stop? {
        why, stopped := next.why, true;
        break;
      }
    }
    if !stopped { SpillsCounted(env.calls.spilled); }
    out := GiveUpWith(env, s, m, trail, st, why);
  }

  lemma SpillsCounted(spilled: map<string, Kind>)
    ensures |ReasonsFor(spilled)| == |spilled|
  {
    assert ReasonsFor(spilled).Keys == spilled.Keys;
  }

  method GiveUpWith(env: Env, ghost s: Terms, ghost m: Account, ghost trail: seq<Turn>, st: Standing,
                    why: Option<Reason>)
    returns (out: Outcome)
    requires env.Valid() && Running(s, m, AccountOf(env), trail, st)
    requires StopsRightly(s, m, AccountOf(env), trail, why, st.cooling)
    modifies env`flight
    ensures env.Valid() && EndsSo(s, m, AccountOf(env), trail, out)
  {
    ghost var a := AccountOf(env);
    env.GiveUp();
    var reason := Exhausted(st.spills, st.cooling != {});
    out := Failure(if why.Some? then why.value else reason);
    GivenUp(s, m, a, AccountOf(env), trail, st.cooling, why, out);
  }
}
