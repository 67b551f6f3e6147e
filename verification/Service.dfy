/** The decide, reserve, decide-again loop of the scheduling endpoint. */
module Service {
  import opened Framework
  import opened Policies
  import opened Scoring

  datatype Outcome =
    | Placed(provider: string, score: int)
    | NoProviders
    | InvalidPolicy
    | NoCandidates

  /** What a request does to the registry. */
  datatype Effect =
    | Reserved(provider: string)
    | Refused(provider: string)        // asked for a warm sandbox and was told none is left
    | ColdRecorded(provider: string)

  /** Whether a provider, which is candidate `w`, showed warm capacity. */
  method WarmIn(cs: seq<Candidate>, provider: string, ghost w: nat) returns (warm: bool)
    requires DistinctNames(cs) && w < |cs| && cs[w].provider == provider
    ensures warm == (cs[w].warm > 0)
  {
    for i := 0 to |cs|
      invariant forall j | 0 <= j < i :: cs[j].provider != provider
    {
      if cs[i].provider == provider { return cs[i].warm > 0; }
    }
    assert false;
  }

  function WarmCount(cs: seq<Candidate>): nat {
    if cs == [] then 0
    else WarmCount(cs[..|cs| - 1]) + if cs[|cs| - 1].warm > 0 then 1 else 0
  }

  function Blank(c: Candidate, provider: string): Candidate {
    if c.provider == provider then c.(warm := 0) else c
  }

  /** The candidates with one provider shown empty. */
  function Emptied(cs: seq<Candidate>, provider: string): (ds: seq<Candidate>)
    ensures |ds| == |cs|
  {
    seq(|cs|, i requires 0 <= i < |cs| => Blank(cs[i], provider))
  }

  lemma {:induction false} EmptyingNeverAdds(cs: seq<Candidate>, provider: string)
    ensures WarmCount(Emptied(cs, provider)) <= WarmCount(cs)
  {
    if cs != [] {
      EmptyingNeverAdds(cs[..|cs| - 1], provider);
      assert Emptied(cs, provider)[..|cs| - 1] == Emptied(cs[..|cs| - 1], provider);
    }
  }

  /** Emptying a provider that showed warm capacity leaves fewer warm candidates. */
  lemma {:induction false} EmptyingRemoves(cs: seq<Candidate>, provider: string, i: nat)
    requires i < |cs| && cs[i].provider == provider && cs[i].warm > 0
    ensures WarmCount(Emptied(cs, provider)) < WarmCount(cs)
  {
    var front := cs[..|cs| - 1];
    assert Emptied(cs, provider)[..|cs| - 1] == Emptied(front, provider);
    if i < |front| { EmptyingRemoves(front, provider, i); } else { EmptyingNeverAdds(front, provider); }
  }

  method Empty(cs: seq<Candidate>, provider: string) returns (ds: seq<Candidate>)
    ensures ds == Emptied(cs, provider)
  {
    ds := cs;
    for i := 0 to |cs|
      invariant |ds| == |cs| && forall j | 0 <= j < |cs| ::
        ds[j] == if j < i then Blank(cs[j], provider) else cs[j]
    {
      if ds[i].provider == provider { ds := ds[i := ds[i].(warm := 0)]; }
    }
  }

  ghost predicate OnlyRefusals(effects: seq<Effect>) {
    forall k | 0 <= k < |effects| :: effects[k].Refused?
  }

  /** The working copy is the snapshot, with exactly the providers that refused shown empty. */
  ghost predicate CopyOf(snapshot: seq<Candidate>, copy: seq<Candidate>, effects: seq<Effect>) {
    && |copy| == |snapshot|
    && forall i | 0 <= i < |copy| ::
         copy[i] == if Refused(snapshot[i].provider) in effects then snapshot[i].(warm := 0) else snapshot[i]
  }

  /** Emptying keeps everything about a candidate but its warm count. */
  lemma {:induction false} MeetsInSnapshot(snapshot: seq<Candidate>, copy: seq<Candidate>, effects: seq<Effect>, w: nat,
                        requirements: map<string, string>)
    requires CopyOf(snapshot, copy, effects) && w < |copy| && MeetsRequirements(requirements, copy[w])
    ensures MeetsRequirements(requirements, snapshot[w]) && snapshot[w].provider == copy[w].provider
  {
    assert forall key :: copy[w].Attr(key) == snapshot[w].Attr(key);
  }

  /** A refusal empties exactly the provider that refused. */
  lemma {:induction false} OneMoreRefusal(snapshot: seq<Candidate>, copy: seq<Candidate>, effects: seq<Effect>,
                                          provider: string)
    requires CopyOf(snapshot, copy, effects)
    ensures CopyOf(snapshot, Emptied(copy, provider), effects + [Refused(provider)])
  {
  }

  lemma {:induction false} NotARefusal(snapshot: seq<Candidate>, copy: seq<Candidate>, effects: seq<Effect>, e: Effect)
    requires CopyOf(snapshot, copy, effects) && !e.Refused?
    ensures CopyOf(snapshot, copy, effects + [e])
  {
    assert forall provider :: Refused(provider) in effects + [e] <==> Refused(provider) in effects;
  }

  /** The effects are what the registry answered: its k-th reply was no if it refused then, and yes if it
      reserved then. */
  ghost predicate Heard(effects: seq<Effect>, answers: nat -> bool) {
    forall k: nat | k < |effects| :: HeardAt(effects[k], answers(k))
  }

  ghost predicate HeardAt(e: Effect, yes: bool) {
    (e.Refused? ==> !yes) && (e.Reserved? ==> yes)
  }

  lemma HeardNext(effects: seq<Effect>, longer: seq<Effect>, answers: nat -> bool)
    requires Heard(effects, answers) && |longer| == |effects| + 1 && longer[..|effects|] == effects
    requires HeardAt(longer[|effects|], answers(|effects|))
    ensures Heard(longer, answers)
  {
    forall k: nat | k < |longer| ensures HeardAt(longer[k], answers(k)) {
      if k < |effects| { assert longer[k] == longer[..|effects|][k]; }
    }
  }

  /** The placement and its one lasting effect: a warm reservation when the copy still showed
      warm capacity there, a cold record when it did not, after nothing but refusals. */
  ghost predicate SettledBy(effects: seq<Effect>, provider: string, warm: bool) {
    && effects != [] && OnlyRefusals(effects[..|effects| - 1])
    && effects[|effects| - 1] == if warm then Reserved(provider) else ColdRecorded(provider)
  }

  ghost predicate PlacedOn(profile: Profile, req: Request, copy: seq<Candidate>, effects: seq<Effect>, w: nat,
                           rival: nat) {
    Chosen(profile, req, copy, w, rival) && SettledBy(effects, copy[w].provider, copy[w].warm > 0)
  }

  ghost predicate Unplaceable(profile: Profile, req: Request, copy: seq<Candidate>, effects: seq<Effect>) {
    OnlyRefusals(effects) && forall i | 0 <= i < |copy| :: !Feasible(profile, req, copy[i])
  }

  method Decide(profile: Profile, req: Request, cs: seq<Candidate>, rand: (nat, nat) -> nat)
    returns (decided: bool, w: nat, rival: nat)
    ensures if decided then Chosen(profile, req, cs, w, rival)
            else forall i | 0 <= i < |cs| :: !Feasible(profile, req, cs[i])
  {
    var decision, results;
    decision, results, w, rival := Schedule(profile, req, cs, rand);
    decided := decision.Some?;
    assert !decided ==> forall i | 0 <= i < |cs| :: cs[i] in cs;
  }

  /** The loop: `answers` are the registry's replies to its reservations, in order, and `rand`
      its random numbers, both arbitrary. It runs at most one pass per warm provider and one
      more, and its answer is a rightful choice over a copy of the snapshot in which exactly the
      providers that those replies refused are shown empty. */
  method DecideAndReserve(profile: Profile, req: Request, snapshot: seq<Candidate>, answers: nat -> bool,
                          rand: nat -> ((nat, nat) -> nat))
    returns (placed: bool, copy: seq<Candidate>, effects: seq<Effect>, passes: nat, w: nat, rival: nat)
    requires DistinctNames(snapshot)
    ensures passes == |effects| + (if placed then 0 else 1) && passes <= WarmCount(snapshot) + 1
    ensures CopyOf(snapshot, copy, effects) && Heard(effects, answers)
    ensures if placed then PlacedOn(profile, req, copy, effects, w, rival) else Unplaceable(profile, req, copy, effects)
  {
    copy, effects, passes := snapshot, [], 0;
    while true
      invariant passes == |effects| && passes + WarmCount(copy) <= WarmCount(snapshot)
      invariant Working(snapshot, copy, effects) && Heard(effects, answers)
      decreases WarmCount(copy)
    {
      var decided;
      decided, w, rival := Decide(profile, req, copy, rand(passes));
      if !decided { return false, copy, effects, passes + 1, 0, 0; }
      var warm := WarmIn(copy, copy[w].provider, w);
      if !warm || answers(passes) {
        var settled := Settle(snapshot, copy, effects, copy[w].provider, warm);
        HeardNext(effects, settled, answers);
        return true, copy, settled, passes + 1, w, rival;
      }
      ghost var before := effects;
      copy, effects := GiveUpOn(snapshot, copy, effects, w);
      HeardNext(before, effects, answers);
      passes := passes + 1;
    }
  }

  ghost predicate Working(snapshot: seq<Candidate>, copy: seq<Candidate>, effects: seq<Effect>) {
    CopyOf(snapshot, copy, effects) && OnlyRefusals(effects) && DistinctNames(copy)
  }

  method Settle(ghost snapshot: seq<Candidate>, ghost copy: seq<Candidate>, effects: seq<Effect>, provider: string,
                warm: bool)
    returns (settled: seq<Effect>)
    requires Working(snapshot, copy, effects)
    ensures CopyOf(snapshot, copy, settled) && SettledBy(settled, provider, warm)
    ensures |settled| == |effects| + 1 && settled[..|effects|] == effects
  {
    var effect := if warm then Reserved(provider) else ColdRecorded(provider);
    NotARefusal(snapshot, copy, effects, effect);
    settled := effects + [effect];
    assert settled[..|settled| - 1] == effects;
  }

  /** Shows the provider of candidate `w` empty, its last warm sandbox having gone to another. */
  method GiveUpOn(ghost snapshot: seq<Candidate>, copy: seq<Candidate>, effects: seq<Effect>, w: nat)
    returns (copy': seq<Candidate>, effects': seq<Effect>)
    requires Working(snapshot, copy, effects) && w < |copy| && copy[w].warm > 0
    ensures Working(snapshot, copy', effects') && WarmCount(copy') < WarmCount(copy)
    ensures effects' == effects + [Refused(copy[w].provider)]
  {
    EmptyingRemoves(copy, copy[w].provider, w);
    OneMoreRefusal(snapshot, copy, effects, copy[w].provider);
    copy' := Empty(copy, copy[w].provider);
    effects' := effects + [Refused(copy[w].provider)];
  }

  /** Emptying changes no template either. */
  lemma {:induction false} OffersInSnapshot(snapshot: seq<Candidate>, copy: seq<Candidate>, effects: seq<Effect>,
                                            w: nat, template: string)
    requires CopyOf(snapshot, copy, effects) && w < |copy| && copy[w].HasTemplate(template)
    ensures snapshot[w].HasTemplate(template)
  {
  }

  /** What a placement is promised to be: by a valid policy, on a candidate of the snapshot that
      meets its requirements, offers the template and is warm if it must be; a rightful choice over
      a copy in which exactly the providers that refused are shown empty; with one lasting effect. */
  ghost predicate RightlyPlaced(policy: Policy, wants: Wants, snapshot: seq<Candidate>, copy: seq<Candidate>,
                                effects: seq<Effect>, w: nat, rival: nat, outcome: Outcome)
  {
    && Valid(policy) && outcome.Placed? && CopyOf(snapshot, copy, effects) && w < |snapshot|
    && outcome.provider == snapshot[w].provider == copy[w].provider
    && PlacedOn(ScheduleProfile(policy, wants, snapshot), RequestFor(policy, wants), copy, effects, w, rival)
    && outcome.score == Total(ScheduleProfile(policy, wants, snapshot).scorers, RequestFor(policy, wants), copy[w])
    && MeetsRequirements(policy.requirements, snapshot[w])
    && (wants.template != "" ==> snapshot[w].HasTemplate(wants.template))
    && (wants.warmOnly ==> snapshot[w].warm > 0 && SettledBy(effects, outcome.provider, true))
  }

  /** One scheduling request, under the policy that governs it. */
  method HandleSchedule(policy: Policy, wants: Wants, snapshot: seq<Candidate>, answers: nat -> bool,
                        rand: nat -> ((nat, nat) -> nat))
    returns (outcome: Outcome, effects: seq<Effect>, copy: seq<Candidate>, w: nat, rival: nat)
    requires DistinctNames(snapshot)
    ensures outcome.NoProviders? <==> snapshot == []
    ensures outcome.InvalidPolicy? <==> snapshot != [] && !Valid(policy)
    ensures outcome.Placed? ==> RightlyPlaced(policy, wants, snapshot, copy, effects, w, rival, outcome)
    ensures outcome.NoCandidates? ==>
      && Valid(policy) && CopyOf(snapshot, copy, effects)
      && Unplaceable(ScheduleProfile(policy, wants, snapshot), RequestFor(policy, wants), copy, effects)
    ensures outcome.NoProviders? || outcome.InvalidPolicy? ==> effects == []
    ensures Heard(effects, answers)
  {
    effects, copy, w, rival := [], snapshot, 0, 0;
    if |snapshot| == 0 { return NoProviders, [], snapshot, 0, 0; }
    var profile, req := BuildScheduleProfile(policy, wants, snapshot);
    if profile.None? { return InvalidPolicy, [], snapshot, 0, 0; }
    var placed, passes;
    placed, copy, effects, passes, w, rival := DecideAndReserve(profile.value, req, snapshot, answers, rand);
    if !placed { return NoCandidates, effects, copy, 0, 0; }
    PolicyIsEnforced(policy, wants, snapshot, copy[w]);
    MeetsInSnapshot(snapshot, copy, effects, w, policy.requirements);
    if wants.template != "" { OffersInSnapshot(snapshot, copy, effects, w, wants.template); }
    outcome := Placed(copy[w].provider, Framework.Total(profile.value.scorers, req, copy[w]));
  }
  // ----- what a placement is worth, under a policy with one scorer --------------------------------------

  /** A request was rightly placed on `w`, and `i` could have served it as well. */
  ghost predicate Passed(policy: Policy, wants: Wants, snapshot: seq<Candidate>, copy: seq<Candidate>,
                         effects: seq<Effect>, w: nat, rival: nat, outcome: Outcome, i: nat) {
    && RightlyPlaced(policy, wants, snapshot, copy, effects, w, rival, outcome)
    && i < |copy| && MeetsAll(policy, wants, copy[i])
  }

  lemma {:induction false} ScoresNoLower(policy: Policy, wants: Wants, snapshot: seq<Candidate>, copy: seq<Candidate>,
                                         effects: seq<Effect>, w: nat, rival: nat, outcome: Outcome, i: nat,
                                         name: string)
    requires Only(policy, name) && Passed(policy, wants, snapshot, copy, effects, w, rival, outcome, i)
    ensures w < |copy|
    ensures
      var s := SoleScorer(policy, snapshot);
      Clamp(s.score(RequestFor(policy, wants), copy[i])) <= Clamp(s.score(RequestFor(policy, wants), copy[w]))
  {
    FeasibleExactly(policy, wants, snapshot, copy[i]);
    BestByTheOne(policy, wants, snapshot, copy, name, w, i);
  }

  /** Under Cost alone: nobody who could have served the request is cheaper than who does by more than a
      hundredth of the dearest price, which is one point. */
  lemma {:induction false} CheapestWins(policy: Policy, wants: Wants, snapshot: seq<Candidate>, copy: seq<Candidate>,
                                        effects: seq<Effect>, w: nat, rival: nat, outcome: Outcome, i: nat,
                                        dearest: real)
    requires Only(policy, "Cost") && Passed(policy, wants, snapshot, copy, effects, w, rival, outcome, i)
    requires dearest >= 0.0 && forall k | 0 <= k < |snapshot| :: snapshot[k].cost <= dearest
    ensures w < |snapshot| && (Price(snapshot[w]) - Price(snapshot[i])) * 100.0 <= dearest
  {
    ScoresNoLower(policy, wants, snapshot, copy, effects, w, rival, outcome, i, "Cost");
    var m := MaxCost(snapshot);
    assert SoleScorer(policy, snapshot) == ScorerNamed("Cost", Weight(policy.scorers[0]), m);
    assert copy[w].cost == snapshot[w].cost && copy[i].cost == snapshot[i].cost;
    CostToThePoint(m, copy[w]);
    CostToThePoint(m, copy[i]);
    PointsOf(m, copy[w], copy[i]);
  }

  /** Under WarmCapacity alone: a placement that is not elastic has at least as many warm sandboxes as
      anybody who could have served the request, as far as five. */
  lemma {:induction false} WarmestWins(policy: Policy, wants: Wants, snapshot: seq<Candidate>, copy: seq<Candidate>,
                                       effects: seq<Effect>, w: nat, rival: nat, outcome: Outcome, i: nat)
    requires Only(policy, "WarmCapacity") && Passed(policy, wants, snapshot, copy, effects, w, rival, outcome, i)
    ensures w < |copy| && (!copy[w].elastic && copy[i].warm > 0 ==> copy[w].warm >= 5 || copy[w].warm >= copy[i].warm)
  {
    ScoresNoLower(policy, wants, snapshot, copy, effects, w, rival, outcome, i, "WarmCapacity");
    assert SoleScorer(policy, snapshot) == ScorerNamed("WarmCapacity", Weight(policy.scorers[0]), MaxCost(snapshot));
    WarmToThePoint(copy[w]);
    WarmToThePoint(copy[i]);
  }

  /** Under Affinity alone the preferred provider serves the request if it can, and under Reachability
      alone a reachable one does if any can. */
  lemma {:induction false} PreferredWins(policy: Policy, wants: Wants, snapshot: seq<Candidate>, copy: seq<Candidate>,
                                         effects: seq<Effect>, w: nat, rival: nat, outcome: Outcome, i: nat,
                                         name: string)
    requires Only(policy, name) && Passed(policy, wants, snapshot, copy, effects, w, rival, outcome, i)
    ensures name == "Affinity" && wants.prefer != "" && copy[i].provider == wants.prefer ==>
      outcome.provider == wants.prefer
    ensures name == "Reachability" && copy[i].reachable ==> w < |copy| && copy[w].reachable
  {
    ScoresNoLower(policy, wants, snapshot, copy, effects, w, rival, outcome, i, name);
    OtherScorers(policy, snapshot, 0, RequestFor(policy, wants), copy[i]);
    OtherScorers(policy, snapshot, 0, RequestFor(policy, wants), copy[w]);
  }
}
