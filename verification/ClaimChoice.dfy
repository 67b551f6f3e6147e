/** One decision of the claim loop: who may be tried, what is asked about them, and who is picked. */
module ClaimChoice {
  import opened Text
  import opened Framework
  import opened Policies
  import opened ClaimProtocol
  import opened ClaimEnv
  import opened ClaimVetting
  import Service

  // ----- who may be tried -------------------------------------------------------------------------------

  /** The configured providers, and which of them this decision is confined to. */
  datatype Scope = Scope(targets: map<string, Target>, pin: Option<string>, excluded: set<string>) {
    /** Claim-capable, within the pin and not excluded. */
    predicate Admits(p: string) {
      Allows(pin, p) && p !in excluded && p in targets && targets[p].enabled
    }

    /** Claims that a warm reservation does not cover need a rate token. */
    predicate NeedsToken(c: Candidate) {
      c.provider in targets && (targets[c.provider].elastic || c.warm <= 0)
    }
  }

  /** Every candidate is a provider of the snapshot that the scope admits. */
  ghost predicate Drawn(sc: Scope, cs: seq<Candidate>, candidates: seq<Candidate>) {
    && DistinctNames(candidates)
    && forall i | 0 <= i < |candidates| :: Drawable(sc, cs, candidates[i])
  }

  ghost predicate Drawable(sc: Scope, cs: seq<Candidate>, c: Candidate) {
    c.provider in Names(cs) && c == Filled(sc.targets, Entry(cs, c.provider)) && sc.Admits(c.provider)
  }

  /** Whether a snapshot's candidate goes into this decision, and if not, whether only for being
      over its rate or cooling down. */
  datatype Entrance = In | Out | OverRate | Cooling

  /** The questions put about a candidate, up to the one that settles whether it goes in. Cooldown and
      rate are asked about only when the hard filters let it through. */
  ghost predicate Interviewed(sc: Scope, fits: bool, c: Candidate, qs: seq<Inquiry>) {
    var p := c.provider;
    var well, welcome, rested :=
      Inquiry(p, AboutHealth, true), Inquiry(p, AboutRefusals, false), Inquiry(p, AboutCooldown, false);
    if !sc.Admits(p) then qs == []
    else
      || qs == [Inquiry(p, AboutHealth, false)]
      || qs == [well, Inquiry(p, AboutRefusals, true)]
      || (!fits && qs == [well, welcome])
      || (fits && qs == [well, welcome, Inquiry(p, AboutCooldown, true)])
      || (fits && !sc.NeedsToken(c) && qs == [well, welcome, rested])
      || (fits && sc.NeedsToken(c) && |qs| == 4 && qs == [well, welcome, rested, Inquiry(p, AboutRate, qs[3].yes)])
  }

  /** What the last answer means. */
  function EntranceOf(qs: seq<Inquiry>): Entrance {
    if qs == [] then Out
    else
      var q := qs[|qs| - 1];
      match q.topic
      case AboutRefusals => if q.yes then Out else In
      case AboutCooldown => if q.yes then Cooling else In
      case AboutRate => if q.yes then In else OverRate
      case _ => Out
  }

  method Admit(env: Env, c: Candidate, pin: Option<string>, excluded: set<string>, profile: Profile, req: Request)
    returns (entrance: Entrance, ghost qs: seq<Inquiry>)
    modifies env`cursor, env`asked
    ensures env.asked == old(env.asked) + qs && entrance == EntranceOf(qs)
    ensures Interviewed(Scope(env.targets, pin, excluded), Feasible(profile, req, Filled(env.targets, c)), c, qs)
  {
    var p := c.provider;
    qs := [];
    if !Allows(pin, p) || p in excluded { return Out, []; }
    if p !in env.targets || !env.targets[p].enabled { return Out, []; }
    var usable := env.Inquire(p, AboutHealth);
    qs := [Inquiry(p, AboutHealth, usable)];
    if !usable { return Out, qs; }
    var refused := env.Inquire(p, AboutRefusals);
    qs := [Inquiry(p, AboutHealth, true), Inquiry(p, AboutRefusals, refused)];
    if refused { return Out, qs; }
    if Feasible(profile, req, Filled(env.targets, c)) {
      ghost var more;
      entrance, more := AdmitFitting(env, c);
      qs := qs + more;
      return entrance, qs;
    }
    return In, qs;
  }

  /** A candidate that passes the hard filters is kept out while it cools down or lacks a rate token. */
  method AdmitFitting(env: Env, c: Candidate) returns (entrance: Entrance, ghost qs: seq<Inquiry>)
    requires c.provider in env.targets
    modifies env`cursor, env`asked
    ensures env.asked == old(env.asked) + qs && entrance == EntranceOf(qs)
    ensures
      var p := c.provider;
      var rested := Inquiry(p, AboutCooldown, false);
      || qs == [Inquiry(p, AboutCooldown, true)]
      || (qs == [rested] && !env.targets[p].elastic && c.warm > 0)
      || (|qs| == 2 && qs == [rested, Inquiry(p, AboutRate, qs[1].yes)] && (env.targets[p].elastic || c.warm <= 0))
  {
    var p := c.provider;
    var cooling := env.Inquire(p, AboutCooldown);
    qs := [Inquiry(p, AboutCooldown, cooling)];
    if cooling { return Cooling, qs; }
    if env.targets[p].elastic || c.warm <= 0 {
      var token := env.Inquire(p, AboutRate);
      qs := qs + [Inquiry(p, AboutRate, token)];
      if !token { return OverRate, qs; }
    }
    return In, qs;
  }

  /** What one decision saw: the snapshot, and the questions put about each provider in it. */
  datatype View = View(cs: seq<Candidate>, gates: seq<seq<Inquiry>>)

  /** The questions of a decision, in order. */
  ghost function Joined(gates: seq<seq<Inquiry>>): seq<Inquiry> {
    if gates == [] then [] else Joined(gates[..|gates| - 1]) + gates[|gates| - 1]
  }

  /** The providers that were kept out for one reason. */
  ghost function KeptOut(v: View, e: Entrance): set<string> {
    set i | 0 <= i < |v.gates| && i < |v.cs| && EntranceOf(v.gates[i]) == e :: v.cs[i].provider
  }

  /** The i-th provider of the snapshot was asked about, and is a candidate exactly if let in. */
  ghost predicate Met(sc: Scope, profile: Profile, req: Request, v: View, names: set<string>, i: nat)
    requires i < |v.gates| <= |v.cs|
  {
    && Interviewed(sc, Feasible(profile, req, Filled(sc.targets, v.cs[i])), v.cs[i], v.gates[i])
    && (EntranceOf(v.gates[i]).In? <==> v.cs[i].provider in names)
  }

  ghost predicate AllMet(sc: Scope, profile: Profile, req: Request, v: View, names: set<string>) {
    |v.gates| <= |v.cs| && forall i: nat | i < |v.gates| :: Met(sc, profile, req, v, names, i)
  }

  method Gather(env: Env, cs: Snapshot, pin: Option<string>, excluded: set<string>, profile: Profile, req: Request)
    returns (candidates: seq<Candidate>, overRate: set<string>, cooling: set<string>, ghost v: View)
    modifies env`cursor, env`asked
    ensures v.cs == cs && |v.gates| == |cs| && env.asked == old(env.asked) + Joined(v.gates)
    ensures Drawn(Scope(env.targets, pin, excluded), cs, candidates)
    ensures AllMet(Scope(env.targets, pin, excluded), profile, req, v, Names(candidates))
    ensures overRate == KeptOut(v, OverRate) && cooling == KeptOut(v, Cooling)
  {
    candidates, overRate, cooling, v := [], {}, {}, View(cs, []);
    ghost var sc := Scope(env.targets, pin, excluded);
    for n := 0 to |cs|
      invariant env.asked == old(env.asked) + Joined(v.gates)
      invariant Gathered(sc, profile, req, cs, candidates, overRate, cooling, v, n)
    {
      var entrance, qs := Admit(env, cs[n], pin, excluded, profile, req);
      GatheredNext(sc, profile, req, cs, candidates, overRate, cooling, v, n, qs);
      JoinedNext(old(env.asked), v.gates, qs);
      v := View(cs, v.gates + [qs]);
      candidates, overRate, cooling :=
        Place(candidates, overRate, cooling, Filled(env.targets, cs[n]), cs[n].provider, entrance);
    }
  }

  method Place(candidates: seq<Candidate>, overRate: set<string>, cooling: set<string>, c: Candidate, p: string,
               entrance: Entrance)
    returns (candidates': seq<Candidate>, overRate': set<string>, cooling': set<string>)
    ensures candidates' == if entrance.In? then candidates + [c] else candidates
    ensures overRate' == if entrance.OverRate? then overRate + {p} else overRate
    ensures cooling' == if entrance.Cooling? then cooling + {p} else cooling
  {
    candidates', overRate', cooling' := candidates, overRate, cooling;
    match entrance
    case In => candidates' := candidates + [c];
    case Out =>
    case OverRate => overRate' := overRate + {p};
    case Cooling => cooling' := cooling + {p};
  }

  /** The first `n` of the snapshot have been asked about, and let in or kept out. */
  ghost predicate Gathered(sc: Scope, profile: Profile, req: Request, cs: seq<Candidate>, candidates: seq<Candidate>,
                           overRate: set<string>, cooling: set<string>, v: View, n: nat) {
    && v.cs == cs && |v.gates| == n <= |cs| && DrawnFrom(sc, cs, candidates, n)
    && AllMet(sc, profile, req, v, Names(candidates))
    && overRate == KeptOut(v, OverRate) && cooling == KeptOut(v, Cooling)
  }

  lemma {:induction false} GatheredNext(sc: Scope, profile: Profile, req: Request, cs: seq<Candidate>,
                                        candidates: seq<Candidate>, overRate: set<string>, cooling: set<string>,
                                        v: View, n: nat, qs: seq<Inquiry>)
    requires DistinctNames(cs) && n < |cs| && Gathered(sc, profile, req, cs, candidates, overRate, cooling, v, n)
    requires Interviewed(sc, Feasible(profile, req, Filled(sc.targets, cs[n])), cs[n], qs)
    ensures
      var p, e := {cs[n].provider}, EntranceOf(qs);
      Gathered(sc, profile, req, cs, if e.In? then candidates + [Filled(sc.targets, cs[n])] else candidates,
               if e.OverRate? then overRate + p else overRate, if e.Cooling? then cooling + p else cooling,
               View(cs, v.gates + [qs]), n + 1)
  {
    DrawnNext(sc, cs, candidates, n);
    MetNext(sc, profile, req, v, Names(candidates), n, qs);
    NamesNext(candidates, Filled(sc.targets, cs[n]));
    KeptOutNext(v, qs, OverRate);
    KeptOutNext(v, qs, Cooling);
  }

  /** The candidates drawn from the first `n` of the snapshot. */
  ghost predicate DrawnFrom(sc: Scope, cs: seq<Candidate>, candidates: seq<Candidate>, n: nat)
    requires n <= |cs|
  {
    Drawn(sc, cs, candidates) && Names(candidates) <= Names(cs[..n])
  }

  lemma DrawnNext(sc: Scope, cs: seq<Candidate>, candidates: seq<Candidate>, n: nat)
    requires DistinctNames(cs) && n < |cs| && DrawnFrom(sc, cs, candidates, n)
    ensures DrawnFrom(sc, cs, candidates, n + 1)
    ensures sc.Admits(cs[n].provider) ==> DrawnFrom(sc, cs, candidates + [Filled(sc.targets, cs[n])], n + 1)
  {
    var c := Filled(sc.targets, cs[n]);
    NameIsNew(cs, n);
    EntryIs(cs, n);
    NamesNext(candidates, c);
    assert forall j | 0 <= j < |candidates| :: candidates[j].provider in Names(candidates);
  }

  lemma NamesNext(cs: seq<Candidate>, c: Candidate)
    ensures Names(cs + [c]) == Names(cs) + {c.provider}
  {
    NameAt(cs + [c], |cs|);
    assert (cs + [c])[..|cs|] == cs;
  }

  lemma NameAt(cs: seq<Candidate>, i: nat)
    requires i < |cs|
    ensures Names(cs[..i + 1]) == Names(cs[..i]) + {cs[i].provider}
    ensures i + 1 == |cs| ==> Names(cs) == Names(cs[..i]) + {cs[i].provider}
  {
    assert forall j | 0 <= j < i :: cs[..i + 1][j] == cs[..i][j];
    assert cs[..i + 1][i] == cs[i];
    forall p | p in Names(cs[..i]) ensures p in Names(cs[..i + 1]) {
      var j :| 0 <= j < i && cs[..i][j].provider == p;
      assert cs[..i + 1][j].provider == p;
    }
    assert i + 1 == |cs| ==> cs[..i + 1] == cs;
  }

  lemma NameIsNew(cs: seq<Candidate>, i: nat)
    requires DistinctNames(cs) && i < |cs|
    ensures cs[i].provider !in Names(cs[..i])
    ensures Names(cs[..i + 1]) == Names(cs[..i]) + {cs[i].provider}
  {
    NameAt(cs, i);
  }

  lemma {:induction false} MetNext(sc: Scope, profile: Profile, req: Request, v: View, names: set<string>, n: nat,
                                   qs: seq<Inquiry>)
    requires DistinctNames(v.cs) && n == |v.gates| < |v.cs| && names <= Names(v.cs[..n])
    requires AllMet(sc, profile, req, v, names)
    requires Interviewed(sc, Feasible(profile, req, Filled(sc.targets, v.cs[n])), v.cs[n], qs)
    ensures
      var names' := if EntranceOf(qs).In? then names + {v.cs[n].provider} else names;
      AllMet(sc, profile, req, View(v.cs, v.gates + [qs]), names')
  {
    var names' := if EntranceOf(qs).In? then names + {v.cs[n].provider} else names;
    var w := View(v.cs, v.gates + [qs]);
    NameIsNew(v.cs, n);
    forall i: nat | i < n + 1 ensures Met(sc, profile, req, w, names', i) {
      if i < n { assert Met(sc, profile, req, v, names, i) && v.cs[i].provider != v.cs[n].provider; }
    }
  }

  lemma KeptOutNext(v: View, qs: seq<Inquiry>, e: Entrance)
    requires |v.gates| < |v.cs|
    ensures KeptOut(View(v.cs, v.gates + [qs]), e)
         == KeptOut(v, e) + if EntranceOf(qs) == e then {v.cs[|v.gates|].provider} else {}
  {
    var w := View(v.cs, v.gates + [qs]);
    forall p | p in KeptOut(v, e) ensures p in KeptOut(w, e) {
      var i :| 0 <= i < |v.gates| && EntranceOf(v.gates[i]) == e && v.cs[i].provider == p;
      assert EntranceOf(w.gates[i]) == e;
    }
    if EntranceOf(qs) == e { assert EntranceOf(w.gates[|v.gates|]) == e; }
  }

  lemma JoinedNext(asked: seq<Inquiry>, gates: seq<seq<Inquiry>>, qs: seq<Inquiry>)
    ensures asked + Joined(gates) + qs == asked + Joined(gates + [qs])
  {
    assert (gates + [qs])[..|gates|] == gates;
    assert asked + Joined(gates) + qs == asked + (Joined(gates) + qs);
  }

  // ----- one decision -------------------------------------------------------------------------------------

  datatype Choice = NoneListed | BadPolicy | Nobody | Pick(provider: string, warm: bool)

  /** Whoever a policy lets through meets its requirements in the snapshot itself. */
  lemma {:induction false} FeasibleFits(policy: Policy, wants: Wants, sc: Scope, cs: seq<Candidate>,
                                        candidates: seq<Candidate>, w: nat)
    requires Valid(policy) && Drawn(sc, cs, candidates) && w < |candidates|
    requires Feasible(ScheduleProfile(policy, wants, candidates), RequestFor(policy, wants), candidates[w])
    ensures FitsIn(policy, wants, sc.targets, candidates[w].provider, cs)
    ensures wants.warmOnly ==> candidates[w].warm > 0
  {
    PolicyIsEnforced(policy, wants, candidates, candidates[w]);
    assert Drawable(sc, cs, candidates[w]);
    assert forall key :: candidates[w].Attr(key) == Entry(cs, candidates[w].provider).Attr(key);
  }

  /** The rightful choice among exactly those that the answers let in. */
  ghost predicate Rightful(policy: Policy, wants: Wants, sc: Scope, v: View, candidates: seq<Candidate>,
                           choice: Choice) {
    && Valid(policy) && |v.gates| == |v.cs| && Drawn(sc, v.cs, candidates)
    && AllMet(sc, ScheduleProfile(policy, wants, v.cs), RequestFor(policy, wants), v, Names(candidates))
    && exists w, rival :: ChoiceIs(policy, wants, candidates, w, rival, choice)
  }

  ghost predicate ChoiceIs(policy: Policy, wants: Wants, candidates: seq<Candidate>, w: nat, rival: nat, choice: Choice)
    requires Valid(policy)
  {
    && Chosen(ScheduleProfile(policy, wants, candidates), RequestFor(policy, wants), candidates, w, rival)
    && choice == Pick(candidates[w].provider, candidates[w].warm > 0)
  }

  /** Nobody is left: every provider that the policy lets through was turned away by an answer. */
  ghost predicate PassedOver(policy: Policy, wants: Wants, sc: Scope, v: View) {
    Valid(policy) && |v.gates| == |v.cs| && forall i: nat | i < |v.cs| :: TurnedAway(policy, wants, sc, v, i)
  }

  ghost predicate TurnedAway(policy: Policy, wants: Wants, sc: Scope, v: View, i: nat)
    requires Valid(policy) && i < |v.cs| == |v.gates|
  {
    var fits := Feasible(ScheduleProfile(policy, wants, v.cs), RequestFor(policy, wants), Filled(sc.targets, v.cs[i]));
    Interviewed(sc, fits, v.cs[i], v.gates[i]) && (fits ==> !EntranceOf(v.gates[i]).In?)
  }

  lemma {:induction false} NobodyIsLeft(policy: Policy, wants: Wants, sc: Scope, v: View, candidates: seq<Candidate>)
    requires Valid(policy) && DistinctNames(v.cs) && |v.gates| == |v.cs| && Drawn(sc, v.cs, candidates)
    requires AllMet(sc, ScheduleProfile(policy, wants, v.cs), RequestFor(policy, wants), v, Names(candidates))
    requires forall j | 0 <= j < |candidates| ::
      !Feasible(ScheduleProfile(policy, wants, candidates), RequestFor(policy, wants), candidates[j])
    ensures PassedOver(policy, wants, sc, v)
  {
    forall i: nat | i < |v.cs| ensures TurnedAway(policy, wants, sc, v, i) {
      assert Met(sc, ScheduleProfile(policy, wants, v.cs), RequestFor(policy, wants), v, Names(candidates), i);
      if EntranceOf(v.gates[i]).In? {
        var j :| 0 <= j < |candidates| && candidates[j].provider == v.cs[i].provider;
        EntryIs(v.cs, i);
        assert Drawable(sc, v.cs, candidates[j]);
        FiltersIgnoreOthers(policy, wants, v.cs, candidates, candidates[j]);
      }
    }
  }

  /** Decides among the candidates that were let in. */
  method Choose(env: Env, policy: Policy, wants: Wants, candidates: seq<Candidate>) returns (choice: Choice)
    requires Valid(policy) && DistinctNames(candidates)
    modifies env`cursor
    ensures if choice.Pick? then exists w, rival :: ChoiceIs(policy, wants, candidates, w, rival, choice)
            else choice.Nobody? && forall j | 0 <= j < |candidates| ::
                   !Feasible(ScheduleProfile(policy, wants, candidates), RequestFor(policy, wants), candidates[j])
  {
    if |candidates| == 0 { return Nobody; }
    var profile, req := BuildScheduleProfile(policy, wants, candidates);
    var rand := env.Draws();
    var decided, w, rival := Service.Decide(profile.value, req, candidates, rand);
    if !decided { return Nobody; }
    var warm := Service.WarmIn(candidates, candidates[w].provider, w);
    choice := Pick(candidates[w].provider, warm);
    assert ChoiceIs(policy, wants, candidates, w, rival, choice);
  }

  lemma {:induction false} RightfulFits(policy: Policy, wants: Wants, sc: Scope, v: View, candidates: seq<Candidate>,
                                        choice: Choice)
    requires Rightful(policy, wants, sc, v, candidates, choice)
    ensures choice.Pick? && sc.Admits(choice.provider)
    ensures FitsIn(policy, wants, sc.targets, choice.provider, v.cs) && (wants.warmOnly ==> choice.warm)
  {
    var w, rival :| ChoiceIs(policy, wants, candidates, w, rival, choice);
    ChosenFits(policy, wants, sc, v.cs, candidates, w, rival, choice);
  }

  lemma {:induction false} ChosenFits(policy: Policy, wants: Wants, sc: Scope, cs: seq<Candidate>,
                                      candidates: seq<Candidate>, w: nat, rival: nat, choice: Choice)
    requires Valid(policy) && Drawn(sc, cs, candidates) && ChoiceIs(policy, wants, candidates, w, rival, choice)
    ensures choice.Pick? && sc.Admits(choice.provider)
    ensures FitsIn(policy, wants, sc.targets, choice.provider, cs) && (wants.warmOnly ==> choice.warm)
  {
    FeasibleFits(policy, wants, sc, cs, candidates, w);
    assert Drawable(sc, cs, candidates[w]);
  }

  /** A pick is the rightful choice among those let in. */
  ghost predicate Picks(policy: Policy, wants: Wants, sc: Scope, v: View, choice: Choice) {
    exists candidates :: Rightful(policy, wants, sc, v, candidates, choice)
  }

  /** What a decision comes to. */
  ghost predicate Decides(policy: Policy, wants: Wants, sc: Scope, v: View, choice: Choice) {
    match choice
    case NoneListed => v == View([], [])
    case BadPolicy => v.cs != [] && v.gates == [] && !Valid(policy)
    case Nobody => v.cs != [] && PassedOver(policy, wants, sc, v)
    case Pick(_, _) => Picks(policy, wants, sc, v, choice)
  }

  /** Reads the registry and decides among the providers that are not excluded. */
  method Decide(env: Env, pin: Option<string>, excluded: set<string>, policy: Policy, wants: Wants)
    returns (choice: Choice, overRate: set<string>, cooling: set<string>, ghost v: View)
    modifies env`cursor, env`now, env`asked, env`seen
    ensures env.now > old(env.now) && env.asked == old(env.asked) + Joined(v.gates)
    ensures DistinctNames(v.cs) && env.seen == old(env.seen) + [v.cs]
    ensures overRate == KeptOut(v, OverRate) && cooling == KeptOut(v, Cooling)
    ensures Decides(policy, wants, Scope(env.targets, pin, excluded), v, choice)
  {
    var cs := env.ReadSnapshot();
    overRate, cooling, v := {}, {}, View(cs, []);
    if |cs| == 0 { return NoneListed, {}, {}, v; }
    var hard, req := BuildScheduleProfile(policy, wants, cs);
    if hard.None? { return BadPolicy, {}, {}, v; }
    choice, overRate, cooling, v := DecideAmong(env, cs, pin, excluded, policy, wants, hard.value, req);
  }

  method DecideAmong(env: Env, cs: Snapshot, pin: Option<string>, excluded: set<string>, policy: Policy, wants: Wants,
                     hard: Profile, req: Request)
    returns (choice: Choice, overRate: set<string>, cooling: set<string>, ghost v: View)
    requires |cs| > 0 && Valid(policy)
    requires hard == ScheduleProfile(policy, wants, cs) && req == RequestFor(policy, wants)
    modifies env`cursor, env`asked
    ensures v.cs == cs && env.asked == old(env.asked) + Joined(v.gates)
    ensures overRate == KeptOut(v, OverRate) && cooling == KeptOut(v, Cooling)
    ensures choice.Nobody? || choice.Pick?
    ensures Decides(policy, wants, Scope(env.targets, pin, excluded), v, choice)
  {
    var candidates;
    candidates, overRate, cooling, v := Gather(env, cs, pin, excluded, hard, req);
    choice := Choose(env, policy, wants, candidates);
    ghost var sc := Scope(env.targets, pin, excluded);
    if choice.Nobody? {
      NobodyIsLeft(policy, wants, sc, v, candidates);
    } else {
      assert Rightful(policy, wants, sc, v, candidates, choice);
    }
  }

  /** So a pick may serve the request: it is claim-capable and fits the policy in the snapshot read. */
  lemma {:induction false} PickFits(policy: Policy, wants: Wants, sc: Scope, v: View, choice: Choice)
    requires choice.Pick? && Decides(policy, wants, sc, v, choice)
    ensures sc.Admits(choice.provider) && FitsIn(policy, wants, sc.targets, choice.provider, v.cs)
    ensures wants.warmOnly ==> choice.warm
  {
    var candidates :| Rightful(policy, wants, sc, v, candidates, choice);
    RightfulFits(policy, wants, sc, v, candidates, choice);
  }
}
