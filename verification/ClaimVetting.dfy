/** Whether a provider may serve a claim, and what every answer is promised to meet. */
module ClaimVetting {
  import opened Text
  import opened Framework
  import opened Policies
  import opened Scoring
  import opened ClaimEnv
  import opened ClaimAttempt

  // ----- what a successful claim is promised to meet -------------------------------------------------

  /** What is known of a provider that no snapshot lists. */
  function Bare(p: string): Candidate {
    Candidate(p, false, 0, false, 0, 0, map[], map[], 0.0)
  }

  function Entry(cs: seq<Candidate>, p: string): Candidate {
    if cs == [] then Bare(p)
    else if cs[|cs| - 1].provider == p then cs[|cs| - 1]
    else Entry(cs[..|cs| - 1], p)
  }

  lemma {:induction false} EntryIs(cs: seq<Candidate>, i: nat)
    requires DistinctNames(cs) && i < |cs|
    ensures Entry(cs, cs[i].provider) == cs[i]
  {
    if i < |cs| - 1 { EntryIs(cs[..|cs| - 1], i); }
  }

  lemma {:induction false} EntryAbsent(cs: seq<Candidate>, p: string)
    requires forall i | 0 <= i < |cs| :: cs[i].provider != p
    ensures Entry(cs, p) == Bare(p)
  {
    if cs != [] { EntryAbsent(cs[..|cs| - 1], p); }
  }

  /** A provider that reports no templates is taken to have the configured ones. */
  function Filled(targets: map<string, Target>, c: Candidate): Candidate {
    if c.provider in targets && |c.templates| == 0 then c.(templates := targets[c.provider].templates) else c
  }

  ghost predicate FitsIn(policy: Policy, wants: Wants, targets: map<string, Target>, p: string, cs: seq<Candidate>) {
    var c := Entry(cs, p);
    && MeetsRequirements(policy.requirements, c)
    && (wants.template != "" ==> Filled(targets, c).HasTemplate(wants.template))
  }

  /** A provider offers what it reports, or what is configured for it if it reports nothing. */
  lemma OffersWhat(targets: map<string, Target>, p: string, cs: seq<Candidate>, template: string)
    requires Entry(cs, p).provider == p
    ensures Filled(targets, Entry(cs, p)).HasTemplate(template) <==>
      var reported := Entry(cs, p).templates;
      if reported != map[] || p !in targets then template in reported && reported[template] != ""
      else template in targets[p].templates && targets[p].templates[template] != ""
  {
    if Entry(cs, p).templates != map[] { assert |Entry(cs, p).templates| > 0; }
  }

  /** `p` met the policy's requirements, and offered the template, in a snapshot read since. */
  ghost predicate Fits(policy: Policy, wants: Wants, targets: map<string, Target>, p: string,
                       seen: seq<Snapshot>, since: nat) {
    exists k | since <= k < |seen| :: FitsIn(policy, wants, targets, p, seen[k])
  }

  /** What is promised of every answer. */
  ghost predicate Sound(policy: Policy, wants: Wants, targets: map<string, Target>, out: Outcome,
                        seen: seq<Snapshot>, since: nat) {
    out.Success? ==>
      && Fits(policy, wants, targets, out.result.handle.provider, seen, since)
      && Good(targets, out.result.handle.provider, wants.warmOnly, out)
  }

  // ----- a sandbox that already exists -------------------------------------------------------------------

  ghost function Names(cs: seq<Candidate>): set<string> {
    set i | 0 <= i < |cs| :: cs[i].provider
  }

  method FindCandidate(cs: Snapshot, p: string) returns (c: Option<Candidate>)
    ensures c.Some? <==> p in Names(cs)
    ensures if c.Some? then c.value == Entry(cs, p) && c.value.provider == p else Entry(cs, p) == Bare(p)
  {
    for i := 0 to |cs|
      invariant forall j | 0 <= j < i :: cs[j].provider != p
    {
      if cs[i].provider == p {
        EntryIs(cs, i);
        return Some(cs[i]);
      }
    }
    EntryAbsent(cs, p);
    return None;
  }

  /** Every hard filter but the one for warm capacity, which a running sandbox no longer needs. */
  ghost predicate Passes(fs: seq<Filter>, req: Request, c: Candidate) {
    forall k | 0 <= k < |fs| && fs[k].name != "WarmOnly" :: fs[k].accepts(req, c)
  }

  method PassesFilters(fs: seq<Filter>, req: Request, c: Candidate) returns (ok: bool)
    ensures ok <==> Passes(fs, req, c)
  {
    for k := 0 to |fs|
      invariant forall l | 0 <= l < k && fs[l].name != "WarmOnly" :: fs[l].accepts(req, c)
    {
      if fs[k].name == "WarmOnly" { continue; }
      if !fs[k].accepts(req, c) { return false; }
    }
    return true;
  }

  /** A snapshot lets an existing sandbox on `p` serve the request: the provider is listed or
      configured, the policy is usable, and every filter that still matters accepts it. */
  ghost predicate Accepts(policy: Policy, wants: Wants, targets: map<string, Target>, p: string, cs: seq<Candidate>) {
    && (p in targets || p in Names(cs))
    && Valid(policy)
    && Passes(ScheduleProfile(policy, wants, cs).filters, RequestFor(policy, wants), Filled(targets, Entry(cs, p)))
  }

  lemma {:induction false} PassingFits(policy: Policy, wants: Wants, cs: seq<Candidate>, c: Candidate)
    requires Valid(policy) && Passes(ScheduleProfile(policy, wants, cs).filters, RequestFor(policy, wants), c)
    ensures MeetsRequirements(policy.requirements, c)
    ensures wants.template != "" ==> c.HasTemplate(wants.template)
  {
    var fs, req := ScheduleProfile(policy, wants, cs).filters, RequestFor(policy, wants);
    FilterNames(policy, wants, cs);
    if policy.requirements != map[] {
      var k: nat :| k < |fs| && fs[k] == FilterNamed("RequiredAttributes");
      assert fs[k].accepts(req, c);
      assert forall key | key in policy.requirements :: req.requirements[key] == policy.requirements[key];
    }
    if wants.template != "" {
      var k: nat :| k < |fs| && fs[k] == FilterNamed("TemplateAvailable");
      assert fs[k].accepts(req, c);
    }
  }

  lemma {:induction false} PassesWhen(policy: Policy, wants: Wants, cs: seq<Candidate>, c: Candidate)
    requires Valid(policy) && MeetsAll(policy, wants.(warmOnly := false), c)
    ensures Passes(ScheduleProfile(policy, wants, cs).filters, RequestFor(policy, wants), c)
  {
    var fs, base := ScheduleProfile(policy, wants, cs).filters, FiltersOf(policy.filters);
    forall k | 0 <= k < |fs| && fs[k].name != "WarmOnly" ensures fs[k].accepts(RequestFor(policy, wants), c) {
      if k < |base| {
        assert policy.filters[k] in policy.filters && fs[k] == base[k];
        AcceptsUnlessWarm(policy.filters[k], policy, wants, c);
      } else {
        assert fs[k] == FilterNamed("TemplateAvailable");
        AcceptsUnlessWarm("TemplateAvailable", policy, wants, c);
      }
    }
  }

  lemma {:induction false} ListedAccepts(policy: Policy, wants: Wants, cs: seq<Candidate>, c: Candidate, name: string)
    requires Valid(policy) && Passes(ScheduleProfile(policy, wants, cs).filters, RequestFor(policy, wants), c)
    requires name in policy.filters && name != "WarmOnly"
    ensures FilterNamed(name).accepts(RequestFor(policy, wants), c)
  {
    var k: nat :| k < |policy.filters| && policy.filters[k] == name;
    assert ScheduleProfile(policy, wants, cs).filters[k] == FiltersOf(policy.filters)[k] == FilterNamed(name);
  }

  /** A snapshot accepts an existing sandbox exactly on a provider it lists or that is configured, under a
      valid policy, that meets everything the policy and the request ask but warm capacity. */
  lemma {:induction false} AcceptsExactly(policy: Policy, wants: Wants, targets: map<string, Target>, p: string,
                                          cs: seq<Candidate>)
    ensures Accepts(policy, wants, targets, p, cs) <==>
      && (p in targets || p in Names(cs)) && Valid(policy)
      && MeetsAll(policy, wants.(warmOnly := false), Filled(targets, Entry(cs, p)))
  {
    var c := Filled(targets, Entry(cs, p));
    if Valid(policy) {
      if MeetsAll(policy, wants.(warmOnly := false), c) {
        PassesWhen(policy, wants, cs, c);
      } else if Passes(ScheduleProfile(policy, wants, cs).filters, RequestFor(policy, wants), c) {
        PassingFits(policy, wants, cs, c);
        if "RequiredAttributes" in policy.filters { ListedAccepts(policy, wants, cs, c, "RequiredAttributes"); }
        if "Reachable" in policy.filters { ListedAccepts(policy, wants, cs, c, "Reachable"); }
      }
    }
  }

  /** Whatever a snapshot accepts meets the policy's requirements, and offers the template. */
  lemma {:induction false} AcceptedFits(policy: Policy, wants: Wants, targets: map<string, Target>, p: string,
                                        cs: seq<Candidate>)
    requires Accepts(policy, wants, targets, p, cs)
    ensures FitsIn(policy, wants, targets, p, cs)
  {
    PassingFits(policy, wants, cs, Filled(targets, Entry(cs, p)));
    assert forall key :: Filled(targets, Entry(cs, p)).Attr(key) == Entry(cs, p).Attr(key);
  }

  /** Reads one snapshot and says whether it lets an existing sandbox on `p` serve the request. */
  method PassesCandidateFilters(env: Env, p: string, policy: Policy, wants: Wants) returns (ok: bool)
    modifies env`cursor, env`now, env`seen
    ensures env.now >= old(env.now) && |env.seen| == |old(env.seen)| + 1 && old(env.seen) <= env.seen
    ensures ok <==> Accepts(policy, wants, env.targets, p, env.seen[|old(env.seen)|])
    ensures ok ==> Fits(policy, wants, env.targets, p, env.seen, |old(env.seen)|)
  {
    var cs := env.ReadSnapshot();
    assert env.seen[|old(env.seen)|] == cs;
    ok := AcceptedNow(env.targets, cs, p, policy, wants);
    if ok { AcceptedFits(policy, wants, env.targets, p, cs); }
  }

  method AcceptedNow(targets: map<string, Target>, cs: Snapshot, p: string, policy: Policy, wants: Wants)
    returns (ok: bool)
    ensures ok <==> Accepts(policy, wants, targets, p, cs)
  {
    var c := FindCandidate(cs, p);
    if c.None? && p !in targets { return false; }
    var cand := Filled(targets, if c.Some? then c.value else Bare(p));
    var profile, req := BuildScheduleProfile(policy, wants, cs);
    if profile.None? { return false; }
    ok := PassesFilters(profile.value.filters, req, cand);
  }
}
