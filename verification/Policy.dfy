/** Placement policies: the built-in plugins, and compiling a policy into a profile. */
module Policies {
  import opened Text
  import opened Framework

  // ----- filters --------------------------------------------------------------------------------

  predicate MeetsRequirements(requirements: map<string, string>, c: Candidate) {
    forall key | key in requirements :: c.Attr(key) == requirements[key]
  }

  predicate KnownFilter(name: string) {
    name in {"RequiredAttributes", "Reachable", "TemplateAvailable", "WarmOnly"}
  }

  function FilterNamed(name: string): (f: Filter)
    requires KnownFilter(name)
    ensures f.name == name
  {
    if name == "RequiredAttributes" then
      Filter(name, (req: Request, c: Candidate) => MeetsRequirements(req.requirements, c))
    else if name == "Reachable" then
      Filter(name, (req: Request, c: Candidate) => c.reachable)
    else if name == "TemplateAvailable" then
      Filter(name, (req: Request, c: Candidate) => req.template == "" || c.HasTemplate(req.template))
    else
      Filter(name, (req: Request, c: Candidate) => !req.warmOnly || c.warm > 0)
  }

  // ----- scorers --------------------------------------------------------------------------------

  const DEFAULT_ELASTIC_WARM_SCORE := 20
  const SATURATION := 5

  function ScoreWarm(c: Candidate): int {
    if c.warm <= 0 then
      if !c.elastic || c.elasticWarmScore < 0 then 0
      else if c.elasticWarmScore == 0 then DEFAULT_ELASTIC_WARM_SCORE
      else if c.elasticWarmScore > MAX_SCORE then MAX_SCORE
      else c.elasticWarmScore
    else if c.warm >= SATURATION then MAX_SCORE
    else c.warm * MAX_SCORE / SATURATION
  }

  function ScoreCost(maxCost: real, c: Candidate): int {
    if maxCost <= 0.0 || c.cost <= 0.0 then MAX_SCORE
    else if c.cost >= maxCost then 0
    else ((1.0 - c.cost / maxCost) * (MAX_SCORE as real)).Floor
  }

  predicate KnownScorer(name: string) {
    name in {"WarmCapacity", "Cost", "Reachability", "Affinity"}
  }

  function ScorerNamed(name: string, weight: int, maxCost: real): Scorer
    requires KnownScorer(name)
  {
    if name == "WarmCapacity" then
      Scorer(name, (req: Request, c: Candidate) => ScoreWarm(c), weight)
    else if name == "Cost" then
      Scorer(name, (req: Request, c: Candidate) => ScoreCost(maxCost, c), weight)
    else if name == "Reachability" then
      Scorer(name, (req: Request, c: Candidate) => if c.reachable then MAX_SCORE else 0, weight)
    else
      Scorer(name, (req: Request, c: Candidate) =>
        if req.prefer != "" && req.prefer == c.provider then MAX_SCORE else 0, weight)
  }

  /** The most expensive candidate's price, which the Cost scorer is relative to. */
  function MaxCost(cs: seq<Candidate>): (m: real)
    ensures m >= 0.0 && forall k | 0 <= k < |cs| :: cs[k].cost <= m
    ensures m == 0.0 || exists k | 0 <= k < |cs| :: cs[k].cost == m
  {
    if cs == [] then 0.0
    else
      var front := MaxCost(cs[..|cs| - 1]);
      if cs[|cs| - 1].cost > front then cs[|cs| - 1].cost else front
  }

  method NewCost(cs: seq<Candidate>) returns (maxCost: real)
    ensures maxCost == MaxCost(cs)
  {
    maxCost := 0.0;
    for k := 0 to |cs|
      invariant maxCost == MaxCost(cs[..k])
    {
      assert cs[..k + 1][..k] == cs[..k];
      if cs[k].cost > maxCost { maxCost := cs[k].cost; }
    }
    assert cs[..|cs|] == cs;
  }

  // ----- policies -------------------------------------------------------------------------------

  datatype ScorerConfig = ScorerConfig(name: string, weight: int)

  datatype Policy = Policy(
    name: string,
    priority: int,
    filters: seq<string>,
    scorers: seq<ScorerConfig>,
    requirements: map<string, string>)

  datatype Invalid = UnknownFilter | UnknownScorer | RepeatedScorer | NegativeWeight | UnenforcedRequirements

  ghost predicate Valid(p: Policy) {
    && (forall name <- p.filters :: KnownFilter(name))
    && (forall k | 0 <= k < |p.scorers| :: KnownScorer(p.scorers[k].name) && p.scorers[k].weight >= 0)
    && (forall k, l | 0 <= k < l < |p.scorers| :: p.scorers[k].name != p.scorers[l].name)
    && (p.requirements != map[] ==> "RequiredAttributes" in p.filters)
  }

  /** Accepts exactly the policies this scheduler can execute as written. */
  method Validate(p: Policy) returns (err: Option<Invalid>)
    ensures err.None? <==> Valid(p)
  {
    for k := 0 to |p.filters|
      invariant forall l | 0 <= l < k :: KnownFilter(p.filters[l])
    {
      if !KnownFilter(p.filters[k]) { return Some(UnknownFilter); }
    }
    var seen: set<string> := {};
    for k := 0 to |p.scorers|
      invariant forall l | 0 <= l < k :: KnownScorer(p.scorers[l].name) && p.scorers[l].weight >= 0
      invariant forall l, m | 0 <= l < m < k :: p.scorers[l].name != p.scorers[m].name
      invariant forall name :: name in seen <==> exists l | 0 <= l < k :: p.scorers[l].name == name
    {
      var sc := p.scorers[k];
      if !KnownScorer(sc.name) { return Some(UnknownScorer); }
      if sc.name in seen { return Some(RepeatedScorer); }
      seen := seen + {sc.name};
      if sc.weight < 0 { return Some(NegativeWeight); }
    }
    if |p.requirements| > 0 && "RequiredAttributes" !in p.filters { return Some(UnenforcedRequirements); }
    return None;
  }

  /** A weight of 0 counts as 1, so a scorer that is listed is never silently disabled. */
  function Weight(sc: ScorerConfig): int {
    if sc.weight == 0 then 1 else sc.weight
  }

  function FiltersOf(names: seq<string>): (fs: seq<Filter>)
    requires forall name <- names :: KnownFilter(name)
    ensures |fs| == |names| && forall k | 0 <= k < |fs| :: fs[k] == FilterNamed(names[k])
  {
    seq(|names|, k requires 0 <= k < |names| => FilterNamed(names[k]))
  }

  function ScorersOf(configs: seq<ScorerConfig>, maxCost: real): seq<Scorer>
    requires forall k | 0 <= k < |configs| :: KnownScorer(configs[k].name)
  {
    seq(|configs|, k requires 0 <= k < |configs| =>
      ScorerNamed(configs[k].name, Weight(configs[k]), maxCost))
  }

  /** The executable profile of a valid policy, calibrated against this pass's candidates. */
  ghost function ProfileOf(p: Policy, cs: seq<Candidate>): Profile
    requires Valid(p)
  {
    Profile(FiltersOf(p.filters), ScorersOf(p.scorers, MaxCost(cs)))
  }

  method BuildProfile(p: Policy, cs: seq<Candidate>) returns (profile: Option<Profile>)
    ensures profile.Some? <==> Valid(p)
    ensures profile.Some? ==> profile.value == ProfileOf(p, cs)
  {
    var err := Validate(p);
    if err.Some? { return None; }
    var maxCost := NewCost(cs);
    return Some(Profile(FiltersOf(p.filters), ScorersOf(p.scorers, maxCost)));
  }

  /** The caller's requirements with the policy's on top: the policy wins on conflict. */
  function BuildRequest(p: Policy, name: string, requirements: map<string, string>, prefer: string): Request {
    Request(name, "", false, requirements + p.requirements, prefer)
  }

  /** What a claim or schedule asks for. */
  datatype Wants = Wants(
    name: string,
    template: string,
    warmOnly: bool,
    requirements: map<string, string>,
    prefer: string)

  function RequestFor(p: Policy, wants: Wants): Request {
    BuildRequest(p, wants.name, wants.requirements, wants.prefer)
      .(template := wants.template, warmOnly := wants.warmOnly)
  }

  function Named(fs: seq<Filter>): set<string> {
    set k | 0 <= k < |fs| :: fs[k].name
  }

  /** The policy's profile, with the filters that the request itself calls for. */
  ghost function ScheduleProfile(p: Policy, wants: Wants, cs: seq<Candidate>): Profile
    requires Valid(p)
  {
    var base := ProfileOf(p, cs);
    var withTemplate :=
      if wants.template != "" && "TemplateAvailable" !in Named(base.filters)
      then base.filters + [FilterNamed("TemplateAvailable")] else base.filters;
    var withWarm :=
      if wants.warmOnly && "WarmOnly" !in Named(withTemplate)
      then withTemplate + [FilterNamed("WarmOnly")] else withTemplate;
    base.(filters := withWarm)
  }

  method HasFilter(fs: seq<Filter>, name: string) returns (has: bool)
    ensures has <==> name in Named(fs)
  {
    for k := 0 to |fs|
      invariant forall l | 0 <= l < k :: fs[l].name != name
    {
      if fs[k].name == name { return true; }
    }
    return false;
  }

  method BuildScheduleProfile(p: Policy, wants: Wants, cs: seq<Candidate>)
    returns (profile: Option<Profile>, req: Request)
    ensures profile.Some? <==> Valid(p)
    ensures profile.Some? ==> profile.value == ScheduleProfile(p, wants, cs)
    ensures req == RequestFor(p, wants)
  {
    req := RequestFor(p, wants);
    profile := BuildProfile(p, cs);
    if profile.None? { return; }
    var fs := profile.value.filters;
    var has := HasFilter(fs, "TemplateAvailable");
    if wants.template != "" && !has { fs := fs + [FilterNamed("TemplateAvailable")]; }
    has := HasFilter(fs, "WarmOnly");
    if wants.warmOnly && !has { fs := fs + [FilterNamed("WarmOnly")]; }
    profile := Some(profile.value.(filters := fs));
  }

  /** Whom a policy lets through does not depend on who else is a candidate. */
  lemma {:induction false} FiltersIgnoreOthers(p: Policy, wants: Wants, cs: seq<Candidate>, ds: seq<Candidate>,
                                               c: Candidate)
    requires Valid(p)
    ensures Feasible(ScheduleProfile(p, wants, cs), RequestFor(p, wants), c)
       <==> Feasible(ScheduleProfile(p, wants, ds), RequestFor(p, wants), c)
  {
    assert ScheduleProfile(p, wants, cs).filters == ScheduleProfile(p, wants, ds).filters;
  }

  /** Accepted by the filter of a given name, if the profile has it. */
  lemma {:induction false} FilterHolds(profile: Profile, req: Request, c: Candidate, k: nat)
    requires Feasible(profile, req, c) && k < |profile.filters|
    ensures profile.filters[k].accepts(req, c)
  {
  }

  /** Constraint soundness: whatever a valid policy lets through meets every requirement the
      policy states, whatever the caller asked for; offers the template, if one was named; and
      is warm, if only warm would do. */
  lemma {:induction false} PolicyIsEnforced(p: Policy, wants: Wants, cs: seq<Candidate>, c: Candidate)
    requires Valid(p)
    requires Feasible(ScheduleProfile(p, wants, cs), RequestFor(p, wants), c)
    ensures MeetsRequirements(p.requirements, c)
    ensures wants.template != "" ==> c.HasTemplate(wants.template)
    ensures wants.warmOnly ==> c.warm > 0
  {
    var profile, req := ScheduleProfile(p, wants, cs), RequestFor(p, wants);
    FilterNames(p, wants, cs);
    if p.requirements != map[] {
      var k: nat :| k < |profile.filters| && profile.filters[k] == FilterNamed("RequiredAttributes");
      FilterHolds(profile, req, c, k);
      assert forall key | key in p.requirements :: req.requirements[key] == p.requirements[key];
    }
    if wants.template != "" {
      var k: nat :| k < |profile.filters| && profile.filters[k] == FilterNamed("TemplateAvailable");
      FilterHolds(profile, req, c, k);
    }
    if wants.warmOnly {
      var k: nat :| k < |profile.filters| && profile.filters[k] == FilterNamed("WarmOnly");
      FilterHolds(profile, req, c, k);
    }
  }

  ghost predicate Lists(fs: seq<Filter>, name: string)
    requires KnownFilter(name)
  {
    exists k: nat :: k < |fs| && fs[k] == FilterNamed(name)
  }

  /** The policy's filters, each the built-in one of its name. */
  ghost predicate BuiltIn(fs: seq<Filter>) {
    forall k | 0 <= k < |fs| :: KnownFilter(fs[k].name) && fs[k] == FilterNamed(fs[k].name)
  }

  lemma NamedIsListed(fs: seq<Filter>, name: string)
    requires BuiltIn(fs) && KnownFilter(name) && name in Named(fs)
    ensures Lists(fs, name)
  {
    var k: nat :| k < |fs| && fs[k].name == name;
    assert fs[k] == FilterNamed(name);
  }

  /** Adding a filter unless there is one of its name leaves all of them built-in, and this one listed. */
  lemma EnsuredIsListed(fs: seq<Filter>, name: string)
    requires BuiltIn(fs) && KnownFilter(name)
    ensures
      var gs := if name in Named(fs) then fs else fs + [FilterNamed(name)];
      BuiltIn(gs) && Lists(gs, name)
  {
    if name in Named(fs) {
      NamedIsListed(fs, name);
    } else {
      var gs := fs + [FilterNamed(name)];
      assert gs[|fs|] == FilterNamed(name);
    }
  }

  lemma StillListed(fs: seq<Filter>, gs: seq<Filter>, name: string)
    requires KnownFilter(name) && Lists(fs, name) && fs <= gs
    ensures Lists(gs, name)
  {
    var k: nat :| k < |fs| && fs[k] == FilterNamed(name);
    assert gs[k] == FilterNamed(name);
  }

  lemma PolicyFiltersListed(p: Policy)
    requires Valid(p)
    ensures BuiltIn(FiltersOf(p.filters))
    ensures p.requirements != map[] ==> Lists(FiltersOf(p.filters), "RequiredAttributes")
  {
    var base := FiltersOf(p.filters);
    assert forall k | 0 <= k < |base| :: p.filters[k] in p.filters && base[k] == FilterNamed(p.filters[k]);
    if p.requirements != map[] {
      var k: nat :| k < |p.filters| && p.filters[k] == "RequiredAttributes";
      assert base[k] == FilterNamed("RequiredAttributes");
    }
  }

  /** Which filters a compiled profile holds. */
  lemma {:induction false} FilterNames(p: Policy, wants: Wants, cs: seq<Candidate>)
    requires Valid(p)
    ensures
      var fs := ScheduleProfile(p, wants, cs).filters;
      && (p.requirements != map[] ==> Lists(fs, "RequiredAttributes"))
      && (wants.template != "" ==> Lists(fs, "TemplateAvailable"))
      && (wants.warmOnly ==> Lists(fs, "WarmOnly"))
  {
    var fs, base := ScheduleProfile(p, wants, cs).filters, FiltersOf(p.filters);
    PolicyFiltersListed(p);
    EnsuredIsListed(base, "TemplateAvailable");
    var front :=
      if wants.template != "" && "TemplateAvailable" !in Named(base) then base + [FilterNamed("TemplateAvailable")]
      else base;
    EnsuredIsListed(front, "WarmOnly");
    if p.requirements != map[] { StillListed(base, fs, "RequiredAttributes"); }
    if wants.template != "" { StillListed(front, fs, "TemplateAvailable"); }
  }

  lemma {:induction false} ListedBinds(p: Policy, wants: Wants, cs: seq<Candidate>, c: Candidate)
    requires Valid(p) && "RequiredAttributes" in p.filters
    requires Feasible(ScheduleProfile(p, wants, cs), RequestFor(p, wants), c)
    ensures forall key | key in wants.requirements && key !in p.requirements :: c.Attr(key) == wants.requirements[key]
  {
    var profile, req := ScheduleProfile(p, wants, cs), RequestFor(p, wants);
    var base := FiltersOf(p.filters);
    var k :| 0 <= k < |p.filters| && p.filters[k] == "RequiredAttributes";
    assert profile.filters[k] == base[k] == FilterNamed("RequiredAttributes");
    FilterHolds(profile, req, c, k);
  }

  /** A filter of any other name does not look at the requirements. */
  lemma OtherFiltersIgnore(name: string, req: Request, c: Candidate)
    requires KnownFilter(name) && name != "RequiredAttributes"
    ensures FilterNamed(name).accepts(req, c) == FilterNamed(name).accepts(req.(requirements := map[]), c)
  {
  }

  lemma {:induction false} UnlistedIgnores(p: Policy, wants: Wants, cs: seq<Candidate>, c: Candidate, req: Request)
    requires Valid(p) && "RequiredAttributes" !in p.filters
    ensures Feasible(ScheduleProfile(p, wants, cs), req, c)
       <==> Feasible(ScheduleProfile(p, wants, cs), req.(requirements := map[]), c)
  {
    var fs, base := ScheduleProfile(p, wants, cs).filters, FiltersOf(p.filters);
    forall k | 0 <= k < |fs| ensures fs[k].accepts(req, c) == fs[k].accepts(req.(requirements := map[]), c) {
      if k < |base| {
        assert p.filters[k] in p.filters && fs[k] == base[k];
        OtherFiltersIgnore(p.filters[k], req, c);
      } else {
        assert fs[k] == FilterNamed("TemplateAvailable") || fs[k] == FilterNamed("WarmOnly");
        OtherFiltersIgnore("TemplateAvailable", req, c);
        OtherFiltersIgnore("WarmOnly", req, c);
      }
    }
  }

  /** The caller's own requirements hold exactly as far as the policy lists the filter: with it,
      every one the policy does not override is met; without it, they change nothing. */
  lemma {:induction false} CallerRequirements(p: Policy, wants: Wants, cs: seq<Candidate>, c: Candidate)
    requires Valid(p)
    ensures
      var profile, req := ScheduleProfile(p, wants, cs), RequestFor(p, wants);
      if "RequiredAttributes" in p.filters then
        Feasible(profile, req, c) ==>
          forall key | key in wants.requirements && key !in p.requirements :: c.Attr(key) == wants.requirements[key]
      else
        Feasible(profile, req, c) <==> Feasible(profile, req.(requirements := map[]), c)
  {
    if "RequiredAttributes" !in p.filters {
      UnlistedIgnores(p, wants, cs, c, RequestFor(p, wants));
    } else if Feasible(ScheduleProfile(p, wants, cs), RequestFor(p, wants), c) {
      ListedBinds(p, wants, cs, c);
    }
  }

  /** A caller that asks for an attribute nobody has is served all the same under a policy that lists
      no filter, which is a valid one. */
  lemma UnlistedRequirementIsIgnored(c: Candidate)
    requires c.attributes == map[]
    ensures
      var p := Policy("open", 0, [], [], map[]);
      var wants := Wants("sandbox", "", false, map["gpu" := "true"], "");
      && Valid(p) && Feasible(ScheduleProfile(p, wants, [c]), RequestFor(p, wants), c)
      && c.Attr("gpu") != wants.requirements["gpu"]
  {
  }

  // ----- which policy governs ---------------------------------------------------------------------

  datatype Match = Yes | No | Bad

  /** `i` matches, no match has a higher priority, and none of equal priority a lesser name. */
  ghost predicate Governs(ps: seq<Policy>, matches: seq<Match>, i: nat)
    requires |ps| == |matches|
  {
    && i < |ps| && matches[i] == Yes
    && forall j | 0 <= j < |ps| && matches[j] == Yes ::
         ps[j].priority < ps[i].priority
         || (ps[j].priority == ps[i].priority && !Less(ps[j].name, ps[i].name))
  }

  method SelectPolicy(ps: seq<Policy>, matches: seq<Match>) returns (broken: bool, best: Option<nat>)
    requires |ps| == |matches|
    ensures broken <==> Bad in matches
    ensures !broken ==> (best.None? <==> Yes !in matches)
    ensures !broken && best.Some? ==> Governs(ps, matches, best.value)
  {
    broken, best := false, None;
    for i := 0 to |ps|
      invariant Bad !in matches[..i]
      invariant best.None? <==> Yes !in matches[..i]
      invariant best.Some? ==> best.value < i && Governs(ps[..i], matches[..i], best.value)
    {
      if matches[i] == Bad { return true, None; }
      if matches[i] == No { continue; }
      if best.None? {
        LessIrreflexive(ps[i].name);
        best := Some(i);
      } else {
        var b := ps[best.value];
        if ps[i].priority > b.priority || (ps[i].priority == b.priority && Less(ps[i].name, b.name)) {
          forall j | 0 <= j < i && matches[j] == Yes && ps[j].priority == ps[i].priority
            ensures !Less(ps[j].name, ps[i].name)
          {
            assert matches[..i][j] == Yes && ps[..i][j] == ps[j];
            if Less(ps[j].name, ps[i].name) && ps[i].priority == b.priority {
              LessTransitive(ps[j].name, ps[i].name, b.name);
            }
          }
          LessIrreflexive(ps[i].name);
          best := Some(i);
        }
      }
    }
    assert matches[..|ps|] == matches && ps[..|ps|] == ps;
  }

  /** With distinct names, the governing policy does not depend on the order of the list. */
  lemma {:induction false} SelectionIgnoresOrder(ps: seq<Policy>, ms: seq<Match>, i: nat,
                                                 qs: seq<Policy>, ns: seq<Match>, j: nat)
    requires |ps| == |ms| && |qs| == |ns| && Governs(ps, ms, i) && Governs(qs, ns, j)
    requires forall p, m :: (exists k | 0 <= k < |ps| :: (ps[k], ms[k]) == (p, m))
                       <==> (exists k | 0 <= k < |qs| :: (qs[k], ns[k]) == (p, m))
    requires forall k, l | 0 <= k < l < |ps| :: ps[k].name != ps[l].name
    ensures ps[i] == qs[j]
  {
    var i' :| 0 <= i' < |qs| && (qs[i'], ns[i']) == (ps[i], ms[i]);
    var j' :| 0 <= j' < |ps| && (ps[j'], ms[j']) == (qs[j], ns[j]);
    LessTotal(ps[i].name, qs[j].name);
  }
}
