/** The scheduling pipeline: filter, score, pick, order. */
module Framework {
  import opened Text
  import opened Words

  const MAX_SCORE := 100

  /** Somewhere a sandbox could run. */
  datatype Candidate = Candidate(
    provider: string,
    reachable: bool,
    warm: int,
    elastic: bool,
    elasticWarmScore: int,
    inFlightCold: int,
    attributes: map<string, string>,
    templates: map<string, string>,
    cost: real)
  {
    /** An attribute value, or "" when absent. */
    function Attr(key: string): string {
      if key in attributes then attributes[key] else ""
    }

    predicate HasTemplate(name: string) {
      name in templates && templates[name] != ""
    }
  }

  datatype Request = Request(
    name: string,
    template: string,
    warmOnly: bool,
    requirements: map<string, string>,
    prefer: string)

  /** A hard constraint, and a weighted soft preference. */
  datatype Filter = Filter(name: string, accepts: (Request, Candidate) -> bool)
  datatype Scorer = Scorer(name: string, score: (Request, Candidate) -> int, weight: int)
  datatype Profile = Profile(filters: seq<Filter>, scorers: seq<Scorer>)

  datatype CandidateResult = CandidateResult(provider: string, filtered: bool, total: int)
  datatype Decision = Decision(provider: string, score: int, results: seq<CandidateResult>)

  // ----- what one candidate is worth ---------------------------------------------------------

  predicate Feasible(p: Profile, req: Request, c: Candidate) {
    forall k | 0 <= k < |p.filters| :: p.filters[k].accepts(req, c)
  }

  /** Scores outside 0..MAX_SCORE are clamped, so only the weight sets a scorer's influence. */
  function Clamp(raw: int): (score: int)
    ensures 0 <= score <= MAX_SCORE
  {
    if raw < 0 then 0 else if raw > MAX_SCORE then MAX_SCORE else raw
  }

  function Total(scorers: seq<Scorer>, req: Request, c: Candidate): int {
    if scorers == [] then 0
    else
      var last := scorers[|scorers| - 1];
      I64(Total(scorers[..|scorers| - 1], req, c) + I64(Clamp(last.score(req, c)) * last.weight))
  }

  function ExactTotal(scorers: seq<Scorer>, req: Request, c: Candidate): int {
    if scorers == [] then 0
    else
      var last := scorers[|scorers| - 1];
      ExactTotal(scorers[..|scorers| - 1], req, c) + Clamp(last.score(req, c)) * last.weight
  }

  function Weights(scorers: seq<Scorer>): int {
    if scorers == [] then 0
    else Weights(scorers[..|scorers| - 1]) + scorers[|scorers| - 1].weight
  }

  lemma ScaledScore(raw: int, weight: int)
    requires weight >= 0
    ensures 0 <= Clamp(raw) * weight <= MAX_SCORE * weight
  {
  }

  /** Non-negative weights that fit together never wrap: the total is the exact weighted sum. */
  lemma {:induction false} TotalIsExact(scorers: seq<Scorer>, req: Request, c: Candidate)
    requires forall k | 0 <= k < |scorers| :: scorers[k].weight >= 0
    requires MAX_SCORE * Weights(scorers) < 0x8000_0000_0000_0000
    ensures Total(scorers, req, c) == ExactTotal(scorers, req, c)
    ensures 0 <= ExactTotal(scorers, req, c) <= MAX_SCORE * Weights(scorers)
  {
    if scorers != [] {
      var last := scorers[|scorers| - 1];
      ScaledScore(last.score(req, c), last.weight);
      TotalIsExact(scorers[..|scorers| - 1], req, c);
    }
  }

  function Evaluate(p: Profile, req: Request, c: Candidate): CandidateResult {
    if Feasible(p, req, c) then CandidateResult(c.provider, false, Total(p.scorers, req, c))
    else CandidateResult(c.provider, true, 0)
  }

  // ----- the specification of a choice ----------------------------------------------------------

  /** `i` passes every filter and nothing feasible scores higher. */
  ghost predicate Best(p: Profile, req: Request, cs: seq<Candidate>, i: nat) {
    && i < |cs| && Feasible(p, req, cs[i])
    && forall j | 0 <= j < |cs| && Feasible(p, req, cs[j]) ::
         Total(p.scorers, req, cs[j]) <= Total(p.scorers, req, cs[i])
  }

  /** Among candidates that tie for best, one has warm capacity. */
  ghost predicate WarmTie(p: Profile, req: Request, cs: seq<Candidate>) {
    exists i: nat :: Best(p, req, cs, i) && cs[i].warm > 0
  }

  /** `w` is a rightful winner. When a warm candidate ties for best, it is the tie's least name;
      when only cold ones do, it is the only best one, or it was compared with a different best
      one, `rival`, that has at least as many cold starts in flight. */
  ghost predicate Chosen(p: Profile, req: Request, cs: seq<Candidate>, w: nat, rival: nat) {
    && Best(p, req, cs, w) && Best(p, req, cs, rival)
    && (WarmTie(p, req, cs) ==>
          forall i: nat | Best(p, req, cs, i) :: !Less(cs[i].provider, cs[w].provider))
    && (!WarmTie(p, req, cs) ==>
          if w == rival then forall i: nat | Best(p, req, cs, i) :: i == w
          else cs[w].inFlightCold <= cs[rival].inFlightCold)
  }

  ghost predicate DistinctNames(cs: seq<Candidate>) {
    forall i, j | 0 <= i < j < |cs| :: cs[i].provider != cs[j].provider
  }

  /** With distinct names, a choice without a cold tie depends only on which candidates there
      are, not on the order they came in. */
  lemma ChoiceIgnoresOrder(p: Profile, req: Request, cs: seq<Candidate>, w: nat, r: nat,
                           ds: seq<Candidate>, x: nat, y: nat)
    requires multiset(cs) == multiset(ds) && DistinctNames(cs)
    requires Chosen(p, req, cs, w, r) && Chosen(p, req, ds, x, y)
    requires WarmTie(p, req, cs) || w == r
    ensures cs[w] == ds[x]
  {
    BestElsewhere(p, req, cs, w, ds);
    BestElsewhere(p, req, ds, x, cs);
    var w' :| 0 <= w' < |ds| && ds[w'] == cs[w] && Best(p, req, ds, w');
    var x' :| 0 <= x' < |cs| && cs[x'] == ds[x] && Best(p, req, cs, x');
    if WarmTie(p, req, cs) {
      var i: nat :| Best(p, req, cs, i) && cs[i].warm > 0;
      BestElsewhere(p, req, cs, i, ds);
      LessTotal(cs[w].provider, ds[x].provider);
    }
  }

  lemma BestElsewhere(p: Profile, req: Request, cs: seq<Candidate>, i: nat, ds: seq<Candidate>)
    requires multiset(cs) == multiset(ds) && Best(p, req, cs, i)
    ensures exists k: nat :: k < |ds| && ds[k] == cs[i] && Best(p, req, ds, k)
  {
    assert cs[i] in multiset(ds);
    var k: nat :| k < |ds| && ds[k] == cs[i];
    forall j | 0 <= j < |ds| && Feasible(p, req, ds[j])
      ensures Total(p.scorers, req, ds[j]) <= Total(p.scorers, req, ds[k])
    {
      assert ds[j] in multiset(cs);
      var j' :| 0 <= j' < |cs| && cs[j'] == ds[j];
    }
  }

  // ----- drawing two distinct tied candidates ------------------------------------------------------

  /** The second index, moved past the first so that the two differ. */
  function Skip(i: nat, j: nat): nat {
    if j >= i then j + 1 else j
  }

  /** The draw that yields `b` as the second index after `i`. */
  function Unskip(i: nat, b: nat): nat
    requires b != i
  {
    if b > i then b - 1 else b
  }

  /** Drawing i below n and j below n - 1 and skipping reaches every ordered pair of distinct
      indices exactly once, so uniform draws give uniform pairs. */
  lemma SkipIsABijection(n: nat)
    ensures forall i: nat, j: nat | i < n && j < n - 1 ::
              Skip(i, j) < n && Skip(i, j) != i && Unskip(i, Skip(i, j)) == j
    ensures forall i: nat, b: nat | i < n && b < n && b != i ::
              Unskip(i, b) < n - 1 && Skip(i, Unskip(i, b)) == b
  {
  }

  // ----- the ordering of the results ----------------------------------------------------------

  /** Whether result `a` is listed before `b`: feasible first, then by total, then the winner,
      then by name. */
  predicate Before(winner: string, a: CandidateResult, b: CandidateResult) {
    if a.filtered != b.filtered then !a.filtered
    else if a.total != b.total then a.total > b.total
    else if (a.provider == winner) != (b.provider == winner) then a.provider == winner
    else Less(a.provider, b.provider)
  }

  function Listing(winner: string): (CandidateResult, CandidateResult) -> bool {
    (a: CandidateResult, b: CandidateResult) => Before(winner, a, b)
  }

  lemma ListingIsAnOrder(winner: string)
    ensures WeakOrder(Listing(winner))
  {
    forall a: CandidateResult, b: CandidateResult | Before(winner, a, b)
      ensures !Before(winner, b, a)
    {
      if Less(a.provider, b.provider) { LessAsymmetric(a.provider, b.provider); }
    }
    forall a: CandidateResult, b: CandidateResult, c: CandidateResult
      | !Before(winner, b, a) && !Before(winner, c, b)
      ensures !Before(winner, c, a)
    {
      LessTotal(a.provider, b.provider);
      LessTotal(b.provider, c.provider);
      if Less(a.provider, b.provider) && Less(b.provider, c.provider) {
        LessTransitive(a.provider, b.provider, c.provider);
      }
      if Less(a.provider, c.provider) { LessAsymmetric(a.provider, c.provider); }
      if a.provider == c.provider { LessIrreflexive(a.provider); }
    }
  }

  /** How sorted results read: whoever passed comes before whoever was rejected, then the greater total,
      then the winner, then the lesser name. */
  lemma ListingReads(winner: string, results: seq<CandidateResult>, i: nat, j: nat)
    requires SortedBy(Listing(winner), results) && i < j < |results|
    ensures
      var a, b := results[i], results[j];
      && (a.filtered ==> b.filtered)
      && (a.filtered == b.filtered ==> a.total >= b.total)
      && (a.filtered == b.filtered && a.total == b.total && b.provider == winner ==> a.provider == winner)
      && (a.filtered == b.filtered && a.total == b.total && a.provider != winner && b.provider != winner ==>
            a.provider == b.provider || Less(a.provider, b.provider))
  {
    assert !Before(winner, results[j], results[i]);
    LessTotal(results[i].provider, results[j].provider);
  }

  // ----- the pipeline itself -------------------------------------------------------------------

  /** Random numbers: draw k, below the bound n, is rand(k, n) mod n for an arbitrary rand. */
  function Draw(rand: (nat, nat) -> nat, k: nat, n: nat): (r: nat)
    requires n > 0
    ensures r < n
  {
    rand(k, n) % n
  }

  method Schedule(p: Profile, req: Request, cs: seq<Candidate>, rand: (nat, nat) -> nat)
    returns (decision: Option<Decision>, results: seq<CandidateResult>, w: nat, rival: nat)
    ensures decision.None? <==> forall c <- cs :: !Feasible(p, req, c)
    ensures |results| == |cs| && forall i | 0 <= i < |cs| :: results[i] == Evaluate(p, req, cs[i])
    ensures decision.Some? ==>
      && Chosen(p, req, cs, w, rival)
      && decision.value.provider == cs[w].provider
      && decision.value.score == Total(p.scorers, req, cs[w])
      && multiset(decision.value.results) == multiset(results)
      && SortedBy(Listing(cs[w].provider), decision.value.results)
      && decision.value.results != []
      && decision.value.results[0] == Evaluate(p, req, cs[w])
  {
    w, rival := 0, 0;
    var feasible;
    results, feasible := Assess(p, req, cs);
    if |feasible| == 0 { return None, results, 0, 0; }
    w, rival := Pick(p, req, cs, results, feasible, rand);
    var ordered := StableSort(Listing(cs[w].provider), results);
    ListingIsAnOrder(cs[w].provider);
    StableSortSorts(Listing(cs[w].provider), results);
    WinnerLeads(p, req, cs, results, w, ordered);
    decision := Some(Decision(results[w].provider, results[w].total, ordered));
  }

  /** Filters and scores every candidate, in order. */
  method Assess(p: Profile, req: Request, cs: seq<Candidate>)
    returns (results: seq<CandidateResult>, feasible: seq<nat>)
    ensures |results| == |cs| && forall i | 0 <= i < |cs| :: results[i] == Evaluate(p, req, cs[i])
    ensures Indices(p, req, cs, feasible, |cs|)
  {
    results, feasible := [], [];
    for i := 0 to |cs|
      invariant |results| == i && forall j | 0 <= j < i :: results[j] == Evaluate(p, req, cs[j])
      invariant Indices(p, req, cs, feasible, i)
    {
      var rejected := Rejected(p.filters, req, cs[i]);
      if rejected {
        results := results + [CandidateResult(cs[i].provider, true, 0)];
      } else {
        var total := Score(p.scorers, req, cs[i]);
        feasible := feasible + [i];
        results := results + [CandidateResult(cs[i].provider, false, total)];
      }
    }
  }

  /** `feasible` lists, in order, the indices below `n` of the candidates that pass every filter. */
  ghost predicate Indices(p: Profile, req: Request, cs: seq<Candidate>, feasible: seq<nat>, n: nat)
    requires n <= |cs|
  {
    && (forall k | 0 <= k < |feasible| :: feasible[k] < n && Feasible(p, req, cs[feasible[k]]))
    && Increasing(feasible)
    && (forall j: nat | j < n && Feasible(p, req, cs[j]) :: j in feasible)
  }

  ghost predicate Increasing(s: seq<nat>) {
    forall k, l | 0 <= k < l < |s| :: s[k] < s[l]
  }

  method Score(scorers: seq<Scorer>, req: Request, c: Candidate) returns (total: int)
    ensures total == Total(scorers, req, c)
  {
    total := 0;
    for k := 0 to |scorers|
      invariant total == Total(scorers[..k], req, c)
    {
      var raw := scorers[k].score(req, c);
      if raw < 0 { raw := 0; }
      if raw > MAX_SCORE { raw := MAX_SCORE; }
      total := I64(total + I64(raw * scorers[k].weight));
      assert scorers[..k + 1][..k] == scorers[..k];
    }
    assert scorers[..|scorers|] == scorers;
  }

  method Rejected(filters: seq<Filter>, req: Request, c: Candidate) returns (rejected: bool)
    ensures rejected <==> exists k | 0 <= k < |filters| :: !filters[k].accepts(req, c)
  {
    for k := 0 to |filters|
      invariant forall l | 0 <= l < k :: filters[l].accepts(req, c)
    {
      if !filters[k].accepts(req, c) { return true; }
    }
    return false;
  }

  /** The results' first line is always the choice. */
  lemma WinnerLeads(p: Profile, req: Request, cs: seq<Candidate>, results: seq<CandidateResult>, w: nat,
                    ordered: seq<CandidateResult>)
    requires |results| == |cs| && forall i | 0 <= i < |cs| :: results[i] == Evaluate(p, req, cs[i])
    requires Best(p, req, cs, w) && multiset(ordered) == multiset(results)
    requires SortedBy(Listing(cs[w].provider), ordered)
    ensures ordered != [] && ordered[0] == results[w]
  {
    assert results[w] in multiset(ordered);
    var k :| 0 <= k < |ordered| && ordered[k] == results[w];
    assert ordered[0] in multiset(results);
    var j :| 0 <= j < |results| && results[j] == ordered[0];
    if k > 0 { assert !Before(cs[w].provider, ordered[k], ordered[0]); }
  }

  /** The highest total, and the least name among equals. */
  method BestOf(p: Profile, req: Request, cs: seq<Candidate>, results: seq<CandidateResult>, feasible: seq<nat>)
    returns (best: nat)
    requires |results| == |cs| && forall i | 0 <= i < |cs| :: results[i] == Evaluate(p, req, cs[i])
    requires |feasible| > 0 && Indices(p, req, cs, feasible, |cs|)
    ensures Best(p, req, cs, best)
    ensures forall i: nat | Best(p, req, cs, i) :: !Less(cs[i].provider, cs[best].provider)
  {
    best := feasible[0];
    LessIrreflexive(cs[best].provider);
    for k := 1 to |feasible|
      invariant best < |cs| && Feasible(p, req, cs[best])
      invariant forall l | 0 <= l < k :: !Ahead(results[feasible[l]], results[best])
    {
      var i := feasible[k];
      if results[i].total > results[best].total
         || (results[i].total == results[best].total && Less(results[i].provider, results[best].provider)) {
        forall l | 0 <= l < k { AheadTransitive(results[feasible[l]], results[i], results[best]); }
        best := i;
        LessIrreflexive(cs[best].provider);
      }
    }
    assert forall j: nat | j < |cs| && Feasible(p, req, cs[j]) :: !Ahead(results[j], results[best]);
  }

  /** Whether `a` beats `b` before any cold tie is drawn. */
  predicate Ahead(a: CandidateResult, b: CandidateResult) {
    a.total > b.total || (a.total == b.total && Less(a.provider, b.provider))
  }

  lemma AheadTransitive(a: CandidateResult, b: CandidateResult, c: CandidateResult)
    requires !Ahead(a, c) && Ahead(b, c)
    ensures !Ahead(a, b)
  {
    if Less(a.provider, b.provider) && Less(b.provider, c.provider) {
      LessTransitive(a.provider, b.provider, c.provider);
    }
  }

  /** The indices of `feasible` whose results have the total `top`, in order. */
  function Reaching(results: seq<CandidateResult>, feasible: seq<nat>, top: int): seq<nat>
    requires forall k | 0 <= k < |feasible| :: feasible[k] < |results|
  {
    if feasible == [] then []
    else
      var last := feasible[|feasible| - 1];
      Reaching(results, feasible[..|feasible| - 1], top) + if results[last].total == top then [last] else []
  }

  lemma {:induction false} ReachingIsExact(results: seq<CandidateResult>, feasible: seq<nat>, top: int)
    requires forall k | 0 <= k < |feasible| :: feasible[k] < |results|
    requires Increasing(feasible)
    ensures forall i: nat :: i in Reaching(results, feasible, top) <==> i in feasible && results[i].total == top
    ensures Increasing(Reaching(results, feasible, top))
  {
    if feasible != [] {
      var front, last := feasible[..|feasible| - 1], feasible[|feasible| - 1];
      assert feasible == front + [last];
      ReachingIsExact(results, front, top);
      var t := Reaching(results, front, top);
      forall l | 0 <= l < |t| ensures t[l] < last { assert t[l] in t && t[l] in front; }
      assert Increasing(t + [last]);
    }
  }

  /** Every candidate that ties with the best, and whether all of them are cold. */
  method TiedWith(cs: seq<Candidate>, results: seq<CandidateResult>, feasible: seq<nat>, best: nat)
    returns (tied: seq<nat>, cold: bool)
    requires |results| == |cs| && best < |cs| && forall k | 0 <= k < |feasible| :: feasible[k] < |cs|
    ensures tied == Reaching(results, feasible, results[best].total)
    ensures forall m | 0 <= m < |tied| :: tied[m] < |cs|
    ensures cold <==> forall m | 0 <= m < |tied| :: cs[tied[m]].warm <= 0
  {
    tied, cold := [], true;
    for k := 0 to |feasible|
      invariant tied == Reaching(results, feasible[..k], results[best].total)
      invariant forall m | 0 <= m < |tied| :: tied[m] < |cs|
      invariant cold <==> forall m | 0 <= m < |tied| :: cs[tied[m]].warm <= 0
    {
      var i := feasible[k];
      ghost var before := tied;
      assert feasible[..k + 1][..k] == feasible[..k];
      if results[i].total == results[best].total {
        tied := tied + [i];
        cold := cold && cs[i].warm <= 0;
        assert tied[|before|] == i && forall m | 0 <= m < |before| :: before[m] == tied[m];
      }
    }
    assert feasible[..|feasible|] == feasible;
  }

  /** The tied candidates are exactly the best ones. */
  lemma {:induction false} TiedAreBest(p: Profile, req: Request, cs: seq<Candidate>, results: seq<CandidateResult>,
                    feasible: seq<nat>, best: nat)
    requires |results| == |cs| && forall i | 0 <= i < |cs| :: results[i] == Evaluate(p, req, cs[i])
    requires Indices(p, req, cs, feasible, |cs|) && Best(p, req, cs, best)
    ensures Ties(p, req, cs, Reaching(results, feasible, results[best].total))
    ensures Increasing(Reaching(results, feasible, results[best].total))
  {
    ReachingIsExact(results, feasible, results[best].total);
  }

  /** The power of two choices: draws two different tied candidates, both of them when only two
      tied, and takes the one with fewer cold starts in flight, or either when equal. */
  method TakeLessLoaded(cs: seq<Candidate>, tied: seq<nat>, rand: (nat, nat) -> nat)
    returns (winner: nat, rival: nat)
    requires |tied| >= 2 && Increasing(tied) && forall m | 0 <= m < |tied| :: tied[m] < |cs|
    ensures winner in tied && rival in tied && winner != rival
    ensures winner < |cs| && rival < |cs|
    ensures |tied| > 2 ==>
      var i, j := Draw(rand, 0, |tied|), Draw(rand, 1, |tied| - 1);
      {winner, rival} == {tied[i], tied[Skip(i, j)]}
    ensures cs[winner].inFlightCold <= cs[rival].inFlightCold
  {
    var i, j := 0, 1;
    if |tied| > 2 {
      i := Draw(rand, 0, |tied|);
      j := Skip(i, Draw(rand, 1, |tied| - 1));
    }
    assert i < |tied| && j < |tied| && i != j;
    winner, rival := tied[i], tied[j];
    if cs[rival].inFlightCold < cs[winner].inFlightCold
       || (cs[winner].inFlightCold == cs[rival].inFlightCold && Draw(rand, 2, 2) == 1) {
      winner, rival := rival, winner;
    }
  }

  /** `tied` lists exactly the candidates that tie for best. */
  ghost predicate Ties(p: Profile, req: Request, cs: seq<Candidate>, tied: seq<nat>) {
    forall i: nat :: i in tied <==> Best(p, req, cs, i)
  }

  lemma {:induction false} OnlyOneBest(p: Profile, req: Request, cs: seq<Candidate>, tied: seq<nat>, best: nat)
    requires Ties(p, req, cs, tied) && best in tied && |tied| == 1
    ensures Chosen(p, req, cs, best, best)
  {
    LessIrreflexive(cs[best].provider);
    assert tied == [best];
  }

  lemma {:induction false} SomeBestIsWarm(p: Profile, req: Request, cs: seq<Candidate>, tied: seq<nat>,
                                          best: nat, t: nat)
    requires Ties(p, req, cs, tied) && best in tied && t in tied && t < |cs| && cs[t].warm > 0
    requires forall i: nat | Best(p, req, cs, i) :: !Less(cs[i].provider, cs[best].provider)
    ensures Chosen(p, req, cs, best, best)
  {
    assert Best(p, req, cs, t);
  }

  lemma {:induction false} EveryBestIsCold(p: Profile, req: Request, cs: seq<Candidate>, tied: seq<nat>,
                                           w: nat, rival: nat)
    requires Ties(p, req, cs, tied) && forall t <- tied :: t < |cs| && cs[t].warm <= 0
    requires w in tied && rival in tied && w != rival && cs[w].inFlightCold <= cs[rival].inFlightCold
    ensures Chosen(p, req, cs, w, rival)
  {
  }

  method Pick(p: Profile, req: Request, cs: seq<Candidate>, results: seq<CandidateResult>, feasible: seq<nat>,
              rand: (nat, nat) -> nat)
    returns (w: nat, rival: nat)
    requires |results| == |cs| && forall i | 0 <= i < |cs| :: results[i] == Evaluate(p, req, cs[i])
    requires |feasible| > 0 && Indices(p, req, cs, feasible, |cs|)
    ensures Chosen(p, req, cs, w, rival)
  {
    var best := BestOf(p, req, cs, results, feasible);
    var tied, cold := TiedWith(cs, results, feasible, best);
    TiedAreBest(p, req, cs, results, feasible, best);
    assert Ties(p, req, cs, tied) && best in tied;
    if |tied| == 1 {
      OnlyOneBest(p, req, cs, tied, best);
      return best, best;
    }
    if !cold {
      ghost var m: nat :| m < |tied| && cs[tied[m]].warm > 0;
      SomeBestIsWarm(p, req, cs, tied, best, tied[m]);
      return best, best;
    }
    w, rival := TakeLessLoaded(cs, tied, rand);
    EveryBestIsCold(p, req, cs, tied, w, rival);
  }
}
