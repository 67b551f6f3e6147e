/** What the scorers and filters of a compiled policy say about a candidate, in the terms of the candidate. */
module Scoring {
  import opened Words
  import opened Framework
  import opened Policies

  // ----- cost ---------------------------------------------------------------------------------

  /** What a candidate costs; a negative price counts as free. */
  function Price(c: Candidate): real {
    if c.cost > 0.0 then c.cost else 0.0
  }

  function Times(a: real, m: real): real {
    a * m
  }

  lemma Product(a: real, m: real)
    requires a >= 0.0 && m >= 0.0
    ensures Times(a, m) >= 0.0 && (a > 0.0 && m > 0.0 ==> Times(a, m) > 0.0)
  {
  }

  lemma Minus(a: real, b: real, m: real)
    ensures Times(a - b, m) == Times(a, m) - Times(b, m)
  {
  }

  lemma Hundredfold(a: real, m: real)
    ensures Times(a * 100.0, m) == 100.0 * Times(a, m)
  {
  }

  lemma PlusOne(a: real, m: real)
    ensures Times(a + 1.0, m) == Times(a, m) + m
  {
  }

  /** Points that round a share down, seen in money. */
  lemma InMoney(points: real, share: real, m: real) returns (worth: real, saved: real)
    requires points <= share * 100.0 < points + 1.0 && m > 0.0
    ensures worth == Times(points, m) && saved == Times(share, m) && worth <= 100.0 * saved < worth + m
  {
    worth, saved := Times(points, m), Times(share, m);
    Hundredfold(share, m);
    PlusOne(points, m);
    Between(points, share * 100.0, points + 1.0, m);
  }

  lemma Between(a: real, x: real, b: real, m: real)
    requires a <= x < b && m > 0.0
    ensures Times(a, m) <= Times(x, m) < Times(b, m)
  {
    Minus(x, a, m);
    Minus(b, x, m);
    Product(x - a, m);
    Product(b - x, m);
  }

  lemma Rounded(x: real, points: int)
    requires points == x.Floor
    ensures points as real <= x < points as real + 1.0
  {
  }

  lemma ShareOf(cost: real, maxCost: real) returns (saved: real)
    requires 0.0 < cost < maxCost
    ensures saved == 1.0 - cost / maxCost && 0.0 < saved < 1.0 && Times(saved, maxCost) == maxCost - cost
  {
    var share := cost / maxCost;
    assert share * maxCost == cost;
    if share >= 1.0 { Product(share - 1.0, maxCost); }
    if share <= 0.0 { Product(-share, maxCost); }
    saved := 1.0 - share;
    assert saved * maxCost == maxCost - share * maxCost;
  }

  /** A candidate's points, worth `money`, are the hundredths of the dearest price that it saves, rounded
      down: all of them when it is free or nothing costs anything, none when it is the dearest. */
  ghost predicate ToThePoint(maxCost: real, price: real, points: int, money: real) {
    && 0 <= points <= 100
    && (maxCost == 0.0 || price == 0.0 ==> points == 100)
    && (maxCost > 0.0 && price >= maxCost ==> points == 0)
    && (0.0 < price < maxCost ==> points < 100 && money <= 100.0 * (maxCost - price) < money + maxCost)
  }

  function Worth(points: int, maxCost: real): real {
    Times(points as real, maxCost)
  }

  lemma CostToThePoint(maxCost: real, c: Candidate)
    requires maxCost >= 0.0
    ensures ToThePoint(maxCost, Price(c), ScoreCost(maxCost, c), Worth(ScoreCost(maxCost, c), maxCost))
  {
    if 0.0 < c.cost < maxCost {
      var saved := ShareOf(c.cost, maxCost);
      Rounded(saved * 100.0, ScoreCost(maxCost, c));
      var worth, left := InMoney(ScoreCost(maxCost, c) as real, saved, maxCost);
    }
  }

  lemma MorePoints(p: int, q: int, m: real)
    requires m >= 0.0
    ensures p <= q ==> Worth(p, m) <= Worth(q, m)
    ensures p < q ==> Worth(p, m) + m <= Worth(q, m)
  {
    if p <= q { Product(q as real - p as real, m); }
    if p < q {
      Product(q as real - p as real - 1.0, m);
      assert (q as real - p as real - 1.0) * m == q as real * m - p as real * m - m;
    }
  }

  lemma PointsFollowPrice(m: real, c: real, d: real, p: int, q: int, pm: real, qm: real)
    requires m >= 0.0 && 0.0 <= c && 0.0 <= d && ToThePoint(m, c, p, pm) && ToThePoint(m, d, q, qm)
    requires (p < q ==> pm + m <= qm) && (q <= p ==> qm <= pm) && (p == 0 ==> pm == 0.0)
    ensures c <= d ==> p >= q
    ensures p >= q && d <= m && c <= m ==> (c - d) * 100.0 <= m
  {
  }

  lemma PointsOf(maxCost: real, c: Candidate, d: Candidate)
    requires maxCost >= 0.0
    ensures Price(c) <= Price(d) ==> ScoreCost(maxCost, c) >= ScoreCost(maxCost, d)
    ensures ScoreCost(maxCost, c) >= ScoreCost(maxCost, d) && Price(d) <= maxCost && Price(c) <= maxCost ==>
      (Price(c) - Price(d)) * 100.0 <= maxCost
  {
    var p, q := ScoreCost(maxCost, c), ScoreCost(maxCost, d);
    CostToThePoint(maxCost, c);
    CostToThePoint(maxCost, d);
    MorePoints(p, q, maxCost);
    MorePoints(q, p, maxCost);
    PointsFollowPrice(maxCost, Price(c), Price(d), p, q, Worth(p, maxCost), Worth(q, maxCost));
  }

  /** A cheaper candidate never scores lower. */
  lemma CheaperNeverLower(maxCost: real, c: Candidate, d: Candidate)
    requires maxCost >= 0.0 && Price(c) <= Price(d)
    ensures ScoreCost(maxCost, c) >= ScoreCost(maxCost, d)
  {
    PointsOf(maxCost, c, d);
  }

  // ----- warm capacity --------------------------------------------------------------------------

  /** Twenty points for each warm sandbox up to five; without one, an elastic provider's own score up to
      a hundred, twenty if it sets none. */
  lemma WarmToThePoint(c: Candidate)
    ensures c.warm >= 5 ==> ScoreWarm(c) == 100
    ensures 0 < c.warm < 5 ==> ScoreWarm(c) == 20 * c.warm
    ensures c.warm <= 0 && (!c.elastic || c.elasticWarmScore < 0) ==> ScoreWarm(c) == 0
    ensures c.warm <= 0 && c.elastic && c.elasticWarmScore == 0 ==> ScoreWarm(c) == 20
    ensures c.warm <= 0 && c.elastic && 0 < c.elasticWarmScore <= 100 ==> ScoreWarm(c) == c.elasticWarmScore
    ensures c.warm <= 0 && c.elastic && c.elasticWarmScore > 100 ==> ScoreWarm(c) == 100
  {
  }

  /** More warm capacity never scores lower, except that an elastic provider's own score can be worth more
      than the first few warm sandboxes: exactly when it exceeds twenty points for each. */
  lemma WarmerNeverLower(c: Candidate, warm: int)
    requires warm > c.warm
    ensures ScoreWarm(c.(warm := warm)) >= ScoreWarm(c) <==>
      !(c.warm <= 0 < warm < 5 && c.elastic && c.elasticWarmScore > 20 * warm)
  {
    WarmToThePoint(c);
    WarmToThePoint(c.(warm := warm));
  }

  // ----- the other scorers, and weights ------------------------------------------------------------

  /** Reachability and affinity are worth a hundred points or none; a listed weight of 0 counts as 1. */
  lemma OtherScorers(p: Policy, cs: seq<Candidate>, k: nat, req: Request, c: Candidate)
    requires Valid(p) && k < |p.scorers|
    ensures
      var s := ProfileOf(p, cs).scorers[k];
      && s.weight == (if p.scorers[k].weight == 0 then 1 else p.scorers[k].weight) > 0
      && (s.name == "Reachability" ==> s.score(req, c) == if c.reachable then 100 else 0)
      && (s.name == "Affinity" ==> s.score(req, c) == if req.prefer != "" && req.prefer == c.provider then 100 else 0)
      && s.name == p.scorers[k].name
  {
  }

  /** Weighted scores keep the order of the scores exactly when the greatest of them fits. */
  lemma OrderNeedsFit(weight: int)
    requires 0 < weight < 0x8000_0000_0000_0000
    ensures (forall a, b | 0 <= a < b <= 100 :: I64(a * weight) < I64(b * weight))
       <==> 100 * weight < 0x8000_0000_0000_0000
  {
    if 100 * weight < 0x8000_0000_0000_0000 {
      forall a, b | 0 <= a < b <= 100 ensures I64(a * weight) < I64(b * weight) { FittingOrder(a, b, weight); }
    } else {
      var a := 0x7fff_ffff_ffff_ffff / weight;
      LastThatFits(weight, a);
      assert !(I64(a * weight) < I64((a + 1) * weight));
    }
  }

  lemma FittingOrder(a: int, b: int, weight: int)
    requires 0 <= a < b <= 100 && weight > 0 && 100 * weight < 0x8000_0000_0000_0000
    ensures I64(a * weight) == a * weight < b * weight == I64(b * weight)
  {
    MoreWeighs(0, a, weight);
    MoreWeighs(a + 1, b, weight);
    MoreWeighs(b, 100, weight);
    OneMoreWeighs(a, weight);
  }

  lemma OneMoreWeighs(a: int, weight: int)
    ensures (a + 1) * weight == a * weight + weight
  {
  }

  lemma MoreWeighs(a: int, b: int, weight: int)
    requires a <= b && weight >= 0
    ensures a * weight <= b * weight
  {
    assert (b - a) * weight >= 0;
  }

  lemma LastThatFits(weight: int, a: int)
    requires 0 < weight < 0x8000_0000_0000_0000 <= 100 * weight && a == 0x7fff_ffff_ffff_ffff / weight
    ensures 0 <= a < a + 1 <= 100 && I64((a + 1) * weight) < I64(a * weight)
  {
    assert a * weight <= 0x7fff_ffff_ffff_ffff < (a + 1) * weight;
    assert a < 100 by { if a >= 100 { MoreWeighs(100, a, weight); } }
    MoreWeighs(0, a, weight);
    assert (a + 1) * weight == a * weight + weight;
    assert I64(a * weight) == a * weight;
    assert I64((a + 1) * weight) == (a + 1) * weight - 0x1_0000_0000_0000_0000;
  }

  // ----- a policy with one scorer -----------------------------------------------------------------

  /** The policy's one scorer, with a weight whose products fit in 64 bits. */
  ghost predicate Only(p: Policy, name: string) {
    Valid(p) && |p.scorers| == 1 && p.scorers[0].name == name && 100 * p.scorers[0].weight < 0x8000_0000_0000_0000
  }

  ghost function SoleScorer(p: Policy, cs: seq<Candidate>): Scorer
    requires Valid(p) && |p.scorers| == 1
  {
    ProfileOf(p, cs).scorers[0]
  }

  lemma {:induction false} TotalOfOne(p: Policy, cs: seq<Candidate>, req: Request, c: Candidate, name: string)
    requires Only(p, name)
    ensures
      var s := SoleScorer(p, cs);
      Total(ProfileOf(p, cs).scorers, req, c) == Clamp(s.score(req, c)) * s.weight && s.weight > 0
  {
    var scorers := ProfileOf(p, cs).scorers;
    assert scorers == [SoleScorer(p, cs)] && scorers[..0] == [];
    var s, points := SoleScorer(p, cs), Clamp(SoleScorer(p, cs).score(req, c));
    OtherScorers(p, cs, 0, req, c);
    if points > 0 { FittingOrder(0, points, s.weight); }
    assert Total([], req, c) == 0;
  }

  lemma LighterScores(a: int, b: int, weight: int)
    requires weight > 0 && a * weight <= b * weight
    ensures a <= b
  {
    if a > b { MoreWeighs(b + 1, a, weight); }
  }

  /** What scores best in all scores best by that scorer. */
  lemma {:induction false} BestByTheOne(p: Policy, wants: Wants, cs: seq<Candidate>, copy: seq<Candidate>, name: string,
                                        w: nat, i: nat)
    requires Only(p, name) && Best(ScheduleProfile(p, wants, cs), RequestFor(p, wants), copy, w)
    requires i < |copy| && Feasible(ScheduleProfile(p, wants, cs), RequestFor(p, wants), copy[i])
    ensures
      var s := SoleScorer(p, cs);
      Clamp(s.score(RequestFor(p, wants), copy[i])) <= Clamp(s.score(RequestFor(p, wants), copy[w]))
  {
    var req := RequestFor(p, wants);
    TotalOfOne(p, cs, req, copy[w], name);
    TotalOfOne(p, cs, req, copy[i], name);
    var s := SoleScorer(p, cs);
    var a, b := Clamp(s.score(req, copy[i])), Clamp(s.score(req, copy[w]));
    LighterScores(a, b, s.weight);
  }

  // ----- who passes ---------------------------------------------------------------------------------

  /** What a valid policy and a request ask of a candidate. */
  ghost predicate MeetsAll(p: Policy, wants: Wants, c: Candidate) {
    && ("RequiredAttributes" in p.filters ==>
          && (forall key | key in p.requirements :: c.Attr(key) == p.requirements[key])
          && forall key | key in wants.requirements && key !in p.requirements ::
               c.Attr(key) == wants.requirements[key])
    && ("Reachable" in p.filters ==> c.reachable)
    && (wants.template != "" ==> c.HasTemplate(wants.template))
    && (wants.warmOnly ==> c.warm > 0)
  }

  lemma AcceptsWhen(name: string, p: Policy, wants: Wants, c: Candidate)
    requires KnownFilter(name) && MeetsAll(p, wants, c) && name in p.filters + ["TemplateAvailable", "WarmOnly"]
    ensures FilterNamed(name).accepts(RequestFor(p, wants), c)
  {
  }

  lemma AcceptsUnlessWarm(name: string, p: Policy, wants: Wants, c: Candidate)
    requires KnownFilter(name) && MeetsAll(p, wants.(warmOnly := false), c) && name != "WarmOnly"
    requires name in p.filters + ["TemplateAvailable"]
    ensures FilterNamed(name).accepts(RequestFor(p, wants), c)
  {
  }

  lemma {:induction false} Sufficient(p: Policy, wants: Wants, cs: seq<Candidate>, c: Candidate)
    requires Valid(p) && MeetsAll(p, wants, c)
    ensures Feasible(ScheduleProfile(p, wants, cs), RequestFor(p, wants), c)
  {
    var fs, base := ScheduleProfile(p, wants, cs).filters, FiltersOf(p.filters);
    forall k | 0 <= k < |fs| ensures fs[k].accepts(RequestFor(p, wants), c) {
      if k < |base| {
        assert p.filters[k] in p.filters && fs[k] == base[k];
        AcceptsWhen(p.filters[k], p, wants, c);
      } else {
        assert fs[k] == FilterNamed("TemplateAvailable") || fs[k] == FilterNamed("WarmOnly");
        AcceptsWhen("TemplateAvailable", p, wants, c);
        AcceptsWhen("WarmOnly", p, wants, c);
      }
    }
  }

  lemma {:induction false} ReachableBinds(p: Policy, wants: Wants, cs: seq<Candidate>, c: Candidate)
    requires Valid(p) && Feasible(ScheduleProfile(p, wants, cs), RequestFor(p, wants), c)
    requires "Reachable" in p.filters
    ensures c.reachable
  {
    var k: nat :| k < |p.filters| && p.filters[k] == "Reachable";
    assert ScheduleProfile(p, wants, cs).filters[k] == FiltersOf(p.filters)[k] == FilterNamed("Reachable");
    FilterHolds(ScheduleProfile(p, wants, cs), RequestFor(p, wants), c, k);
  }

  /** A compiled policy lets through exactly who meets what it and the request ask, neither more nor less. */
  lemma {:induction false} FeasibleExactly(p: Policy, wants: Wants, cs: seq<Candidate>, c: Candidate)
    requires Valid(p)
    ensures Feasible(ScheduleProfile(p, wants, cs), RequestFor(p, wants), c) <==> MeetsAll(p, wants, c)
  {
    if MeetsAll(p, wants, c) {
      Sufficient(p, wants, cs, c);
    } else if Feasible(ScheduleProfile(p, wants, cs), RequestFor(p, wants), c) {
      PolicyIsEnforced(p, wants, cs, c);
      if "RequiredAttributes" in p.filters { ListedBinds(p, wants, cs, c); }
      if "Reachable" in p.filters { ReachableBinds(p, wants, cs, c); }
    }
  }
}
