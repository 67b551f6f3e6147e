/** Whether a provider's claim path is healthy, judged from its last claims. */
module Health {
  import Rings

  const WINDOW := 20
  const INITIAL_BACKOFF := 1_000_000_000
  const MAX_BACKOFF := 30_000_000_000

  // ----- the window of outcomes --------------------------------------------------------------------

  /** A ring of outcomes, true for "unavailable". Resetting it leaves the old slots in place. */
  datatype Ring = Ring(slots: seq<bool>, count: nat, next: nat)

  function Pushed(r: Ring, unavailable: bool): Ring
    requires r.next < |r.slots|
  {
    Ring(r.slots[r.next := unavailable], if r.count < WINDOW then r.count + 1 else r.count, After(r.next))
  }

  /** The slot after `i`, round the ring. */
  function After(i: nat): nat {
    if i + 1 == WINDOW then 0 else i + 1
  }

  function Reset(r: Ring): Ring {
    r.(count := 0, next := 0)
  }

  function CountTrue(s: seq<bool>): (n: nat)
    ensures n <= |s|
  {
    if s == [] then 0 else CountTrue(s[..|s| - 1]) + if s[|s| - 1] then 1 else 0
  }

  /** The last twenty of a history, or all of a shorter one. */
  function Last(history: seq<bool>): seq<bool> {
    if |history| <= WINDOW then history else history[|history| - WINDOW..]
  }

  /** The counted outcomes, oldest first. */
  function Unrolled(r: Ring): seq<bool>
    requires r.count <= |r.slots| && r.next <= |r.slots|
  {
    if r.count < WINDOW then r.slots[..r.count] else r.slots[r.next..] + r.slots[..r.next]
  }

  /** The ring holds exactly the last outcomes of the history, and its counted slots count them. */
  ghost predicate HoldsLast(r: Ring, history: seq<bool>) {
    && |r.slots| == WINDOW && r.next < WINDOW && r.count == |Last(history)|
    && (r.count < WINDOW ==> r.next == r.count)
    && Unrolled(r) == Last(history)
    && CountTrue(r.slots[..r.count]) == CountTrue(Last(history))
  }

  lemma {:induction false} CountUpdate(s: seq<bool>, i: nat, b: bool)
    requires i < |s|
    ensures CountTrue(s[i := b]) + (if s[i] then 1 else 0) == CountTrue(s) + if b then 1 else 0
  {
    var front := s[..|s| - 1];
    if i < |front| {
      CountUpdate(front, i, b);
      assert s[i := b][..|s| - 1] == front[i := b];
    } else {
      assert s[i := b][..|s| - 1] == front;
    }
  }

  lemma {:induction false} CountCons(b: bool, s: seq<bool>)
    ensures CountTrue([b] + s) == CountTrue(s) + if b then 1 else 0
  {
    if s == [] {
      assert [b] + s == [b] && [b][..0] == [];
    } else {
      CountCons(b, s[..|s| - 1]);
      assert ([b] + s)[..|s|] == [b] + s[..|s| - 1];
    }
  }

  lemma ResetHoldsLast(r: Ring)
    requires |r.slots| == WINDOW
    ensures HoldsLast(Reset(r), [])
  {
  }

  lemma PushHoldsLast(r: Ring, history: seq<bool>, unavailable: bool)
    requires HoldsLast(r, history)
    ensures HoldsLast(Pushed(r, unavailable), history + [unavailable])
  {
    if r.count < WINDOW { PushGrows(r, history, unavailable); } else { PushReplaces(r, history, unavailable); }
  }

  lemma PushGrows(r: Ring, history: seq<bool>, unavailable: bool)
    requires HoldsLast(r, history) && r.count < WINDOW
    ensures HoldsLast(Pushed(r, unavailable), history + [unavailable])
  {
    var t, h := Pushed(r, unavailable), history + [unavailable];
    assert Last(h) == h && h[..|history|] == history;
    assert t.slots[..t.count] == r.slots[..r.count] + [unavailable] == h;
    assert t.count == WINDOW ==> t.slots[t.next..] + t.slots[..t.next] == h;
  }

  /** A full window drops its oldest outcome, which is the one the next slot holds. */
  lemma PushReplaces(r: Ring, history: seq<bool>, unavailable: bool)
    requires HoldsLast(r, history) && r.count == WINDOW
    ensures HoldsLast(Pushed(r, unavailable), history + [unavailable])
  {
    var oldest, rest := r.slots[r.next], r.slots[r.next + 1..] + r.slots[..r.next];
    assert Last(history) == [oldest] + rest;
    LastDrops(history, oldest, rest, unavailable);
    PushRotates(r, unavailable);
    PushCounts(r, unavailable, rest);
  }

  lemma PushRotates(r: Ring, unavailable: bool)
    requires |r.slots| == WINDOW == r.count && r.next < WINDOW
    ensures Unrolled(r) == [r.slots[r.next]] + (r.slots[r.next + 1..] + r.slots[..r.next])
    ensures Unrolled(Pushed(r, unavailable)) == r.slots[r.next + 1..] + r.slots[..r.next] + [unavailable]
  {
    TurnOne(r.slots, r.next, unavailable);
    var slots := r.slots[r.next := unavailable];
    if r.next + 1 == WINDOW { assert slots[WINDOW..] + slots[..WINDOW] == slots[0..] + slots[..0]; }
  }

  lemma TurnOne(s: seq<bool>, i: nat, b: bool)
    requires i < |s|
    ensures s[i := b][i + 1..] + s[i := b][..i + 1] == s[i + 1..] + s[..i] + [b]
    ensures s[i..] + s[..i] == [s[i]] + (s[i + 1..] + s[..i])
  {
    assert s[i := b][..i + 1] == s[..i] + [b] && s[i := b][i + 1..] == s[i + 1..];
    assert s[i..] == [s[i]] + s[i + 1..];
  }

  lemma PushCounts(r: Ring, unavailable: bool, rest: seq<bool>)
    requires |r.slots| == WINDOW == r.count && r.next < WINDOW
    requires CountTrue(r.slots[..r.count]) == CountTrue([r.slots[r.next]] + rest)
    ensures CountTrue(Pushed(r, unavailable).slots[..WINDOW]) == CountTrue(rest + [unavailable])
  {
    var slots := r.slots[r.next := unavailable];
    assert r.slots[..WINDOW] == r.slots && slots[..WINDOW] == slots;
    CountUpdate(r.slots, r.next, unavailable);
    CountCons(r.slots[r.next], rest);
    assert (rest + [unavailable])[..|rest|] == rest;
  }

  lemma LastDrops(history: seq<bool>, oldest: bool, rest: seq<bool>, next: bool)
    requires |history| >= WINDOW && Last(history) == [oldest] + rest
    ensures Last(history + [next]) == rest + [next]
  {
    var tail := history[|history| - WINDOW..];
    assert tail == [oldest] + rest && rest == tail[1..];
    assert (history + [next])[|history| + 1 - WINDOW..] == tail[1..] + [next];
  }

  // ----- the tracker ----------------------------------------------------------------------------------

  datatype Tracker = Tracker(
    ring: Ring,
    demoted: bool,
    credentialsError: bool,
    nextProbeAt: int,
    backoff: int,
    probing: bool)

  datatype Probe = Reachable | ProbeRejected | ProbeFailed

  predicate MostlyUnavailable(r: Ring)
    requires r.count <= |r.slots|
  {
    r.count >= WINDOW && 2 * CountTrue(r.slots[..r.count]) >= r.count
  }

  function Succeeded(t: Tracker): Tracker
    requires t.ring.next < |t.ring.slots|
  {
    t.(ring := Pushed(t.ring, false), demoted := false, credentialsError := false, backoff := INITIAL_BACKOFF,
       probing := false)
  }

  function Unavailable(t: Tracker, now: int): Tracker
    requires t.ring.next < |t.ring.slots| && Pushed(t.ring, true).count <= |t.ring.slots|
  {
    var failed := t.(ring := Pushed(t.ring, true));
    if MostlyUnavailable(failed.ring) && !t.demoted then
      failed.(demoted := true, backoff := INITIAL_BACKOFF, nextProbeAt := now + INITIAL_BACKOFF)
    else failed
  }

  function Rejected(t: Tracker): Tracker {
    t.(credentialsError := true)
  }

  /** A demoted provider is not used, but may be probed. */
  function Asked(t: Tracker, now: int, free: bool): Tracker {
    if t.demoted && !t.probing && now >= t.nextProbeAt && free then t.(probing := true) else t
  }

  function Doubled(backoff: int): int {
    if 2 * backoff > MAX_BACKOFF then MAX_BACKOFF else 2 * backoff
  }

  function Probed(t: Tracker, started: int, probe: Probe): Tracker {
    if probe.Reachable? then
      t.(ring := Reset(t.ring), demoted := false, credentialsError := false,
         backoff := INITIAL_BACKOFF, probing := false)
    else
      t.(credentialsError := t.credentialsError || probe.ProbeRejected?, backoff := Doubled(t.backoff),
         nextProbeAt := started + Doubled(t.backoff), probing := false)
  }

  ghost predicate Unreached(probes: seq<Probe>) {
    forall k | 0 <= k < |probes| :: !probes[k].Reachable?
  }

  ghost function ProbedAll(t: Tracker, started: int, probes: seq<Probe>): Tracker {
    if probes == [] then t else Probed(ProbedAll(t, started, probes[..|probes| - 1]), started, probes[|probes| - 1])
  }

  /** After n probes in a row that did not reach the provider, the next is 2^n seconds after the last began,
      but no more than thirty. */
  lemma {:induction false} BackoffAfter(t: Tracker, started: int, probes: seq<Probe>)
    requires t.backoff == 1_000_000_000 && Unreached(probes)
    ensures
      var u := ProbedAll(t, started, probes);
      && u.backoff == (if Rings.Pow2(|probes|) > 30 then 30 else Rings.Pow2(|probes|)) * 1_000_000_000
      && (probes != [] ==> u.nextProbeAt == started + u.backoff && !u.probing)
  {
    if probes != [] {
      BackoffAfter(t, started, probes[..|probes| - 1]);
      assert Rings.Pow2(|probes|) == 2 * Rings.Pow2(|probes| - 1);
    }
  }

  // ----- every run --------------------------------------------------------------------------------------

  datatype Step =
    | Success
    | Failure(now: int)
    | Rejection
    | Question(now: int, free: bool)
    | ProbeEnds(started: int, probe: Probe)

  /** The outcomes since the last probe that found the provider reachable. */
  ghost function History(steps: seq<Step>): seq<bool> {
    if steps == [] then [] else Remembering(History(steps[..|steps| - 1]), steps[|steps| - 1])
  }

  function Remembering(before: seq<bool>, step: Step): seq<bool> {
    match step
    case Success => before + [false]
    case Failure(_) => before + [true]
    case ProbeEnds(_, probe) => if probe.Reachable? then [] else before
    case _ => before
  }

  lemma OneMoreStep(steps: seq<Step>, n: nat)
    requires n < |steps|
    ensures History(steps[..n + 1]) == Remembering(History(steps[..n]), steps[n])
  {
    assert steps[..n + 1][..n] == steps[..n];
  }

  ghost function Apply(t: Tracker, step: Step): Tracker
    requires |t.ring.slots| == WINDOW && t.ring.next < WINDOW && t.ring.count <= WINDOW
  {
    match step
    case Success => Succeeded(t)
    case Failure(now) => Unavailable(t, now)
    case Rejection => Rejected(t)
    case Question(now, free) => Asked(t, now, free)
    case ProbeEnds(started, probe) => Probed(t, started, probe)
  }

  ghost predicate IsRun(run: seq<Tracker>, steps: seq<Step>) {
    && |run| == |steps| + 1
    && |run[0].ring.slots| == WINDOW && run[0].ring.count == 0 && run[0].ring.next == 0
    && run[0].backoff == INITIAL_BACKOFF
    && (forall k | 0 <= k < |run| ::
          |run[k].ring.slots| == WINDOW && run[k].ring.next < WINDOW && run[k].ring.count <= WINDOW)
    && forall k | 0 <= k < |steps| :: run[k + 1] == Apply(run[k], steps[k])
  }

  /** What a step does to the ring. */
  function RingAfter(r: Ring, step: Step): Ring
    requires r.next < |r.slots|
  {
    match step
    case Success => Pushed(r, false)
    case Failure(_) => Pushed(r, true)
    case ProbeEnds(_, probe) => if probe.Reachable? then Reset(r) else r
    case _ => r
  }

  lemma StepTurnsRing(t: Tracker, step: Step)
    requires |t.ring.slots| == WINDOW && t.ring.next < WINDOW && t.ring.count <= WINDOW
    ensures Apply(t, step).ring == RingAfter(t.ring, step)
  {
  }

  lemma StepHoldsLast(t: Tracker, step: Step, before: seq<bool>)
    requires HoldsLast(t.ring, before)
    ensures HoldsLast(Apply(t, step).ring, Remembering(before, step))
  {
    StepTurnsRing(t, step);
    RingHoldsLast(t.ring, step, before);
  }

  lemma RingHoldsLast(r: Ring, step: Step, before: seq<bool>)
    requires HoldsLast(r, before)
    ensures HoldsLast(RingAfter(r, step), Remembering(before, step))
  {
    match step
    case Success => PushHoldsLast(r, before, false);
    case Failure(_) => PushHoldsLast(r, before, true);
    case ProbeEnds(_, probe) => if probe.Reachable? { ResetHoldsLast(r); }
    case _ =>
  }

  /** Whatever the slots held at first or before a reset, the ring always holds exactly the last
      outcomes since the last reset. */
  lemma {:induction false} WindowIsExact(run: seq<Tracker>, steps: seq<Step>, n: nat)
    requires IsRun(run, steps) && n < |run|
    ensures HoldsLast(run[n].ring, History(steps[..n]))
  {
    if n == 0 {
      assert Reset(run[0].ring) == run[0].ring;
      ResetHoldsLast(run[0].ring);
    } else {
      WindowIsExact(run, steps, n - 1);
      OneMoreStep(steps, n - 1);
      StepHoldsLast(run[n - 1], steps[n - 1], History(steps[..n - 1]));
    }
  }

  lemma DemotedByItsRing(t: Tracker, now: int, history: seq<bool>)
    requires |t.ring.slots| == WINDOW && t.ring.next < WINDOW && t.ring.count <= WINDOW && !t.demoted
    requires HoldsLast(Unavailable(t, now).ring, history)
    ensures Unavailable(t, now).demoted <==> |history| >= WINDOW && CountTrue(Last(history)) >= 10
  {
  }

  /** A provider is newly demoted exactly when a claim finds it unavailable, at least twenty
      outcomes have been seen since the last reset, and of the last twenty at least ten were
      unavailable. */
  lemma DemotedExactlyWhenHalfFail(run: seq<Tracker>, steps: seq<Step>, n: nat)
    requires IsRun(run, steps) && n < |steps| && !run[n].demoted
    ensures run[n + 1].demoted <==>
      && steps[n].Failure? && |History(steps[..n + 1])| >= WINDOW && CountTrue(Last(History(steps[..n + 1]))) >= 10
  {
    WindowIsExact(run, steps, n + 1);
    if steps[n].Failure? { DemotedByItsRing(run[n], steps[n].now, History(steps[..n + 1])); }
  }

  /** And it stays demoted until a claim succeeds or a probe reaches it. */
  lemma RestoredOnlyByEvidence(run: seq<Tracker>, steps: seq<Step>, n: nat)
    requires IsRun(run, steps) && n < |steps| && run[n].demoted
    ensures !run[n + 1].demoted <==> steps[n].Success? || (steps[n].ProbeEnds? && steps[n].probe.Reachable?)
  {
  }

  // ----- probes in flight -----------------------------------------------------------------------------------

  /** The tracker and the probes it has in flight. */
  datatype Sky = Sky(tracker: Tracker, flying: int)

  ghost predicate Fresh(t: Tracker) {
    HoldsLast(t.ring, []) && !t.demoted && !t.probing && t.backoff == INITIAL_BACKOFF
  }

  predicate Shaped(r: Ring) {
    |r.slots| == WINDOW && r.next < WINDOW && r.count <= WINDOW
  }

  ghost function Moved(s: Sky, step: Step): (next: Sky)
    requires Shaped(s.tracker.ring)
    ensures Shaped(next.tracker.ring)
  {
    var t := Apply(s.tracker, step);
    Sky(t, s.flying + (if step.Question? && t.probing && !s.tracker.probing then 1 else 0)
                    - if step.ProbeEnds? then 1 else 0)
  }

  /** Where the steps lead from a fresh tracker. */
  ghost function Flown(t: Tracker, steps: seq<Step>): (s: Sky)
    requires Fresh(t)
    ensures Shaped(s.tracker.ring)
  {
    if steps == [] then Sky(t, 0) else Moved(Flown(t, steps[..|steps| - 1]), steps[|steps| - 1])
  }

  lemma {:induction false} FlownHoldsLast(t: Tracker, steps: seq<Step>)
    requires Fresh(t)
    ensures HoldsLast(Flown(t, steps).tracker.ring, History(steps))
  {
    if steps != [] {
      var front := steps[..|steps| - 1];
      FlownHoldsLast(t, front);
      StepHoldsLast(Flown(t, front).tracker, steps[|steps| - 1], History(front));
    }
  }

  /** Only a probe that is in flight ends. */
  ghost predicate Sensible(t: Tracker, steps: seq<Step>)
    requires Fresh(t)
  {
    forall k | 0 <= k < |steps| && steps[k].ProbeEnds? :: Flown(t, steps[..k]).flying > 0
  }

  /** A claim succeeds while a probe is in flight. */
  ghost predicate SucceedsDuring(t: Tracker, steps: seq<Step>, k: nat)
    requires Fresh(t) && k < |steps|
  {
    steps[k].Success? && Flown(t, steps[..k]).flying > 0
  }

  lemma FlownOn(t: Tracker, steps: seq<Step>, step: Step)
    requires Fresh(t)
    ensures Flown(t, steps + [step]) == Moved(Flown(t, steps), step)
  {
    assert (steps + [step])[..|steps|] == steps;
  }

  ghost predicate FlagTells(s: Sky) {
    s.flying == if s.tracker.probing then 1 else 0
  }

  lemma FlagStillTells(s: Sky, step: Step)
    requires Shaped(s.tracker.ring)
    requires FlagTells(s) && (step.ProbeEnds? ==> s.flying > 0) && (step.Success? ==> s.flying <= 0)
    ensures FlagTells(Moved(s, step))
  {
  }

  /** As long as no claim succeeds during a probe, at most one probe is in flight at a time, and the flag
      tells whether one is. */
  lemma {:induction false} OneProbe(t: Tracker, steps: seq<Step>, n: nat)
    requires Fresh(t) && Sensible(t, steps) && n <= |steps|
    requires forall k: nat | k < n :: !SucceedsDuring(t, steps, k)
    ensures FlagTells(Flown(t, steps[..n]))
  {
    if n > 0 {
      OneProbe(t, steps, n - 1);
      assert steps[..n] == steps[..n - 1] + [steps[n - 1]] && !SucceedsDuring(t, steps, n - 1);
      FlownOn(t, steps[..n - 1], steps[n - 1]);
      FlagStillTells(Flown(t, steps[..n - 1]), steps[n - 1]);
    }
  }

  /** `longer` goes on from `steps` with claims that fail at one moment. */
  ghost predicate FailsOn(steps: seq<Step>, longer: seq<Step>, now: int) {
    steps <= longer && forall k | |steps| <= k < |longer| :: longer[k] == Failure(now)
  }

  /** The clock never goes back during a run, and none of it is later than `now`. */
  ghost predicate Forward(steps: seq<Step>, now: int) {
    steps == [] ||
    var last, front := steps[|steps| - 1], steps[..|steps| - 1];
    if last.Failure? || last.Question? then last.now <= now && Forward(front, last.now) else Forward(front, now)
  }

  lemma {:induction false} ForwardUntil(steps: seq<Step>, now: int, later: int)
    requires Forward(steps, now) && now <= later
    ensures Forward(steps, later)
  {
    if steps != [] && !steps[|steps| - 1].Failure? && !steps[|steps| - 1].Question? {
      ForwardUntil(steps[..|steps| - 1], now, later);
    }
  }

  lemma {:induction false} FailingForward(steps: seq<Step>, longer: seq<Step>, now: int)
    requires FailsOn(steps, longer, now) && Forward(steps, now)
    ensures Forward(longer, now)
  {
    if longer != steps { FailingForward(steps, longer[..|longer| - 1], now); }
  }

  /** Claims fail, and a backoff later somebody asks. */
  lemma ProbingForward(steps: seq<Step>, longer: seq<Step>, now: int)
    requires longer != [] && FailsOn(steps, longer[..|longer| - 1], now) && Forward(steps, now)
    requires longer[|longer| - 1] == Question(now + INITIAL_BACKOFF, true)
    ensures Forward(longer, now + INITIAL_BACKOFF)
  {
    FailingForward(steps, longer[..|longer| - 1], now);
    ForwardUntil(longer[..|longer| - 1], now, now + INITIAL_BACKOFF);
  }

  ghost function Trues(n: nat): seq<bool> {
    if n == 0 then [] else Trues(n - 1) + [true]
  }

  /** The flag is down, and a demotion was at `now`. */
  ghost predicate Grounded(s: Sky, now: int, flying: int) {
    && s.flying == flying && !s.tracker.probing
    && (s.tracker.demoted ==> s.tracker.nextProbeAt == now + INITIAL_BACKOFF)
  }

  lemma FailureGrounds(s: Sky, now: int, flying: int, history: seq<bool>)
    requires HoldsLast(s.tracker.ring, history) && Grounded(s, now, flying)
    ensures Grounded(Moved(s, Failure(now)), now, flying)
    ensures s.tracker.demoted ==> Moved(s, Failure(now)).tracker.demoted
    ensures |history| + 1 >= WINDOW && CountTrue(Last(history + [true])) >= 10 ==>
      Moved(s, Failure(now)).tracker.demoted
  {
    PushHoldsLast(s.tracker.ring, history, true);
    if !s.tracker.demoted { DemotedByItsRing(s.tracker, now, history + [true]); }
  }

  lemma HistoryOn(steps: seq<Step>, step: Step)
    ensures History(steps + [step]) == Remembering(History(steps), step)
  {
    assert (steps + [step])[..|steps|] == steps;
  }

  lemma TruesOn(history: seq<bool>, n: nat)
    requires n > 0
    ensures history + Trues(n) == history + Trues(n - 1) + [true]
  {
  }

  lemma OneMoreFailure(t: Tracker, before: seq<Step>, now: int, flying: int, history: seq<bool>, n: nat)
    requires Fresh(t) && Grounded(Flown(t, before), now, flying) && n > 0
    requires History(before) == history + Trues(n - 1)
    ensures Grounded(Flown(t, before + [Failure(now)]), now, flying)
    ensures n >= WINDOW ==> Flown(t, before + [Failure(now)]).tracker.demoted
  {
    FlownOn(t, before, Failure(now));
    FlownHoldsLast(t, before);
    FailureGrounds(Flown(t, before), now, flying, History(before));
    if n >= WINDOW {
      LastTrues(history, n);
      TruesOn(history, n);
    }
  }

  lemma {:induction false} FailingGrounds(t: Tracker, steps: seq<Step>, now: int, n: nat, flying: int)
    returns (longer: seq<Step>)
    requires Fresh(t) && Grounded(Flown(t, steps), now, flying) && !Flown(t, steps).tracker.demoted
    ensures FailsOn(steps, longer, now) && History(longer) == History(steps) + Trues(n)
    ensures Grounded(Flown(t, longer), now, flying) && (n >= WINDOW ==> Flown(t, longer).tracker.demoted)
  {
    longer := steps;
    if n > 0 {
      var before := FailingGrounds(t, steps, now, n - 1, flying);
      OneMoreFailure(t, before, now, flying, History(steps), n);
      HistoryOn(before, Failure(now));
      TruesOn(History(steps), n);
      longer := before + [Failure(now)];
    }
  }

  lemma {:induction false} TruesAre(n: nat)
    ensures |Trues(n)| == n && CountTrue(Trues(n)) == n && forall i | 0 <= i < n :: Trues(n)[i]
  {
    if n > 0 { TruesAre(n - 1); }
  }

  lemma LastTrues(history: seq<bool>, n: nat)
    requires n >= WINDOW
    ensures |history + Trues(n)| >= WINDOW && CountTrue(Last(history + Trues(n))) >= 10
  {
    TruesAre(n);
    TruesAre(WINDOW);
    assert Last(history + Trues(n)) == Trues(WINDOW);
  }

  lemma SuccessClears(s: Sky)
    requires Shaped(s.tracker.ring)
    ensures Moved(s, Success).flying == s.flying && !Moved(s, Success).tracker.probing
    ensures !Moved(s, Success).tracker.demoted
  {
  }

  lemma QuestionProbes(s: Sky, now: int)
    requires Shaped(s.tracker.ring)
    requires s.tracker.demoted && !s.tracker.probing && now >= s.tracker.nextProbeAt
    ensures Moved(s, Question(now, true)).flying == s.flying + 1
  {
  }

  lemma SuccessGrounds(t: Tracker, steps: seq<Step>, now: int)
    requires Fresh(t) && steps != [] && SucceedsDuring(t, steps, |steps| - 1)
    ensures Flown(t, steps).flying > 0 && !Flown(t, steps).tracker.demoted
    ensures Grounded(Flown(t, steps), now, Flown(t, steps).flying)
  {
    var front := steps[..|steps| - 1];
    assert steps == front + [Success];
    FlownOn(t, front, Success);
    SuccessClears(Flown(t, front));
  }

  /** Where the flag is down, a probe starts once claims have failed for a window and a backoff has passed. */
  lemma ProbeStarts(t: Tracker, steps: seq<Step>, now: int) returns (longer: seq<Step>)
    requires Fresh(t) && Grounded(Flown(t, steps), now, Flown(t, steps).flying) && !Flown(t, steps).tracker.demoted
    ensures longer != [] && FailsOn(steps, longer[..|longer| - 1], now)
    ensures longer[|longer| - 1] == Question(now + INITIAL_BACKOFF, true)
    ensures Flown(t, longer).flying == Flown(t, steps).flying + 1
  {
    var failing := FailingGrounds(t, steps, now, WINDOW, Flown(t, steps).flying);
    longer := failing + [Question(now + INITIAL_BACKOFF, true)];
    assert longer[..|longer| - 1] == failing;
    FlownOn(t, failing, Question(now + INITIAL_BACKOFF, true));
    QuestionProbes(Flown(t, failing), now + INITIAL_BACKOFF);
  }

  /** And after any success during a probe, a second one may start beside the first: the success clears
      the flag, so claims that then fail, and a question a backoff later, start it. */
  lemma SecondProbe(t: Tracker, steps: seq<Step>, now: int) returns (longer: seq<Step>)
    requires Fresh(t) && Sensible(t, steps) && steps != [] && SucceedsDuring(t, steps, |steps| - 1)
    ensures steps < longer && Sensible(t, longer) && Flown(t, longer).flying > 1
    ensures Forward(steps, now) ==> Forward(longer, now + INITIAL_BACKOFF)
  {
    SuccessGrounds(t, steps, now);
    longer := ProbeStarts(t, steps, now);
    if Forward(steps, now) { ProbingForward(steps, longer, now); }
    StillSensible(t, steps, longer, now);
  }

  lemma StillSensible(t: Tracker, steps: seq<Step>, longer: seq<Step>, now: int)
    requires Fresh(t) && Sensible(t, steps) && longer != [] && FailsOn(steps, longer[..|longer| - 1], now)
    requires longer[|longer| - 1].Question?
    ensures steps < longer && Sensible(t, longer)
  {
    forall k | 0 <= k < |longer| && longer[k].ProbeEnds? ensures Flown(t, longer[..k]).flying > 0 {
      var failing := longer[..|longer| - 1];
      assert k < |failing| && failing[k] == longer[k];
      assert k < |steps| && longer[..k] == steps[..k];
    }
  }

  /** A run that gets there, its clock going forward. */
  lemma TwoProbes(t: Tracker, now: int) returns (steps: seq<Step>)
    requires Fresh(t)
    ensures Sensible(t, steps) && Flown(t, steps).flying > 1 && Forward(steps, now + 2 * INITIAL_BACKOFF)
  {
    var first := ProbeStarts(t, [], now);
    ProbingForward([], first, now);
    StillSensible(t, [], first, now);
    var second := first + [Success];
    assert second[..|second| - 1] == first;
    forall k | 0 <= k < |second| && second[k].ProbeEnds? ensures Flown(t, second[..k]).flying > 0 {
      assert k < |first| && second[..k] == first[..k];
    }
    steps := SecondProbe(t, second, now + INITIAL_BACKOFF);
  }

  // ----- the object -----------------------------------------------------------------------------------------

  /** The ratio is compared with a half exactly. */
  lemma AtLeastHalf(n: nat, count: nat)
    requires count > 0
    ensures (n as real) / (count as real) >= 0.5 <==> 2 * n >= count
  {
    var q := (n as real) / (count as real);
    assert q * (count as real) == n as real;
    if q >= 0.5 { assert (q - 0.5) * (count as real) >= 0.0; } else { assert (0.5 - q) * (count as real) > 0.0; }
  }

  class HealthTracker {
    const window: array<bool>
    var count: nat
    var idx: nat
    var demoted: bool
    var credentialsError: bool
    var nextProbeAt: int
    var probeBackoff: int
    var probing: bool

    ghost predicate Valid()
      reads this
    {
      window.Length == WINDOW && count <= WINDOW && idx < WINDOW
    }

    ghost function Model(): Tracker
      reads this, window
    {
      Tracker(Ring(window[..], count, idx), demoted, credentialsError, nextProbeAt, probeBackoff, probing)
    }

    constructor ()
      ensures Valid() && fresh(window)
      ensures HoldsLast(Model().ring, []) && !demoted && !probing && probeBackoff == INITIAL_BACKOFF
    {
      window := new bool[WINDOW](_ => false);
      count, idx, demoted, credentialsError := 0, 0, false, false;
      nextProbeAt, probeBackoff, probing := 0, INITIAL_BACKOFF, false;
    }

    method Push(unavailable: bool)
      requires Valid()
      modifies this`count, this`idx, window
      ensures Valid() && Model() == old(Model()).(ring := Pushed(old(Model()).ring, unavailable))
    {
      window[idx] := unavailable;
      idx := (idx + 1) % WINDOW;
      if count < WINDOW { count := count + 1; }
    }

    method UnavailableRatio() returns (ratio: real)
      requires Valid()
      ensures ratio == if count == 0 then 0.0 else (CountTrue(window[..count]) as real) / (count as real)
    {
      if count == 0 { return 0.0; }
      var unavailable := 0;
      for i := 0 to count
        invariant unavailable == CountTrue(window[..i])
      {
        assert window[..i + 1][..i] == window[..i];
        if window[i] { unavailable := unavailable + 1; }
      }
      return (unavailable as real) / (count as real);
    }

    method RecordSuccess()
      requires Valid()
      modifies this, window
      ensures Valid() && Model() == Succeeded(old(Model()))
    {
      Push(false);
      demoted, credentialsError, probeBackoff, probing := false, false, INITIAL_BACKOFF, false;
    }

    method RecordUnavailable(now: int)
      requires Valid()
      modifies this, window
      ensures Valid() && Model() == Unavailable(old(Model()), now)
    {
      Push(true);
      var ratio := UnavailableRatio();
      assert count > 0;
      AtLeastHalf(CountTrue(window[..count]), count);
      if count >= WINDOW && ratio >= 0.5 {
        if !demoted {
          demoted, probeBackoff := true, INITIAL_BACKOFF;
          nextProbeAt := now + probeBackoff;
        }
      }
    }

    method RecordRejected()
      requires Valid()
      modifies this`credentialsError
      ensures Valid() && Model() == Rejected(old(Model()))
    {
      credentialsError := true;
    }

    /** `free` is whether a probe may be started now: there is a slot for it, and no shutdown. */
    method IsUsable(now: int, free: bool) returns (usable: bool)
      requires Valid()
      modifies this`probing
      ensures Valid() && Model() == Asked(old(Model()), now, free) && usable == !demoted
    {
      if !demoted { return true; }
      if probing || now < nextProbeAt || !free { return false; }
      probing := true;
      return false;
    }

    /** The locked section at the end of a half-open probe. */
    method EndProbe(started: int, probe: Probe)
      requires Valid()
      modifies this
      ensures Valid() && Model() == Probed(old(Model()), started, probe)
    {
      probing := false;
      if probe.Reachable? {
        demoted, credentialsError, count, idx, probeBackoff := false, false, 0, 0, INITIAL_BACKOFF;
        return;
      }
      if probe.ProbeRejected? { credentialsError := true; }
      probeBackoff := probeBackoff * 2;
      if probeBackoff > MAX_BACKOFF { probeBackoff := MAX_BACKOFF; }
      nextProbeAt := started + probeBackoff;
    }
  }
}
