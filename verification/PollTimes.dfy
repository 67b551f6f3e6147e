/** When a provider is polled, and for how long it counts as heard from, over all runs of the registry. */
module PollTimes {
  import opened Text
  import opened Words
  import opened Framework
  import opened Registries
  import opened RegistryRuns
  import opened RegistryReports
  import ColdStarts
  import Scoring

  // ----- when a source is polled next ----------------------------------------------------------------

  /** How long a source waits between polls: its own interval, or the registry's, or ten seconds. */
  ghost predicate WaitsFor(r: Reg, id: string, wait: int)
    requires id in r.sources
  {
    var own, usual := r.sources[id].interval, r.defaultInterval;
    if own > 0 then wait == own else if usual > 0 then wait == usual else wait == 10 * 1_000_000_000
  }

  /** The polling loop starts a fetch of a provider's source. */
  ghost predicate Polls(s: System, step: Step, id: string) {
    step.PollDue? && exists f :: f in Apply(s, step).fetches - s.fetches && f.id == id
  }

  /** A step that sets when a source is due, or how long it waits. */
  ghost predicate Reschedules(step: Step, id: string) {
    || step == Remove(id) || (step.Add? && step.id == id) || (step.Interval? && step.id == id)
    || step.RunStarts? || step.RefreshAll?
  }

  /** The source is next due at `due`, and waits `wait` between polls. */
  ghost predicate DueAt(r: Reg, id: string, due: int, wait: int) {
    id in r.sources && r.sources[id].nextDue == due && WaitsFor(r, id, wait)
  }

  /** A pass of the polling loop starts a fetch exactly of a source that is due and has none in flight. */
  lemma PollsWhenDue(s: System, id: string, due: int, wait: int)
    requires Inv(s) && DueAt(s.reg, id, due, wait)
    ensures
      var idle := forall f | f in s.fetches :: !OfRun(f, id, s.reg.sources[id].gen);
      Polls(s, PollDue, id) <==> idle && s.now >= due
  {
    var jobs, p := PollJobs(s.reg, s.now), s.reg.sources[id];
    var f := PollJob(id, p);
    assert OnRun(s.fetches, id, p.gen) <==> p.inFlight;
    PollJobsAre(s.reg, s.now, f);
    assert Apply(s, PollDue).fetches - s.fetches == multiset(jobs);
    if f in jobs { assert f in Apply(s, PollDue).fetches - s.fetches; }
    forall g | g in jobs && g.id == id ensures g == f { PollJobsAre(s.reg, s.now, g); }
  }

  /** A source that is polled, or refreshed, is next due when it has waited. */
  lemma PolledWaits(s: System, id: string, due: int, wait: int)
    requires Inv(s) && DueAt(s.reg, id, due, wait)
    ensures DueAt(Apply(s, RefreshAll).reg, id, s.now + wait, wait)
    ensures Polls(s, PollDue, id) ==> DueAt(Apply(s, PollDue).reg, id, s.now + wait, wait)
    ensures !Polls(s, PollDue, id) ==> DueAt(Apply(s, PollDue).reg, id, due, wait)
  {
    PollsWhenDue(s, id, due, wait);
    assert OnRun(s.fetches, id, s.reg.sources[id].gen) <==> s.reg.sources[id].inFlight;
  }

  lemma OthersLeaveDue(s: System, step: Step, id: string, due: int, wait: int)
    requires Enabled(s, step) && DueAt(s.reg, id, due, wait) && !Reschedules(step, id) && !step.PollDue?
    ensures DueAt(Apply(s, step).reg, id, due, wait)
  {
    if step.Answered? { AnswerTouchesOneEntry(s.reg, step.f, step.result, step.f.stage.began, s.now); }
  }

  ghost predicate Undisturbed(run: seq<System>, steps: seq<Step>, i: nat, j: nat, id: string)
    requires i <= j <= |steps| && |run| == |steps| + 1
  {
    forall k | i <= k < j :: !Reschedules(steps[k], id) && !PollsAt(run, steps, k, id)
  }

  ghost predicate PollsAt(run: seq<System>, steps: seq<Step>, k: nat, id: string)
    requires k < |steps| && |run| == |steps| + 1
  {
    Polls(run[k], steps[k], id)
  }

  /** A step that neither reschedules nor polls a source leaves it due when it was. */
  ghost predicate LeavesDue(s: System, step: Step, t: System, id: string, due: int, wait: int) {
    DueAt(s.reg, id, due, wait) && !Reschedules(step, id) && !Polls(s, step, id) ==> DueAt(t.reg, id, due, wait)
  }

  lemma StepLeavesDue(s: System, step: Step, t: System, id: string, due: int, wait: int)
    requires Inv(s) && Enabled(s, step) && t == Apply(s, step)
    ensures LeavesDue(s, step, t, id, due, wait)
  {
    if DueAt(s.reg, id, due, wait) && !Reschedules(step, id) && !Polls(s, step, id) {
      if step.PollDue? { PolledWaits(s, id, due, wait); } else { OthersLeaveDue(s, step, id, due, wait); }
    }
  }

  lemma EachStepLeavesDue(run: seq<System>, steps: seq<Step>, id: string, due: int, wait: int)
    requires IsRun(run, steps)
    ensures forall k | 0 <= k < |steps| :: LeavesDue(run[k], steps[k], run[k + 1], id, due, wait)
  {
    forall k | 0 <= k < |steps| ensures LeavesDue(run[k], steps[k], run[k + 1], id, due, wait) {
      InvInEveryRun(run, steps, k);
      var s, t := StepAt(run, steps, k);
      StepLeavesDue(s, steps[k], t, id, due, wait);
    }
  }

  lemma {:induction false} StaysDue(run: seq<System>, steps: seq<Step>, i: nat, j: nat, id: string, due: int, wait: int)
    requires |run| == |steps| + 1 && i <= j < |run| && Undisturbed(run, steps, i, j, id)
    requires forall k | 0 <= k < |steps| :: LeavesDue(run[k], steps[k], run[k + 1], id, due, wait)
    requires DueAt(run[i].reg, id, due, wait)
    ensures DueAt(run[j].reg, id, due, wait)
    decreases j - i
  {
    if i < j {
      StaysDue(run, steps, i, j - 1, id, due, wait);
      assert !PollsAt(run, steps, j - 1, id);
      assert LeavesDue(run[j - 1], steps[j - 1], run[j], id, due, wait);
    }
  }

  /** A source polled at step `i` is polled again by the first pass of the loop that finds it has waited its
      interval and has no fetch in flight, and by none before, unless it is refreshed or rescheduled. */
  lemma PolledEveryInterval(run: seq<System>, steps: seq<Step>, i: nat, j: nat, id: string, due: int, wait: int)
    requires IsRun(run, steps) && i < j < |steps| && steps[j].PollDue? && Undisturbed(run, steps, i + 1, j, id)
    requires DueAt(run[i].reg, id, due, wait) && (PollsAt(run, steps, i, id) || steps[i].RefreshAll?)
    ensures id in run[j].reg.sources
    ensures
      var idle := forall f | f in run[j].fetches :: !OfRun(f, id, run[j].reg.sources[id].gen);
      PollsAt(run, steps, j, id) <==> idle && run[j].now - run[i].now >= wait
  {
    InvInEveryRun(run, steps, i);
    InvInEveryRun(run, steps, j);
    var s, t := StepAt(run, steps, i);
    PolledWaits(s, id, due, wait);
    EachStepLeavesDue(run, steps, id, s.now + wait, wait);
    StaysDue(run, steps, i + 1, j, id, s.now + wait, wait);
    PollsWhenDue(run[j], id, s.now + wait, wait);
  }

  /** A source just added, and every source when the loop starts, is due at once. */
  lemma DueAtOnce(s: System, id: string, source: int, interval: int, now: int)
    requires now >= -0x8000_0000_0000_0000
    ensures id in AddSource(s.reg, id, source).sources && Due(AddSource(s.reg, id, source).sources[id], now)
    ensures id in s.reg.sources && !s.reg.sources[id].inFlight ==>
      id in StartRun(s.reg, interval).sources && Due(StartRun(s.reg, interval).sources[id], now)
  {
  }

  /** A new interval takes effect at once if it is due sooner by it, and from the next poll on otherwise. */
  lemma IntervalBringsForward(s: System, id: string, d: int, due: int, wait: int, wait': int)
    requires DueAt(s.reg, id, due, wait) && s.reg.sources[id].interval != (if d < 0 then 0 else d)
    requires if d > 0 then wait' == d
             else wait' == if s.reg.defaultInterval > 0 then s.reg.defaultInterval else 10 * 1_000_000_000
    ensures DueAt(Apply(s, Interval(id, d)).reg, id, if s.now + wait' < due then s.now + wait' else due, wait')
  {
  }

  // ----- for how long a provider counts as heard from -----------------------------------------------------

  ghost predicate LastHeard(s: System, id: string, rep: Report, at: int) {
    Has(s, id) && s.reg.entries[id].report == rep && s.reg.entries[id].updatedAt == at && s.reg.entries[id].everReported
  }

  /** A step that is not the provider's removal leaves what was heard of it, or replaces it by a report. */
  ghost predicate Hears(s: System, step: Step, t: System, id: string) {
    Has(s, id) && step != Remove(id) ==>
      Has(t, id) && Heard(s.reg.entries[id], t.reg.entries[id], ReportOf(s, step, id), s.now)
  }

  lemma EachStepHears(run: seq<System>, steps: seq<Step>, id: string)
    requires IsRun(run, steps)
    ensures forall k | 0 <= k < |steps| :: Hears(run[k], steps[k], run[k + 1], id)
  {
    forall k | 0 <= k < |steps| ensures Hears(run[k], steps[k], run[k + 1], id) {
      var s, t := StepAt(run, steps, k);
      if Has(s, id) && steps[k] != Remove(id) { StepCalls(s, steps[k], id); }
    }
  }

  ghost predicate NoNews(run: seq<System>, steps: seq<Step>, i: nat, j: nat, id: string)
    requires |run| == |steps| + 1 && j <= |steps|
  {
    forall m | i <= m < j :: steps[m] != Remove(id) && ReportOf(run[m], steps[m], id).None?
  }

  lemma {:induction false} StillHeard(run: seq<System>, steps: seq<Step>, k: nat, j: nat, id: string, rep: Report)
    requires |run| == |steps| + 1 && forall m | 0 <= m < |steps| :: Hears(run[m], steps[m], run[m + 1], id)
    requires k < j < |run| && Has(run[k], id) && ReportOf(run[k], steps[k], id) == Some(rep)
    requires NoNews(run, steps, k + 1, j, id)
    ensures LastHeard(run[j], id, rep, run[k].now)
    decreases j - k
  {
    if k + 1 < j { StillHeard(run, steps, k, j - 1, id, rep); }
    assert Hears(run[j - 1], steps[j - 1], run[j], id);
  }

  /** A provider is reachable for just as long after its last report as reports stay fresh; and a fetch that
      fails, being no report, changes nothing about that. */
  lemma ReachableWhileFresh(run: seq<System>, steps: seq<Step>, k: nat, j: nat, id: string, rep: Report)
    requires IsRun(run, steps) && k < j < |run| && Has(run[k], id) && ReportOf(run[k], steps[k], id) == Some(rep)
    requires NoNews(run, steps, k + 1, j, id)
    ensures id in run[j].reg.entries
    ensures
      var s := run[j];
      var c := CandidateOf(id, s.reg.entries[id], s.reg.options, s.now);
      c.reachable <==> s.now - run[k].now <= s.reg.options.staleAfter
    ensures CandidateOf(id, run[j].reg.entries[id], run[j].reg.options, run[j].now).elastic == rep.elastic
  {
    EachStepHears(run, steps, id);
    StillHeard(run, steps, k, j, id, rep);
  }

  lemma {:induction false} StillUnheard(run: seq<System>, steps: seq<Step>, i: nat, j: nat, id: string)
    requires |run| == |steps| + 1 && forall m | 0 <= m < |steps| :: Hears(run[m], steps[m], run[m + 1], id)
    requires i <= j < |run| && Has(run[i], id) && run[i].reg.entries[id] == Unheard(run[i].reg.options)
    requires NoNews(run, steps, i, j, id)
    ensures Has(run[j], id) && !run[j].reg.entries[id].everReported
    decreases j - i
  {
    if i < j {
      StillUnheard(run, steps, i, j - 1, id);
      assert Hears(run[j - 1], steps[j - 1], run[j], id);
    }
  }

  /** A provider that has never reported is known, and is neither reachable nor warm. */
  lemma UnreachableUntilHeard(run: seq<System>, steps: seq<Step>, i: nat, j: nat, id: string)
    requires IsRun(run, steps) && i <= j < |run| && Has(run[i], id)
    requires run[i].reg.entries[id] == Unheard(run[i].reg.options)
    requires NoNews(run, steps, i, j, id)
    ensures id in run[j].reg.entries
    ensures
      var c := CandidateOf(id, run[j].reg.entries[id], run[j].reg.options, run[j].now);
      !c.reachable && c.warm == 0
  {
    EachStepHears(run, steps, id);
    StillUnheard(run, steps, i, j, id);
    WarmInEveryRun(run, steps, i, j, id);
  }

  /** The score an elastic provider gets when it has nothing warm is the one configured, between none and a
      hundred, and twenty when none is. */
  lemma ElasticScore(id: string, e: Entry, o: Options, now: int)
    requires e.report.elastic
    ensures
      var c := CandidateOf(id, e, o, now);
      c.warm == 0 ==>
        Scoring.Policies.ScoreWarm(c) ==
          if e.config.elasticWarmScore.None? then 20
          else if e.config.elasticWarmScore.value <= 0 then 0
          else if e.config.elasticWarmScore.value > 100 then 100
          else e.config.elasticWarmScore.value
  {
    Scoring.WarmToThePoint(CandidateOf(id, e, o, now));
  }

  // ----- what else is shown of a provider --------------------------------------------------------------------

  /** What a step makes of a provider's declaration and of its cold placements. */
  ghost predicate Declares(e: Entry, step: Step, id: string, now: int, e': Entry) {
    && e'.config == (if step.Configure? && step.id == id then step.cfg else e.config)
    && |e'.cold| == |e.cold|
    && (|e.cold| > 0 ==> e'.cold == if step == ColdPlaced(id) then ColdStarts.AddCold(e.cold, Second(now)) else e.cold)
  }

  lemma EntryStepDeclares(s: System, step: Step, id: string)
    requires Enabled(s, step) && id in s.reg.entries
    requires step.Configure? || step.Pushed? || step.Reserved? || step.Released? || step.ColdPlaced?
    ensures id in Apply(s, step).reg.entries
    ensures Declares(s.reg.entries[id], step, id, s.now, Apply(s, step).reg.entries[id])
  {
  }

  lemma AnswerDeclares(s: System, step: Step, id: string)
    requires Enabled(s, step) && id in s.reg.entries && step.Answered?
    ensures id in Apply(s, step).reg.entries
    ensures Declares(s.reg.entries[id], step, id, s.now, Apply(s, step).reg.entries[id])
  {
  }

  lemma StepDeclares(s: System, step: Step, t: System, id: string)
    requires Enabled(s, step) && t == Apply(s, step) && id in s.reg.entries && step != Remove(id)
    ensures id in t.reg.entries && Declares(s.reg.entries[id], step, id, s.now, t.reg.entries[id])
  {
    if step.Configure? || step.Pushed? || step.Reserved? || step.Released? || step.ColdPlaced? {
      EntryStepDeclares(s, step, id);
    } else if step.Answered? {
      AnswerDeclares(s, step, id);
    } else if step.Add? || step.Remove? {
      SourceComesOrGoes(s, step, id);
    }
  }

  ghost predicate Declared(s: System, step: Step, t: System, id: string) {
    id in s.reg.entries && step != Remove(id) ==>
      id in t.reg.entries && Declares(s.reg.entries[id], step, id, s.now, t.reg.entries[id])
  }

  lemma EachStepDeclares(run: seq<System>, steps: seq<Step>, id: string)
    requires IsRun(run, steps)
    ensures forall k | 0 <= k < |steps| :: Declared(run[k], steps[k], run[k + 1], id)
  {
    forall k | 0 <= k < |steps| ensures Declared(run[k], steps[k], run[k + 1], id) {
      var s, t := StepAt(run, steps, k);
      if id in s.reg.entries && steps[k] != Remove(id) { StepDeclares(s, steps[k], t, id); }
    }
  }

  /** The seconds of a provider's cold placements since step `i`, in order. */
  ghost function ColdOf(run: seq<System>, steps: seq<Step>, i: nat, j: nat, id: string): seq<u32>
    requires i <= j <= |steps| && |run| == |steps| + 1
    decreases j - i
  {
    if i == j then []
    else ColdOf(run, steps, i, j - 1, id) + if steps[j - 1] == ColdPlaced(id) then [Second(run[j - 1].now)] else []
  }

  lemma ColdNext(run: seq<System>, steps: seq<Step>, i: nat, j: nat, id: string)
    requires i < j <= |steps| && |run| == |steps| + 1 && run[i].reg.options.coldRing > 0
    ensures
      var size, before := run[i].reg.options.coldRing, ColdOf(run, steps, i, j - 1, id);
      ColdStarts.RingOf(size, ColdOf(run, steps, i, j, id)) ==
        if steps[j - 1] == ColdPlaced(id)
        then ColdStarts.AddCold(ColdStarts.RingOf(size, before), Second(run[j - 1].now))
        else ColdStarts.RingOf(size, before)
  {
    var before := ColdOf(run, steps, i, j - 1, id);
    if steps[j - 1] == ColdPlaced(id) {
      assert (before + [Second(run[j - 1].now)])[..|before|] == before;
    } else {
      assert before + [] == before;
    }
  }

  lemma {:induction false} ColdInEveryRun(run: seq<System>, steps: seq<Step>, i: nat, j: nat, id: string)
    requires |run| == |steps| + 1 && forall k | 0 <= k < |steps| :: Declared(run[k], steps[k], run[k + 1], id)
    requires i <= j < |run| && id in run[i].reg.entries && run[i].reg.options.coldRing > 0
    requires run[i].reg.entries[id] == Unheard(run[i].reg.options)
    requires forall k | i <= k < j :: steps[k] != Remove(id)
    ensures id in run[j].reg.entries
    ensures run[j].reg.entries[id].cold == ColdStarts.RingOf(run[i].reg.options.coldRing, ColdOf(run, steps, i, j, id))
    decreases j - i
  {
    if i < j {
      ColdInEveryRun(run, steps, i, j - 1, id);
      assert Declared(run[j - 1], steps[j - 1], run[j], id);
      ColdNext(run, steps, i, j, id);
    }
  }

  lemma ColdHistory(run: seq<System>, steps: seq<Step>, i: nat, j: nat, id: string)
    requires IsRun(run, steps) && i <= j < |run| && id in run[i].reg.entries && run[i].reg.options.coldRing > 0
    requires run[i].reg.entries[id] == Unheard(run[i].reg.options)
    requires forall k | i <= k < j :: steps[k] != Remove(id)
    ensures id in run[j].reg.entries
    ensures run[j].reg.entries[id].cold == ColdStarts.RingOf(run[i].reg.options.coldRing, ColdOf(run, steps, i, j, id))
  {
    EachStepDeclares(run, steps, id);
    ColdInEveryRun(run, steps, i, j, id);
  }

  /** The ring reaches back a window, the clock is a window past 1970, and the placements are in order. */
  ghost predicate Reaches(o: Options, now: u32, placed: seq<u32>) {
    && 1 <= o.coldWindow <= o.coldRing && o.coldWindow <= now + 1
    && ColdStarts.Chronological(placed) && ColdStarts.Countable(placed) && forall sec <- placed :: sec <= now
  }

  ghost predicate ShowsCold(c: Candidate, since: int, placed: seq<u32>) {
    since >= 0 && c.inFlightCold == CountFrom(since, placed)
  }

  lemma ColdShown(id: string, e: Entry, o: Options, now: int, placed: seq<u32>)
    requires Reaches(o, Second(now), placed) && e.cold == ColdStarts.RingOf(o.coldRing, placed)
    ensures ShowsCold(CandidateOf(id, e, o, now), Second(now) - o.coldWindow + 1, placed)
  {
    ColdStarts.InFlightIsExact(o.coldRing, placed, Second(now), o.coldWindow);
  }

  /** The cold starts shown as in flight are the cold placements of the last window, exactly, if the ring
      reaches back a window and the clock is a window past 1970. */
  lemma ColdStartsShown(run: seq<System>, steps: seq<Step>, i: nat, j: nat, id: string)
    requires IsRun(run, steps) && i <= j < |run| && id in run[i].reg.entries
    requires run[i].reg.entries[id] == Unheard(run[i].reg.options)
    requires forall k | i <= k < j :: steps[k] != Remove(id)
    requires run[i].reg.options.coldRing > 0
    ensures ColdAt(run[j], id, run[i].reg.options, ColdOf(run, steps, i, j, id))
  {
    ColdHistory(run, steps, i, j, id);
    ColdHere(run[j], id, run[i].reg.options, ColdOf(run, steps, i, j, id));
  }

  /** What is shown of a provider's cold placements, `o` being how the registry was set up. */
  ghost predicate ColdAt(s: System, id: string, o: Options, placed: seq<u32>) {
    && id in s.reg.entries
    && (s.reg.options == o && Reaches(o, Second(s.now), placed) ==>
          ShowsCold(CandidateOf(id, s.reg.entries[id], o, s.now), Second(s.now) - o.coldWindow + 1, placed))
  }

  lemma ColdHere(s: System, id: string, o: Options, placed: seq<u32>)
    requires o.coldRing > 0 && id in s.reg.entries
    requires s.reg.entries[id].cold == ColdStarts.RingOf(o.coldRing, placed)
    ensures ColdAt(s, id, o, placed)
  {
    if s.reg.options == o && Reaches(o, Second(s.now), placed) { ColdShown(id, s.reg.entries[id], o, s.now, placed); }
  }

  lemma {:induction false} StillDeclared(run: seq<System>, steps: seq<Step>, k: nat, j: nat, id: string, cfg: Config)
    requires |run| == |steps| + 1 && forall m | 0 <= m < |steps| :: Declared(run[m], steps[m], run[m + 1], id)
    requires k < j < |run| && id in run[k].reg.entries && steps[k] == Configure(id, cfg)
    requires forall m | k < m < j :: steps[m] != Remove(id) && !(steps[m].Configure? && steps[m].id == id)
    ensures id in run[j].reg.entries && run[j].reg.entries[id].config == cfg
    decreases j - k
  {
    if k + 1 < j { StillDeclared(run, steps, k, j - 1, id, cfg); }
    assert Declared(run[j - 1], steps[j - 1], run[j], id);
  }

  /** What is declared for a provider is what is shown of it, whatever it reports, until it is declared anew. */
  lemma ShowsWhatIsDeclared(run: seq<System>, steps: seq<Step>, k: nat, j: nat, id: string, cfg: Config)
    requires IsRun(run, steps) && k < j < |run| && id in run[k].reg.entries && steps[k] == Configure(id, cfg)
    requires forall m | k < m < j :: steps[m] != Remove(id) && !(steps[m].Configure? && steps[m].id == id)
    ensures id in run[j].reg.entries
    ensures
      var c := CandidateOf(id, run[j].reg.entries[id], run[j].reg.options, run[j].now);
      c.provider == id && c.attributes == cfg.attributes && c.templates == cfg.templates && c.cost == cfg.cost
  {
    EachStepDeclares(run, steps, id);
    StillDeclared(run, steps, k, j, id, cfg);
  }
}
