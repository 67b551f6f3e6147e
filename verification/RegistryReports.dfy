/** What a report keeps and what it frees, over all runs of the registry: which reservations outlive it, how
    long its provider counts as reachable, and when the provider is polled next. */
module RegistryReports {
  import opened Text
  import opened Words
  import opened Books
  import opened Framework
  import opened Registries
  import opened RegistryRuns
  import Tickets

  // ----- seconds ---------------------------------------------------------------------------------

  /** Until the year 2106 the second of a time is the whole seconds it is after 1970. */
  lemma SecondIs(t: int)
    requires 0 <= t < 0x1_0000_0000 * 1_000_000_000
    ensures Second(t) * 1_000_000_000 <= t < (Second(t) + 1) * 1_000_000_000
  {
  }

  lemma SecondsAscend(t: int, u: int)
    requires 0 <= t <= u < 0x1_0000_0000 * 1_000_000_000
    ensures Second(t) <= Second(u)
  {
    SecondIs(t);
    SecondIs(u);
  }

  // ----- the ledger's calls along a run -------------------------------------------------------------

  /** The report that a step records for a provider, if any: one pushed, or the answer of a fetch whose
      source is still in use. */
  ghost function ReportOf(s: System, step: Step, id: string): Option<Report> {
    match step
    case Pushed(p, rep) => if p == id then Some(rep) else None
    case Answered(f, result) =>
      if f.id == id && id in s.reg.sources && s.reg.sources[id].gen == f.gen && id in s.reg.entries
      then result else None
    case _ => None
  }

  /** The time whose second a report clears up to: a grace period before the fetch began, or before the push. */
  ghost function ClearsBefore(s: System, step: Step): int {
    if step.Answered? && step.f.stage.Fetching? then step.f.stage.began - s.reg.options.grace
    else s.now - s.reg.options.grace
  }

  /** What a step calls on a provider's ledger. */
  ghost function CallOf(s: System, step: Step, id: string): Option<Tickets.Op> {
    if ReportOf(s, step, id).Some? then
      Some(Tickets.Report(ReportOf(s, step, id).value.warm, Second(ClearsBefore(s, step))))
    else if step == Reserved(id) then Some(Tickets.Reserve(Second(s.now)))
    else if step.Released? && step.id == id then Some(Tickets.GiveBack(step.sec))
    else None
  }

  ghost predicate Has(s: System, id: string) {
    id in s.reg.entries && |s.reg.entries[id].book.buckets| > 0
  }

  /** A report replaces what was known; anything else leaves it. */
  ghost predicate Heard(e: Entry, e': Entry, rep: Option<Report>, now: int) {
    if rep.Some? then e'.report == rep.value && e'.updatedAt == now && e'.everReported
    else e'.report == e.report && e'.updatedAt == e.updatedAt && e'.everReported == e.everReported
  }

  lemma ReportCalls(s: System, step: Step, id: string)
    requires Enabled(s, step) && Has(s, id) && ReportOf(s, step, id).Some?
    ensures
      var e, t := s.reg.entries[id], Apply(s, step);
      && Has(t, id) && t.reg.entries[id].book == Tickets.Apply(e.book, CallOf(s, step, id).value)
      && Heard(e, t.reg.entries[id], ReportOf(s, step, id), s.now)
  {
  }

  lemma TicketCalls(s: System, step: Step, id: string)
    requires Enabled(s, step) && Has(s, id) && (step == Reserved(id) || (step.Released? && step.id == id))
    ensures
      var e, t := s.reg.entries[id], Apply(s, step);
      && Has(t, id) && t.reg.entries[id].book == Tickets.Apply(e.book, CallOf(s, step, id).value)
      && Heard(e, t.reg.entries[id], None, s.now)
  {
  }

  /** A step changes a provider's ledger by the call it makes, if any, and what was heard by its report. */
  lemma StepCalls(s: System, step: Step, id: string)
    requires Enabled(s, step) && Has(s, id) && step != Remove(id)
    ensures
      var e, t, op := s.reg.entries[id], Apply(s, step), CallOf(s, step, id);
      && Has(t, id) && Heard(e, t.reg.entries[id], ReportOf(s, step, id), s.now)
      && t.reg.entries[id].book == if op.Some? then Tickets.Apply(e.book, op.value) else e.book
  {
    if ReportOf(s, step, id).Some? {
      ReportCalls(s, step, id);
    } else if step == Reserved(id) || (step.Released? && step.id == id) {
      TicketCalls(s, step, id);
    } else if step.Answered? {
      OtherAnswerCallsNothing(s, step, id);
    } else {
      OthersCallNothing(s, step, id);
    }
  }

  lemma OtherAnswerCallsNothing(s: System, step: Step, id: string)
    requires Enabled(s, step) && Has(s, id) && step.Answered? && ReportOf(s, step, id).None?
    ensures id in Apply(s, step).reg.entries && SameBook(s.reg.entries[id], Apply(s, step).reg.entries[id])
  {
  }

  lemma OthersCallNothing(s: System, step: Step, id: string)
    requires Enabled(s, step) && Has(s, id) && step != Remove(id) && !step.Answered? && CallOf(s, step, id).None?
    ensures id in Apply(s, step).reg.entries && SameBook(s.reg.entries[id], Apply(s, step).reg.entries[id])
  {
    if step.Reserved? {
      assert step.id != id;
    } else if step.Configure? || step.Pushed? || step.Released? || step.ColdPlaced? {
      EntryStepKeepsBook(s, step, id);
    } else {
      SourceStepKeepsBook(s, step, id);
    }
  }

  /** The tickets of a provider handed out since step `i` and not given back. */
  ghost function Open(run: seq<System>, steps: seq<Step>, i: nat, j: nat, id: string): multiset<u32>
    requires i <= j <= |steps| && |run| == |steps| + 1
    decreases j - i
  {
    if i == j then multiset{}
    else
      var before, s, op := Open(run, steps, i, j - 1, id), run[j - 1], CallOf(run[j - 1], steps[j - 1], id);
      if op.Some? && id in s.reg.entries then Tickets.Log(before, s.reg.entries[id].book, op.value) else before
  }

  /** Between `i` and `j` the provider is not removed, and every ticket given back is one of those open. */
  ghost predicate Kept(run: seq<System>, steps: seq<Step>, i: nat, j: nat, id: string)
    requires i <= j <= |steps| && |run| == |steps| + 1
  {
    forall k | i <= k < j :: StepKeepsTickets(steps[k], Open(run, steps, i, k, id), id)
  }

  ghost predicate StepKeepsTickets(step: Step, open: multiset<u32>, id: string) {
    step != Remove(id) && (step.Released? && step.id == id ==> step.sec in open)
  }

  lemma {:induction false} StandsInEveryRun(run: seq<System>, steps: seq<Step>, i: nat, j: nat, id: string)
    requires IsRun(run, steps) && i <= j < |run| && Has(run[i], id)
    requires run[i].reg.entries[id].book == EmptyBook(run[i].reg.options.ring) && Kept(run, steps, i, j, id)
    ensures Has(run[j], id) && StandsFor(run[j].reg.entries[id].book, Open(run, steps, i, j, id))
    decreases j - i
  {
    if i == j {
      Tickets.EmptyRefines(run[i].reg.options.ring);
    } else {
      StandsInEveryRun(run, steps, i, j - 1, id);
      assert StepKeepsTickets(steps[j - 1], Open(run, steps, i, j - 1, id), id);
      StepStands(run[j - 1], steps[j - 1], id, Open(run, steps, i, j - 1, id));
    }
  }

  lemma StepStands(s: System, step: Step, id: string, open: multiset<u32>)
    requires Enabled(s, step) && Has(s, id) && StepKeepsTickets(step, open, id)
    requires StandsFor(s.reg.entries[id].book, open)
    ensures
      var op := CallOf(s, step, id);
      && Has(Apply(s, step), id)
      && StandsFor(Apply(s, step).reg.entries[id].book,
                   if op.Some? then Tickets.Log(open, s.reg.entries[id].book, op.value) else open)
  {
    StepCalls(s, step, id);
    var op, b := CallOf(s, step, id), s.reg.entries[id].book;
    if op.Some? {
      var carried :| Tickets.Refines(b, open, carried);
      var carried' := Tickets.OpRefines(b, op.value, open, carried);
    }
  }

  // ----- how far reports have cleared ---------------------------------------------------------------

  ghost predicate ClearsNoLater(s: System, step: Step, id: string, since: u32) {
    ReportOf(s, step, id).Some? ==> Second(ClearsBefore(s, step)) <= since
  }

  lemma StepClears(s: System, step: Step, t: System, id: string, since: u32)
    requires Enabled(s, step) && t == Apply(s, step) && Has(s, id) && step != Remove(id)
    ensures Has(t, id)
    ensures t.reg.entries[id].book.cleared <= since <==>
      s.reg.entries[id].book.cleared <= since && ClearsNoLater(s, step, id, since)
  {
    StepCalls(s, step, id);
  }

  /** A ledger has been cleared up to no later a second than `since` exactly when none of the reports
      recorded for it clears later. */
  lemma {:induction false} ClearedExactly(run: seq<System>, steps: seq<Step>, i: nat, j: nat, id: string, since: u32)
    requires IsRun(run, steps) && i <= j < |run| && Has(run[i], id)
    requires forall k | i <= k < j :: steps[k] != Remove(id)
    ensures Has(run[j], id)
    ensures run[j].reg.entries[id].book.cleared <= since <==>
      run[i].reg.entries[id].book.cleared <= since && NoneClearsLater(run, steps, i, j, id, since)
    decreases j - i
  {
    if i < j {
      ClearedExactly(run, steps, i, j - 1, id, since);
      var s, t := StepAt(run, steps, j - 1);
      StepClears(s, steps[j - 1], t, id, since);
      OneMoreClears(run, steps, i, j, id, since);
    }
  }

  ghost predicate NoneClearsLater(run: seq<System>, steps: seq<Step>, i: nat, j: nat, id: string, since: u32)
    requires i <= j <= |steps| && |run| == |steps| + 1
  {
    forall k | i <= k < j :: ClearsNoLater(run[k], steps[k], id, since)
  }

  lemma OneMoreClears(run: seq<System>, steps: seq<Step>, i: nat, j: nat, id: string, since: u32)
    requires i < j <= |steps| && |run| == |steps| + 1
    ensures NoneClearsLater(run, steps, i, j, id, since) <==>
      NoneClearsLater(run, steps, i, j - 1, id, since) && ClearsNoLater(run[j - 1], steps[j - 1], id, since)
  {
  }

  lemma StepAt(run: seq<System>, steps: seq<Step>, k: nat) returns (s: System, t: System)
    requires IsRun(run, steps) && k < |steps|
    ensures s == run[k] && t == run[k + 1] && Enabled(s, steps[k]) && t == Apply(s, steps[k])
  {
    s, t := run[k], run[k + 1];
  }

  // ----- what is shown -----------------------------------------------------------------------------------

  /** What a ledger counts up to: the capacity reported, if any was. */
  ghost predicate WarmAsReported(e: Entry) {
    e.book.warm == if !e.everReported || e.report.warm <= 0 then 0
                   else if e.report.warm > MAX_U32 then MAX_U32 else e.report.warm
  }

  lemma StepWarm(s: System, step: Step, t: System, id: string)
    requires Enabled(s, step) && t == Apply(s, step) && Has(s, id) && step != Remove(id)
    requires WarmAsReported(s.reg.entries[id])
    ensures Has(t, id) && WarmAsReported(t.reg.entries[id])
  {
    StepCalls(s, step, id);
  }

  lemma {:induction false} WarmInEveryRun(run: seq<System>, steps: seq<Step>, i: nat, j: nat, id: string)
    requires IsRun(run, steps) && i <= j < |run| && Has(run[i], id) && WarmAsReported(run[i].reg.entries[id])
    requires forall k | i <= k < j :: steps[k] != Remove(id)
    ensures Has(run[j], id) && WarmAsReported(run[j].reg.entries[id])
    decreases j - i
  {
    if i < j {
      WarmInEveryRun(run, steps, i, j - 1, id);
      var s, t := StepAt(run, steps, j - 1);
      StepWarm(s, steps[j - 1], t, id);
    }
  }

  // ----- counting tickets ------------------------------------------------------------------------------

  /** The tickets in the first `n` buckets. */
  ghost function InRing(ws: seq<Word>, n: nat): multiset<u32>
    requires n <= |ws|
  {
    if n == 0 then multiset{}
    else
      var before, w := InRing(ws, n - 1), ws[n - 1];
      before[w.hi := before[w.hi] + w.lo]
  }

  lemma {:induction false} RingCounts(b: Book, carried: multiset<u32>, n: nat, sec: u32)
    requires Tickets.Settled(b, carried) && n <= |b.buckets|
    ensures InRing(b.buckets, n)[sec] == if Slot(sec, |b.buckets|) < n then Tickets.InBucket(b, sec) else 0
  {
    if n > 0 { RingCounts(b, carried, n - 1, sec); }
  }

  lemma {:induction false} RingSize(ws: seq<Word>, n: nat)
    requires n <= |ws|
    ensures |InRing(ws, n)| == Sum(Tail(0), ws[..n])
  {
    if n > 0 {
      RingSize(ws, n - 1);
      assert ws[..n] == ws[..n - 1] + [ws[n - 1]];
      SumAppend(Tail(0), ws[..n - 1], [ws[n - 1]]);
    }
  }

  lemma Within(part: multiset<u32>, whole: multiset<u32>)
    requires part <= whole
    ensures |part| <= |whole|
  {
    assert whole == part + (whole - part);
  }

  /** Open tickets from the largest cutoff on are all outstanding. */
  lemma Outstanding(b: Book, open: multiset<u32>, carried: multiset<u32>, some: multiset<u32>)
    requires Tickets.Refines(b, open, carried) && some <= open && forall sec <- some :: sec >= b.cleared
    ensures |some| <= b.out
  {
    var all := InRing(b.buckets, |b.buckets|) + carried;
    forall sec: u32 ensures some[sec] <= all[sec] {
      RingCounts(b, carried, |b.buckets|, sec);
      if sec in some { assert open[sec] == Tickets.InBucket(b, sec) + carried[sec]; }
    }
    Within(some, all);
    RingSize(b.buckets, |b.buckets|);
    assert b.buckets[..|b.buckets|] == b.buckets;
  }

  /** Every ticket of these seconds is still in its bucket or in carry; they are all outstanding, and what
      is shown of the reported capacity leaves room for them. */
  ghost predicate Holds(e: Entry, c: Candidate, open: multiset<u32>, since: u32) {
    && (exists carried :: Tickets.Settled(e.book, carried)
          && forall sec: u32 | sec >= since :: open[sec] == Tickets.InBucket(e.book, sec) + carried[sec])
    && forall some: multiset<u32> | some <= open && forall sec <- some :: sec >= since ::
         |some| <= e.book.out && (c.warm <= 0 || c.warm + |some| <= e.report.warm)
  }

  lemma HoldsOpen(id: string, e: Entry, o: Options, now: int, open: multiset<u32>, since: u32)
    requires StandsFor(e.book, open) && e.book.cleared <= since && WarmAsReported(e)
    ensures Holds(e, CandidateOf(id, e, o, now), open, since)
  {
    var carried :| Tickets.Refines(e.book, open, carried);
    forall some: multiset<u32> | some <= open && forall sec <- some :: sec >= since ensures |some| <= e.book.out {
      Outstanding(e.book, open, carried, some);
    }
  }

  /** Over all runs: from a provider's first day on, every ticket handed out from second `since` on and not
      given back is still held, whatever is reported, as long as no report clears later: that is, as long
      as no fetch that was answered began, and no push came, more than a grace period after `since`. */
  lemma ReservationsOutliveReports(run: seq<System>, steps: seq<Step>, i: nat, j: nat, id: string, since: u32)
    requires IsRun(run, steps) && i <= j < |run| && Has(run[i], id)
    requires run[i].reg.entries[id] == Unheard(run[i].reg.options) && Kept(run, steps, i, j, id)
    requires NoneClearsLater(run, steps, i, j, id, since)
    ensures
      var s := run[j];
      && Has(s, id)
      && Holds(s.reg.entries[id], CandidateOf(id, s.reg.entries[id], s.reg.options, s.now),
               Open(run, steps, i, j, id), since)
  {
    StandsInEveryRun(run, steps, i, j, id);
    forall k | i <= k < j ensures steps[k] != Remove(id) {
      assert StepKeepsTickets(steps[k], Open(run, steps, i, k, id), id);
    }
    ClearedExactly(run, steps, i, j, id, since);
    WarmInEveryRun(run, steps, i, j, id);
    HoldsOpen(id, run[j].reg.entries[id], run[j].reg.options, run[j].now, Open(run, steps, i, j, id), since);
  }
  // ----- one report ---------------------------------------------------------------------------------------

  ghost predicate Advances(s: System, t: System) {
    s.now <= t.now && s.reg.options == t.reg.options
  }

  lemma StepAdvances(s: System, step: Step, t: System)
    requires Enabled(s, step) && t == Apply(s, step)
    ensures Advances(s, t)
  {
  }

  lemma EachStepAdvances(run: seq<System>, steps: seq<Step>)
    requires IsRun(run, steps)
    ensures forall k | 0 <= k < |steps| :: Advances(run[k], run[k + 1])
  {
    forall k | 0 <= k < |steps| ensures Advances(run[k], run[k + 1]) {
      var s, t := StepAt(run, steps, k);
      StepAdvances(s, steps[k], t);
    }
  }

  lemma {:induction false} ClockAdvances(run: seq<System>, m: nat, k: nat)
    requires m <= k < |run| && forall l | 0 <= l < |run| - 1 :: Advances(run[l], run[l + 1])
    ensures Advances(run[m], run[k])
    decreases k - m
  {
    if m < k {
      ClockAdvances(run, m, k - 1);
      assert Advances(run[k - 1], run[k]);
    }
  }

  ghost predicate BegunBy(fetches: multiset<Fetch>, now: int) {
    forall f | f in fetches && f.stage.Fetching? :: f.stage.began <= now
  }

  lemma StepBegins(s: System, step: Step, t: System)
    requires Enabled(s, step) && t == Apply(s, step) && BegunBy(s.fetches, s.now)
    ensures BegunBy(t.fetches, t.now)
  {
    forall f | f in t.fetches && f.stage.Fetching? ensures f.stage.began <= t.now {
      if f !in s.fetches { assert step.Began? && f.stage.began == s.now; }
    }
  }

  lemma {:induction false} BegunInEveryRun(run: seq<System>, steps: seq<Step>, k: nat)
    requires IsRun(run, steps) && k < |run|
    ensures BegunBy(run[k].fetches, run[k].now)
  {
    if k > 0 {
      BegunInEveryRun(run, steps, k - 1);
      var s, t := StepAt(run, steps, k - 1);
      StepBegins(s, steps[k - 1], t);
    }
  }

  /** The times that the reports of a provider clear up to fall between 1970 and 2106. */
  ghost predicate InRange(run: seq<System>, steps: seq<Step>, i: nat, k: nat, id: string)
    requires i <= k <= |steps| && |run| == |steps| + 1
  {
    forall m | i <= m < k && ReportOf(run[m], steps[m], id).Some? ::
      0 <= ClearsBefore(run[m], steps[m]) < 0x1_0000_0000 * 1_000_000_000
  }

  lemma ClearsEarlier(s: System, step: Step, u: System, push: Step, id: string)
    requires Enabled(s, step) && BegunBy(s.fetches, s.now) && Advances(s, u) && push.Pushed?
    requires ReportOf(s, step, id).Some?
    ensures ClearsBefore(s, step) <= ClearsBefore(u, push)
  {
  }

  /** No report clears later than a push that comes after it. */
  lemma NoneClearsLaterThanAPush(run: seq<System>, steps: seq<Step>, i: nat, k: nat, id: string)
    requires IsRun(run, steps) && i <= k < |steps| && steps[k].Pushed? && steps[k].id == id
    requires InRange(run, steps, i, k + 1, id)
    ensures NoneClearsLater(run, steps, i, k, id, Second(ClearsBefore(run[k], steps[k])))
  {
    EachStepAdvances(run, steps);
    forall m | i <= m < k && ReportOf(run[m], steps[m], id).Some?
      ensures ClearsNoLater(run[m], steps[m], id, Second(ClearsBefore(run[k], steps[k])))
    {
      ClockAdvances(run, m, k);
      BegunInEveryRun(run, steps, m);
      var s, t := StepAt(run, steps, m);
      ClearsEarlier(s, steps[m], run[k], steps[k], id);
      SecondsAscend(ClearsBefore(s, steps[m]), ClearsBefore(run[k], steps[k]));
    }
  }

  /** When a report is recorded, every ticket handed out since a grace period before its fetch began is
      still held, if no report recorded before it clears later; after a push that is always so. */
  lemma ReportKeepsRecentTickets(run: seq<System>, steps: seq<Step>, i: nat, k: nat, id: string)
    requires IsRun(run, steps) && i <= k < |steps| && Has(run[i], id)
    requires run[i].reg.entries[id] == Unheard(run[i].reg.options) && Kept(run, steps, i, k + 1, id)
    requires ReportOf(run[k], steps[k], id).Some?
    requires NoneClearsLater(run, steps, i, k, id, Second(ClearsBefore(run[k], steps[k])))
             || (steps[k].Pushed? && InRange(run, steps, i, k + 1, id))
    ensures
      var t := run[k + 1];
      && Has(t, id)
      && Holds(t.reg.entries[id], CandidateOf(id, t.reg.entries[id], t.reg.options, t.now),
               Open(run, steps, i, k + 1, id), Second(ClearsBefore(run[k], steps[k])))
  {
    var since := Second(ClearsBefore(run[k], steps[k]));
    if steps[k].Pushed? && InRange(run, steps, i, k + 1, id) { NoneClearsLaterThanAPush(run, steps, i, k, id); }
    OneMoreClears(run, steps, i, k + 1, id, since);
    ReservationsOutliveReports(run, steps, i, k + 1, id, since);
  }
}
