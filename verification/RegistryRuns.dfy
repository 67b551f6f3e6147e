/** The registry over all its runs: sources come, go and are replaced while fetches overlap. */
module RegistryRuns {
  import opened Text
  import opened Words
  import opened Books
  import opened Registries

  datatype System = System(reg: Reg, fetches: multiset<Fetch>, now: int)

  datatype Step =
    | Tick(now: int)
    | Add(id: string, source: int)
    | Remove(id: string)
    | Configure(id: string, cfg: Config)
    | Interval(id: string, d: int)
    | Pushed(id: string, rep: Report)
    | RefreshAll
    | RunStarts(interval: int)
    | PollDue
    | Began(f: Fetch)
    | Answered(f: Fetch, result: Option<Report>)
    | Freed(f: Fetch)
    | Reserved(id: string)
    | Released(id: string, sec: u32)
    | ColdPlaced(id: string)

  ghost predicate Enabled(s: System, step: Step) {
    match step
    case Tick(now) => now >= s.now
    case Began(f) => f in s.fetches && f.stage.Waiting?
    case Answered(f, _) => f in s.fetches && f.stage.Fetching?
    case Freed(f) => f in s.fetches && f.byRun && f.stage.Recorded?
    case _ => true
  }

  ghost function Apply(s: System, step: Step): System
    requires Enabled(s, step)
  {
    match step
    case Tick(now) => s.(now := now)
    case Add(id, source) => s.(reg := AddSource(s.reg, id, source))
    case Remove(id) => s.(reg := RemoveSource(s.reg, id))
    case Configure(id, cfg) => s.(reg := SetConfig(s.reg, id, cfg))
    case Interval(id, d) => s.(reg := SetRefreshInterval(s.reg, id, d, s.now))
    case Pushed(id, rep) => s.(reg := Push(s.reg, id, rep, s.now))
    case RefreshAll => s.(reg := Postponed(s.reg, s.now), fetches := s.fetches + multiset(RefreshJobs(s.reg)))
    case RunStarts(interval) => s.(reg := StartRun(s.reg, interval))
    case PollDue => s.(reg := Polling(s.reg, s.now), fetches := s.fetches + multiset(PollJobs(s.reg, s.now)))
    case Began(f) => s.(fetches := Moved(s.fetches, f, multiset{f.(stage := Fetching(s.now))}))
    case Answered(f, result) =>
      s.(reg := Answer(s.reg, f, result, f.stage.began, s.now),
         fetches := Moved(s.fetches, f, if f.byRun then multiset{f.(stage := Recorded)} else multiset{}))
    case Freed(f) => s.(reg := Free(s.reg, f), fetches := s.fetches - multiset{f})
    case Reserved(id) => s.(reg := Reserve(s.reg, id, s.now))
    case Released(id, sec) => s.(reg := Release(s.reg, id, sec))
    case ColdPlaced(id) => s.(reg := RecordCold(s.reg, id, s.now))
  }

  ghost function Moved(fetches: multiset<Fetch>, f: Fetch, to: multiset<Fetch>): multiset<Fetch> {
    fetches - multiset{f} + to
  }

  /** A fetch by the polling loop for one generation of a source. */
  predicate OfRun(f: Fetch, id: string, gen: nat) {
    f.byRun && f.id == id && f.gen == gen
  }

  /** The polling loop has a fetch of that generation in flight. */
  ghost predicate OnRun(fetches: multiset<Fetch>, id: string, gen: nat) {
    exists f :: f in fetches && OfRun(f, id, gen)
  }

  /** It never has two: any two of its fetches of one generation are the same one. */
  ghost predicate Single(fetches: multiset<Fetch>) {
    && (forall f | f in fetches && f.byRun :: fetches[f] == 1)
    && forall f, g | f in fetches && g in fetches && f.byRun && OfRun(g, f.id, f.gen) :: f == g
  }

  ghost predicate Slotted(r: Reg, fetches: multiset<Fetch>) {
    forall id | id in r.sources :: r.sources[id].inFlight <==> OnRun(fetches, id, r.sources[id].gen)
  }

  ghost predicate Numbered(r: Reg, fetches: multiset<Fetch>) {
    && (forall id | id in r.sources :: id in r.entries && r.sources[id].gen <= r.lastGen)
    && (forall id, id' | id in r.sources && id' in r.sources && id != id' :: r.sources[id].gen != r.sources[id'].gen)
    && (forall f | f in fetches :: f.gen <= r.lastGen)
  }

  ghost predicate Inv(s: System) {
    Numbered(s.reg, s.fetches) && Single(s.fetches) && Slotted(s.reg, s.fetches)
  }

  lemma PollJobsAre(r: Reg, now: int, f: Fetch)
    ensures f in PollJobs(r, now) <==>
      Current(r, f.id, f.gen) && Due(r.sources[f.id], now) && f.byRun && f.stage.Waiting?
  {
    if Current(r, f.id, f.gen) && Due(r.sources[f.id], now) {
      assert PollJob(f.id, r.sources[f.id]) in PollJobs(r, now);
    }
  }

  lemma PollStaysSingle(s: System)
    requires Inv(s)
    ensures Single(s.fetches + multiset(PollJobs(s.reg, s.now)))
  {
    var jobs := PollJobs(s.reg, s.now);
    forall f | f in jobs ensures f !in s.fetches && !OnRun(s.fetches, f.id, f.gen) { PollJobsAre(s.reg, s.now, f); }
    forall f, g | f in jobs && g in jobs && OfRun(g, f.id, f.gen) ensures f == g {
      PollJobsAre(s.reg, s.now, f);
      PollJobsAre(s.reg, s.now, g);
    }
    forall f, g | f in jobs && g in s.fetches && g.byRun ensures !OfRun(g, f.id, f.gen) && !OfRun(f, g.id, g.gen) {
      assert !OnRun(s.fetches, f.id, f.gen);
    }
  }

  lemma PollSlots(s: System, id: string)
    requires Inv(s) && id in s.reg.sources
    ensures
      var r := Polling(s.reg, s.now);
      r.sources[id].inFlight <==> OnRun(s.fetches + multiset(PollJobs(s.reg, s.now)), id, r.sources[id].gen)
  {
    var jobs, p := PollJobs(s.reg, s.now), s.reg.sources[id];
    PollJobsAre(s.reg, s.now, PollJob(id, p));
    if OnRun(s.fetches, id, p.gen) {
      var f :| f in s.fetches && OfRun(f, id, p.gen);
      assert f in s.fetches + multiset(jobs);
    }
    if Due(p, s.now) { assert PollJob(id, p) in s.fetches + multiset(jobs) && OfRun(PollJob(id, p), id, p.gen); }
    forall f | f in jobs && OfRun(f, id, p.gen) ensures Due(p, s.now) { PollJobsAre(s.reg, s.now, f); }
  }

  lemma PollKeeps(s: System)
    requires Inv(s)
    ensures Inv(s.(reg := Polling(s.reg, s.now), fetches := s.fetches + multiset(PollJobs(s.reg, s.now))))
  {
    var jobs := PollJobs(s.reg, s.now);
    var t := s.(reg := Polling(s.reg, s.now), fetches := s.fetches + multiset(jobs));
    PollStaysSingle(s);
    forall id | id in t.reg.sources
      ensures t.reg.sources[id].inFlight <==> OnRun(t.fetches, id, t.reg.sources[id].gen)
    {
      PollSlots(s, id);
    }
    forall f | f in t.fetches ensures f.gen <= t.reg.lastGen {
      if f !in s.fetches { PollJobsAre(s.reg, s.now, f); }
    }
    PollKeepsGens(s.reg, s.now);
  }

  lemma PollKeepsGens(r: Reg, now: int)
    ensures Polling(r, now).sources.Keys == r.sources.Keys && Polling(r, now).entries == r.entries
    ensures forall id | id in r.sources :: Polling(r, now).sources[id].gen == r.sources[id].gen
  {
  }

  /** A step that leaves the polling loop's fetches, slots and generations as they are, but for the stage
      a fetch is at. */
  ghost predicate SameFetches(s: System, t: System) {
    && Single(t.fetches) && Numbered(t.reg, t.fetches) && t.reg.sources.Keys == s.reg.sources.Keys
    && (forall id, gen: nat :: OnRun(t.fetches, id, gen) <==> OnRun(s.fetches, id, gen))
    && forall id | id in s.reg.sources ::
         t.reg.sources[id].gen == s.reg.sources[id].gen && t.reg.sources[id].inFlight == s.reg.sources[id].inFlight
  }

  lemma SameFetchesKeep(s: System, t: System)
    requires Inv(s) && SameFetches(s, t)
    ensures Inv(t)
  {
  }

  lemma RefreshKeeps(s: System)
    requires Inv(s)
    ensures Inv(Apply(s, RefreshAll))
  {
    var t, jobs := Apply(s, RefreshAll), RefreshJobs(s.reg);
    forall f: Fetch | f.byRun ensures t.fetches[f] == s.fetches[f] { assert f !in jobs; }
    forall id, gen: nat ensures OnRun(t.fetches, id, gen) <==> OnRun(s.fetches, id, gen) {
      assert forall f: Fetch | f.byRun :: f in t.fetches <==> f in s.fetches;
    }
    SameFetchesKeep(s, t);
  }

  /** Moving one of the polling loop's fetches on to its next stage changes nothing the loop counts. */
  lemma RunMovedOn(fetches: multiset<Fetch>, f: Fetch, g: Fetch, id: string, gen: nat)
    requires f in fetches && Single(fetches) && f.byRun && g.byRun && g.id == f.id && g.gen == f.gen
    ensures OnRun(Moved(fetches, f, multiset{g}), id, gen) <==> OnRun(fetches, id, gen)
    ensures Single(Moved(fetches, f, multiset{g}))
  {
    var moved := Moved(fetches, f, multiset{g});
    assert forall h: Fetch | h != f && h != g :: moved[h] == fetches[h];
    assert g in moved && moved[g] == 1 && (OfRun(g, id, gen) <==> OfRun(f, id, gen));
  }

  lemma RefreshMovedOn(fetches: multiset<Fetch>, f: Fetch, to: multiset<Fetch>, id: string, gen: nat)
    requires f in fetches && Single(fetches) && !f.byRun && forall g | g in to :: !g.byRun
    ensures OnRun(Moved(fetches, f, to), id, gen) <==> OnRun(fetches, id, gen)
    ensures Single(Moved(fetches, f, to))
  {
    var moved := Moved(fetches, f, to);
    assert forall h: Fetch | h.byRun :: moved[h] == fetches[h];
    assert forall h: Fetch | h.byRun :: h in moved <==> h in fetches;
  }

  /** Where a fetch moves on to: its next stage, or out if a refresh's has ended. */
  ghost predicate MovesTo(f: Fetch, to: multiset<Fetch>) {
    if f.byRun then exists g: Fetch :: to == multiset{g} && g.byRun && g.id == f.id && g.gen == f.gen
    else forall g | g in to :: !g.byRun && g.id == f.id && g.gen == f.gen
  }

  lemma MovedOn(fetches: multiset<Fetch>, f: Fetch, to: multiset<Fetch>, id: string, gen: nat)
    requires f in fetches && Single(fetches) && MovesTo(f, to)
    ensures OnRun(Moved(fetches, f, to), id, gen) <==> OnRun(fetches, id, gen)
    ensures Single(Moved(fetches, f, to)) && forall g | g in to :: g.gen == f.gen
  {
    if f.byRun {
      var g: Fetch :| to == multiset{g} && g.byRun && g.id == f.id && g.gen == f.gen;
      RunMovedOn(fetches, f, g, id, gen);
    } else {
      RefreshMovedOn(fetches, f, to, id, gen);
    }
  }

  lemma MovedKeeps(s: System, r: Reg, f: Fetch, to: multiset<Fetch>)
    requires Inv(s) && f in s.fetches && MovesTo(f, to)
    requires r.sources == s.reg.sources && r.lastGen == s.reg.lastGen && r.entries.Keys == s.reg.entries.Keys
    ensures Inv(s.(reg := r, fetches := Moved(s.fetches, f, to)))
  {
    var t := s.(reg := r, fetches := Moved(s.fetches, f, to));
    MovedOn(s.fetches, f, to, "", 0);
    forall id, gen: nat ensures OnRun(t.fetches, id, gen) <==> OnRun(s.fetches, id, gen) {
      MovedOn(s.fetches, f, to, id, gen);
    }
    SameFetchesKeep(s, t);
  }

  lemma AnswerTouchesOneEntry(r: Reg, f: Fetch, result: Option<Report>, started: int, now: int)
    ensures
      var r' := Answer(r, f, result, started, now);
      r'.sources == r.sources && r'.lastGen == r.lastGen && r'.entries.Keys == r.entries.Keys
  {
  }

  lemma FreeKeeps(s: System, f: Fetch)
    requires Inv(s) && Enabled(s, Freed(f))
    ensures Inv(Apply(s, Freed(f)))
  {
    var t := Apply(s, Freed(f));
    forall id, gen: nat
      ensures OnRun(t.fetches, id, gen) <==> OnRun(s.fetches, id, gen) && (id, gen) != (f.id, f.gen)
    {
      FreedCounts(s.fetches, f, id, gen);
    }
    assert forall g | g in t.fetches :: g in s.fetches && t.fetches[g] == s.fetches[g];
  }

  lemma FreedCounts(fetches: multiset<Fetch>, f: Fetch, id: string, gen: nat)
    requires f in fetches && f.byRun && Single(fetches)
    ensures OnRun(fetches - multiset{f}, id, gen) <==> OnRun(fetches, id, gen) && (id, gen) != (f.id, f.gen)
  {
    assert forall g | g != f :: g in fetches - multiset{f} <==> g in fetches;
    assert f !in fetches - multiset{f};
  }

  lemma AddKeeps(s: System, id: string, source: int)
    requires Inv(s)
    ensures Inv(Apply(s, Add(id, source)))
  {
    assert !OnRun(s.fetches, id, s.reg.lastGen + 1);
  }

  lemma RemoveKeeps(s: System, id: string)
    requires Inv(s)
    ensures Inv(Apply(s, Remove(id)))
  {
    var t := Apply(s, Remove(id));
    assert forall k | k in t.reg.sources :: k in s.reg.sources && t.reg.sources[k] == s.reg.sources[k];
  }

  /** A step that starts, ends and replaces nothing leaves every polling slot as it was. */
  ghost predicate SameSlots(s: System, t: System) {
    && t.fetches == s.fetches && t.reg.lastGen == s.reg.lastGen && s.reg.entries.Keys <= t.reg.entries.Keys
    && t.reg.sources.Keys == s.reg.sources.Keys
    && forall id | id in s.reg.sources ::
         t.reg.sources[id].gen == s.reg.sources[id].gen && t.reg.sources[id].inFlight == s.reg.sources[id].inFlight
  }

  lemma SameSlotsKeep(s: System, t: System)
    requires Inv(s) && SameSlots(s, t)
    ensures Inv(t)
  {
  }

  ghost predicate Quiet(step: Step) {
    && !step.Add? && !step.Remove? && !step.PollDue? && !step.RefreshAll?
    && !step.Began? && !step.Answered? && !step.Freed?
  }

  lemma QuietKeepsSlots(s: System, step: Step)
    requires Enabled(s, step) && Quiet(step)
    ensures SameSlots(s, Apply(s, step))
  {
  }

  lemma StepKeeps(s: System, step: Step)
    requires Inv(s) && Enabled(s, step)
    ensures Inv(Apply(s, step))
  {
    match step
    case Remove(id) => RemoveKeeps(s, id);
    case Add(id, source) => AddKeeps(s, id, source);
    case PollDue => PollKeeps(s);
    case RefreshAll => RefreshKeeps(s);
    case Began(f) =>
      var g := f.(stage := Fetching(s.now));
      assert MovesTo(f, multiset{g});
      MovedKeeps(s, s.reg, f, multiset{g});
    case Answered(f, result) =>
      AnswerTouchesOneEntry(s.reg, f, result, f.stage.began, s.now);
      var to := if f.byRun then multiset{f.(stage := Recorded)} else multiset{};
      assert MovesTo(f, to);
      MovedKeeps(s, Apply(s, step).reg, f, to);
    case Freed(f) => FreeKeeps(s, f);
    case _ =>
      QuietKeepsSlots(s, step);
      SameSlotsKeep(s, Apply(s, step));
  }

  ghost predicate IsRun(run: seq<System>, steps: seq<Step>) {
    && |run| == |steps| + 1
    && run[0].reg.entries == map[] && run[0].reg.sources == map[] && run[0].fetches == multiset{}
    && forall k | 0 <= k < |steps| :: Enabled(run[k], steps[k]) && run[k + 1] == Apply(run[k], steps[k])
  }

  lemma {:induction false} InvInEveryRun(run: seq<System>, steps: seq<Step>, n: nat)
    requires IsRun(run, steps) && n < |run|
    ensures Inv(run[n])
  {
    if n > 0 {
      InvInEveryRun(run, steps, n - 1);
      StepKeeps(run[n - 1], steps[n - 1]);
    }
  }

  // ----- what a fetch may change --------------------------------------------------------------------

  /** Only adding a source brings a generation in, and a new one at that. */
  ghost predicate GensOnlyLeave(r: Reg, r': Reg) {
    && r'.lastGen == r.lastGen
    && forall id | id in r'.sources :: id in r.sources && r'.sources[id].gen == r.sources[id].gen
  }

  lemma FetchingKeepsGens(s: System, step: Step)
    requires Enabled(s, step) && !Quiet(step) && !step.Add?
    ensures GensOnlyLeave(s.reg, Apply(s, step).reg)
  {
    match step
    case Remove(id) => RemovingKeepsGens(s.reg, id);
    case PollDue => PollKeepsGens(s.reg, s.now);
    case RefreshAll => PostponingKeepsGens(s.reg, s.now);
    case Began(_) =>
    case Answered(f, result) => AnswerTouchesOneEntry(s.reg, f, result, f.stage.began, s.now);
    case Freed(f) => FreeingKeepsGens(s.reg, f);
  }

  lemma RemovingKeepsGens(r: Reg, id: string)
    ensures GensOnlyLeave(r, RemoveSource(r, id))
  {
  }

  lemma PostponingKeepsGens(r: Reg, now: int)
    ensures GensOnlyLeave(r, Postponed(r, now))
  {
  }

  lemma FreeingKeepsGens(r: Reg, f: Fetch)
    ensures GensOnlyLeave(r, Free(r, f))
  {
  }

  lemma NotCurrentStays(s: System, step: Step, id: string, gen: nat)
    requires Enabled(s, step) && !Current(s.reg, id, gen) && gen <= s.reg.lastGen
    ensures !Current(Apply(s, step).reg, id, gen) && gen <= Apply(s, step).reg.lastGen
  {
    if Quiet(step) {
      QuietKeepsSlots(s, step);
    } else if !step.Add? {
      FetchingKeepsGens(s, step);
    }
  }

  /** Once replaced or removed, a source is never current again. */
  lemma {:induction false} NeverCurrentAgain(run: seq<System>, steps: seq<Step>, i: nat, j: nat, id: string, gen: nat)
    requires IsRun(run, steps) && i <= j < |run|
    requires !Current(run[i].reg, id, gen) && gen <= run[i].reg.lastGen
    ensures !Current(run[j].reg, id, gen)
    decreases j - i
  {
    if i < j {
      NotCurrentStays(run[i], steps[i], id, gen);
      NeverCurrentAgain(run, steps, i + 1, j, id, gen);
    }
  }

  /** A fetch in flight when its source is replaced or removed never changes an entry. */
  lemma StaleFetchChangesNothing(run: seq<System>, steps: seq<Step>, i: nat, j: nat, f: Fetch)
    requires IsRun(run, steps) && i < j < |steps|
    requires f in run[i].fetches && (steps[i] == Remove(f.id) || (steps[i].Add? && steps[i].id == f.id))
    requires steps[j].Answered? && steps[j].f.(stage := f.stage) == f
    ensures run[j + 1].reg == run[j].reg
  {
    InvInEveryRun(run, steps, i);
    NeverCurrentAgain(run, steps, i + 1, j, f.id, f.gen);
  }

  /** The polling loop has at most one fetch in flight for each generation of each source, and
      for the current one it has one exactly while the source's slot is taken. */
  lemma OneFetchPerGeneration(run: seq<System>, steps: seq<Step>, n: nat, id: string, gen: nat)
    requires IsRun(run, steps) && n < |run|
    ensures forall f, g | f in run[n].fetches && g in run[n].fetches && OfRun(f, id, gen) && OfRun(g, id, gen) ::
      f == g && run[n].fetches[f] == 1
    ensures Current(run[n].reg, id, gen) ==>
      (run[n].reg.sources[id].inFlight <==> exists f :: f in run[n].fetches && OfRun(f, id, gen))
  {
    InvInEveryRun(run, steps, n);
  }

  /** A provider leaves the registry, and so its snapshots, only by being removed. */
  lemma {:induction false} LeavesOnlyByRemoval(run: seq<System>, steps: seq<Step>, i: nat, j: nat, id: string)
    requires IsRun(run, steps) && i <= j < |run|
    requires id in run[i].reg.entries && id !in run[j].reg.entries
    ensures exists k :: i <= k < j && steps[k] == Remove(id)
    decreases j - i
  {
    if steps[i] != Remove(id) {
      EntryStays(run[i], steps[i], id);
      LeavesOnlyByRemoval(run, steps, i + 1, j, id);
    }
  }

  lemma EntryStays(s: System, step: Step, id: string)
    requires Enabled(s, step) && step != Remove(id) && id in s.reg.entries
    ensures id in Apply(s, step).reg.entries
  {
    if Quiet(step) { QuietKeepsSlots(s, step); }
  }

  // ----- what survives while polls fail ----------------------------------------------------------------

  /** A step by which a provider's report or reservations may be given up: a report that
      arrives, a reservation given back, the provider's removal. */
  ghost predicate GivesUp(step: Step, id: string) {
    || step == Remove(id)
    || (step.Pushed? && step.id == id)
    || (step.Answered? && step.f.id == id && step.result.Some?)
    || (step.Released? && step.id == id)
  }

  /** The ledger stands for a log of open reservations: for each second from the largest cutoff on,
      those in its bucket and those carried are exactly the open ones of that second. */
  ghost predicate StandsFor(b: Book, open: multiset<u32>) {
    exists carried :: Tickets.Refines(b, open, carried)
  }

  /** Whatever log of reservations `b` stands for, `b'` stands for one with every one of them. */
  ghost predicate HoldsAllOf(b: Book, b': Book) {
    b'.cleared == b.cleared && forall open | StandsFor(b, open) :: StandsForMore(b', open)
  }

  ghost predicate StandsForMore(b: Book, open: multiset<u32>) {
    exists more: multiset<u32> :: open <= more && StandsFor(b, more)
  }

  /** The second entry has the first one's report, its age and each of its reservations, second by
      second, and perhaps more of them, though never more than were warm. */
  ghost predicate Retains(e: Entry, e': Entry) {
    && e'.report == e.report && e'.updatedAt == e.updatedAt && e'.everReported == e.everReported
    && e'.book.warm == e.book.warm && HoldsAllOf(e.book, e'.book)
    && e.book.out <= e'.book.out && (e.book.out <= e.book.warm ==> e'.book.out <= e'.book.warm)
  }

  lemma RetainsTransitively(d: Entry, e: Entry, f: Entry)
    requires Retains(d, e) && Retains(e, f)
    ensures Retains(d, f)
  {
    forall open | StandsFor(d.book, open) ensures StandsForMore(f.book, open) {
      assert StandsForMore(e.book, open);
      var more: multiset<u32> :| open <= more && StandsFor(e.book, more);
      assert StandsForMore(f.book, more);
      var most: multiset<u32> :| more <= most && StandsFor(f.book, most);
      assert open <= most;
    }
  }

  lemma SameBookHoldsAll(b: Book)
    ensures HoldsAllOf(b, b)
  {
    forall open | StandsFor(b, open) ensures StandsForMore(b, open) { assert open <= open; }
  }

  lemma ReservingHoldsAll(b: Book, sec: u32)
    requires |b.buckets| > 0
    ensures HoldsAllOf(b, Tickets.TryReserve(b, sec).0)
  {
    if b.out >= b.warm {
      SameBookHoldsAll(b);
    } else {
      var b' := Tickets.TryReserve(b, sec).0;
      forall open | StandsFor(b, open) ensures StandsForMore(b', open) {
        var carried :| Tickets.Refines(b, open, carried);
        Tickets.ReserveRefines(b, sec, open, carried);
        assert StandsFor(b', open + multiset{sec}) && open <= open + multiset{sec};
      }
    }
  }

  /** Everything but a reservation leaves the entry's report and ledger as they are. */
  ghost predicate SameBook(e: Entry, e': Entry) {
    && e'.report == e.report && e'.updatedAt == e.updatedAt && e'.everReported == e.everReported && e'.book == e.book
  }

  lemma SourceStepKeepsBook(s: System, step: Step, id: string)
    requires Enabled(s, step) && id in s.reg.entries && !GivesUp(step, id)
    requires (!Quiet(step) && !step.Answered?) || step.Interval? || step.RunStarts? || step.Tick?
    ensures id in Apply(s, step).reg.entries && SameBook(s.reg.entries[id], Apply(s, step).reg.entries[id])
  {
    if step.Add? || step.Remove? { SourceComesOrGoes(s, step, id); }
  }

  lemma SourceComesOrGoes(s: System, step: Step, id: string)
    requires Enabled(s, step) && id in s.reg.entries && step != Remove(id) && (step.Add? || step.Remove?)
    ensures id in Apply(s, step).reg.entries && Apply(s, step).reg.entries[id] == s.reg.entries[id]
  {
  }

  lemma EntryStepKeepsBook(s: System, step: Step, id: string)
    requires Enabled(s, step) && id in s.reg.entries && !GivesUp(step, id)
    requires step.Configure? || step.Pushed? || step.Released? || step.ColdPlaced?
    ensures id in Apply(s, step).reg.entries && SameBook(s.reg.entries[id], Apply(s, step).reg.entries[id])
  {
  }

  lemma AnswerKeepsBook(s: System, step: Step, id: string)
    requires Enabled(s, step) && id in s.reg.entries && !GivesUp(step, id) && step.Answered?
    ensures id in Apply(s, step).reg.entries && SameBook(s.reg.entries[id], Apply(s, step).reg.entries[id])
  {
  }

  lemma ReserveRetains(r: Reg, id: string, of: string, now: int)
    requires id in r.entries
    ensures id in Reserve(r, of, now).entries && Retains(r.entries[id], Reserve(r, of, now).entries[id])
  {
    SameBookHoldsAll(r.entries[id].book);
    if id == of && |r.entries[id].book.buckets| > 0 { ReservingHoldsAll(r.entries[id].book, Second(now)); }
  }

  lemma StepRetains(s: System, step: Step, id: string)
    requires Enabled(s, step) && id in s.reg.entries && !GivesUp(step, id)
    ensures id in Apply(s, step).reg.entries && Retains(s.reg.entries[id], Apply(s, step).reg.entries[id])
  {
    SameBookHoldsAll(s.reg.entries[id].book);
    if step.Reserved? {
      ReserveRetains(s.reg, id, step.id, s.now);
    } else if step.Answered? {
      AnswerKeepsBook(s, step, id);
    } else if step.Configure? || step.Pushed? || step.Released? || step.ColdPlaced? {
      EntryStepKeepsBook(s, step, id);
    } else {
      SourceStepKeepsBook(s, step, id);
    }
  }

  /** However many fetches fail, and whatever else goes on, a provider keeps its last report and
      every reservation until a report arrives, one is given back, or it is removed. */
  lemma {:induction false} FailuresLoseNothing(run: seq<System>, steps: seq<Step>, i: nat, j: nat, id: string)
    requires IsRun(run, steps) && i <= j < |run| && id in run[i].reg.entries
    requires forall k | i <= k < j :: !GivesUp(steps[k], id)
    ensures id in run[j].reg.entries && Retains(run[i].reg.entries[id], run[j].reg.entries[id])
    decreases j - i
  {
    SameBookHoldsAll(run[i].reg.entries[id].book);
    if i < j {
      StepRetains(run[i], steps[i], id);
      FailuresLoseNothing(run, steps, i + 1, j, id);
      RetainsTransitively(run[i].reg.entries[id], run[i + 1].reg.entries[id], run[j].reg.entries[id]);
    }
  }
}
