/** The registry's object: each method is one section under its lock. */
module PollingRegistry {
  import opened Text
  import opened Framework
  import opened Registries
  import R = Registries
  import Tickets

  function Sooner(wait: int, p: Polled, now: int): int {
    if p.nextDue - now < wait then p.nextDue - now else wait
  }

  /** `wait` reaches, and never runs past, the time the next of the sources falls due that were free
      in `before` and are not in `rest`, but for the minute it is bounded by. */
  ghost predicate Awaits(before: map<string, Polled>, rest: set<string>, sources: map<string, Polled>, now: int,
                         wait: int)
    requires before.Keys <= sources.Keys
  {
    && wait <= MINUTE
    && (forall id | Free(before, rest, id) :: now + wait <= sources[id].nextDue)
    && (wait == MINUTE || exists id :: Free(before, rest, id) && now + wait == sources[id].nextDue)
  }

  predicate Free(before: map<string, Polled>, rest: set<string>, id: string) {
    id in before && id !in rest && !before[id].inFlight
  }

  /** A pass over the sources of `r` that has yet to visit `rest`: what it left of them, whom it
      started to fetch and how long it would wait. */
  ghost predicate Visited(r: Reg, rest: set<string>, now: int, sources: map<string, Polled>, jobs: set<Fetch>,
                          wait: int) {
    && sources.Keys == r.sources.Keys
    && (forall id | id in r.sources ::
          sources[id] == if id in rest then r.sources[id] else PollIfDue(r.defaultInterval, r.sources[id], now))
    && (forall f :: f in jobs <==> Started(r, rest, now, f))
    && Awaits(r.sources, rest, sources, now, wait)
  }

  predicate Started(r: Reg, rest: set<string>, now: int, f: Fetch) {
    f.id in r.sources && f.id !in rest && Due(r.sources[f.id], now) && f == PollJob(f.id, r.sources[f.id])
  }

  lemma VisitedNone(r: Reg, now: int)
    ensures Visited(r, r.sources.Keys, now, r.sources, {}, MINUTE)
  {
  }

  lemma VisitedAll(r: Reg, now: int, sources: map<string, Polled>, jobs: set<Fetch>, wait: int)
    requires Visited(r, {}, now, sources, jobs, wait)
    ensures sources == Polling(r, now).sources && jobs == PollJobs(r, now)
  {
    forall f ensures f in jobs <==> f in PollJobs(r, now) {
      assert f in jobs <==> Started(r, {}, now, f);
    }
  }

  /** What visiting one source does to the sources, the fetches and the wait. */
  ghost predicate VisitsTo(defaultInterval: int, now: int, sources: map<string, Polled>, jobs: set<Fetch>, wait: int,
                           id: string, sources': map<string, Polled>, jobs': set<Fetch>, wait': int)
    requires id in sources
  {
    var p := sources[id];
    if p.inFlight then sources' == sources && jobs' == jobs && wait' == wait
    else
      var p' := PollIfDue(defaultInterval, p, now);
      && sources' == sources[id := p'] && wait' == Sooner(wait, p', now)
      && jobs' == jobs + if Due(p, now) then {PollJob(id, p)} else {}
  }

  /** Visiting one more source makes it one of the visited. */
  lemma VisitOne(r: Reg, rest: set<string>, now: int, sources: map<string, Polled>, jobs: set<Fetch>, wait: int,
                 id: string, sources': map<string, Polled>, jobs': set<Fetch>, wait': int)
    requires Visited(r, rest, now, sources, jobs, wait) && id in r.sources && id in rest
    requires VisitsTo(r.defaultInterval, now, sources, jobs, wait, id, sources', jobs', wait')
    ensures Visited(r, rest - {id}, now, sources', jobs', wait')
  {
    assert sources[id] == r.sources[id];
    forall f ensures f in jobs' <==> Started(r, rest - {id}, now, f) {
      assert f in jobs <==> Started(r, rest, now, f);
    }
    VisitWaits(r.sources, rest, sources, now, wait, id, sources', wait');
  }

  lemma VisitWaits(before: map<string, Polled>, rest: set<string>, sources: map<string, Polled>, now: int, wait: int,
                   id: string, sources': map<string, Polled>, wait': int)
    requires before.Keys <= sources.Keys && id in before && id in rest && Awaits(before, rest, sources, now, wait)
    requires before[id].inFlight ==> sources' == sources && wait' == wait
    requires !before[id].inFlight ==>
      && sources'.Keys == sources.Keys && sources' == sources[id := sources'[id]]
      && wait' == Sooner(wait, sources'[id], now)
    ensures before.Keys <= sources'.Keys && Awaits(before, rest - {id}, sources', now, wait')
  {
    assert forall x | x != id :: Free(before, rest - {id}, x) <==> Free(before, rest, x);
    if wait' != MINUTE {
      if wait' == wait {
        var x :| Free(before, rest, x) && now + wait == sources[x].nextDue;
        assert Free(before, rest - {id}, x) && now + wait' == sources'[x].nextDue;
      } else {
        assert Free(before, rest - {id}, id) && now + wait' == sources'[id].nextDue;
      }
    }
  }

  ghost predicate Lists(cs: seq<Candidate>, id: string) {
    exists i :: 0 <= i < |cs| && cs[i].provider == id
  }

  /** Candidates named after sorted keys come in order, each key once. */
  lemma ListsEach(cs: seq<Candidate>, ids: seq<string>, keys: set<string>)
    requires SortedKeys(ids, keys) && |cs| == |ids| && forall i | 0 <= i < |ids| :: cs[i].provider == ids[i]
    ensures Framework.DistinctNames(cs)
    ensures forall i, j | 0 <= i < j < |cs| :: Less(cs[i].provider, cs[j].provider)
    ensures forall id | id in keys :: Lists(cs, id)
  {
    forall i, j | 0 <= i < j < |cs| ensures cs[i].provider != cs[j].provider {
      LessIrreflexive(ids[i]);
    }
    forall id | id in keys ensures Lists(cs, id) {
      assert id in ids;
      var i :| 0 <= i < |ids| && ids[i] == id;
      assert cs[i].provider == id;
    }
  }

  /** An entry takes a report that clears what was reserved before `cutoff`, and nothing else. */
  ghost predicate Takes(e: Entry, e': Entry, rep: R.Report, now: int, cutoff: int) {
    && e'.report == rep && e'.updatedAt == now && e'.everReported && !e'.failed
    && e'.config == e.config && e'.cold == e.cold && Tickets.Freed(e.book, e'.book, Second(cutoff))
    && e'.book.warm == if rep.warm <= 0 then 0 else if rep.warm > 0xFFFF_FFFF then 0xFFFF_FFFF else rep.warm
  }

  class Registry {
    var entries: map<string, Entry>
    var sources: map<string, Polled>
    var lastGen: nat
    var defaultInterval: int
    const options: Options

    ghost function Model(): Reg
      reads this
    {
      Reg(entries, sources, lastGen, defaultInterval, options)
    }

    constructor (options: Options)
      ensures Model() == Reg(map[], map[], 0, 0, options)
    {
      this.options := options;
      entries, sources, lastGen, defaultInterval := map[], map[], 0, 0;
    }

    /** Finds a provider's entry, creating it if needed. */
    method Ensure(id: string)
      modifies this`entries
      ensures Model() == Known(old(Model()), id) && id in entries
    {
      if id !in entries { entries := entries[id := Unheard(options)]; }
      assert entries == old(entries)[id := entries[id]];
    }

    method AddSource(id: string, source: int)
      modifies this`entries, this`sources, this`lastGen
      ensures Model() == R.AddSource(old(Model()), id, source)
    {
      var p := Polled(0, 0, 0, false, 0);
      if id in sources { p := sources[id]; }
      p := p.(inFlight := false);
      lastGen := lastGen + 1;
      p := p.(gen := lastGen, source := source, nextDue := LONG_AGO);
      sources := sources[id := p];
      Ensure(id);
    }

    method RemoveSource(id: string)
      modifies this`entries, this`sources
      ensures Model() == R.RemoveSource(old(Model()), id)
    {
      sources := sources - {id};
      entries := entries - {id};
    }

    method SetConfig(id: string, cfg: Config)
      modifies this`entries
      ensures Model() == R.SetConfig(old(Model()), id, cfg)
    {
      Ensure(id);
      entries := entries[id := entries[id].(config := cfg)];
    }

    method SetRefreshInterval(id: string, d: int, now: int)
      modifies this`sources
      ensures Model() == R.SetRefreshInterval(old(Model()), id, d, now)
    {
      var interval := if d < 0 then 0 else d;
      if id !in sources || sources[id].interval == interval { return; }
      var p := sources[id].(interval := interval);
      var next := now + IntervalOf(defaultInterval, p);
      if next < p.nextDue { p := p.(nextDue := next); }
      sources := sources[id := p];
    }

    method Report(id: string, rep: R.Report, now: int)
      modifies this`entries
      ensures Model() == Push(old(Model()), id, rep, now)
      ensures id in entries && Takes(EntryOf(old(Model()), id), entries[id], rep, now, now - options.grace)
    {
      Ensure(id);
      Tickets.ReportFrees(entries[id].book, rep.warm, Second(now - options.grace));
      entries := entries[id := SetReport(entries[id], rep, now, now - options.grace)];
    }

    /** The locked section at the end of a fetch. */
    method Record(f: Fetch, result: Option<R.Report>, started: int, now: int)
      modifies this`entries
      ensures Model() == Answer(old(Model()), f, result, started, now)
      ensures Current(old(Model()), f.id, f.gen) && f.id in old(entries) && result.Some? ==>
        f.id in entries && Takes(old(entries)[f.id], entries[f.id], result.value, now, started - options.grace)
    {
      if f.id !in sources || sources[f.id].gen != f.gen { return; }
      if f.id !in entries { return; }
      if result.None? {
        entries := entries[f.id := entries[f.id].(failed := true)];
        return;
      }
      Tickets.ReportFrees(entries[f.id].book, result.value.warm, Second(started - options.grace));
      entries := entries[f.id := SetReport(entries[f.id], result.value, now, started - options.grace)];
    }

    /** The locked section that ends one of the polling loop's fetches. */
    method Finish(f: Fetch)
      modifies this`sources
      ensures Model() == R.Free(old(Model()), f)
    {
      if f.id in sources && sources[f.id].gen == f.gen {
        sources := sources[f.id := sources[f.id].(inFlight := false)];
      }
    }

    function Later(p: Polled, now: int): Polled
      reads this`defaultInterval
    {
      p.(nextDue := now + IntervalOf(defaultInterval, p))
    }

    method Refresh(now: int) returns (jobs: set<Fetch>)
      modifies this`sources
      ensures Model() == Postponed(old(Model()), now) && jobs == RefreshJobs(old(Model()))
    {
      var before, rest := sources, sources.Keys;
      jobs := {};
      while rest != {}
        invariant rest <= before.Keys == sources.Keys
        invariant forall id | id in before ::
          sources[id] == if id in rest then before[id] else Later(before[id], now)
        invariant jobs == set id | id in before && id !in rest :: RefreshJob(id, before[id])
        decreases |rest|
      {
        var id :| id in rest;
        jobs := jobs + {RefreshJob(id, sources[id])};
        sources := sources[id := sources[id].(nextDue := now + IntervalOf(defaultInterval, sources[id]))];
        rest := rest - {id};
      }
    }

    method BeginRun(interval: int)
      modifies this`sources, this`defaultInterval
      ensures Model() == StartRun(old(Model()), interval)
    {
      defaultInterval := if interval <= 0 then DEFAULT_INTERVAL else interval;
      sources := map id | id in sources :: sources[id].(nextDue := LONG_AGO);
    }

    /** Starts a fetch of one source if it is due and not being fetched. */
    method Visit(id: string, now: int, jobs: set<Fetch>, wait: int) returns (jobs': set<Fetch>, wait': int)
      requires id in sources
      modifies this`sources
      ensures VisitsTo(defaultInterval, now, old(sources), jobs, wait, id, sources, jobs', wait')
    {
      var p := sources[id];
      jobs', wait' := jobs, wait;
      if p.inFlight { return; }
      if now >= p.nextDue {
        jobs' := jobs + {PollJob(id, p)};
        p := p.(inFlight := true, nextDue := now + IntervalOf(defaultInterval, p));
      }
      sources := sources[id := p];
      wait' := Sooner(wait, p, now);
    }

    /** Starts a fetch of every source that is due and not being fetched, and says how long to
        wait for the next of those that were free to fall due. */
    method PollDue(now: int) returns (wait: int, jobs: set<Fetch>)
      modifies this`sources
      ensures Model() == Polling(old(Model()), now) && jobs == PollJobs(old(Model()), now)
      ensures old(sources).Keys <= sources.Keys && Awaits(old(sources), {}, sources, now, wait)
    {
      ghost var before := Model();
      var rest := sources.Keys;
      wait, jobs := MINUTE, {};
      VisitedNone(before, now);
      while rest != {}
        invariant rest <= before.sources.Keys && Visited(before, rest, now, sources, jobs, wait)
        decreases |rest|
      {
        var id :| id in rest;
        ghost var was, had, waited := sources, jobs, wait;
        jobs, wait := Visit(id, now, jobs, wait);
        VisitOne(before, rest, now, was, had, waited, id, sources, jobs, wait);
        rest := rest - {id};
      }
      VisitedAll(before, now, sources, jobs, wait);
    }

    /** Every known provider once, by name, heard from lately or not: going quiet makes one
        unreachable and takes nothing else away. */
    method Snapshot(now: int) returns (cs: seq<Candidate>)
      ensures Framework.DistinctNames(cs) && |cs| == |entries|
      ensures forall i, j | 0 <= i < j < |cs| :: Less(cs[i].provider, cs[j].provider)
      ensures forall i | 0 <= i < |cs| ::
        cs[i].provider in entries && cs[i] == CandidateOf(cs[i].provider, entries[cs[i].provider], options, now)
      ensures forall id | id in entries :: Lists(cs, id)
    {
      var ids := SortKeys(entries.Keys);
      cs := [];
      for k := 0 to |ids|
        invariant |cs| == k && forall i | 0 <= i < k ::
          ids[i] in entries && cs[i] == CandidateOf(ids[i], entries[ids[i]], options, now)
      {
        assert ids[k] in ids;
        cs := cs + [CandidateOf(ids[k], entries[ids[k]], options, now)];
      }
      ListsEach(cs, ids, entries.Keys);
    }
  }
}
