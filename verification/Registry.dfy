/** The capacity registry: what each provider last reported, and who is being polled.

    A polled source is a value under its provider's name; the goroutines of the fetches in
    flight are the system's, and `Registry` is the object whose methods run under its lock.
    Times are in nanoseconds.
 */
module Registries {
  import opened Text
  import opened Words
  import opened Books
  import opened Framework
  import Ledgers
  import Tickets
  import ColdStarts

  datatype Report = Report(warm: int, elastic: bool)

  datatype Config = Config(
    attributes: map<string, string>,
    templates: map<string, string>,
    cost: real,
    elasticWarmScore: Option<int>)

  const NO_CONFIG := Config(map[], map[], 0.0, None)

  /** `book` and `cold` are the provider's ledger. */
  datatype Entry = Entry(
    config: Config,
    report: Report,
    updatedAt: int,
    everReported: bool,
    failed: bool,
    book: Book,
    cold: seq<Word>)

  /** `gen` tells this source apart from every other the registry has held; `inFlight` is set
      while the polling loop fetches it. */
  datatype Polled = Polled(source: int, interval: int, nextDue: int, inFlight: bool, gen: nat)

  /** A fetch that has yet to begin, began at a time, or had its end recorded. */
  datatype Stage = Waiting | Fetching(began: int) | Recorded

  /** A fetch in flight, by the polling loop or by a refresh. */
  datatype Fetch = Fetch(id: string, gen: nat, byRun: bool, stage: Stage)

  datatype Reg = Reg(
    entries: map<string, Entry>,
    sources: map<string, Polled>,
    lastGen: nat,
    defaultInterval: int,
    options: Options)

  /** `ring` and `coldRing` are the sizes of the ledgers' rings. */
  datatype Options = Options(staleAfter: int, grace: int, coldWindow: u32, ring: nat, coldRing: nat)

  const DEFAULT_INTERVAL := 10_000_000_000
  const LONG_AGO := -0x8000_0000_0000_0000   // a source due at once; the zero time
  const MINUTE := 60_000_000_000

  function Second(t: int): u32 {
    Ledgers.Epoch(t / Ledgers.SECOND)
  }

  // ----- the locked sections as functions ---------------------------------------------------------

  function Unheard(o: Options): Entry {
    Entry(NO_CONFIG, Report(0, false), 0, false, false, EmptyBook(o.ring), EmptyBook(o.coldRing).buckets)
  }

  function EntryOf(r: Reg, id: string): Entry {
    if id in r.entries then r.entries[id] else Unheard(r.options)
  }

  function Known(r: Reg, id: string): Reg {
    r.(entries := r.entries[id := EntryOf(r, id)])
  }

  /** Records a report and drops the reservations made before `cutoff`: capacity first. */
  function SetReport(e: Entry, rep: Report, at: int, cutoff: int): Entry {
    e.(report := rep, updatedAt := at, everReported := true, failed := false,
       book := Tickets.ClearBefore(Tickets.SetWarm(e.book, rep.warm), Second(cutoff)))
  }

  function Retire(p: Polled): Polled {
    p.(inFlight := false)
  }

  function AddSource(r: Reg, id: string, source: int): Reg {
    var before := if id in r.sources then r.sources[id] else Polled(0, 0, 0, false, 0);
    var added := Retire(before).(source := source, nextDue := LONG_AGO, gen := r.lastGen + 1);
    Known(r.(sources := r.sources[id := added], lastGen := r.lastGen + 1), id)
  }

  function RemoveSource(r: Reg, id: string): Reg {
    r.(sources := r.sources - {id}, entries := r.entries - {id})
  }

  function SetConfig(r: Reg, id: string, cfg: Config): Reg {
    r.(entries := r.entries[id := EntryOf(r, id).(config := cfg)])
  }

  function IntervalOf(defaultInterval: int, p: Polled): int {
    if p.interval > 0 then p.interval else if defaultInterval > 0 then defaultInterval else DEFAULT_INTERVAL
  }

  function SetRefreshInterval(r: Reg, id: string, d: int, now: int): Reg {
    var interval := if d < 0 then 0 else d;
    if id !in r.sources || r.sources[id].interval == interval then r
    else
      var p := r.sources[id].(interval := interval);
      var next := now + IntervalOf(r.defaultInterval, p);
      r.(sources := r.sources[id := if next < p.nextDue then p.(nextDue := next) else p])
  }

  function Push(r: Reg, id: string, rep: Report, now: int): Reg {
    r.(entries := r.entries[id := SetReport(EntryOf(r, id), rep, now, now - r.options.grace)])
  }

  /** What a finished fetch may do: nothing, unless its source is still the current one. */
  function Answer(r: Reg, f: Fetch, result: Option<Report>, started: int, now: int): Reg {
    if !Current(r, f.id, f.gen) || f.id !in r.entries then r
    else if result.None? then r.(entries := r.entries[f.id := r.entries[f.id].(failed := true)])
    else r.(entries := r.entries[f.id := SetReport(r.entries[f.id], result.value, now, started - r.options.grace)])
  }

  /** Frees the polling slot of a fetch, unless it was retired meanwhile. */
  function Free(r: Reg, f: Fetch): Reg {
    if Current(r, f.id, f.gen) then r.(sources := r.sources[f.id := r.sources[f.id].(inFlight := false)]) else r
  }

  predicate Current(r: Reg, id: string, gen: nat) {
    id in r.sources && r.sources[id].gen == gen
  }

  function Postponed(r: Reg, now: int): Reg {
    r.(sources := map id | id in r.sources ::
         r.sources[id].(nextDue := now + IntervalOf(r.defaultInterval, r.sources[id])))
  }

  function RefreshJob(id: string, p: Polled): Fetch {
    Fetch(id, p.gen, false, Waiting)
  }

  function RefreshJobs(r: Reg): set<Fetch> {
    set id | id in r.sources :: RefreshJob(id, r.sources[id])
  }

  predicate Due(p: Polled, now: int) {
    !p.inFlight && now >= p.nextDue
  }

  function PollIfDue(defaultInterval: int, p: Polled, now: int): Polled {
    if Due(p, now) then p.(inFlight := true, nextDue := now + IntervalOf(defaultInterval, p)) else p
  }

  function Polling(r: Reg, now: int): Reg {
    r.(sources := map id | id in r.sources :: PollIfDue(r.defaultInterval, r.sources[id], now))
  }

  function PollJob(id: string, p: Polled): Fetch {
    Fetch(id, p.gen, true, Waiting)
  }

  function PollJobs(r: Reg, now: int): set<Fetch> {
    set id | id in r.sources && Due(r.sources[id], now) :: PollJob(id, r.sources[id])
  }

  function StartRun(r: Reg, interval: int): Reg {
    r.(defaultInterval := if interval <= 0 then DEFAULT_INTERVAL else interval,
       sources := map id | id in r.sources :: r.sources[id].(nextDue := LONG_AGO))
  }

  function Reserve(r: Reg, id: string, now: int): Reg {
    if id !in r.entries || |r.entries[id].book.buckets| == 0 then r
    else r.(entries := r.entries[id := r.entries[id].(book := Tickets.TryReserve(r.entries[id].book, Second(now)).0)])
  }

  function Release(r: Reg, id: string, sec: u32): Reg {
    if id !in r.entries || |r.entries[id].book.buckets| == 0 then r
    else r.(entries := r.entries[id := r.entries[id].(book := Tickets.ReleaseAt(r.entries[id].book, sec).0)])
  }

  function RecordCold(r: Reg, id: string, now: int): Reg {
    if id !in r.entries || |r.entries[id].cold| == 0 then r
    else r.(entries := r.entries[id := r.entries[id].(cold := ColdStarts.AddCold(r.entries[id].cold, Second(now)))])
  }

  /** What scheduling sees: declared price and attributes, observed capacity less what has been
      placed since. */
  function CandidateOf(id: string, e: Entry, o: Options, now: int): Candidate {
    Candidate(
      id,
      e.everReported && now - e.updatedAt <= o.staleAfter,
      Available(e.book),
      e.report.elastic,
      if e.config.elasticWarmScore.None? then 0
      else if e.config.elasticWarmScore.value <= 0 then -1
      else e.config.elasticWarmScore.value,
      ColdStarts.InFlight(e.cold, Second(now), o.coldWindow),
      e.config.attributes,
      e.config.templates,
      e.config.cost)
  }
}
