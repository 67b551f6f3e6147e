/** What a claim flight finds outside itself: providers, clock, registry, rate limits, randomness.

    Everything the outside decides is read from a script, an arbitrary function of the number of
    questions asked so far, so a flight is proved correct against every possible outside. Ghost
    fields record what the flight did: its calls and decisions, its waits and rate tokens, the
    reservations it holds and the snapshots it read.
 */
module ClaimEnv {
  import opened Text
  import opened Framework
  import opened ClaimProtocol

  datatype Target = Target(enabled: bool, elastic: bool, templates: map<string, string>)

  /** The registry lists each provider once. */
  type Snapshot = cs: seq<Candidate> | DistinctNames(cs) ghost witness []

  datatype Script = Script(
    reply: nat -> Reply,
    elapsed: nat -> nat,
    coin: nat -> bool,
    amount: nat -> nat,
    snapshot: nat -> Snapshot,
    draw: nat -> ((nat, nat) -> nat))

  /** A warm reservation's ticket, or none. */
  type Ticket = Option<nat>

  function Holding(t: Ticket): set<nat> {
    if t.Some? then {t.value} else {}
  }

  /** How long is left before `deadline`: what every wait uses up. */
  function Left(deadline: int, now: int): nat {
    if now < deadline then deadline - now else 0
  }

  /** The rate limiters of a provider. */
  datatype Limiter = ClaimRate | LookupRate | RetryBudget

  /** What a flight waited for or drew on: a token taken at once, one promised after a delay, one
      refused; a sleep that was slept through, one that was cut short and one that was not begun for
      being too long; the news that the request was cancelled; a warm reservation, or none left. */
  datatype Use =
    | Took(limiter: Limiter)
    | Promised(limiter: Limiter, delay: nat)
    | Refused(limiter: Limiter)
    | Slept(from: int, until: int)
    | CutShort(from: int, until: int)
    | Forgone(from: int, until: int)
    | Cancelled
    | Reserved(ticket: nat)
    | NoneLeft

  /** The uses since `before`. */
  function Since(before: seq<Use>, after: seq<Use>): seq<Use> {
    if |before| <= |after| then after[|before|..] else []
  }

  /** Every wait begun since `before` ends before the deadline. */
  ghost predicate InTime(before: seq<Use>, after: seq<Use>, deadline: int) {
    && before <= after
    && forall k | |before| <= k < |after| && (after[k].Slept? || after[k].CutShort?) :: after[k].until < deadline
  }

  lemma InTimeOn(before: seq<Use>, between: seq<Use>, after: seq<Use>, deadline: int)
    requires InTime(before, between, deadline) && InTime(between, after, deadline)
    ensures InTime(before, after, deadline)
  {
    forall k | |before| <= k < |after| && (after[k].Slept? || after[k].CutShort?) ensures after[k].until < deadline {
      if k < |between| { assert after[k] == between[k]; }
    }
  }

  /** Why a flight may stop short of an answer: time is up, or the last thing it did was to be
      cancelled, to be refused a token, to be woken early, or to shrink from a wait past the deadline. */
  ghost predicate Halted(before: seq<Use>, after: seq<Use>, now: int, deadline: int) {
    now >= deadline || (|before| < |after| && Halts(after[|after| - 1], deadline))
  }

  predicate Halts(u: Use, deadline: int) {
    u.Refused? || u.CutShort? || u.Cancelled? || (u.Forgone? && u.until >= deadline)
  }

  /** Where the flight is, and how it got there. */
  datatype Flight = Flight(pc: Pc, log: Log)

  /** What a flight asks about a provider before it may claim there. */
  datatype Topic = AboutHealth | AboutRefusals | AboutCooldown | AboutRate | AboutSlot | AboutFreedSlot

  /** A question and the answer it got: the provider is usable, lately refused the template, asked to
      be left alone, has a rate token, has a slot free; some slot came free while waiting. */
  datatype Inquiry = Inquiry(provider: string, topic: Topic, yes: bool)

  /** The claims sent: the reservations held at each and at the last, the kind of the last that
      failed, and the providers that proved they created nothing. */
  datatype Calls = Calls(sent: seq<set<nat>>, held: set<nat>, answered: Kind, spilled: map<string, Kind>)

  function SpilledBy(spilled: map<string, Kind>, p: string, k: Kind): map<string, Kind> {
    if Spills(k) then spilled[p := k] else spilled
  }

  function Called(calls: Calls, held: set<nat>, p: string, r: Reply): Calls {
    var sent := calls.(sent := calls.sent + [held], held := held);
    if r.Claimed? then sent
    else sent.(answered := KindOf(r), spilled := SpilledBy(calls.spilled, p, KindOf(r)))
  }

  class Env {
    const script: Script
    const targets: map<string, Target>
    ghost const start: Pc
    var cursor: nat
    var now: int
    var nextTicket: nat
    ghost var held: set<nat>
    ghost var flight: Flight
    ghost var prelude: seq<Event>              // the decision and lookups before the first claim
    ghost var attempt: Log                     // the log when the last attempt began
    ghost var calls: Calls
    ghost var used: seq<Use>
    ghost var asked: seq<Inquiry>
    ghost var seen: seq<Snapshot>

    constructor (script: Script, targets: map<string, Target>, now: int, ghost pc: Pc)
      ensures Valid() && held == {} && seen == [] && used == [] && asked == []
      ensures flight.log.events == [] && calls.spilled == map[]
      ensures this.now == now && flight.pc == start == pc && this.targets == targets
    {
      this.script, this.targets, this.now, start := script, targets, now, pc;
      flight, attempt := Flight(pc, Log([pc], [])), Log([pc], []);
      calls := Calls([], {}, UnknownOutcome, map[]);
      cursor, nextTicket, held, seen, used, asked, prelude := 0, 0, {}, [], [], [], [];
    }

    /** Tickets are never handed out twice. */
    ghost predicate Issued()
      reads this`held, this`nextTicket
    {
      forall t <- held :: t < nextTicket
    }

    /** The flight has made permitted calls only, and its prelude first. */
    ghost predicate Faithful()
      reads this`flight, this`prelude, this`attempt
    {
      && Permitted(Capable(), start, flight.log, flight.pc)
      && prelude <= flight.log.events && attempt.events <= flight.log.events && attempt.path <= flight.log.path
    }

    ghost predicate Valid()
      reads this`held, this`nextTicket, this`flight, this`prelude, this`attempt
    {
      Issued() && Faithful()
    }

    /** The last call or decision of the flight. */
    ghost function Last(): Option<Event>
      reads this`flight
    {
      var events := flight.log.events;
      if events == [] then None else Some(events[|events| - 1])
    }

    /** The calls and decisions since the last attempt began. */
    ghost function Attempt(): seq<Event>
      reads this`flight, this`attempt
    {
      if |attempt.events| <= |flight.log.events| then flight.log.events[|attempt.events|..] else []
    }

    /** The claim-capable providers. */
    function Capable(): set<string> {
      set p | p in targets && targets[p].enabled
    }

    // ----- time and chance -------------------------------------------------------------------------

    method Now() returns (t: int)
      modifies this`cursor, this`now
      ensures t == now >= old(now)
    {
      now := now + script.elapsed(cursor);
      cursor := cursor + 1;
      t := now;
    }

    /** A yes or no the flight has no say in. */
    method Toss() returns (yes: bool)
      modifies this`cursor
    {
      yes := script.coin(cursor);
      cursor := cursor + 1;
    }

    /** Asks about a provider. */
    method Inquire(p: string, topic: Topic) returns (yes: bool)
      modifies this`cursor, this`asked
      ensures asked == old(asked) + [Inquiry(p, topic, yes)]
    {
      yes := script.coin(cursor);
      cursor := cursor + 1;
      asked := asked + [Inquiry(p, topic, yes)];
    }

    /** Whether the request has been cancelled. */
    method CheckCancelled() returns (yes: bool)
      modifies this`cursor, this`used
      ensures used == old(used) + if yes then [Cancelled] else []
    {
      yes := script.coin(cursor);
      cursor := cursor + 1;
      if yes { used := used + [Cancelled]; }
    }

    /** A wait that is not begun. */
    ghost method Forgo(wake: int)
      modifies this`used
      ensures used == old(used) + [Forgone(now, wake)]
    {
      used := used + [Forgone(now, wake)];
    }

    /** A random duration below `ceil`. */
    method Fraction(ceil: int) returns (d: int)
      requires ceil > 0
      modifies this`cursor
      ensures 0 <= d < ceil
    {
      d := script.amount(cursor) % ceil;
      cursor := cursor + 1;
    }

    /** Takes a rate token if there is one now. */
    method TakeToken(limiter: Limiter) returns (ok: bool)
      modifies this`cursor, this`used
      ensures used == old(used) + [if ok then Took(limiter) else Refused(limiter)]
    {
      ok := script.coin(cursor);
      cursor := cursor + 1;
      used := used + [if ok then Took(limiter) else Refused(limiter)];
    }

    /** Reserves a rate token: none ever, or one after a delay. */
    method ReserveToken(limiter: Limiter) returns (ok: bool, delay: nat)
      modifies this`cursor, this`used
      ensures used == old(used) + [if ok then Promised(limiter, delay) else Refused(limiter)]
    {
      ok, delay := script.coin(cursor), script.amount(cursor);
      cursor := cursor + 1;
      used := used + [if ok then Promised(limiter, delay) else Refused(limiter)];
    }

    /** Sleeps until `wake`, unless the request is cancelled first. */
    method SleepUntil(wake: int) returns (ok: bool)
      modifies this`cursor, this`now, this`used
      ensures now >= old(now) && (ok ==> now >= wake)
      ensures used == old(used) + [if ok then Slept(old(now), wake) else CutShort(old(now), wake)]
    {
      used := used + [if script.coin(cursor) then Slept(now, wake) else CutShort(now, wake)];
      ok := script.coin(cursor);
      if ok && now < wake { now := wake; }
      now := now + script.elapsed(cursor);
      cursor := cursor + 1;
    }

    method Draws() returns (f: (nat, nat) -> nat)
      modifies this`cursor
    {
      f := script.draw(cursor);
      cursor := cursor + 1;
    }

    // ----- the registry ------------------------------------------------------------------------------

    /** Reads the registry's snapshot, which takes some time. */
    method ReadSnapshot() returns (cs: Snapshot)
      modifies this`cursor, this`now, this`seen
      ensures now > old(now) && seen == old(seen) + [cs]
    {
      cs := script.snapshot(cursor);
      now := now + 1 + script.elapsed(cursor);
      cursor := cursor + 1;
      seen := seen + [cs];
    }

    method TryReserve() returns (t: Ticket)
      requires Valid()
      modifies this`cursor, this`nextTicket, this`held, this`used
      ensures Valid() && held == old(held) + Holding(t)
      ensures t.Some? ==> t.value !in old(held)
      ensures used == old(used) + [if t.Some? then Reserved(t.value) else NoneLeft]
    {
      var ok := script.coin(cursor);
      cursor := cursor + 1;
      if !ok {
        used := used + [NoneLeft];
        return None;
      }
      t := Some(nextTicket);
      used := used + [Reserved(nextTicket)];
      held := held + {nextTicket};
      nextTicket := nextTicket + 1;
    }

    /** Gives a reservation back; only a ticket that is still held can be given back. */
    method Release(t: Ticket)
      requires Valid() && Holding(t) <= held
      modifies this`held
      ensures Valid() && held == old(held) - Holding(t)
    {
      held := held - Holding(t);
    }

    // ----- the providers --------------------------------------------------------------------------------

    /** A provider stamps its own name on the handles it returns. */
    function Stamped(r: Reply, p: string): Reply {
      if r.Claimed? then r.(handle := r.handle.(provider := p)) else r
    }

    method Lookup(p: string, ghost next: Reply -> Pc) returns (r: Reply)
      requires Valid() && !flight.pc.Deciding?
      requires forall r: Reply :: Advance(Capable(), flight.pc, Looked(p, r)) == Some(next(r))
      modifies this`cursor, this`now, this`flight
      ensures Valid() && flight.pc == next(r) && now >= old(now)
      ensures flight.log.events == old(flight.log.events) + [Looked(p, r)] && Last() == Some(Looked(p, r))
      ensures r.Claimed? ==> r.handle.provider == p
    {
      r := Stamped(script.reply(cursor), p);
      now := now + script.elapsed(cursor);
      cursor := cursor + 1;
      Record(Looked(p, r));
    }

    method Claim(p: string, ghost pin: Option<string>, ghost maySpill: bool) returns (r: Reply)
      requires Valid() && p in Capable() && MayTry(flight.pc, p, pin, maySpill)
      modifies this`cursor, this`now, this`flight, this`calls
      ensures Valid() && flight.pc == AfterTry(p, r, pin, maySpill) && now >= old(now)
      ensures flight.log.events == old(flight.log.events) + [Tried(p, r)] && Last() == Some(Tried(p, r))
      ensures calls == Called(old(calls), held, p, r) && (r.Claimed? ==> r.handle.provider == p)
    {
      r := Stamped(script.reply(cursor), p);
      now := now + script.elapsed(cursor);
      cursor := cursor + 1;
      calls := Called(calls, held, p, r);
      TryAdvances(Capable(), flight.pc, p, r, pin, maySpill);
      Record(Tried(p, r));
    }

    /** A call or a later decision of the flight. */
    ghost method Record(ev: Event)
      requires Valid() && !flight.pc.Deciding? && Advance(Capable(), flight.pc, ev).Some?
      modifies this`flight
      ensures Valid() && Some(flight.pc) == Advance(Capable(), old(flight.pc), ev)
      ensures flight.log.events == old(flight.log.events) + [ev]
    {
      LoggedIsPermitted(Capable(), start, flight.log, flight.pc, ev);
      var pc := Advance(Capable(), flight.pc, ev).value;
      flight := flight.(pc := pc, log := Logged(flight.log, ev, pc));
    }

    /** The first decision: whether some claim evicted early has yet to expire. */
    ghost method Decide(evicted: bool)
      requires Valid() && flight.pc.Deciding? && flight.log.events == []
      modifies this`flight
      ensures Valid() && Some(flight.pc) == Advance(Capable(), old(flight.pc), Decided(evicted))
      ensures flight.log.events == [Decided(evicted)]
    {
      LoggedIsPermitted(Capable(), start, flight.log, flight.pc, Decided(evicted));
      var pc := Advance(Capable(), flight.pc, Decided(evicted)).value;
      flight := Flight(pc, Logged(flight.log, Decided(evicted), pc));
    }

    /** The lookups are over. */
    ghost method ClosePrelude()
      requires Valid()
      modifies this`prelude
      ensures Valid() && prelude == flight.log.events
    {
      prelude := flight.log.events;
    }

    /** An attempt begins. */
    ghost method BeginAttempt()
      requires Valid()
      modifies this`attempt
      ensures Valid() && attempt == flight.log
    {
      attempt := flight.log;
    }

    /** An attempt that began where a claim may be placed is back there exactly when it created nothing. */
    lemma AttemptMakesWay(pin: Option<string>)
      requires Valid() && |attempt.path| == |attempt.events| + 1 && attempt.path[|attempt.events|] == Placing(pin)
      requires attempt.events < flight.log.events
      ensures flight.pc == Placing(pin) <==> CreatedNothing(Attempt())
    {
      MakesWayExactly(Capable(), start, flight.log, flight.pc, |attempt.events|, pin);
    }

    ghost method GiveUp()
      requires Valid() && !flight.pc.Done? && !flight.pc.Deciding?
      modifies this`flight
      ensures Valid() && flight.pc == Done(None) && flight.log.events == old(flight.log.events) + [GaveUp]
      ensures Last() == Some(GaveUp)
    {
      Record(GaveUp);
    }
  }
}
