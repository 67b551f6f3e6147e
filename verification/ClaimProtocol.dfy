/** How one claim flight may talk to the providers.

    A flight is an automaton over its provider calls and the decisions between them. The
    imperative code of the binder is proved to make only the calls this automaton permits; the
    system of all flights is proved safe for every sequence of calls it permits.
 */
module ClaimProtocol {
  import opened Text
  import opened FlightCache

  /** Why a claim or lookup failed; the default is the one that never spills. */
  datatype Kind = UnknownOutcome | NoCapacity | Unavailable | Rejected | Busy | KeyConflict | KeyBusy

  datatype Reply =
    | Claimed(handle: Handle)
    | NotFound
    | Failed(kind: Kind, retryAfter: int)

  /** An unclassified error, "not found" from a claim included, has an unknown outcome. */
  function KindOf(r: Reply): Kind
    requires !r.Claimed?
  {
    if r.Failed? then r.kind else UnknownOutcome
  }

  /** Kinds by which a provider proves that a claim created nothing. */
  predicate Spills(k: Kind) {
    k.NoCapacity? || k.Busy? || k.Unavailable? || k.Rejected?
  }

  /** A lookup reply that says neither found, nor not found, nor ask later. */
  predicate Inconclusive(r: Reply) {
    r.Failed? && !r.kind.Busy? && !r.kind.KeyBusy? && !r.kind.KeyConflict?
  }

  datatype Event =
    | Decided(evicted: bool)                    // whether some unexpired claim was evicted early
    | Looked(provider: string, reply: Reply)
    | Tried(provider: string, reply: Reply)
    | Adopted(provider: string)                 // a probe found the key's sandbox
    | AllClear                                  // every probe said not found
    | PinnedTo(provider: string)                // exactly one probe was inconclusive, the rest clear
    | GaveUp                                    // an error is returned to the client

  datatype Pc =
    | Deciding(retry: bool)
    | ProbingPin(provider: string)              // a provider the caller named
    | Found(handle: Handle)                     // there, whether or not the caller may have it
    | Probing(asked: map<string, Reply>)
    | Placing(pin: Option<string>)
    | Recovering(provider: string, pin: Option<string>, maySpill: bool)
    | Confirmed(provider: string, pin: Option<string>, maySpill: bool)
    | Draining(provider: string)
    | Done(won: Option<Handle>)

  predicate Allows(pin: Option<string>, provider: string) {
    pin.None? || pin.value == provider
  }

  ghost predicate AllNotFound(asked: map<string, Reply>, except: set<string>) {
    forall p | p in asked && p !in except :: asked[p].NotFound?
  }

  /** What an attempt's reply leads to: from a fresh attempt, a recovery or a draining key. */
  function AfterTry(provider: string, r: Reply, pin: Option<string>, maySpill: bool): Pc {
    if r.Claimed? then Done(Some(r.handle))
    else
      var k := KindOf(r);
      if Spills(k) then if maySpill then Placing(pin) else Done(None)
      else if k.KeyConflict? then Done(None)
      else if k.KeyBusy? then Draining(provider)
      else Recovering(provider, pin, maySpill)
  }

  ghost function Advance(targets: set<string>, pc: Pc, ev: Event): Option<Pc> {
    match (pc, ev)
    case (Deciding(retry), Decided(evicted)) =>
      Some(if retry || evicted then Probing(map[]) else Placing(None))
    case (ProbingPin(p), Looked(q, r)) =>
      if p != q || q !in targets then None
      else if r.Claimed? then Some(Found(r.handle))
      else if r.NotFound? then Some(Placing(Some(p)))
      else Some(Done(None))
    case (Found(h), Adopted(p)) => Some(Done(Some(h)))
    case (Probing(asked), Looked(p, r)) =>
      if p in targets && p !in asked then Some(Probing(asked[p := r])) else None
    case (Probing(asked), Adopted(p)) =>
      if asked.Keys == targets && p in asked && asked[p].Claimed? then Some(Done(Some(asked[p].handle))) else None
    case (Probing(asked), AllClear) =>
      if asked.Keys == targets && AllNotFound(asked, {}) then Some(Placing(None)) else None
    case (Probing(asked), PinnedTo(p)) =>
      if asked.Keys == targets && p in asked && Inconclusive(asked[p]) && AllNotFound(asked, {p})
      then Some(Placing(Some(p))) else None
    case (Placing(pin), Tried(p, r)) =>
      if p in targets && Allows(pin, p) then Some(AfterTry(p, r, pin, true)) else None
    case (Recovering(p, pin, maySpill), Looked(q, r)) =>
      if p != q || q !in targets then None
      else if r.Claimed? then Some(Done(Some(r.handle)))
      else if r.NotFound? then Some(Confirmed(p, pin, maySpill))
      else if r.kind.KeyConflict? then Some(Done(None))
      else Some(pc)
    case (Confirmed(p, pin, maySpill), Tried(q, r)) =>
      if p == q && q in targets then Some(AfterTry(p, r, pin, maySpill)) else None
    case (Draining(p), Tried(q, r)) =>
      if p == q && q in targets then Some(AfterTry(p, r, Some(p), false)) else None
    case (Done(_), _) => None
    case (_, GaveUp) => Some(Done(None))
    case _ => None
  }

  /** A flight so far: its calls and decisions in order, and the places they led through. */
  datatype Log = Log(path: seq<Pc>, events: seq<Event>)

  /** The k-th call or decision of the log is one the automaton permits where it was made. */
  ghost predicate Follows(targets: set<string>, log: Log, k: nat)
    requires |log.path| == |log.events| + 1 && k < |log.events|
  {
    Advance(targets, log.path[k], log.events[k]) == Some(log.path[k + 1])
  }

  /** Every call and decision of the log is one the automaton permits, from `start` to `pc`. */
  ghost predicate Permitted(targets: set<string>, start: Pc, log: Log, pc: Pc) {
    && |log.path| == |log.events| + 1 && log.path[0] == start && log.path[|log.events|] == pc
    && forall k | 0 <= k < |log.events| :: Follows(targets, log, k)
  }

  function Logged(log: Log, ev: Event, pc: Pc): Log {
    Log(log.path + [pc], log.events + [ev])
  }

  lemma LoggedIsPermitted(targets: set<string>, start: Pc, log: Log, pc: Pc, ev: Event)
    requires Permitted(targets, start, log, pc) && Advance(targets, pc, ev).Some?
    ensures
      var next := Advance(targets, pc, ev).value;
      Permitted(targets, start, Logged(log, ev, next), next)
  {
    var next := Advance(targets, pc, ev).value;
    var longer := Logged(log, ev, next);
    forall k | 0 <= k < |longer.events| ensures Follows(targets, longer, k) {
      if k < |log.events| { assert Follows(targets, log, k); }
    }
  }

  /** Where a claim on `p` may be sent from. */
  predicate MayTry(pc: Pc, p: string, pin: Option<string>, maySpill: bool) {
    || (pc == Placing(pin) && Allows(pin, p) && maySpill)
    || pc == Confirmed(p, pin, maySpill)
    || (pc == Draining(p) && pin == Some(p) && !maySpill)
  }

  /** What a lookup during recovery leads to. */
  function AfterRecheck(p: string, r: Reply, pin: Option<string>, maySpill: bool): Pc {
    if r.Claimed? then Done(Some(r.handle))
    else if r.NotFound? then Confirmed(p, pin, maySpill)
    else if r.kind.KeyConflict? then Done(None)
    else Recovering(p, pin, maySpill)
  }

  lemma TryAdvances(targets: set<string>, pc: Pc, p: string, r: Reply, pin: Option<string>, maySpill: bool)
    requires p in targets && MayTry(pc, p, pin, maySpill)
    ensures Advance(targets, pc, Tried(p, r)) == Some(AfterTry(p, r, pin, maySpill))
    ensures Advance(targets, pc, Tried(p, r)) == Some(
              match r
              case Claimed(h) => Done(Some(h))
              case NotFound => Recovering(p, pin, maySpill)
              case Failed(kind, _) =>
                match kind
                case UnknownOutcome => Recovering(p, pin, maySpill)
                case KeyConflict => Done(None)
                case KeyBusy => Draining(p)
                case _ => if maySpill then Placing(pin) else Done(None))
  {
  }

  // ----- when an attempt makes way for another provider --------------------------------------------

  /** A claim that the provider refused in one of the four ways that create nothing. */
  predicate RefusedOutright(ev: Event) {
    && ev.Tried? && ev.reply.Failed?
    && (ev.reply.kind == NoCapacity || ev.reply.kind == Busy || ev.reply.kind == Unavailable
        || ev.reply.kind == Rejected)
  }

  /** A claim that was told the key's previous sandbox is still being deleted. */
  predicate ToldDeleting(ev: Event) {
    ev.Tried? && ev.reply.Failed? && ev.reply.kind == KeyBusy
  }

  /** The calls of an attempt end with such a refusal, and none of them met the key in deletion. */
  ghost predicate CreatedNothing(events: seq<Event>) {
    && events != [] && RefusedOutright(events[|events| - 1])
    && forall k | 0 <= k < |events| :: !ToldDeleting(events[k])
  }

  /** The places of an attempt that may still make way for another, and of one that may not. */
  predicate MayMakeWay(pc: Pc, pin: Option<string>) {
    pc == Placing(pin) || (pc.Recovering? && pc.pin == pin && pc.maySpill)
    || (pc.Confirmed? && pc.pin == pin && pc.maySpill)
  }

  predicate HoldsOn(pc: Pc) {
    pc.Draining? || (pc.Recovering? && !pc.maySpill) || (pc.Confirmed? && !pc.maySpill) || pc.Done?
  }

  lemma WayAdvances(targets: set<string>, pc: Pc, ev: Event, pin: Option<string>)
    requires MayMakeWay(pc, pin) && Advance(targets, pc, ev).Some?
    ensures
      var next := Advance(targets, pc, ev).value;
      && (next == Placing(pin) <==> RefusedOutright(ev))
      && (next.Done? || if ToldDeleting(ev) then HoldsOn(next) else MayMakeWay(next, pin))
  {
  }

  lemma HoldsOnAdvances(targets: set<string>, pc: Pc, ev: Event)
    requires HoldsOn(pc) && Advance(targets, pc, ev).Some?
    ensures HoldsOn(Advance(targets, pc, ev).value)
  {
  }

  ghost predicate Told(log: Log, from: nat, n: nat) {
    exists k | from <= k < n && k < |log.events| :: ToldDeleting(log.events[k])
  }

  lemma {:induction false} AttemptStands(targets: set<string>, start: Pc, log: Log, pc: Pc, from: nat, n: nat,
                                         pin: Option<string>)
    requires Permitted(targets, start, log, pc) && from <= n <= |log.events| && log.path[from] == Placing(pin)
    ensures log.path[n].Done? || if Told(log, from, n) then HoldsOn(log.path[n]) else MayMakeWay(log.path[n], pin)
    ensures n > from ==> (log.path[n] == Placing(pin) <==> RefusedOutright(log.events[n - 1]) && !Told(log, from, n))
  {
    if n > from {
      AttemptStands(targets, start, log, pc, from, n - 1, pin);
      assert Follows(targets, log, n - 1);
      assert Told(log, from, n) <==> Told(log, from, n - 1) || ToldDeleting(log.events[n - 1]);
      if MayMakeWay(log.path[n - 1], pin) {
        WayAdvances(targets, log.path[n - 1], log.events[n - 1], pin);
      } else {
        HoldsOnAdvances(targets, log.path[n - 1], log.events[n - 1]);
      }
    }
  }

  /** A flight that placed a claim stands where it may place another exactly when every call since shows
      that nothing was created: the last was refused outright, and none met the key in deletion. */
  lemma MakesWayExactly(targets: set<string>, start: Pc, log: Log, pc: Pc, from: nat, pin: Option<string>)
    requires Permitted(targets, start, log, pc) && from < |log.events| && log.path[from] == Placing(pin)
    ensures pc == Placing(pin) <==> CreatedNothing(log.events[from..])
  {
    AttemptStands(targets, start, log, pc, from, |log.events|, pin);
    var since := log.events[from..];
    assert forall k | 0 <= k < |since| :: since[k] == log.events[from + k];
    if Told(log, from, |log.events|) {
      var k :| from <= k < |log.events| && ToldDeleting(log.events[k]);
      assert since[k - from] == log.events[k];
    }
  }

  // ----- the providers' contract -------------------------------------------------------------------

  /** What a call may do to the set of providers with a live sandbox for the flight's key.
      Claims are idempotent, a spilling kind creates nothing, "not found" is definitive, and
      whatever an attempt did is done when it ends. */
  ghost predicate Contract(live: set<string>, ev: Event, live': set<string>) {
    match ev
    case Looked(p, r) => live' == live && (r.NotFound? ==> p !in live) && (r.Claimed? ==> p in live)
    case Tried(p, r) =>
      if r.Claimed? then live' == live + {p}
      else if KindOf(r).UnknownOutcome? then live' == live || live' == live + {p}
      else live' == live
    case _ => live' == live
  }

  ghost predicate AtMostOne(live: set<string>) {
    forall p, q | p in live && q in live :: p == q
  }

  /** Where a flight's key may have a live sandbox, at each place of the flight. */
  ghost predicate Safe(pc: Pc, live: set<string>) {
    match pc
    case Deciding(_) => AtMostOne(live)
    case ProbingPin(p) => live <= {p}
    case Found(_) => AtMostOne(live)
    case Probing(asked) => AtMostOne(live) && forall p | p in asked && asked[p].NotFound? :: p !in live
    case Placing(pin) => if pin.None? then live == {} else live <= {pin.value}
    case Recovering(p, pin, _) => live <= {p} && Allows(pin, p)
    case Confirmed(p, pin, _) => live == {} && Allows(pin, p)
    case Draining(p) => live <= {p}
    case Done(_) => AtMostOne(live)
  }

  /** A sandbox disappearing never makes a place unsafe. */
  lemma SafeShrinks(pc: Pc, live: set<string>, fewer: set<string>)
    requires Safe(pc, live) && fewer <= live
    ensures Safe(pc, fewer)
  {
  }

  /** Every permitted call leaves at most one live sandbox: another provider is tried only once
      the one before proved that it created nothing. */
  lemma SafeAdvances(targets: set<string>, pc: Pc, ev: Event, live: set<string>, live': set<string>)
    requires Safe(pc, live) && live <= targets
    requires Advance(targets, pc, ev).Some? && Contract(live, ev, live')
    requires pc.Deciding? && ev.Decided? ==> pc.retry || ev.evicted || live == {}
    ensures Safe(Advance(targets, pc, ev).value, live')
    ensures AtMostOne(live') && live' <= targets
  {
  }

  /** The providers with a live sandbox for the key along a flight: `before[k]` when its k-th call
      is made, sandboxes having vanished meanwhile perhaps, and `live[k + 1]` when that call ends. */
  ghost predicate Unfolds(log: Log, live: seq<set<string>>, before: seq<set<string>>) {
    && |live| == |log.events| + 1 && |before| == |log.events|
    && forall k | 0 <= k < |log.events| :: before[k] <= live[k] && Contract(before[k], log.events[k], live[k + 1])
  }

  /** A flight that makes permitted calls only keeps its key to one live sandbox from beginning to
      end, if it begins where that is safe and a request that does not retry begins with none. */
  lemma {:induction false} PermittedFlightIsSafe(targets: set<string>, start: Pc, log: Log, pc: Pc,
                                                 live: seq<set<string>>, before: seq<set<string>>, n: nat)
    requires Permitted(targets, start, log, pc) && Unfolds(log, live, before) && n < |live|
    requires Safe(start, live[0]) && live[0] <= targets && AtMostOne(live[0])
    requires start.Deciding? && log.events != [] && log.events[0].Decided? ==>
      start.retry || log.events[0].evicted || live[0] == {}
    ensures Safe(log.path[n], live[n]) && live[n] <= targets && AtMostOne(live[n])
    ensures n > 0 ==> !log.path[n].Deciding?
  {
    if n > 0 {
      PermittedFlightIsSafe(targets, start, log, pc, live, before, n - 1);
      assert Follows(targets, log, n - 1);
      SafeShrinks(log.path[n - 1], live[n - 1], before[n - 1]);
      SafeAdvances(targets, log.path[n - 1], log.events[n - 1], before[n - 1], live[n]);
    }
  }

  /** Why a client must retry after an error: a claim whose outcome stayed unknown may have left a
      sandbox on `p`, and a fresh flight that does not look first may claim another on `q`. */
  lemma RetryIsNeeded(targets: set<string>, p: string, q: string, won: Handle)
    requires p in targets && q in targets && p != q
    ensures
      var lost, second := Tried(p, Failed(UnknownOutcome, 0)), Tried(q, Claimed(won));
      && Advance(targets, Deciding(false), Decided(false)) == Some(Placing(None))
      && Advance(targets, Placing(None), lost) == Some(Recovering(p, None, true)) && Contract({}, lost, {p})
      && Advance(targets, Recovering(p, None, true), GaveUp) == Some(Done(None))
      && Advance(targets, Placing(None), second) == Some(Done(Some(won))) && Contract({p}, second, {p, q})
      && !AtMostOne({p, q})
  {
    assert p in {p, q} && q in {p, q};
  }
}
