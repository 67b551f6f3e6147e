/** The in-memory provider that serves as the reference for what an adapter must do. */
module FakeProviders {
  import opened Text
  import opened FlightCache
  import opened ClaimProtocol

  /** A listed sandbox; version 0 stands for none. */
  datatype Owned = Owned(handle: Handle, version: nat)

  datatype Record = Record(owner: string, specHash: string, deleting: bool, sandbox: Owned)

  datatype Fault = FaultNone | FaultNoCapacity | FaultBusy | FaultUnavailable | FaultRejected | FaultDropAfterSend

  function OwnedKeys(records: map<string, Record>, owner: string): set<string> {
    set k | k in records && (owner == "" || records[k].owner == owner)
  }

  /** The sandboxes of some keys, in the order of the keys. */
  function Sandboxes(records: map<string, Record>, keys: seq<string>): (r: seq<Owned>)
    requires forall i | 0 <= i < |keys| :: keys[i] in records
  {
    seq(|keys|, i requires 0 <= i < |keys| => records[keys[i]].sandbox)
  }

  const DEFAULT_LIMIT := 500

  class Fake {
    const id: string
    const idOf: (string, string) -> string     // a sandbox's name, from its owner and key
    var records: map<string, Record>
    var byID: map<string, string>
    var versions: nat
    var fault: Fault

    ghost predicate Valid()
      reads this
    {
      forall k | k in records ::
        var h := records[k].sandbox.handle;
        h.provider == id && h.id in byID && byID[h.id] == k && 0 < records[k].sandbox.version <= versions
    }

    /** Where the key has a live sandbox: here, or nowhere. */
    ghost function Live(key: string): set<string>
      reads this
    {
      if key in records && !records[key].deleting then {id} else {}
    }

    constructor (id: string, idOf: (string, string) -> string)
      ensures Valid() && this.id == id && this.idOf == idOf && records == map[]
    {
      this.id, this.idOf, records, byID, versions, fault := id, idOf, map[], map[], 0, FaultNone;
    }

    function Replay(rec: Record, specHash: string): Reply {
      if rec.deleting then Failed(KeyBusy, 50_000_000)
      else if specHash != "" && rec.specHash != specHash then Failed(KeyConflict, 0)
      else Claimed(rec.sandbox.handle)
    }

    /** Keeps the contract of a claim, whatever fault is injected. */
    method Claim(key: string, owner: string, specHash: string, ttl: int, now: int, cancelled: bool) returns (r: Reply)
      requires Valid()
      requires forall k | k in records && k != key :: records[k].sandbox.handle.id != idOf(owner, key)
      modifies this
      ensures Valid() && Contract(old(Live(key)), Tried(id, r), Live(key))
      ensures forall k | k != key ::
        (k in records <==> k in old(records)) && (k in records ==> records[k] == old(records)[k])
      ensures key in old(records) ==>
        records == old(records) && (r.Claimed? ==> r.handle == records[key].sandbox.handle)
      ensures r.Claimed? ==> r.handle.provider == id && key in records && records[key].sandbox.handle == r.handle
    {
      if cancelled { return Failed(UnknownOutcome, 0); }
      var injected := fault;
      fault := FaultNone;
      match injected {
        case FaultNoCapacity => return Failed(NoCapacity, 0);
        case FaultBusy => return Failed(Busy, 100_000_000);
        case FaultUnavailable => return Failed(Unavailable, 0);
        case FaultRejected => return Failed(Rejected, 0);
        case _ =>
      }
      if key in records { return Replay(records[key], specHash); }
      versions := versions + 1;
      var h := Handle(id, idOf(owner, key), Some(now + ttl));
      records := records[key := Record(owner, specHash, false, Owned(h, versions))];
      byID := byID[h.id := key];
      if injected.FaultDropAfterSend? { return Failed(UnknownOutcome, 0); }
      return Claimed(h);
    }

    /** "Not found" is definitive, and a lookup changes nothing. */
    method Lookup(key: string, specHash: string, cancelled: bool) returns (r: Reply)
      requires Valid()
      ensures Contract(Live(key), Looked(id, r), Live(key))
      ensures !cancelled ==> (r.NotFound? <==> key !in records)
    {
      if cancelled { return Failed(UnknownOutcome, 0); }
      if key !in records { return NotFound; }
      return Replay(records[key], specHash);
    }

    /** Deletes the sandbox of that name, if it still has the version asked for. */
    method Release(name: string, version: nat) returns (r: Option<Kind>)
      requires Valid()
      modifies this`records, this`byID
      ensures Valid()
      ensures
        if name in old(byID) && old(byID)[name] in old(records) then
          var key := old(byID)[name];
          if version != 0 && old(records)[key].sandbox.version != version then
            r == Some(KeyConflict) && records == old(records)
          else r == None && records == old(records) - {key}
        else r == None && records == old(records)
    {
      if name !in byID { return None; }
      var key := byID[name];
      if key !in records {
        byID := byID - {name};
        return None;
      }
      if version != 0 && records[key].sandbox.version != version { return Some(KeyConflict); }
      records := records - {key};
      byID := byID - {name};
      return None;
    }

    /** One page of an owner's sandboxes, by key, from an offset; the next offset, or 0 for none. */
    method ListOwned(owner: string, start: nat, limit: int)
      returns (page: seq<Owned>, next: nat, ghost keys: seq<string>)
      ensures SortedKeys(keys, OwnedKeys(records, owner)) && |keys| == |OwnedKeys(records, owner)|
      ensures forall i | 0 <= i < |keys| :: keys[i] in records
      ensures
        var size := if limit <= 0 then DEFAULT_LIMIT else limit;
        if start >= |keys| then page == [] && next == 0
        else if start + size < |keys| then page == Sandboxes(records, keys)[start..start + size] && next == start + size
        else page == Sandboxes(records, keys)[start..] && next == 0
    {
      var sorted := SortKeys(OwnedKeys(records, owner));
      keys := sorted;
      assert forall i | 0 <= i < |keys| :: keys[i] in keys;
      if start >= |sorted| { return [], 0, keys; }
      var size := if limit <= 0 then DEFAULT_LIMIT else limit;
      var end := start + size;
      next := 0;
      if end < |sorted| { next := end; } else { end := |sorted|; }
      page := [];
      for i := start to end
        invariant page == Sandboxes(records, keys)[start..i]
      {
        page := page + [records[sorted[i]].sandbox];
      }
    }
  }
}
