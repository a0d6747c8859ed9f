// The diagnostic metadata writer: a capped, coalescing write-behind map in front of
// the key-value table. `pending` with `order` is the OrderedDict of unflushed rows,
// `overlay` what readers see before a flush.
module DbRuntime {
  import opened Common
  import opened OrderedDict

  type Key = string

  // The sequence number of the offer and its serialized payload.
  datatype Value = Value(number: nat, payload: string)

  const GLOBAL_NAMES := [
    "runtime_health", "scanner_performance", "clock_health", "clock_check_health", "quote_health",
    "scan_health", "operational_health", "storage_health", "stream_health"]

  const PREFIXES := ["supervisor:", "feed:", "depth_recovery:", "flow_warmup:", "liquidity:"]

  predicate Global(key: Key) {
    key in GLOBAL_NAMES
  }

  predicate Diagnostic(key: Key) {
    Global(key) || exists i :: 0 <= i < |PREFIXES| && PREFIXES[i] <= key
  }

  // The position of the first name that is not a global one, or the length.
  function LocalIndex(order: seq<Key>): (i: nat)
    ensures i <= |order| && (i < |order| ==> !Global(order[i]))
    ensures forall j :: 0 <= j < i ==> Global(order[j])
  {
    if order == [] || !Global(order[0]) then 0 else 1 + LocalIndex(order[1..])
  }

  // The row that gives way at capacity: the oldest local one, else the oldest of all.
  function Victim(order: seq<Key>): Key
    requires order != []
  {
    var i := LocalIndex(order);
    if i < |order| then order[i] else order[0]
  }

  /** The victim is the oldest row that is not global, or the oldest of all when every row is, and the others
      keep their order. */
  lemma VictimIsOldest(order: seq<Key>)
    requires order != []
    ensures exists i :: 0 <= i < |order| && Victim(order) == order[i] && RoomMade(order) == order[..i] + order[i + 1..]
                        && (if Global(order[i]) then i == 0 && forall k :: k in order ==> Global(k)
                            else forall j :: 0 <= j < i ==> Global(order[j]))
  {
    var i := LocalIndex(order);
    assert RoomMade(order) == Without(order, if i < |order| then i else 0);
  }

  // The order of the rows once the victim is gone.
  function RoomMade(order: seq<Key>): seq<Key>
    requires order != []
  {
    var i := LocalIndex(order);
    Without(order, if i < |order| then i else 0)
  }

  // The order of the rows once a key is queued: a known key keeps its place, and a new one goes
  // last, after the victim has made room at capacity.
  function Queue(order: seq<Key>, known: bool, capacity: nat, key: Key): seq<Key>
    requires capacity > 0
  {
    if known then order else (if |order| < capacity then order else RoomMade(order)) + [key]
  }

  datatype Offered = Queued | Dropped | Critical

  datatype Attempt = Stored | Busy | Failed

  // What Store.get returns: the overlay first, then the table.
  function Lookup(overlay: map<Key, Value>, db: map<Key, string>, key: Key): Option<string> {
    if key in overlay then Some(overlay[key].payload) else if key in db then Some(db[key]) else None
  }

  // No number exceeds the current one, and a pending row is newer than the stored one.
  ghost predicate Numbered(pending: map<Key, Value>, stored: map<Key, nat>, number: nat) {
    && (forall k :: k in pending ==> pending[k].number <= number)
    && (forall k :: k in stored ==> stored[k] <= number && (k in pending ==> stored[k] < pending[k].number))
  }

  // A reader sees the last payload offered for a key, unless that offer was lost.
  ghost predicate Visible(overlay: map<Key, Value>, db: map<Key, string>, last: map<Key, string>, lost: set<Key>) {
    forall k :: k in last && k !in lost ==> Lookup(overlay, db, k) == Some(last[k])
  }

  lemma PutKeeps(pending: map<Key, Value>, stored: map<Key, nat>, number: nat, db: map<Key, string>,
                 last: map<Key, string>, lost: set<Key>, key: Key, v: Value)
    requires Numbered(pending, stored, number) && Visible(pending, db, last, lost)
    requires v.number <= number && (key in stored ==> stored[key] < v.number)
    ensures Numbered(pending[key := v], stored, number)
    ensures Visible(pending[key := v], db, last[key := v.payload], lost - {key})
  {
    forall k | k in last[key := v.payload] && k !in lost - {key}
      ensures Lookup(pending[key := v], db, k) == Some(last[key := v.payload][k])
    {
      assert k != key ==> Lookup(pending[key := v], db, k) == Lookup(pending, db, k);
    }
  }

  lemma StoreKeeps(pending: map<Key, Value>, stored: map<Key, nat>, number: nat, db: map<Key, string>,
                   last: map<Key, string>, lost: set<Key>, key: Key)
    requires Numbered(pending, stored, number) && Visible(pending, db, last, lost) && key in pending
    ensures Numbered(pending - {key}, stored[key := pending[key].number], number)
    ensures Visible(pending - {key}, db[key := pending[key].payload], last, lost)
  {
    forall k | k in last && k !in lost
      ensures Lookup(pending - {key}, db[key := pending[key].payload], k) == Some(last[k])
    {
      assert Lookup(pending - {key}, db[key := pending[key].payload], k) == Lookup(pending, db, k);
    }
  }

  class MetadataWriter {
    const capacity: nat
    var pending: map<Key, Value>
    var order: seq<Key>
    var overlay: map<Key, Value>
    var number: nat
    var db: map<Key, string>

    // The number of the offer each stored row came from, the last payload offered for each
    // key, and the keys whose last offer was dropped or failed.
    ghost var stored: map<Key, nat>
    ghost var last: map<Key, string>
    ghost var lost: set<Key>

    constructor (capacity: nat)
      requires capacity > 0
      ensures Valid() && pending == map[] && db == map[] && this.capacity == capacity
    {
      this.capacity := capacity;
      pending, order, overlay, number, db := map[], [], map[], 0, map[];
      stored, last, lost := map[], map[], {};
    }

    function Read(key: Key): Option<string>
      reads this
    {
      Lookup(overlay, db, key)
    }

    ghost predicate Valid()
      reads this
    {
      && capacity > 0 && overlay == pending && Orders(order, pending) && |order| <= capacity
      && Numbered(pending, stored, number) && Visible(overlay, db, last, lost)
    }

    method FirstLocal() returns (i: nat)
      ensures i == LocalIndex(order)
    {
      i := 0;
      while i < |order| && Global(order[i])
        invariant i <= |order| && LocalIndex(order) == i + LocalIndex(order[i..])
      {
        assert order[i..][1..] == order[i + 1..];
        i := i + 1;
      }
    }

    // Drop one pending row and its overlay.
    method Evict(i: nat)
      requires Valid() && i < |order|
      modifies this`pending, this`order, this`overlay, this`lost
      ensures Valid() && order == Without(old(order), i)
      ensures pending == old(pending) - {old(order)[i]} && lost == old(lost) + {old(order)[i]}
    {
      var key := order[i];
      OrdersRemove(order, pending, i);
      pending, overlay := pending - {key}, overlay - {key};
      order := Without(order, i);
      lost := lost + {key};
    }

    /** offer: a critical key is refused, a known key is overwritten, and at capacity a local row
        gives way first. No global row is evicted unless only global rows are pending. */
    method Offer(key: Key, payload: string) returns (r: Offered)
      requires Valid()
      modifies this
      ensures Valid()
      ensures r == Critical <==> !Diagnostic(key)
      ensures r == Critical ==> pending == old(pending) && db == old(db)
      ensures r == Queued ==> Read(key) == Some(payload) && key !in lost
      ensures r == Queued ==>
                pending == (if key !in old(pending) && |old(order)| >= capacity
                            then old(pending) - {Victim(old(order))} else old(pending))
                           [key := Value(old(number) + 1, payload)]
      ensures r == Queued ==> order == Queue(old(order), key in old(pending), capacity, key)
      ensures r == Dropped ==> pending == old(pending) && !Global(key) && forall k :: k in pending ==> Global(k)
      ensures db == old(db) && stored == old(stored)
      ensures capacity >= |GLOBAL_NAMES| ==> forall k :: k in old(pending) && Global(k) ==> k in pending
    {
      if !Diagnostic(key) {
        return Critical;
      }
      var queued := Enqueue(key, payload);
      r := if queued then Queued else Dropped;
    }

    method Enqueue(key: Key, payload: string) returns (queued: bool)
      requires Valid()
      modifies this`number, this`pending, this`order, this`overlay, this`last, this`lost
      ensures Valid()
      ensures queued ==> Read(key) == Some(payload) && key !in lost
      ensures queued ==>
                pending == (if key !in old(pending) && |old(order)| >= capacity
                            then old(pending) - {Victim(old(order))} else old(pending))
                           [key := Value(old(number) + 1, payload)]
      ensures queued ==> order == Queue(old(order), key in old(pending), capacity, key)
      ensures !queued ==> pending == old(pending) && !Global(key) && forall k :: k in pending ==> Global(k)
      ensures capacity >= |GLOBAL_NAMES| ==> forall k :: k in old(pending) && Global(k) ==> k in pending
    {
      number := number + 1;
      if key in pending || |order| < capacity {
        Put(key, Value(number, payload));
        return true;
      }
      queued := Squeeze(key, payload);
    }

    // A new key at capacity.
    method Squeeze(key: Key, payload: string) returns (queued: bool)
      requires Valid() && key !in pending && |order| >= capacity && FreshNumber()
      modifies this`pending, this`order, this`overlay, this`last, this`lost
      ensures Valid()
      ensures queued ==> Read(key) == Some(payload) && key !in lost
      ensures queued ==> pending == (old(pending) - {Victim(old(order))})[key := Value(number, payload)]
      ensures queued ==> order == RoomMade(old(order)) + [key]
      ensures !queued ==> pending == old(pending) && !Global(key) && forall k :: k in pending ==> Global(k)
      ensures capacity >= |GLOBAL_NAMES| ==> forall k :: k in old(pending) && Global(k) ==> k in pending
    {
      var i := FirstLocal();
      if i == |order| && !Global(key) {
        Forget(key, payload);
        return false;
      }
      MakeRoom(key, i);
      Put(key, Value(number, payload));
      queued := true;
    }

    // The current number has not been used yet.
    ghost predicate FreshNumber()
      reads this
    {
      (forall k :: k in pending ==> pending[k].number < number) && (forall k :: k in stored ==> stored[k] < number)
    }

    method MakeRoom(key: Key, i: nat)
      requires Valid() && key !in pending && |order| >= capacity
      requires i == LocalIndex(order) && (i == |order| ==> Global(key))
      modifies this`pending, this`order, this`overlay, this`lost
      ensures Valid() && |order| < capacity
      ensures old(order) != [] && order == RoomMade(old(order))
      ensures pending == old(pending) - {Victim(old(order))}
      ensures capacity >= |GLOBAL_NAMES| ==> !Global(Victim(old(order)))
    {
      if i == |order| {
        OnlyGlobalsPending(key);
      }
      Evict(if i < |order| then i else 0);
    }

    // Every pending row is global: a local offer is only remembered as lost.
    method Forget(key: Key, payload: string)
      requires Valid() && forall j :: 0 <= j < |order| ==> Global(order[j])
      modifies this`last, this`lost
      ensures Valid() && forall k :: k in pending ==> Global(k)
    {
      OrdersFacts(order, pending);
      last, lost := last[key := payload], lost + {key};
    }

    // With every pending row global and a new global key, fewer than nine rows are pending.
    lemma OnlyGlobalsPending(key: Key)
      requires Valid() && key !in pending && Global(key)
      requires forall j :: 0 <= j < |order| ==> Global(order[j])
      ensures |order| < |GLOBAL_NAMES|
    {
      OrdersFacts(order, pending);
      Pigeonhole(order + [key], GLOBAL_NAMES);
    }

    method Put(key: Key, v: Value)
      requires Valid() && v.number <= number
      requires key in pending || |order| < capacity
      requires key in pending ==> pending[key].number < v.number
      requires key in stored ==> stored[key] < v.number
      modifies this`pending, this`order, this`overlay, this`last, this`lost
      ensures Valid() && pending == old(pending)[key := v] && lost == old(lost) - {key}
      ensures order == if key in old(pending) then old(order) else old(order) + [key]
      ensures Read(key) == Some(v.payload)
    {
      OrdersPut(order, pending, key, v);
      PutKeeps(pending, stored, number, db, last, lost, key, v);
      if key !in pending {
        order := order + [key];
      }
      pending, overlay := pending[key := v], overlay[key := v];
      last, lost := last[key := v.payload], lost - {key};
    }

    // The oldest row reached the table.
    method StoreHead()
      requires Valid() && pending != map[]
      modifies this`pending, this`order, this`overlay, this`db, this`stored
      ensures Valid() && old(order) != [] && old(order)[0] in old(pending)
      ensures pending == old(pending) - {old(order)[0]} && order == old(order)[1..]
      ensures db == old(db)[old(order)[0] := old(pending)[old(order)[0]].payload]
      ensures stored == old(stored)[old(order)[0] := old(pending)[old(order)[0]].number]
      ensures old(order)[0] in old(stored) ==> old(stored)[old(order)[0]] < old(pending)[old(order)[0]].number
    {
      OrdersPop(order, pending);
      var key, v := order[0], pending[order[0]];
      StoreKeeps(pending, stored, number, db, last, lost, key);
      pending, order := pending - {key}, order[1..];
      db, overlay, stored := db[key := v.payload], overlay - {key}, stored[key := v.number];
    }

    // The table was busy: the popped row goes back, behind the others.
    method RequeueHead()
      requires Valid() && pending != map[]
      modifies this`pending, this`order
      ensures Valid() && pending == old(pending) && old(order) != [] && old(order)[0] in old(pending)
      ensures order == old(order)[1..] + [old(order)[0]]
    {
      OrdersPop(order, pending);
      var key, v := order[0], pending[order[0]];
      pending, order := pending - {key}, order[1..];
      pending, order := pending[key := v], order + [key];
      assert pending == old(pending);
    }

    // The write failed for another reason: the row is given up.
    method GiveUpHead()
      requires Valid() && pending != map[]
      modifies this`pending, this`order, this`overlay, this`lost
      ensures Valid() && old(order) != [] && old(order)[0] in old(pending)
      ensures pending == old(pending) - {old(order)[0]} && lost == old(lost) + {old(order)[0]}
      ensures order == old(order)[1..]
    {
      OrdersPop(order, pending);
      var key := order[0];
      pending, overlay, order := pending - {key}, overlay - {key}, order[1..];
      lost := lost + {key};
    }

    /** One pass of the pump over the oldest row: the number stored for a key only grows, a busy
        table keeps the row, and only a failed write gives it up. */
    method Flush(outcome: Attempt) returns (key: Key)
      requires Valid() && pending != map[]
      modifies this
      ensures Valid() && old(order) != [] && key == old(order)[0] && key in old(pending)
      ensures pending == if outcome.Busy? then old(pending) else old(pending) - {key}
      ensures order == if outcome.Busy? then old(order)[1..] + [key] else old(order)[1..]
      ensures db == if outcome.Stored? then old(db)[key := old(pending)[key].payload] else old(db)
      ensures stored == if outcome.Stored? then old(stored)[key := old(pending)[key].number] else old(stored)
      ensures outcome.Stored? && key in old(stored) ==> old(stored)[key] < stored[key]
      ensures lost == if outcome.Failed? then old(lost) + {key} else old(lost)
    {
      OrdersPop(order, pending);
      key := order[0];
      match outcome {
        case Stored => StoreHead();
        case Busy => RequeueHead();
        case Failed => GiveUpHead();
      }
    }
  }
}
