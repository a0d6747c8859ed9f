// Renewable range leases shared by replay readers and storage maintenance. Any number
// of processes beat, leave and reap one table; each transaction is one step, and a
// process that stops simply takes no further step. One clock that never goes back.
module Leases {
  import opened Common

  const TTL := 180000
  const BEAT := 30000

  type Id = string

  datatype Row = Row(start: int, end: int, expires: int, exclusive: bool)

  // A RangeLease object: its end and mode are fixed, its start only advances.
  datatype Holder = Holder(start: int, end: int, exclusive: bool, lastBeat: int)

  datatype State = State(table: map<Id, Row>, archive: map<Id, Row>, holders: map<Id, Holder>, now: int)

  datatype Event =
    | Create(id: Id, start: int, end: int, exclusive: bool)
    | Beat(id: Id, to: Option<int>, force: bool)
    | Exit(id: Id)
    | Reap
    | Tick(ms: nat)

  // ---------------------------------------------------------------- one transaction

  predicate Overlap(aStart: int, aEnd: int, bStart: int, bEnd: int) {
    aStart <= bEnd && aEnd >= bStart
  }

  predicate LiveRow(r: Row, now: int) {
    r.expires > now
  }

  function Proposed(h: Holder, start: Option<int>): int {
    if start.Some? && start.value > h.start then start.value else h.start
  }

  predicate Skipped(h: Holder, force: bool, now: int) {
    !force && now - h.lastBeat < BEAT
  }

  // Another live overlapping row, when either side is exclusive.
  predicate Conflict(table: map<Id, Row>, id: Id, start: int, end: int, exclusive: bool, now: int) {
    exists k :: k in table && k != id && LiveRow(table[k], now)
             && Overlap(table[k].start, table[k].end, start, end) && (exclusive || table[k].exclusive)
  }

  // The heartbeat raises BlockingIOError and rolls back.
  predicate Denied(s: State, id: Id, start: Option<int>, force: bool) {
    id in s.holders && !Skipped(s.holders[id], force, s.now)
    && var h := s.holders[id]; Conflict(s.table, id, Proposed(h, start), h.end, h.exclusive, s.now)
  }

  function Renewed(h: Holder, start: Option<int>, now: int): Row {
    Row(Proposed(h, start), h.end, now + TTL, h.exclusive)
  }

  function Apply(s: State, e: Event): State {
    match e
    case Create(id, start, end, exclusive) =>
      if id in s.holders || id in s.table then s
      else s.(holders := s.holders[id := Holder(start, end, exclusive, 0)])
    case Beat(id, start, force) =>
      if id !in s.holders || Skipped(s.holders[id], force, s.now) || Denied(s, id, start, force) then s
      else
        var h := s.holders[id];
        s.(table := s.table[id := Renewed(h, start, s.now)],
           holders := s.holders[id := h.(start := Proposed(h, start), lastBeat := s.now)])
    case Exit(id) => s.(table := s.table - {id})
    case Reap =>
      var expired := set k | k in s.table && !LiveRow(s.table[k], s.now);
      s.(table := s.table - expired,
         archive := (map k | k in expired :: s.table[k]) + s.archive)
    case Tick(ms) => s.(now := s.now + ms)
  }

  function Run(s: State, events: seq<Event>): State
    decreases |events|
  {
    if events == [] then s else Run(Apply(s, events[0]), events[1..])
  }

  // ---------------------------------------------------------------- readers and writers

  /** A beat is refused exactly by another live row whose range meets the lease's, closed ends included, when one
      of the two is exclusive: shared leases never block each other. */
  lemma RefusedExactly(s: State, id: Id, force: bool)
    requires id in s.holders && (force || s.now - s.holders[id].lastBeat >= 30000)
    ensures var h := s.holders[id];
            Denied(s, id, None, force) <==>
              exists k :: k in s.table && k != id && s.now < s.table[k].expires
                          && h.start <= s.table[k].end && s.table[k].start <= h.end
                          && (h.exclusive || s.table[k].exclusive)
  {
  }

  lemma SharedNeverBlocks(s: State, id: Id, start: Option<int>, force: bool)
    requires id in s.holders && !s.holders[id].exclusive
    requires forall k :: k in s.table && k != id && s.now < s.table[k].expires ==> !s.table[k].exclusive
    ensures !Denied(s, id, start, force)
  {
  }

  // The row of a lease expires a lifetime after its last beat.
  predicate Stamped(s: State, id: Id) {
    id in s.holders && id in s.table && s.table[id].expires == s.holders[id].lastBeat + 180000
  }

  /** A lease that is beaten at least every 150 seconds never expires in between: after a beat that is not
      refused, skipped or not, its row lives on for longer than that. */
  lemma BeatKeepsAlive(s: State, id: Id, start: Option<int>, force: bool)
    requires Stamped(s, id) && !Denied(s, id, start, force)
    ensures var t := Apply(s, Beat(id, start, force)); Stamped(t, id) && t.table[id].expires > s.now + 150000
  {
  }

  // Two live overlapping leases are both shared.
  ghost predicate Compatible(s: State, a: Id, b: Id) {
    a in s.table && b in s.table && a != b && LiveRow(s.table[a], s.now) && LiveRow(s.table[b], s.now)
    && Overlap(s.table[a].start, s.table[a].end, s.table[b].start, s.table[b].end)
    ==> !s.table[a].exclusive && !s.table[b].exclusive
  }

  ghost predicate NoConflict(s: State) {
    forall a, b :: Compatible(s, a, b)
  }

  lemma StepKeepsNoConflict(s: State, e: Event)
    requires NoConflict(s)
    ensures NoConflict(Apply(s, e))
  {
    var t := Apply(s, e);
    forall a, b
      ensures Compatible(t, a, b)
    {
      assert Compatible(s, a, b);
      assert Compatible(s, b, a);
    }
  }

  /** In every reachable table, through acquisition, renewal with an advancing start, release,
      expiry, late renewal and reaping, two live overlapping leases are never in conflict. */
  lemma {:induction false} NeverInConflict(s: State, events: seq<Event>)
    requires NoConflict(s)
    ensures NoConflict(Run(s, events))
    decreases |events|
  {
    if events != [] {
      StepKeepsNoConflict(s, events[0]);
      NeverInConflict(Apply(s, events[0]), events[1..]);
    }
  }

  /** Reaping keeps every live row and archives every expired one it removes. */
  lemma ReapKeepsLive(s: State, id: Id)
    requires id in s.table
    ensures var t := Apply(s, Reap);
            && (LiveRow(s.table[id], s.now) ==> id in t.table && t.table[id] == s.table[id])
            && (!LiveRow(s.table[id], s.now) ==> id !in t.table && id in t.archive)
  {
  }

  // ---------------------------------------------------------------- packing

  // No step of these events is taken with this lease object.
  predicate Untouched(events: seq<Event>, id: Id) {
    forall k :: 0 <= k < |events| ==>
      !(events[k].Beat? && events[k].id == id) && !(events[k].Exit? && events[k].id == id)
  }

  // While nobody beats or leaves it, a lease object is unchanged, and its row stays until it expires.
  lemma {:induction false} LeaseSurvives(s: State, events: seq<Event>, id: Id)
    requires id in s.holders && Untouched(events, id)
    ensures s.now <= Run(s, events).now
    ensures id in Run(s, events).holders && Run(s, events).holders[id] == s.holders[id]
    ensures id in s.table && LiveRow(s.table[id], Run(s, events).now) ==>
              id in Run(s, events).table && Run(s, events).table[id] == s.table[id]
    decreases |events|
  {
    if events != [] {
      LeaseSurvives(Apply(s, events[0]), events[1..], id);
    }
  }

  // A beat that is neither skipped nor denied leaves the lease's row live for TTL more.
  lemma BeatRenews(s: State, id: Id, force: bool)
    requires id in s.holders && !Skipped(s.holders[id], force, s.now) && !Denied(s, id, None, force)
    ensures var t, h := Apply(s, Beat(id, None, force)), s.holders[id];
            && id in t.table && t.table[id] == Row(h.start, h.end, s.now + TTL, h.exclusive)
            && id in t.holders && t.holders[id] == h.(lastBeat := s.now) && t.now == s.now
            && forall k :: k != id ==> (k in t.table <==> k in s.table) && (k in s.table ==> t.table[k] == s.table[k])
  {
  }

  // A live overlapping row denies the beat of an exclusive lease.
  lemma LiveRowDenies(s: State, id: Id, other: Id, force: bool)
    requires id in s.holders && s.holders[id].exclusive && !Skipped(s.holders[id], force, s.now)
    requires other in s.table && other != id && LiveRow(s.table[other], s.now)
    requires Overlap(s.table[other].start, s.table[other].end, s.holders[id].start, s.holders[id].end)
    ensures Denied(s, id, None, force)
  {
  }

  // ---------------------------------------------------------------- the calls of one pack

  // One beat of the packing process, after what other processes did since its previous one.
  datatype Call = Call(others: seq<Event>, id: Id, force: bool)

  function Before(s: State, calls: seq<Call>, k: nat): State
    requires k < |calls|
    decreases k, 1
  {
    Run(After(s, calls, k), calls[k].others)
  }

  function After(s: State, calls: seq<Call>, k: nat): State
    requires k <= |calls|
    decreases k, 0
  {
    if k == 0 then s else Apply(Before(s, calls, k - 1), Beat(calls[k - 1].id, None, calls[k - 1].force))
  }

  ghost predicate Holds(s: State, id: Id) {
    id in s.holders && s.holders[id].exclusive
  }

  // Every lease of the list is entered in order, and then beaten in that order, pass after pass. Other
  // processes do not touch these leases, and no call raises.
  ghost predicate Packing(s: State, ids: seq<Id>, calls: seq<Call>) {
    && (forall p :: 0 <= p < |ids| ==> Holds(s, ids[p]))
    && (forall p, q :: 0 <= p < q < |ids| ==> ids[p] != ids[q])
    && (forall k :: 0 <= k < |calls| ==> Calling(ids, calls, k))
    && (forall k :: 0 <= k < |calls| ==> !Denied(Before(s, calls, k), calls[k].id, None, calls[k].force))
  }

  ghost predicate Calling(ids: seq<Id>, calls: seq<Call>, k: nat)
    requires k < |calls|
  {
    && |ids| > 0 && calls[k].id == ids[k % |ids|] && (k < |ids| ==> calls[k].force)
    && forall p :: 0 <= p < |ids| ==> Untouched(calls[k].others, ids[p])
  }

  // Entering a lease and the pass before the originals go are forced beats.
  predicate Forced(n: nat, total: nat, k: nat) {
    k < n || k + n >= total
  }

  predicate LastPassForced(ids: seq<Id>, calls: seq<Call>) {
    forall k :: 0 <= k < |calls| && k + |ids| >= |calls| ==> calls[k].force
  }

  predicate Overlapping(s: State, i: Id, j: Id) {
    && i in s.holders && j in s.holders
    && Overlap(s.holders[i].start, s.holders[i].end, s.holders[j].start, s.holders[j].end)
  }

  // ---------------------------------------------------------------- positions of one lease

  lemma Multiple(n: nat, d: int)
    ensures d >= 1 ==> n * d >= n
    ensures d <= -1 ==> n * d + n <= 0
  {
    if d >= 1 {
      assert n * (d - 1) >= 0;
    } else if d <= -1 {
      assert n * (-1 - d) >= 0;
    }
  }

  lemma Unique(n: nat, m: nat, block: int, rest: nat)
    requires rest < n && m == n * block + rest
    ensures m % n == rest
  {
    var d := m / n - block;
    assert n * (m / n) + m % n == n * block + rest;
    assert n * d == rest - m % n;
    Multiple(n, d);
  }

  // e positions on, the residue moves by e, around the end of the list.
  lemma Onward(n: nat, k: nat, e: nat)
    requires n > 0 && e < n
    ensures (k + e) % n == if k % n + e < n then k % n + e else k % n + e - n
    ensures e > 0 ==> (k + e) % n != k % n
  {
    if k % n + e < n {
      Unique(n, k + e, k / n, k % n + e);
    } else {
      Unique(n, k + e, k / n + 1, k % n + e - n);
    }
  }

  lemma OneListBack(n: nat, m: nat)
    requires 0 < n <= m
    ensures (m - n) % n == m % n
  {
    Unique(n, m - n, m / n - 1, m % n);
  }

  // The call of the partner before position m, for the leases at p and q of the list.
  function Partner(n: nat, p: nat, q: nat, m: nat): int
    requires p < q < n
  {
    if m % n == q then m - (q - p) else m - (n - (q - p))
  }

  // Back within the block of m, and back into the block before it.
  lemma Back(n: nat, m: nat, e: nat)
    requires n > 0 && e <= n && e <= m
    ensures e <= m % n ==> (m - e) % n == m % n - e
    ensures e > m % n ==> (m - e) % n == m % n - e + n
  {
    if e <= m % n {
      Unique(n, m - e, m / n, m % n - e);
    } else {
      Unique(n, m - e, m / n - 1, m % n - e + n);
    }
  }

  lemma FirstBlock(n: nat, m: nat)
    requires n > 0
    ensures m < n ==> m % n == m
    ensures m % n <= m
  {
    if m < n {
      Unique(n, m, 0, m);
    }
  }

  lemma PartnerIs(n: nat, p: nat, q: nat, m: nat)
    requires p < q < n && (m % n == p || m % n == q) && m != p
    ensures 0 <= Partner(n, p, q, m) < m && m - Partner(n, p, q, m) < n
    ensures Partner(n, p, q, m) % n == if m % n == q then p else q
    ensures m % n == p ==> m >= n
  {
    FirstBlock(n, m);
    Back(n, m, if m % n == q then q - p else n - (q - p));
  }

  // ---------------------------------------------------------------- one pair of a pack

  function Time(s: State, calls: seq<Call>, k: nat): int
    requires k < |calls|
  {
    Before(s, calls, k).now
  }

  // From after call k to before call m, a lease that is not called keeps its object, and its row lives on.
  lemma {:induction false} Between(s: State, ids: seq<Id>, calls: seq<Call>, x: Id, k: nat, m: nat)
    requires k <= m < |calls| && x in ids && x in After(s, calls, k).holders
    requires forall i :: 0 <= i < |calls| ==> Calling(ids, calls, i)
    requires forall i :: k <= i < m ==> calls[i].id != x
    ensures var t, u := After(s, calls, k), Before(s, calls, m);
            && t.now <= u.now && x in u.holders && u.holders[x] == t.holders[x]
            && (x in t.table && LiveRow(t.table[x], u.now) ==> x in u.table && u.table[x] == t.table[x])
    decreases m - k
  {
    var p :| 0 <= p < |ids| && ids[p] == x;
    assert Calling(ids, calls, m);
    if k < m {
      Between(s, ids, calls, x, k, m - 1);
    }
    LeaseSurvives(After(s, calls, m), calls[m].others, x);
  }

  // The lease of call k was renewed by it.
  ghost predicate Renews(s: State, calls: seq<Call>, k: nat)
    requires k < |calls| && calls[k].id in s.holders
  {
    var id, t, h := calls[k].id, After(s, calls, k + 1), s.holders[calls[k].id];
    && id in t.table && t.table[id] == Row(h.start, h.end, Time(s, calls, k) + TTL, h.exclusive)
    && id in t.holders && t.holders[id] == h.(lastBeat := Time(s, calls, k)) && t.now == Time(s, calls, k)
  }

  // A call that is not skipped renews its lease, if the object is still as it was at the start.
  lemma CallRenews(s: State, ids: seq<Id>, calls: seq<Call>, k: nat, last: int)
    requires Packing(s, ids, calls) && k < |calls| && calls[k].id in s.holders
    requires var u, id := Before(s, calls, k), calls[k].id; id in u.holders && u.holders[id] == s.holders[id].(lastBeat := last)
    requires calls[k].force || Time(s, calls, k) - last >= BEAT
    ensures Renews(s, calls, k)
  {
    BeatRenews(Before(s, calls, k), calls[k].id, calls[k].force);
  }

  // An exclusive partner that overlaps waits for the row of call k to expire.
  lemma PartnerWaits(s: State, ids: seq<Id>, calls: seq<Call>, k: nat, m: nat, last: int)
    requires Packing(s, ids, calls) && k < m < |calls| && calls[k].id in ids && calls[m].id in s.holders
    requires calls[k].id in s.holders && calls[k].id != calls[m].id
    requires s.holders[calls[m].id].exclusive && Overlapping(s, calls[k].id, calls[m].id)
    requires Renews(s, calls, k) && forall i :: k < i < m ==> calls[i].id != calls[k].id
    requires var u, id := Before(s, calls, m), calls[m].id; id in u.holders && u.holders[id] == s.holders[id].(lastBeat := last)
    requires calls[m].force || Time(s, calls, m) - last >= BEAT
    ensures Time(s, calls, m) >= Time(s, calls, k) + TTL
  {
    Between(s, ids, calls, calls[k].id, k + 1, m);
    var u := Before(s, calls, m);
    if LiveRow(After(s, calls, k + 1).table[calls[k].id], u.now) {
      LiveRowDenies(u, calls[m].id, calls[k].id, calls[m].force);
    }
  }

  ghost predicate Listed(ids: seq<Id>, calls: seq<Call>) {
    && (forall p, q :: 0 <= p < q < |ids| ==> ids[p] != ids[q])
    && (forall k :: 0 <= k < |calls| ==> Calling(ids, calls, k))
  }

  // A lease is called once in any stretch as long as the list.
  lemma NotAgain(ids: seq<Id>, calls: seq<Call>, k: nat, m: nat)
    requires Listed(ids, calls) && m < |calls| && m - |ids| < k
    ensures forall i :: k < i <= m ==> calls[i].id != calls[k].id
  {
    forall i | k < i <= m ensures calls[i].id != calls[k].id {
      assert Calling(ids, calls, i) && Calling(ids, calls, k);
      Onward(|ids|, k, i - k);
    }
  }

  // And a whole list later it is called again.
  lemma Again(ids: seq<Id>, calls: seq<Call>, m: nat)
    requires Listed(ids, calls) && |ids| <= m < |calls|
    ensures calls[m - |ids|].id == calls[m].id
  {
    assert Calling(ids, calls, m) && Calling(ids, calls, m - |ids|);
    OneListBack(|ids|, m);
  }

  lemma CallerHolds(s: State, ids: seq<Id>, calls: seq<Call>, m: nat)
    requires Packing(s, ids, calls) && m < |calls|
    ensures ids != [] && calls[m].id in ids && Holds(s, calls[m].id)
  {
    assert Calling(ids, calls, m);
    assert Holds(s, ids[m % |ids|]);
  }

  // Where the lease of call m stands before that call: as at the start, or as its previous call left it.
  lemma Since(s: State, ids: seq<Id>, calls: seq<Call>, m: nat) returns (last: int)
    requires Packing(s, ids, calls) && m < |calls| && calls[m].id in ids && Holds(s, calls[m].id)
    requires m >= |ids| ==> calls[m - |ids|].id in s.holders && Renews(s, calls, m - |ids|)
    ensures m >= |ids| ==> last == Time(s, calls, m - |ids|)
    ensures var u, id := Before(s, calls, m), calls[m].id; id in u.holders && u.holders[id] == s.holders[id].(lastBeat := last)
  {
    var id := calls[m].id;
    last := s.holders[id].lastBeat;
    if m < |ids| {
      forall i | 0 <= i < m ensures calls[i].id != id {
        NotAgain(ids, calls, i, m);
      }
      Between(s, ids, calls, id, 0, m);
    } else {
      last := Time(s, calls, m - |ids|);
      Again(ids, calls, m);
      if m > 0 && |ids| > 1 {
        NotAgain(ids, calls, m - |ids|, m - 1);
      }
      Between(s, ids, calls, id, m - |ids| + 1, m);
    }
  }

  /** However many passes a pack makes, whatever other processes do: two overlapping leases of its list
      can only go on together while each call of the one comes a whole TTL after the last of the other. */
  lemma {:induction false} PairAlternates(s: State, ids: seq<Id>, calls: seq<Call>, p: nat, q: nat, m: nat)
    requires Packing(s, ids, calls) && m < |calls| && p < q < |ids|
    requires m % |ids| == p || m % |ids| == q
    requires Overlapping(s, ids[p], ids[q])
    ensures calls[m].id in s.holders && Renews(s, calls, m)
    ensures m != p ==>
              && 0 <= Partner(|ids|, p, q, m) < m
              && Time(s, calls, m) >= Time(s, calls, Partner(|ids|, p, q, m)) + TTL
    decreases m
  {
    CallerHolds(s, ids, calls, m);
    if m >= |ids| {
      OneListBack(|ids|, m);
      PairAlternates(s, ids, calls, p, q, m - |ids|);
    }
    var last := Since(s, ids, calls, m);
    if m == p {
      assert calls[m].force by {
        assert Calling(ids, calls, m);
      }
    } else {
      PartnerIs(|ids|, p, q, m);
      var k := Partner(|ids|, p, q, m);
      PairAlternates(s, ids, calls, p, q, k);
      PairStep(s, ids, calls, p, q, m, k, last);
    }
    CallRenews(s, ids, calls, m, last);
  }

  lemma PairStep(s: State, ids: seq<Id>, calls: seq<Call>, p: nat, q: nat, m: nat, k: nat, last: int)
    requires Packing(s, ids, calls) && m < |calls| && p < q < |ids| && m != p
    requires m % |ids| == p || m % |ids| == q
    requires k < m && m - k < |ids| && k == Partner(|ids|, p, q, m) && k % |ids| == if m % |ids| == q then p else q
    requires Overlapping(s, ids[p], ids[q])
    requires calls[k].id in s.holders && Renews(s, calls, k)
    requires k != p ==> 0 <= Partner(|ids|, p, q, k) < k && Time(s, calls, k) >= Time(s, calls, Partner(|ids|, p, q, k)) + TTL
    requires m >= |ids| ==> last == Time(s, calls, m - |ids|)
    requires var u, id := Before(s, calls, m), calls[m].id;
             Holds(s, id) && id in u.holders && u.holders[id] == s.holders[id].(lastBeat := last)
    ensures Time(s, calls, m) >= Time(s, calls, k) + TTL
    ensures calls[m].force || Time(s, calls, m) - last >= BEAT
  {
    PairCalls(s, ids, calls, p, q, m, k);
    NotAgain(ids, calls, k, m);
    PairLull(s, ids, calls, p, q, m, k, last);
    PartnerWaits(s, ids, calls, k, m, last);
  }

  lemma PairLull(s: State, ids: seq<Id>, calls: seq<Call>, p: nat, q: nat, m: nat, k: nat, last: int)
    requires Packing(s, ids, calls) && k < m < |calls| && p < q < |ids| && m != p
    requires (m % |ids| == p || m % |ids| == q) && k == Partner(|ids|, p, q, m) && k % |ids| == if m % |ids| == q then p else q
    requires calls[k].id in ids && calls[k].id in s.holders && Renews(s, calls, k)
    requires forall i :: k < i <= m ==> calls[i].id != calls[k].id
    requires k != p ==> 0 <= Partner(|ids|, p, q, k) < k && Time(s, calls, k) >= Time(s, calls, Partner(|ids|, p, q, k)) + TTL
    requires m >= |ids| ==> last == Time(s, calls, m - |ids|)
    ensures calls[m].force || Time(s, calls, m) - last >= BEAT
  {
    if m < |ids| {
      assert Calling(ids, calls, m);
    } else {
      PairSpacing(|ids|, p, q, m, k);
      Between(s, ids, calls, calls[k].id, k + 1, m);
    }
  }

  // The partner's call, and the time since the lease's own one.
  lemma PairCalls(s: State, ids: seq<Id>, calls: seq<Call>, p: nat, q: nat, m: nat, k: nat)
    requires Packing(s, ids, calls) && k < m < |calls| && p < q < |ids|
    requires m % |ids| == p || m % |ids| == q
    requires k % |ids| == if m % |ids| == q then p else q
    ensures calls[m].id != calls[k].id && calls[k].id in ids && calls[m].id in ids
    ensures calls[m].id == if m % |ids| == q then ids[q] else ids[p]
    ensures calls[k].id == if m % |ids| == q then ids[p] else ids[q]
  {
    assert Calling(ids, calls, m) && Calling(ids, calls, k);
  }

  // Two partner steps back is one whole list back.
  lemma PairSpacing(n: nat, p: nat, q: nat, m: nat, k: nat)
    requires p < q < n && m != p && (m % n == p || m % n == q) && k == Partner(n, p, q, m) && k < m
    requires k % n == if m % n == q then p else q
    ensures m >= n ==> k != p && Partner(n, p, q, k) == m - n
  {
  }

  // ---------------------------------------------------------------- which packs can overlap

  ghost predicate Timed(s: State, calls: seq<Call>, t: seq<int>) {
    |t| == |calls| && forall k :: 0 <= k < |calls| ==> Time(s, calls, k) == t[k]
  }

  // Every call of the leases at p and q comes a whole TTL after the partner's last one.
  predicate SlowPair(n: nat, p: nat, q: nat, t: seq<int>)
    requires p < q < n
  {
    forall m :: p < m < |t| && (m % n == p || m % n == q) ==> SlowAt(n, p, q, t, m)
  }

  predicate SlowAt(n: nat, p: nat, q: nat, t: seq<int>, m: nat)
    requires p < q < n && m < |t|
  {
    var k := Partner(n, p, q, m);
    0 <= k < |t| && t[m] >= t[k] + TTL
  }

  predicate Disjoint(s: State, ids: seq<Id>) {
    forall p, q :: 0 <= p < q < |ids| ==> !Overlapping(s, ids[p], ids[q])
  }

  lemma OverlappingPairIsSlow(s: State, ids: seq<Id>, calls: seq<Call>, t: seq<int>, p: nat, q: nat)
    requires Packing(s, ids, calls) && Timed(s, calls, t) && p < q < |ids|
    requires Overlapping(s, ids[p], ids[q])
    ensures SlowPair(|ids|, p, q, t)
  {
    forall m | p < m < |t| && (m % |ids| == p || m % |ids| == q) ensures SlowAt(|ids|, p, q, t, m) {
      PairAlternates(s, ids, calls, p, q, m);
    }
  }

  // The quiet pack: nobody else does anything, and the leases are single points, all different but the
  // one at q, which is that of p.
  function Spot(ids: seq<Id>, p: nat, q: nat, id: Id): nat
    requires id in ids
  {
    var last := |ids| - 1;
    if ids[last] == id then (if last == q then p else last) else Spot(ids[..last], p, q, id)
  }

  lemma {:induction false} SpotAt(ids: seq<Id>, p: nat, q: nat, k: nat)
    requires k < |ids| && forall i, j :: 0 <= i < j < |ids| ==> ids[i] != ids[j]
    ensures Spot(ids, p, q, ids[k]) == if k == q then p else k
  {
    if k < |ids| - 1 {
      assert ids[..|ids| - 1][k] == ids[k];
      SpotAt(ids[..|ids| - 1], p, q, k);
    }
  }

  function Pause(t: seq<int>, k: nat): Event
    requires k < |t| && forall i, j :: 0 <= i < j < |t| ==> t[i] <= t[j]
  {
    Tick(if k == 0 then 0 else t[k] - t[k - 1])
  }

  function QuietCalls(ids: seq<Id>, t: seq<int>): (r: seq<Call>)
    requires ids != [] && forall i, j :: 0 <= i < j < |t| ==> t[i] <= t[j]
    ensures |r| == |t|
    ensures forall k :: 0 <= k < |t| ==> r[k] == Call([Pause(t, k)], ids[k % |ids|], Forced(|ids|, |t|, k))
  {
    seq(|t|, k requires 0 <= k < |t| => Call([Pause(t, k)], ids[k % |ids|], Forced(|ids|, |t|, k)))
  }

  function QuietStart(ids: seq<Id>, p: nat, q: nat, now: int): State {
    State(map[], map[], map id | id in ids :: Holder(Spot(ids, p, q, id), Spot(ids, p, q, id), true, 0), now)
  }

  lemma RunOne(s: State, e: Event)
    ensures Run(s, [e]) == Apply(s, e)
  {
    assert [e][1..] == [];
  }

  // The row of x was renewed by an earlier call of x.
  ghost predicate Dated(ids: seq<Id>, t: seq<int>, k: nat, x: Id, expires: int)
    requires ids != [] && k <= |t|
  {
    exists l :: 0 <= l < k && ids[l % |ids|] == x && expires <= t[l] + TTL
  }

  ghost predicate QuietInv(ids: seq<Id>, t: seq<int>, p: nat, q: nat, k: nat, u: State)
    requires ids != [] && k <= |t|
  {
    && (forall x :: x in ids ==> x in u.holders && u.holders[x].start == u.holders[x].end == Spot(ids, p, q, x) && u.holders[x].exclusive)
    && (forall x :: x in u.table ==>
          x in ids && u.table[x].start == u.table[x].end == Spot(ids, p, q, x) && Dated(ids, t, k, x, u.table[x].expires))
  }

  // Between a call and the partner's last one, the partner is not called.
  lemma NoLaterPartner(n: nat, p: nat, q: nat, m: nat, l: nat)
    requires p < q < n && l < m && (m % n == p || m % n == q) && l % n == if m % n == q then p else q
    ensures m != p && l <= Partner(n, p, q, m)
  {
    if m == p {
      Unique(n, p, 0, p);
      Unique(n, l, 0, l);
    } else {
      PartnerIs(n, p, q, m);
      var k := Partner(n, p, q, m);
      if k < l {
        Onward(n, k, l - k);
      }
    }
  }

  lemma PartnerExpired(n: nat, p: nat, q: nat, t: seq<int>, k: nat, l: nat)
    requires p < q < n && l < k < |t| && (forall i, j :: 0 <= i < j < |t| ==> t[i] <= t[j]) && SlowPair(n, p, q, t)
    requires (k % n == p || k % n == q) && l % n == if k % n == q then p else q
    ensures t[l] + TTL <= t[k]
  {
    NoLaterPartner(n, p, q, k, l);
    PartnerIs(n, p, q, k);
    if k < p {
      Unique(n, k, 0, k);
    }
    assert SlowAt(n, p, q, t, k);
  }

  // A row on the same spot is the partner's, and has expired.
  lemma SameSpotExpired(ids: seq<Id>, t: seq<int>, p: nat, q: nat, k: nat, l: nat)
    requires p < q < |ids| && l < k < |t| && (forall i, j :: 0 <= i < j < |ids| ==> ids[i] != ids[j])
    requires (forall i, j :: 0 <= i < j < |t| ==> t[i] <= t[j]) && SlowPair(|ids|, p, q, t)
    requires ids[l % |ids|] != ids[k % |ids|] && Spot(ids, p, q, ids[l % |ids|]) == Spot(ids, p, q, ids[k % |ids|])
    ensures t[l] + TTL <= t[k]
  {
    SpotAt(ids, p, q, k % |ids|);
    SpotAt(ids, p, q, l % |ids|);
    SpotsMeet(|ids|, p, q, k, l);
    PartnerExpired(|ids|, p, q, t, k, l);
  }

  lemma QuietCallPasses(ids: seq<Id>, t: seq<int>, p: nat, q: nat, k: nat, u: State)
    requires p < q < |ids| && k < |t| && (forall i, j :: 0 <= i < j < |ids| ==> ids[i] != ids[j])
    requires (forall i, j :: 0 <= i < j < |t| ==> t[i] <= t[j]) && SlowPair(|ids|, p, q, t)
    requires QuietInv(ids, t, p, q, k, u) && u.now == t[k]
    ensures !Denied(u, ids[k % |ids|], None, Forced(|ids|, |t|, k))
  {
    var id := ids[k % |ids|];
    forall x | x in u.table && x != id && LiveRow(u.table[x], u.now)
      ensures !Overlap(u.table[x].start, u.table[x].end, u.holders[id].start, u.holders[id].end)
    {
      var l: nat :| l < k && ids[l % |ids|] == x && u.table[x].expires <= t[l] + TTL;
      if Spot(ids, p, q, x) == Spot(ids, p, q, id) {
        SameSpotExpired(ids, t, p, q, k, l);
      }
    }
  }

  lemma SpotsMeet(n: nat, p: nat, q: nat, k: nat, l: nat)
    requires p < q < n && k % n != l % n
    requires (if k % n == q then p else k % n) == (if l % n == q then p else l % n)
    ensures (k % n == p || k % n == q) && l % n == if k % n == q then p else q
  {
  }

  // A call that is not denied leaves its own row dated, and every other as it was.
  lemma QuietCallKeeps(ids: seq<Id>, t: seq<int>, p: nat, q: nat, k: nat, u: State)
    requires p < q < |ids| && k < |t| && QuietInv(ids, t, p, q, k, u) && u.now == t[k]
    ensures QuietInv(ids, t, p, q, k + 1, Apply(u, Beat(ids[k % |ids|], None, Forced(|ids|, |t|, k))))
    ensures Apply(u, Beat(ids[k % |ids|], None, Forced(|ids|, |t|, k))).now == u.now
  {
    var id := ids[k % |ids|];
    var v := Apply(u, Beat(id, None, Forced(|ids|, |t|, k)));
    forall x | x in v.table ensures x in ids && Dated(ids, t, k + 1, x, v.table[x].expires) {
      if x in u.table && v.table[x] == u.table[x] {
        var l :| 0 <= l < k && ids[l % |ids|] == x && u.table[x].expires <= t[l] + TTL;
      }
      assert ids[k % |ids|] == id;
    }
  }

  lemma QuietPause(ids: seq<Id>, t: seq<int>, p: nat, q: nat, k: nat, v: State)
    requires p < q < |ids| && k < |t| && (forall i, j :: 0 <= i < j < |t| ==> t[i] <= t[j])
    requires QuietInv(ids, t, p, q, k, v) && v.now == if k == 0 then t[0] else t[k - 1]
    ensures var u := Run(v, [Pause(t, k)]); u.now == t[k] && QuietInv(ids, t, p, q, k, u)
  {
    RunOne(v, Pause(t, k));
  }

  ghost predicate QuietAt(ids: seq<Id>, t: seq<int>, p: nat, q: nat, s: State, calls: seq<Call>, k: nat)
    requires ids != [] && k < |t| == |calls|
  {
    var u := Before(s, calls, k);
    u.now == t[k] && QuietInv(ids, t, p, q, k, u) && !Denied(u, calls[k].id, None, calls[k].force)
  }

  // The first call, and each call after another.
  lemma QuietStep(ids: seq<Id>, t: seq<int>, p: nat, q: nat, s: State, calls: seq<Call>, k: nat, v: State)
    requires p < q < |ids| && k < |t| && (forall i, j :: 0 <= i < j < |ids| ==> ids[i] != ids[j])
    requires (forall i, j :: 0 <= i < j < |t| ==> t[i] <= t[j]) && SlowPair(|ids|, p, q, t)
    requires calls == QuietCalls(ids, t) && v == After(s, calls, k)
    requires QuietInv(ids, t, p, q, k, v) && v.now == if k == 0 then t[0] else t[k - 1]
    ensures QuietAt(ids, t, p, q, s, calls, k)
  {
    QuietPause(ids, t, p, q, k, v);
    assert Before(s, calls, k) == Run(v, [Pause(t, k)]);
    QuietCallPasses(ids, t, p, q, k, Before(s, calls, k));
  }

  lemma QuietNext(ids: seq<Id>, t: seq<int>, p: nat, q: nat, s: State, calls: seq<Call>, k: nat)
    requires p < q < |ids| && k + 1 < |t| && (forall i, j :: 0 <= i < j < |t| ==> t[i] <= t[j])
    requires calls == QuietCalls(ids, t) && QuietAt(ids, t, p, q, s, calls, k)
    ensures QuietInv(ids, t, p, q, k + 1, After(s, calls, k + 1)) && After(s, calls, k + 1).now == t[k]
  {
    QuietCallKeeps(ids, t, p, q, k, Before(s, calls, k));
    assert calls[k].id == ids[k % |ids|] && calls[k].force == Forced(|ids|, |t|, k);
  }

  lemma {:induction false} QuietRun(ids: seq<Id>, t: seq<int>, p: nat, q: nat, s: State, calls: seq<Call>, k: nat)
    requires p < q < |ids| && k < |t| && (forall i, j :: 0 <= i < j < |ids| ==> ids[i] != ids[j])
    requires (forall i, j :: 0 <= i < j < |t| ==> t[i] <= t[j]) && SlowPair(|ids|, p, q, t)
    requires s == QuietStart(ids, p, q, t[0]) && calls == QuietCalls(ids, t)
    ensures QuietAt(ids, t, p, q, s, calls, k)
  {
    if k > 0 {
      QuietRun(ids, t, p, q, s, calls, k - 1);
      QuietNext(ids, t, p, q, s, calls, k - 1);
    }
    QuietStep(ids, t, p, q, s, calls, k, After(s, calls, k));
  }

  lemma QuietIsPacking(ids: seq<Id>, t: seq<int>, p: nat, q: nat, s: State, calls: seq<Call>)
    requires p < q < |ids| && |t| > 0 && (forall i, j :: 0 <= i < j < |ids| ==> ids[i] != ids[j])
    requires forall i, j :: 0 <= i < j < |t| ==> t[i] <= t[j]
    requires s == QuietStart(ids, p, q, t[0]) && calls == QuietCalls(ids, t)
    requires forall k :: 0 <= k < |t| ==> QuietAt(ids, t, p, q, s, calls, k)
    ensures Packing(s, ids, calls) && Timed(s, calls, t)
  {
    forall k | 0 <= k < |calls|
      ensures Calling(ids, calls, k) && Time(s, calls, k) == t[k] && !Denied(Before(s, calls, k), calls[k].id, None, calls[k].force)
    {
      assert QuietAt(ids, t, p, q, s, calls, k);
    }
  }

  /** Every slow schedule is one of a pack, its last pass forced, in which no call raises and two ranges
      are the same. */
  lemma SlowPassPacksOverlap(ids: seq<Id>, t: seq<int>, p: nat, q: nat) returns (s: State, calls: seq<Call>)
    requires p < q < |ids| && |t| > 0 && (forall i, j :: 0 <= i < j < |ids| ==> ids[i] != ids[j])
    requires (forall i, j :: 0 <= i < j < |t| ==> t[i] <= t[j]) && SlowPair(|ids|, p, q, t)
    ensures Packing(s, ids, calls) && LastPassForced(ids, calls) && Timed(s, calls, t)
    ensures Overlapping(s, ids[p], ids[q]) && s.holders[ids[p]] == s.holders[ids[q]]
  {
    s, calls := QuietStart(ids, p, q, t[0]), QuietCalls(ids, t);
    SpotAt(ids, p, q, p);
    SpotAt(ids, p, q, q);
    forall k: nat | k < |t| ensures QuietAt(ids, t, p, q, s, calls, k) {
      QuietRun(ids, t, p, q, s, calls, k);
    }
    QuietIsPacking(ids, t, p, q, s, calls);
  }

  /** Exactly when the segments of one pack are disjoint, for a whole lease list, any number of passes
      and any other processes: a timing of the calls admits only disjoint ranges if and only if no two
      leases take turns a whole TTL apart from beginning to end. */
  lemma PackedRangesDisjoint(ids: seq<Id>, t: seq<int>)
    requires 0 < |ids| <= |t| && (forall i, j :: 0 <= i < j < |ids| ==> ids[i] != ids[j])
    requires forall i, j :: 0 <= i < j < |t| ==> t[i] <= t[j]
    ensures (forall s, calls :: Packing(s, ids, calls) && LastPassForced(ids, calls) && Timed(s, calls, t) ==> Disjoint(s, ids)) <==>
              forall p, q :: 0 <= p < q < |ids| ==> !SlowPair(|ids|, p, q, t)
  {
    forall p, q | 0 <= p < q < |ids| && SlowPair(|ids|, p, q, t)
      ensures exists s, calls :: Packing(s, ids, calls) && LastPassForced(ids, calls) && Timed(s, calls, t) && !Disjoint(s, ids)
    {
      var s, calls := SlowPassPacksOverlap(ids, t, p, q);
      assert Overlapping(s, ids[p], ids[q]);
    }
    forall s, calls, p, q | Packing(s, ids, calls) && Timed(s, calls, t) && 0 <= p < q < |ids| && Overlapping(s, ids[p], ids[q])
      ensures SlowPair(|ids|, p, q, t)
    {
      OverlappingPairIsSlow(s, ids, calls, t, p, q);
    }
  }

  /** In particular, one pass over the list in less than a TTL, be it the entering one or any later
      one, leaves only disjoint ranges. */
  lemma QuickPassIsDisjoint(s: State, ids: seq<Id>, calls: seq<Call>, t: seq<int>, k: nat)
    requires Packing(s, ids, calls) && Timed(s, calls, t) && (forall i, j :: 0 <= i < j < |t| ==> t[i] <= t[j])
    requires 0 < |ids| && k % |ids| == 0 && k + |ids| <= |t| && t[k + |ids| - 1] < t[k] + TTL
    ensures Disjoint(s, ids)
  {
    forall p, q | 0 <= p < q < |ids| ensures !Overlapping(s, ids[p], ids[q]) {
      Onward(|ids|, k, q);
      if Overlapping(s, ids[p], ids[q]) {
        OverlappingPairIsSlow(s, ids, calls, t, p, q);
      }
      assert !SlowAt(|ids|, p, q, t, k + q);
    }
  }

  // ---------------------------------------------------------------- the objects

  class LeaseStore {
    var rows: map<Id, Row>
    var archive: map<Id, Row>

    constructor ()
      ensures rows == map[] && archive == map[]
    {
      rows, archive := map[], map[];
    }

    /** overlaps: some other live row meets the range. It is the test by which an exclusive lease on that
        range would be refused. */
    method Overlaps(start: int, end: int, at: int, exclude: Id) returns (found: bool)
      ensures found <==> Denied(State(rows, archive, map[exclude := Holder(start, end, true, 0)], at), exclude, None, true)
    {
      found := exists k :: k in rows && k != exclude && LiveRow(rows[k], at)
                           && Overlap(rows[k].start, rows[k].end, start, end);
    }

    /** reap computes exactly the Reap step. */
    method Reap(now: int)
      modifies this
      ensures rows == Apply(State(old(rows), old(archive), map[], now), Event.Reap).table
      ensures archive == Apply(State(old(rows), old(archive), map[], now), Event.Reap).archive
    {
      var expired := set k | k in rows && !LiveRow(rows[k], now);
      archive := (map k | k in expired :: rows[k]) + archive;
      rows := rows - expired;
    }
  }

  datatype Beaten = Extended | Quiet | Blocked

  class RangeLease {
    const store: LeaseStore
    const id: Id
    const end: int
    const exclusive: bool
    var start: int
    var lastBeat: int

    constructor (store: LeaseStore, id: Id, start: int, end: int, exclusive: bool)
      ensures this.store == store && this.id == id && AsHolder() == Holder(start, end, exclusive, 0)
    {
      this.store, this.id, this.end, this.exclusive := store, id, end, exclusive;
      this.start, lastBeat := start, 0;
    }

    function AsHolder(): Holder
      reads this
    {
      Holder(start, end, exclusive, lastBeat)
    }

    function AsState(now: int): State
      reads this, store
    {
      State(store.rows, store.archive, map[id := AsHolder()], now)
    }

    /** heartbeat computes exactly the Beat step, and raises exactly when that step is denied. */
    method Heartbeat(now: int, to: Option<int>, force: bool) returns (r: Beaten)
      modifies this, store`rows
      ensures r == Blocked <==> Denied(old(AsState(now)), id, to, force)
      ensures AsState(now) == Apply(old(AsState(now)), Beat(id, to, force))
      ensures old(NoConflict(AsState(now))) ==> NoConflict(AsState(now))
    {
      StepKeepsNoConflictIf(AsState(now), Beat(id, to, force));
      if !force && now - lastBeat < BEAT {
        return Quiet;
      }
      var proposed := if to.Some? && to.value > start then to.value else start;
      if Conflict(store.rows, id, proposed, end, exclusive, now) {
        return Blocked;
      }
      store.rows := store.rows[id := Row(proposed, end, now + TTL, exclusive)];
      start, lastBeat := proposed, now;
      r := Extended;
    }

    /** Leaving the context removes the row. */
    method Leave()
      modifies store`rows
      ensures store.rows == old(store.rows) - {id}
    {
      store.rows := store.rows - {id};
    }
  }

  lemma StepKeepsNoConflictIf(s: State, e: Event)
    ensures NoConflict(s) ==> NoConflict(Apply(s, e))
  {
    if NoConflict(s) {
      StepKeepsNoConflict(s, e);
    }
  }
}
