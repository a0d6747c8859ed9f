// The proxy's answer cache: an OrderedDict in recency order, whose stored answers are
// served with their transaction id and TTLs rewritten in place. Time is a real clock.
module DnsProxy {
  import opened Common
  import opened DnsMessage
  import opened OrderedDict

  const CACHE_LIMIT := 128

  type Key = Bytes

  datatype Entry = Entry(answer: Bytes, fields: seq<Field>, saved: real, expires: real)

  // ---------------------------------------------------------------- rewriting in place

  method PackU32(a: array<byte>, o: nat, v: nat)
    requires o + 4 <= a.Length && v < 0x1_0000_0000
    modifies a
    ensures U32(a[..], o) == v
    ensures forall i :: 0 <= i < a.Length && !(o <= i < o + 4) ==> a[i] == old(a[i])
  {
    Digits(v);
    a[o], a[o + 1], a[o + 2], a[o + 3] := v / 16777216, v / 65536 % 256, v / 256 % 256, v % 256;
  }

  lemma SameU32(m: Bytes, m': Bytes, o: nat)
    requires o + 4 <= |m| && |m'| == |m| && forall i :: o <= i < o + 4 ==> m'[i] == m[i]
    ensures U32(m', o) == U32(m, o)
  {
  }

  /** The rewriting of cached_answer: outside the id and the TTL fields every byte is the stored
      one, and each TTL is lowered by the elapsed seconds, never below zero. */
  method Serve(answer: Bytes, fields: seq<Field>, transaction: Bytes, elapsed: nat) returns (served: Bytes)
    requires |answer| >= 12 && |transaction| == 2
    requires Separated(fields, 12, |answer|) && forall k :: 0 <= k < |fields| ==> fields[k].ttl < 0x1_0000_0000
    ensures |served| == |answer| && served[..2] == transaction
    ensures Rewritten(answer, served, fields, elapsed, 2)
  {
    var remaining := new byte[|answer|](i requires 0 <= i < |answer| => answer[i]);
    remaining[0], remaining[1] := transaction[0], transaction[1];
    for k := 0 to |fields|
      invariant remaining[0] == transaction[0] && remaining[1] == transaction[1]
      invariant forall i :: 2 <= i < |answer| && !InField(fields[..k], i) ==> remaining[i] == answer[i]
      invariant forall j :: 0 <= j < k ==> U32(remaining[..], fields[j].offset) == Aged(fields[j].ttl, elapsed)
    {
      ghost var before := remaining[..];
      PackU32(remaining, fields[k].offset, Aged(fields[k].ttl, elapsed));
      forall j | 0 <= j < k
        ensures U32(remaining[..], fields[j].offset) == Aged(fields[j].ttl, elapsed)
      {
        SameU32(before, remaining[..], fields[j].offset);
      }
      forall i | 2 <= i < |answer| && !InField(fields[..k + 1], i)
        ensures remaining[i] == answer[i]
      {
        assert fields[..k + 1] == fields[..k] + [fields[k]];
        InFieldSplit(fields[..k], [fields[k]], i);
        assert [fields[k]][0] == fields[k];
      }
    }
    assert fields[..|fields|] == fields;
    served := remaining[..];
  }

  // ---------------------------------------------------------------- the cache

  function MinTtl(fields: seq<Field>): (t: nat)
    requires fields != []
    ensures forall k :: 0 <= k < |fields| ==> t <= fields[k].ttl
    ensures exists k :: 0 <= k < |fields| && fields[k].ttl == t
  {
    if |fields| == 1 then fields[0].ttl
    else
      var t := MinTtl(fields[..|fields| - 1]);
      if fields[|fields| - 1].ttl < t then fields[|fields| - 1].ttl else t
  }

  // max(0, int(now - saved)): whole elapsed seconds.
  function Elapsed(now: real, saved: real): nat {
    if now <= saved then 0 else (now - saved).Floor
  }

  // A stored answer is a complete positive reply that lives at most a minute, and no longer
  // than its shortest TTL.
  ghost predicate EntryOk(e: Entry) {
    && |e.answer| >= 12 && Fields(e.answer) == Some(e.fields) && e.fields != []
    && MinTtl(e.fields) > 0
    && e.expires == e.saved + Min(60.0, MinTtl(e.fields) as real)
  }

  /** Before expiry fewer whole seconds have passed than any TTL, so no served TTL is zero. */
  lemma FreshTtlsPositive(e: Entry, now: real, k: nat)
    requires EntryOk(e) && now < e.expires && k < |e.fields|
    ensures 0 < Aged(e.fields[k].ttl, Elapsed(now, e.saved)) == e.fields[k].ttl - Elapsed(now, e.saved)
  {
  }

  lemma FieldsSeparated(m: Bytes)
    requires |m| >= 12 && Fields(m).Some? && Fields(m).value != []
    ensures Separated(Fields(m).value, 12, |m|) && ReadFrom(m, Fields(m).value)
  {
    RecordsSeparated(m, SkipName(m, 12).value + 4, RecordCount(m));
  }

  // What cached_answer promises of the bytes it returns.
  ghost predicate Faithful(e: Entry, transaction: Bytes, now: real, served: Bytes) {
    && |transaction| == 2 && |served| == |e.answer| >= 12 && served[..2] == transaction
    && (forall i :: 2 <= i < |served| && !InField(e.fields, i) ==> served[i] == e.answer[i])
    && Fields(served) == Some(AgedFields(e.fields, Elapsed(now, e.saved)))
    && (forall k :: 0 <= k < |e.fields| ==> AgedFields(e.fields, Elapsed(now, e.saved))[k].ttl > 0)
  }

  // Serving one unexpired entry.
  method ServeEntry(e: Entry, transaction: Bytes, now: real) returns (served: Bytes)
    requires EntryOk(e) && now < e.expires && |transaction| == 2
    ensures Faithful(e, transaction, now, served)
  {
    var elapsed := Elapsed(now, e.saved);
    FieldsSeparated(e.answer);
    forall k | 0 <= k < |e.fields|
      ensures e.fields[k].ttl < 0x1_0000_0000 && Aged(e.fields[k].ttl, elapsed) > 0
    {
      U32Bound(e.answer, e.fields[k].offset);
      FreshTtlsPositive(e, now, k);
    }
    served := Serve(e.answer, e.fields, transaction, elapsed);
    AnswerReparses(e.answer, served, elapsed);
  }

  // Every entry is sound; a predicate on values so that dictionary moves do not look inside.
  ghost predicate AllOk(entries: map<Key, Entry>) {
    forall k :: k in entries ==> EntryOk(entries[k])
  }

  // With or without any other entry.
  lemma StoredIsOk(entries: map<Key, Entry>, key: Key, e: Entry)
    requires AllOk(entries) && EntryOk(e)
    ensures AllOk(entries[key := e]) && forall k :: AllOk(entries[key := e] - {k})
  {
  }

  lemma NewestStays(order: seq<Key>)
    requires NoDuplicates(order) && order != []
    ensures |order| > 1 ==> order[0] != order[|order| - 1]
  {
  }

  // Complete and positive, with at least one record that is not an OPT record, and no TTL of zero on those.
  ghost predicate WorthCaching(answer: Bytes) {
    && |answer| >= 12 && Positive(answer) && Sections(answer).Some?
    && var spans := Sections(answer).value;
       && (exists offset: nat :: HoldsTtl(answer, spans, offset))
       && (forall offset: nat :: HoldsTtl(answer, spans, offset) ==> offset + 4 <= |answer| && U32(answer, offset) > 0)
  }

  // A minute, or the shortest TTL if that is less.
  ghost predicate LivesFor(answer: Bytes, lifetime: real)
    requires |answer| >= 12 && Sections(answer).Some?
  {
    var spans := Sections(answer).value;
    && lifetime <= 60.0
    && (forall offset: nat :: HoldsTtl(answer, spans, offset) ==> offset + 4 <= |answer| && lifetime <= U32(answer, offset) as real)
    && (lifetime == 60.0
        || exists offset: nat :: HoldsTtl(answer, spans, offset) && offset + 4 <= |answer| && lifetime == U32(answer, offset) as real)
  }

  lemma LifetimeIsShortest(answer: Bytes)
    requires Cacheable(answer)
    ensures Sections(answer).Some? && LivesFor(answer, Min(60.0, MinTtl(Fields(answer).value) as real))
  {
    var fs := Fields(answer).value;
    FieldsAreTtls(answer, 0);
    forall offset: nat ensures HasField(fs, offset) <==> HoldsTtl(answer, Sections(answer).value, offset) {
      FieldsAreTtls(answer, offset);
    }
    FieldsOfReply(answer);
    var k :| 0 <= k < |fs| && fs[k].ttl == MinTtl(fs);
    assert HasField(fs, fs[k].offset);
  }

  lemma FieldsOfReply(answer: Bytes)
    requires |answer| >= 12 && Answers(answer) && Fields(answer).Some?
    ensures var fs := Fields(answer).value;
            && ReadFrom(answer, fs)
            && (fs != [] <==> exists offset: nat :: HasField(fs, offset))
  {
    var fs := Fields(answer).value;
    RecordsSeparated(answer, SkipName(answer, 12).value + 4, RecordCount(answer));
    if fs != [] {
      assert HasField(fs, fs[0].offset);
    }
  }

  // Every TTL is positive exactly when the smallest is.
  lemma AllTtlsPositive(answer: Bytes, fs: seq<Field>)
    requires fs != [] && ReadFrom(answer, fs)
    ensures MinTtl(fs) > 0 <==> forall offset: nat :: HasField(fs, offset) ==> offset + 4 <= |answer| && U32(answer, offset) > 0
  {
    forall k | 0 <= k < |fs| ensures HasField(fs, fs[k].offset) {
    }
  }

  /** The test before storing, spelled out on the records of the reply. */
  lemma CacheableExactly(answer: Bytes)
    ensures Cacheable(answer) <==> WorthCaching(answer)
  {
    if |answer| >= 12 {
      AnswersBits(answer);
      if Answers(answer) {
        forall offset: nat
          ensures Fields(answer).Some? <==> Sections(answer).Some?
          ensures Fields(answer).Some? ==>
                    (HasField(Fields(answer).value, offset) <==> HoldsTtl(answer, Sections(answer).value, offset))
        {
          FieldsAreTtls(answer, offset);
        }
        FieldsAreTtls(answer, 0);
        if Fields(answer).Some? {
          FieldsOfReply(answer);
          if Fields(answer).value != [] {
            AllTtlsPositive(answer, Fields(answer).value);
          }
        }
      }
    }
  }

  /** A served answer carries every byte of a stored OPT record as it was. */
  lemma OptServedUnchanged(e: Entry, transaction: Bytes, now: real, served: Bytes, i: nat, k: nat)
    requires EntryOk(e) && Faithful(e, transaction, now, served)
    requires Sections(e.answer).Some? && k < |Sections(e.answer).value|
    requires Sections(e.answer).value[k].header + 2 <= |e.answer| && IsOpt(e.answer, Sections(e.answer).value[k])
    requires Sections(e.answer).value[k].start <= i < Sections(e.answer).value[k].end
    ensures i < |served| && served[i] == e.answer[i]
  {
    AnswersBits(e.answer);
    OptIsUntouched(e.answer, i, k);
  }

  class Cache {
    var entries: map<Key, Entry>
    var order: seq<Key>

    constructor ()
      ensures Valid() && entries == map[]
    {
      entries, order := map[], [];
    }

    predicate Listed()
      reads this
    {
      Orders(order, entries)
    }

    ghost predicate Valid()
      reads this
    {
      Listed() && |order| <= CACHE_LIMIT && AllOk(entries)
    }

    method IndexOf(key: Key) returns (i: nat)
      requires Listed() && key in entries
      ensures i < |order| && order[i] == key
    {
      OrdersFacts(order, entries);
      ghost var at :| 0 <= at < |order| && order[at] == key;
      i := 0;
      while order[i] != key
        invariant i <= at
        decreases at - i
      {
        i := i + 1;
      }
    }

    // move_to_end: the least recently used key stays first.
    method MoveToEnd(key: Key)
      requires Listed() && key in entries
      modifies this`order
      ensures Listed() && |order| == |old(order)| && order == Others(old(order), key) + [key]
    {
      var i := IndexOf(key);
      OrdersFacts(order, entries);
      WithoutIsOthers(order, i);
      OrdersRemove(order, entries, i);
      OrdersPut(Without(order, i), entries - {key}, key, entries[key]);
      assert (entries - {key})[key := entries[key]] == entries;
      order := Without(order, i) + [key];
    }

    method Delete(key: Key)
      requires Listed() && key in entries
      modifies this
      ensures Listed() && entries == old(entries) - {key} && |order| == |old(order)| - 1
      ensures order == Others(old(order), key)
    {
      var i := IndexOf(key);
      OrdersFacts(order, entries);
      WithoutIsOthers(order, i);
      OrdersRemove(order, entries, i);
      entries, order := entries - {key}, Without(order, i);
    }

    /** cached_answer: an entry is served exactly while it has not expired, and an expired one is dropped. */
    method CachedAnswer(key: Key, transaction: Bytes, now: real) returns (served: Option<Bytes>)
      requires Valid() && |transaction| == 2
      modifies this
      ensures Valid()
      ensures served.Some? <==> key in old(entries) && now < old(entries)[key].expires
      ensures served.Some? ==> Faithful(old(entries)[key], transaction, now, served.value)
      ensures entries == if served.None? && key in old(entries) then old(entries) - {key} else old(entries)
      ensures order == if served.Some? then Others(old(order), key) + [key]
                       else if key in old(entries) then Others(old(order), key) else old(order)
    {
      if key !in entries {
        return None;
      }
      var e := entries[key];
      if now >= e.expires {
        Delete(key);
        return None;
      }
      MoveToEnd(key);
      var bytes := ServeEntry(e, transaction, now);
      served := Some(bytes);
    }

    // CACHE[key] = entry, then move_to_end.
    method Put(key: Key, e: Entry)
      requires Listed()
      modifies this
      ensures Listed() && entries == old(entries)[key := e]
      ensures |order| <= |old(order)| + 1 && order == Others(old(order), key) + [key]
    {
      OrdersPut(order, entries, key, e);
      OrdersFacts(order, entries);
      if key !in entries {
        OthersSnoc(order, key);
        order := order + [key];
      }
      entries := entries[key := e];
      MoveToEnd(key);
    }

    // popitem(last=False) while over the limit, which is at most once.
    method Trim()
      requires Listed() && |order| <= CACHE_LIMIT + 1
      modifies this
      ensures Listed() && |order| <= CACHE_LIMIT
      ensures if |old(order)| <= CACHE_LIMIT then entries == old(entries) && order == old(order)
              else entries == old(entries) - {old(order)[0]} && order == old(order)[1..]
    {
      if |order| > CACHE_LIMIT {
        OrdersFacts(order, entries);
        OrdersPop(order, entries);
        entries, order := entries - {order[0]}, order[1..];
      }
    }

    // Insert or refresh an entry as the most recent one; beyond the limit the oldest goes.
    method Store(key: Key, e: Entry)
      requires Valid() && EntryOk(e)
      modifies this
      ensures Valid() && key in entries && entries[key] == e
      ensures var recent := Others(old(order), key) + [key];
              if |recent| <= CACHE_LIMIT then entries == old(entries)[key := e] && order == recent
              else entries == old(entries)[key := e] - {recent[0]} && order == recent[1..]
    {
      StoredIsOk(entries, key, e);
      Put(key, e);
      OrdersFacts(order, entries);
      NewestStays(order);
      Trim();
    }

    /** resolve, given the verified upstream answer (None: the request failed) and the clock before
        and after it. Whatever is returned carries the query's own id, an answer is cached exactly
        when it is a well-formed positive reply that has records besides OPT, all with a positive TTL. */
    method Resolve(query: Bytes, upstream: Option<Bytes>, before: real, after: real) returns (r: Option<Bytes>)
      requires Valid()
      modifies this
      ensures Valid()
      ensures r.Some? ==> |query| >= 12 && |r.value| >= 12 && r.value[..2] == query[..2]
      ensures |query| < 12 || |query| > 512 || query[2] >= 128 ==> r.None? && entries == old(entries)
      ensures r.Some? && !(query[2..] in old(entries) && before < old(entries)[query[2..]].expires) ==>
                && upstream == r
                && (query[2..] in entries <==> WorthCaching(r.value))
                && (WorthCaching(r.value) ==>
                      && entries[query[2..]].answer == r.value && entries[query[2..]].saved == after
                      && LivesFor(r.value, entries[query[2..]].expires - after))
    {
      if |query| < 12 || |query| > 512 || query[2] >= 128 {
        return None;
      }
      var key := query[2..];
      var cached := CachedAnswer(key, query[..2], before);
      if cached.Some? {
        return cached;
      }
      if upstream.None? || !Acceptable(upstream.value, query) {
        return None;
      }
      var answer := upstream.value;
      CacheableExactly(answer);
      if Cacheable(answer) {
        var fields := Fields(answer).value;
        var lifetime := MinTtl(fields);
        LifetimeIsShortest(answer);
        Store(key, Entry(answer, fields, after, after + Min(60.0, lifetime as real)));
      }
      r := upstream;
    }
  }

  // The checks of upstream on the reply.
  predicate Acceptable(answer: Bytes, query: Bytes) {
    |query| >= 12 && 12 <= |answer| <= 65535 && answer[..2] == query[..2] && answer[2] >= 128
  }

  predicate Cacheable(answer: Bytes) {
    |answer| >= 12 && Fields(answer).Some? && Fields(answer).value != [] && MinTtl(Fields(answer).value) > 0
  }
}
