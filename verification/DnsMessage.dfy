// DNS wire messages as deploy/dns_proxy.py reads them (sections 4.1.1, 4.1.3 and 4.1.4
// of RFC 1035): which bytes are resource-record TTLs, and what rewriting them does.
module DnsMessage {
  import opened Common

  type byte = x: int | 0 <= x < 256

  type Bytes = seq<byte>

  datatype Field = Field(offset: nat, ttl: nat)

  const OPT := 41

  function U16(m: Bytes, o: nat): nat
    requires o + 2 <= |m|
  {
    m[o] as int * 256 + m[o + 1] as int
  }

  function U32(m: Bytes, o: nat): nat
    requires o + 4 <= |m|
  {
    m[o] as int * 16777216 + m[o + 1] as int * 65536 + m[o + 2] as int * 256 + m[o + 3] as int
  }

  // The offset after a name: labels below 64 bytes, ended by a zero or by a two-byte pointer
  // into the message, which is not followed. None: "Invalid DNS name".
  function SkipName(m: Bytes, o: nat): (r: Option<nat>)
    ensures r.Some? ==> o < r.value <= |m|
    decreases |m| - o
  {
    if o >= |m| then None
    else if m[o] == 0 then Some(o + 1)
    else if m[o] >= 192 && o + 1 < |m| then
      if m[o] % 64 * 256 + m[o + 1] >= |m| then None else Some(o + 2)
    else if m[o] >= 64 || o + 1 + m[o] > |m| then None
    else SkipName(m, o + 1 + m[o])
  }

  // The first record's own field, if it is not an OPT record, and where the next record starts.
  function OwnField(m: Bytes, h: nat): seq<Field>
    requires h + 10 <= |m|
  {
    if U16(m, h) != OPT then [Field(h + 4, U32(m, h + 4))] else []
  }

  function NextRecord(m: Bytes, h: nat): nat
    requires h + 10 <= |m|
  {
    h + 10 + U16(m, h + 8)
  }

  // The TTL fields of the next n records, or None when one of them is malformed.
  function Records(m: Bytes, o: nat, n: nat): Option<seq<Field>>
    decreases n
  {
    if n == 0 then (if o == |m| then Some([]) else None)
    else
      match SkipName(m, o)
      case None => None
      case Some(h) =>
        if h + 10 > |m| || NextRecord(m, h) > |m| then None
        else
          match Records(m, NextRecord(m, h), n - 1)
          case None => None
          case Some(rest) => Some(OwnField(m, h) + rest)
  }

  // Neither the truncation bit nor a response code, one question, and at least one answer.
  predicate Answers(m: Bytes)
    requires |m| >= 12
  {
    m[2] / 2 % 2 != 1 && m[3] % 16 == 0 && U16(m, 4) == 1 && U16(m, 6) != 0
  }

  // Answers, authorities and additional records.
  function RecordCount(m: Bytes): nat
    requires |m| >= 12
  {
    U16(m, 6) + U16(m, 8) + U16(m, 10)
  }

  // cache_fields: Some([]) for a reply that must not be cached, None for a malformed one.
  function Fields(m: Bytes): Option<seq<Field>>
    requires |m| >= 12
  {
    if !Answers(m) then Some([])
    else
      match SkipName(m, 12)
      case None => None
      case Some(q) => Records(m, q + 4, RecordCount(m))
  }

  // ---------------------------------------------------------------- shape of the fields

  // Four-byte fields inside [o, end), in order and without overlap.
  predicate Separated(fs: seq<Field>, o: nat, end: nat) {
    && (forall i :: 0 <= i < |fs| ==> o <= fs[i].offset && fs[i].offset + 4 <= end)
    && (forall i, j :: 0 <= i < j < |fs| ==> fs[i].offset + 4 <= fs[j].offset)
  }

  lemma RecordsUnfold(m: Bytes, o: nat, n: nat)
    requires n > 0 && Records(m, o, n).Some?
    ensures SkipName(m, o).Some?
    ensures var h := SkipName(m, o).value;
            && h + 10 <= |m| && NextRecord(m, h) <= |m|
            && Records(m, NextRecord(m, h), n - 1).Some?
            && Records(m, o, n).value == OwnField(m, h) + Records(m, NextRecord(m, h), n - 1).value
  {
  }

  // Fields that carry the TTL the message holds at their offset.
  predicate ReadFrom(m: Bytes, fs: seq<Field>) {
    forall i :: 0 <= i < |fs| ==> fs[i].offset + 4 <= |m| && fs[i].ttl == U32(m, fs[i].offset)
  }

  lemma OwnSeparated(m: Bytes, h: nat, rest: seq<Field>)
    requires h + 10 <= |m| && NextRecord(m, h) <= |m|
    requires Separated(rest, NextRecord(m, h), |m|) && ReadFrom(m, rest)
    ensures Separated(OwnField(m, h) + rest, h + 4, |m|) && ReadFrom(m, OwnField(m, h) + rest)
  {
  }

  lemma WiderSeparated(fs: seq<Field>, o: nat, later: nat, end: nat)
    requires Separated(fs, later, end) && o <= later
    ensures Separated(fs, o, end)
  {
  }

  /** The TTL fields lie inside the message, past the name they follow, and never overlap. */
  lemma {:induction false} RecordsSeparated(m: Bytes, o: nat, n: nat)
    requires Records(m, o, n).Some?
    ensures Separated(Records(m, o, n).value, o, |m|) && ReadFrom(m, Records(m, o, n).value)
    ensures n > 0 ==> SkipName(m, o).Some?
                      && Separated(Records(m, o, n).value, SkipName(m, o).value + 4, |m|)
    decreases n
  {
    if n > 0 {
      RecordsUnfold(m, o, n);
      var h := SkipName(m, o).value;
      var rest := Records(m, NextRecord(m, h), n - 1).value;
      RecordsSeparated(m, NextRecord(m, h), n - 1);
      OwnSeparated(m, h, rest);
      WiderSeparated(Records(m, o, n).value, o, h + 4, |m|);
    }
  }

  // ---------------------------------------------------------------- rewriting

  function Aged(ttl: nat, elapsed: nat): nat {
    if ttl > elapsed then ttl - elapsed else 0
  }

  function AgedFields(fs: seq<Field>, elapsed: nat): (r: seq<Field>)
    ensures |r| == |fs|
    ensures forall i :: 0 <= i < |fs| ==> r[i] == Field(fs[i].offset, Aged(fs[i].ttl, elapsed))
  {
    seq(|fs|, i requires 0 <= i < |fs| => Field(fs[i].offset, Aged(fs[i].ttl, elapsed)))
  }

  lemma Digits(v: nat)
    requires v < 0x1_0000_0000
    ensures v / 16777216 < 256
    ensures v / 16777216 * 16777216 + v / 65536 % 256 * 65536 + v / 256 % 256 * 256 + v % 256 == v
  {
    var a, b := v / 256, v / 65536;
    assert v == a * 256 + v % 256;
    assert b == a / 256 && a == b * 256 + a % 256;
    assert v / 16777216 == b / 256 && b == b / 256 * 256 + b % 256;
  }

  predicate InField(fs: seq<Field>, i: nat) {
    exists k :: 0 <= k < |fs| && fs[k].offset <= i < fs[k].offset + 4
  }

  // m' is m with other bytes in the given fields, which now hold the aged TTLs.
  ghost predicate Rewritten(m: Bytes, m': Bytes, fs: seq<Field>, elapsed: nat, from: nat) {
    && |m'| == |m| && Separated(fs, from, |m|)
    && (forall i {:trigger InField(fs, i)} :: from <= i < |m| && !InField(fs, i) ==> m'[i] == m[i])
    && (forall k :: 0 <= k < |fs| ==> U32(m', fs[k].offset) == Aged(fs[k].ttl, elapsed))
  }

  lemma {:induction false} SkipNameAgrees(m: Bytes, m': Bytes, o: nat)
    requires |m| == |m'| && SkipName(m, o).Some?
    requires forall i :: o <= i < SkipName(m, o).value ==> m'[i] == m[i]
    ensures SkipName(m', o) == SkipName(m, o)
    decreases |m| - o
  {
    if 0 < m[o] < 64 {
      SkipNameAgrees(m, m', o + 1 + m[o]);
    }
  }

  // A record's name, type and length hold no TTL.
  lemma HeaderUntouched(m: Bytes, m': Bytes, o: nat, h: nat, rest: seq<Field>, elapsed: nat)
    requires o <= h && h + 10 <= |m| && Separated(rest, NextRecord(m, h), |m|)
    requires Rewritten(m, m', OwnField(m, h) + rest, elapsed, o)
    ensures |m'| == |m| && forall i :: o <= i < h + 10 && !(h + 4 <= i < h + 8) ==> m'[i] == m[i]
  {
    var own := OwnField(m, h);
    forall i | o <= i < h + 10 && !(h + 4 <= i < h + 8)
      ensures m'[i] == m[i]
    {
      InFieldSplit(own, rest, i);
      assert !InField(own, i) && !InField(rest, i);
    }
  }

  // So it reads the same.
  lemma HeaderAgrees(m: Bytes, m': Bytes, o: nat, h: nat)
    requires SkipName(m, o) == Some(h) && h + 10 <= |m| && |m'| == |m|
    requires forall i :: o <= i < h + 10 && !(h + 4 <= i < h + 8) ==> m'[i] == m[i]
    ensures SkipName(m', o) == Some(h) && U16(m', h) == U16(m, h) && NextRecord(m', h) == NextRecord(m, h)
  {
    SkipNameAgrees(m, m', o);
  }

  lemma InFieldSplit(own: seq<Field>, rest: seq<Field>, i: nat)
    ensures InField(own + rest, i) <==> InField(own, i) || InField(rest, i)
  {
    var fs := own + rest;
    assert forall k :: 0 <= k < |rest| ==> fs[|own| + k] == rest[k];
    assert forall k :: 0 <= k < |own| ==> fs[k] == own[k];
    assert forall k :: |own| <= k < |fs| ==> fs[k] == rest[k - |own|];
  }

  lemma AgedAppend(own: seq<Field>, rest: seq<Field>, elapsed: nat)
    ensures AgedFields(own + rest, elapsed) == AgedFields(own, elapsed) + AgedFields(rest, elapsed)
  {
  }

  // The first record's own field reads its aged TTL.
  lemma OwnAges(m: Bytes, m': Bytes, h: nat, rest: seq<Field>, elapsed: nat, o: nat)
    requires h + 10 <= |m| && |m'| == |m| && U16(m', h) == U16(m, h)
    requires Rewritten(m, m', OwnField(m, h) + rest, elapsed, o)
    ensures OwnField(m', h) == AgedFields(OwnField(m, h), elapsed)
  {
    var own := OwnField(m, h);
    assert own != [] ==> (own + rest)[0] == own[0];
  }

  lemma RestRewritten(m: Bytes, m': Bytes, own: seq<Field>, rest: seq<Field>, elapsed: nat, o: nat, next: nat)
    requires Rewritten(m, m', own + rest, elapsed, o) && o <= next
    requires Separated(rest, next, |m|)
    requires |own| <= 1 && (own != [] ==> own[0].offset + 4 <= next)
    ensures Rewritten(m, m', rest, elapsed, next)
  {
    var fs := own + rest;
    forall i | next <= i < |m| && !InField(rest, i)
      ensures m'[i] == m[i]
    {
      InFieldSplit(own, rest, i);
    }
    forall k | 0 <= k < |rest|
      ensures U32(m', rest[k].offset) == Aged(rest[k].ttl, elapsed)
    {
      assert rest[k] == fs[|own| + k];
    }
  }

  // The first record keeps its header and ages its own field, and past it the rest is rewritten
  // in the same way.
  lemma FirstRecord(m: Bytes, m': Bytes, o: nat, h: nat, rest: seq<Field>, elapsed: nat)
    requires SkipName(m, o) == Some(h) && h + 10 <= |m| && Separated(rest, NextRecord(m, h), |m|)
    requires Rewritten(m, m', OwnField(m, h) + rest, elapsed, o)
    ensures |m'| == |m| && SkipName(m', o) == Some(h) && NextRecord(m', h) == NextRecord(m, h)
    ensures OwnField(m', h) == AgedFields(OwnField(m, h), elapsed)
    ensures Rewritten(m, m', rest, elapsed, NextRecord(m, h))
  {
    HeaderUntouched(m, m', o, h, rest, elapsed);
    HeaderAgrees(m, m', o, h);
    OwnAges(m, m', h, rest, elapsed, o);
    RestRewritten(m, m', OwnField(m, h), rest, elapsed, o, NextRecord(m, h));
  }

  // A message whose first record is untouched and whose other records reparse.
  lemma Joined(m: Bytes, m': Bytes, o: nat, n: nat, h: nat, elapsed: nat)
    requires n > 0 && |m'| == |m| && h + 10 <= |m| && NextRecord(m, h) <= |m|
    requires SkipName(m', o) == Some(h) && NextRecord(m', h) == NextRecord(m, h)
    requires Records(m, NextRecord(m, h), n - 1).Some?
    requires Records(m', NextRecord(m, h), n - 1) == Some(AgedFields(Records(m, NextRecord(m, h), n - 1).value, elapsed))
    requires OwnField(m', h) == AgedFields(OwnField(m, h), elapsed)
    ensures Records(m', o, n) == Some(AgedFields(OwnField(m, h) + Records(m, NextRecord(m, h), n - 1).value, elapsed))
  {
    AgedAppend(OwnField(m, h), Records(m, NextRecord(m, h), n - 1).value, elapsed);
  }

  /** Rewriting the TTLs leaves the record structure alone: the rewritten records parse to the
      same offsets, each with its aged TTL. */
  lemma {:induction false} RecordsReparse(m: Bytes, m': Bytes, o: nat, n: nat, elapsed: nat)
    requires Records(m, o, n).Some?
    requires Rewritten(m, m', Records(m, o, n).value, elapsed, o)
    ensures Records(m', o, n) == Some(AgedFields(Records(m, o, n).value, elapsed))
    decreases n
  {
    if n > 0 {
      RecordsUnfold(m, o, n);
      var h := SkipName(m, o).value;
      var next := NextRecord(m, h);
      RecordsSeparated(m, next, n - 1);
      FirstRecord(m, m', o, h, Records(m, next, n - 1).value, elapsed);
      RecordsReparse(m, m', next, n - 1, elapsed);
      Joined(m, m', o, n, h, elapsed);
    }
  }

  lemma RewrittenFrom(m: Bytes, m': Bytes, fs: seq<Field>, elapsed: nat, from: nat, later: nat)
    requires Rewritten(m, m', fs, elapsed, from) && from <= later && Separated(fs, later, |m|)
    ensures Rewritten(m, m', fs, elapsed, later)
  {
  }

  // The bytes up to the first record are untouched, so the header and the question read the same.
  lemma QuestionAgrees(m: Bytes, m': Bytes, fs: seq<Field>, elapsed: nat, q: nat)
    requires |m| >= 12 && SkipName(m, 12) == Some(q)
    requires Rewritten(m, m', fs, elapsed, 2) && Separated(fs, q + 4, |m|)
    ensures SkipName(m', 12) == Some(q) && Answers(m') == Answers(m) && RecordCount(m') == RecordCount(m)
  {
    forall i | 2 <= i < q + 4 && i < |m| ensures m'[i] == m[i] {
      assert !InField(fs, i);
    }
    SkipNameAgrees(m, m', 12);
  }

  /** A served answer reads like the stored one: the same header, question and records, at the
      same offsets, with every TTL lowered by the elapsed seconds. */
  lemma AnswerReparses(m: Bytes, m': Bytes, elapsed: nat)
    requires |m| >= 12 && Fields(m).Some? && Fields(m).value != []
    requires Rewritten(m, m', Fields(m).value, elapsed, 2)
    ensures Fields(m') == Some(AgedFields(Fields(m).value, elapsed))
  {
    var fs := Fields(m).value;
    var q := SkipName(m, 12).value;
    var n := RecordCount(m);
    RecordsSeparated(m, q + 4, n);
    QuestionAgrees(m, m', fs, elapsed, q);
    RewrittenFrom(m, m', fs, elapsed, 2, q + 4);
    RecordsReparse(m, m', q + 4, n, elapsed);
  }

  lemma U32Bound(m: Bytes, o: nat)
    requires o + 4 <= |m|
    ensures U32(m, o) < 0x1_0000_0000
  {
  }

  // ---------------------------------------------------------------- names

  // The labels of a name: each a length below 64 and as many bytes, up to where the name stops.
  predicate Labels(m: Bytes, cuts: seq<nat>) {
    && cuts != [] && cuts[0] < |m|
    && (|cuts| > 1 ==> 0 < m[cuts[0]] < 64 && cuts[1] == cuts[0] + 1 + m[cuts[0]] && Labels(m, cuts[1..]))
  }

  // A zero byte, or a pointer to a place inside the message.
  predicate Stops(m: Bytes, o: nat, end: nat) {
    || (o < |m| && m[o] == 0 && end == o + 1)
    || (o + 1 < |m| && m[o] >= 192 && (m[o] as int - 192) * 256 + m[o + 1] as int < |m| && end == o + 2)
  }

  lemma Pointer(b: byte, c: byte)
    requires b >= 192
    ensures b as int % 64 * 256 + c as int == (b as int - 192) * 256 + c as int
  {
  }

  lemma {:induction false} NameHasLabels(m: Bytes, o: nat) returns (cuts: seq<nat>)
    requires SkipName(m, o).Some?
    ensures Labels(m, cuts) && cuts[0] == o && Stops(m, cuts[|cuts| - 1], SkipName(m, o).value)
    decreases |m| - o
  {
    if 0 < m[o] < 64 {
      var rest := NameHasLabels(m, o + 1 + m[o]);
      cuts := [o] + rest;
      assert cuts[1..] == rest;
    } else {
      cuts := [o];
      if m[o] != 0 {
        Pointer(m[o], m[o + 1]);
      }
    }
  }

  lemma {:induction false} LabelsAreName(m: Bytes, cuts: seq<nat>, end: nat)
    requires Labels(m, cuts) && Stops(m, cuts[|cuts| - 1], end)
    ensures SkipName(m, cuts[0]) == Some(end)
    decreases |cuts|
  {
    if |cuts| == 1 {
      if m[cuts[0]] != 0 {
        Pointer(m[cuts[0]], m[cuts[0] + 1]);
      }
    } else {
      LabelsAreName(m, cuts[1..], end);
    }
  }

  /** A name that starts at o ends at `end` exactly when labels lead from o to a zero byte or to a pointer
      into the message, and `end` is just past it. */
  lemma NameEndsExactly(m: Bytes, o: nat, end: nat)
    ensures SkipName(m, o) == Some(end) <==>
              exists cuts :: Labels(m, cuts) && cuts[0] == o && Stops(m, cuts[|cuts| - 1], end)
  {
    if SkipName(m, o) == Some(end) {
      var cuts := NameHasLabels(m, o);
      assert Labels(m, cuts) && cuts[0] == o && Stops(m, cuts[|cuts| - 1], end);
    }
    forall cuts | Labels(m, cuts) && cuts[0] == o && Stops(m, cuts[|cuts| - 1], end)
      ensures SkipName(m, o) == Some(end)
    {
      LabelsAreName(m, cuts, end);
    }
  }

  // ---------------------------------------------------------------- which records have a TTL

  // A record as names and lengths alone delimit it: its name, its type two bytes long, and its end.
  datatype Span = Span(start: nat, header: nat, end: nat)

  // The next n records, which must end with the message.
  function Spans(m: Bytes, o: nat, n: nat): Option<seq<Span>>
    decreases n
  {
    if n == 0 then (if o == |m| then Some([]) else None)
    else
      match SkipName(m, o)
      case None => None
      case Some(h) =>
        if h + 10 > |m| || h + 10 + m[h + 8] as int * 256 + m[h + 9] as int > |m| then None
        else
          var end := h + 10 + m[h + 8] as int * 256 + m[h + 9] as int;
          match Spans(m, end, n - 1)
          case None => None
          case Some(rest) => Some([Span(o, h, end)] + rest)
  }

  // The records of a message with one question.
  function Sections(m: Bytes): Option<seq<Span>>
    requires |m| >= 12
  {
    match SkipName(m, 12)
    case None => None
    case Some(q) => Spans(m, q + 4, (m[6] as int + m[8] as int + m[10] as int) * 256 + m[7] as int + m[9] as int + m[11] as int)
  }

  // Records inside [o, end), one after the other.
  predicate InLine(m: Bytes, spans: seq<Span>, o: nat) {
    && (forall k :: 0 <= k < |spans| ==> o <= spans[k].start < spans[k].header && spans[k].header + 10 <= spans[k].end <= |m|)
    && (forall j, k :: 0 <= j < k < |spans| ==> spans[j].end <= spans[k].start)
  }

  lemma {:induction false} SpansInLine(m: Bytes, o: nat, n: nat)
    requires Spans(m, o, n).Some?
    ensures InLine(m, Spans(m, o, n).value, o)
    decreases n
  {
    if n > 0 {
      var h := SkipName(m, o).value;
      SpansInLine(m, h + 10 + m[h + 8] as int * 256 + m[h + 9] as int, n - 1);
    }
  }

  // An OPT record: type 41.
  predicate IsOpt(m: Bytes, s: Span)
    requires s.header + 2 <= |m|
  {
    m[s.header] == 0 && m[s.header + 1] == 41
  }

  predicate HasField(fs: seq<Field>, offset: nat) {
    exists k :: 0 <= k < |fs| && fs[k].offset == offset
  }

  // The offset stands four bytes past the type of a record that is not an OPT record.
  predicate HoldsTtl(m: Bytes, spans: seq<Span>, offset: nat) {
    exists k :: 0 <= k < |spans| && spans[k].header + 2 <= |m| && !IsOpt(m, spans[k]) && offset == spans[k].header + 4
  }

  lemma FieldFirst(m: Bytes, own: seq<Field>, rest: seq<Field>, offset: nat)
    ensures HasField(own + rest, offset) <==> HasField(own, offset) || HasField(rest, offset)
  {
    var fs := own + rest;
    assert forall k :: 0 <= k < |own| ==> fs[k] == own[k];
    assert forall k :: 0 <= k < |rest| ==> fs[|own| + k] == rest[k];
    assert forall k :: |own| <= k < |fs| ==> fs[k] == rest[k - |own|];
  }

  lemma SpanFirst(m: Bytes, s: Span, rest: seq<Span>, offset: nat)
    ensures HoldsTtl(m, [s] + rest, offset) <==> HoldsTtl(m, [s], offset) || HoldsTtl(m, rest, offset)
  {
    var spans := [s] + rest;
    assert spans[0] == s && [s][0] == s;
    assert forall k :: 0 <= k < |rest| ==> spans[k + 1] == rest[k];
    assert forall k :: 0 < k < |spans| ==> spans[k] == rest[k - 1];
  }

  lemma OwnFirst(m: Bytes, o: nat, h: nat, end: nat, offset: nat)
    requires h + 10 <= |m|
    ensures HasField(OwnField(m, h), offset) <==> HoldsTtl(m, [Span(o, h, end)], offset)
  {
    assert U16(m, h) == OPT <==> m[h] == 0 && m[h + 1] == 41;
    assert [Span(o, h, end)][0] == Span(o, h, end);
    if U16(m, h) != OPT {
      assert OwnField(m, h)[0].offset == h + 4;
    }
  }

  lemma {:induction false} RecordsHaveTtls(m: Bytes, o: nat, n: nat, offset: nat)
    ensures Records(m, o, n).Some? <==> Spans(m, o, n).Some?
    ensures Records(m, o, n).Some? ==>
              (HasField(Records(m, o, n).value, offset) <==> HoldsTtl(m, Spans(m, o, n).value, offset))
    decreases n
  {
    if n > 0 && SkipName(m, o).Some? {
      var h := SkipName(m, o).value;
      if h + 10 <= |m| && NextRecord(m, h) <= |m| {
        var end := NextRecord(m, h);
        assert end == h + 10 + m[h + 8] as int * 256 + m[h + 9] as int;
        RecordsHaveTtls(m, end, n - 1, offset);
        if Records(m, end, n - 1).Some? {
          FieldFirst(m, OwnField(m, h), Records(m, end, n - 1).value, offset);
          SpanFirst(m, Span(o, h, end), Spans(m, end, n - 1).value, offset);
          OwnFirst(m, o, h, end, offset);
        }
      }
    }
  }

  /** The fields of a positive reply are exactly the TTLs of its records that are not OPT records, and it is
      malformed exactly when its names and lengths do not delimit its records. */
  lemma FieldsAreTtls(m: Bytes, offset: nat)
    requires |m| >= 12 && Answers(m)
    ensures Fields(m).Some? <==> Sections(m).Some?
    ensures Fields(m).Some? ==> (HasField(Fields(m).value, offset) <==> HoldsTtl(m, Sections(m).value, offset))
  {
    SectionsUnfold(m);
    if SkipName(m, 12).Some? {
      RecordsHaveTtls(m, SkipName(m, 12).value + 4, RecordCount(m), offset);
    }
  }

  lemma SectionsUnfold(m: Bytes)
    requires |m| >= 12
    ensures Sections(m) == if SkipName(m, 12).None? then None else Spans(m, SkipName(m, 12).value + 4, RecordCount(m))
  {
  }

  // The bits that make a reply positive and complete: TC clear, RCODE 0, QDCOUNT 1, ANCOUNT positive.
  predicate Positive(m: Bytes)
    requires |m| >= 12
  {
    && (m[2] as int as bv8) & 2 == 0 && (m[3] as int as bv8) & 15 == 0
    && m[4] == 0 && m[5] == 1 && !(m[6] == 0 && m[7] == 0)
  }

  lemma SecondBit(b: byte)
    ensures (b as int as bv8) & 2 == 0 <==> b / 2 % 2 == 0
  {
  }

  lemma MaskIsRemainder(x: bv8)
    ensures x & 15 == x % 16
  {
  }

  lemma LowBits(b: byte)
    ensures (b as int as bv8) & 15 == 0 <==> b % 16 == 0
  {
    MaskIsRemainder(b as int as bv8);
  }

  lemma AnswersBits(m: Bytes)
    requires |m| >= 12
    ensures Answers(m) <==> Positive(m)
  {
    SecondBit(m[2]);
    LowBits(m[3]);
  }

  /** No byte of an OPT record is rewritten. */
  lemma OptIsUntouched(m: Bytes, i: nat, k: nat)
    requires |m| >= 12 && Positive(m) && Fields(m).Some? && Sections(m).Some? && k < |Sections(m).value|
    requires Sections(m).value[k].header + 2 <= |m| && IsOpt(m, Sections(m).value[k])
    requires Sections(m).value[k].start <= i < Sections(m).value[k].end
    ensures 2 <= i < |m| && !InField(Fields(m).value, i)
  {
    var fs, spans := Fields(m).value, Sections(m).value;
    AnswersBits(m);
    SpansInLine(m, SkipName(m, 12).value + 4, RecordCount(m));
    forall f | 0 <= f < |fs| ensures !(fs[f].offset <= i < fs[f].offset + 4) {
      FieldsAreTtls(m, fs[f].offset);
      assert HasField(fs, fs[f].offset);
      var j :| 0 <= j < |spans| && spans[j].header + 2 <= |m| && !IsOpt(m, spans[j]) && fs[f].offset == spans[j].header + 4;
      assert j != k;
    }
  }
}
