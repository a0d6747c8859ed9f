// The outbound Discord protocol: the economic claim (identity.claim), the outbox
// row and the dispatch flag (Notifier.deliver, Notifier.deliver_initial), shared
// by any number of processes that may stop after any database statement.
//
// Every database transaction is one step. Between two steps of one process any
// other process may take steps of its own, so the theorems quantify over all
// finite sequences of events. What the source computes outside the three records
// (lifecycle guards, the last-mile checks, the HTTP answer) is an arbitrary
// answer that arrives with the event.
module Delivery {
  import opened Common

  type Key = string
  type Signal = string
  type Fingerprint = string
  type Pid = nat

  // The statuses written to the outbox and claim tables. A guard returns an
  // arbitrary text; only its "blocked:" prefix has a meaning to the protocol.
  datatype Status =
    | Sending
    | Sent
    | Uncertain
    | Rejected
    | RateLimited
    | AlreadyAttempted
    | Reason(text: string)

  const BLOCKED := "blocked:"

  // Python's startswith, used when the row is read.
  predicate StartsBlocked(s: Status) {
    s.Reason? && BLOCKED <= s.text
  }

  function Lower(c: char): char {
    if 'A' <= c <= 'Z' then (c as int + 32) as char else c
  }

  // SQLite's LIKE 'blocked:%', used when the row is updated; it ignores ASCII case.
  predicate LikeBlocked(s: Status) {
    s.Reason? && |s.text| >= |BLOCKED| && forall i :: 0 <= i < |BLOCKED| ==> Lower(s.text[i]) == BLOCKED[i]
  }

  // The statuses a delivery that reached Discord can carry.
  predicate Attempted(s: Status) {
    s.Sending? || s.Sent? || s.Uncertain? || s.Rejected? || s.RateLimited?
  }

  // The claim statuses that suppress another setup of the same execution event.
  predicate Live(s: Status) {
    s.Sending? || s.Sent? || s.Uncertain?
  }

  // One call: an initial card (deliver_initial) or any other card (deliver).
  datatype Job =
    | Initial(key: Key, signal: Signal, fp: Fingerprint, v22: bool)
    | Update(key: Key)

  datatype Claim = Claim(signal: Signal, status: Status)

  // The statement a process executes next.
  datatype Phase =
    | Ready                     // identity.claim
    | Look                      // SELECT status FROM outbox
    | LookFlag                  // read the dispatch flag of a blocked row
    | Guard(retry: bool)        // lifecycle guard before the row is taken
    | Take(retry: bool)         // insert the row, or compare-and-set a blocked one
    | Arm                       // dispatch flag := false
    | Check                     // guards before dispatch
    | Mark                      // dispatch flag := true
    | Recheck                   // guards after the flag
    | Unmark(reason: string)    // dispatch flag := false again
    | Send                      // HTTP POST
    | Finish(status: Status)    // final outbox update
    | Report(status: Status)    // final claim update

  datatype Proc = Proc(job: Job, phase: Phase)

  datatype State = State(
    claims: map<Fingerprint, Claim>,
    outbox: map<Key, Status>,
    flags: map<Signal, bool>,
    procs: map<Pid, Proc>,
    posts: seq<Job>)

  const INIT := State(map[], map[], map[], map[], [])

  // What the world outside the three records answers to a step.
  datatype Answer =
    | Go
    | Block(reason: string)
    | Raise                         // a transport error or a timeout, which deliver catches
    | Http(code: int)
    | Siblings(others: set<Signal>) // active setups of the same execution event

  datatype Event =
    | Start(pid: Pid, job: Job)
    | Step(pid: Pid, answer: Answer)
    | Crash(pid: Pid)

  // ---------------------------------------------------------------- transactions

  predicate EconomicDuplicate(claims: map<Fingerprint, Claim>, signal: Signal, others: set<Signal>) {
    exists fp :: fp in claims && claims[fp].signal in others && claims[fp].signal != signal && Live(claims[fp].status)
  }

  // The compare-and-set that re-arms a claim whose attempt never reached dispatch.
  predicate Rearmed(claims: map<Fingerprint, Claim>, flags: map<Signal, bool>, job: Job)
    requires job.Initial?
  {
    && job.v22
    && job.signal in flags && !flags[job.signal]
    && job.fp in claims && claims[job.fp].signal == job.signal && LikeBlocked(claims[job.fp].status)
  }

  predicate ClaimGranted(claims: map<Fingerprint, Claim>, flags: map<Signal, bool>, job: Job, others: set<Signal>)
    requires job.Initial?
  {
    || (job.fp !in claims && !EconomicDuplicate(claims, job.signal, others))
    || Rearmed(claims, flags, job)
  }

  predicate RowTaken(outbox: map<Key, Status>, key: Key, retry: bool) {
    if retry then key in outbox && LikeBlocked(outbox[key]) else key !in outbox
  }

  function Outcome(a: Answer): Status {
    if a.Http? then
      if a.code == 429 then RateLimited else if 200 <= a.code < 300 then Sent else Rejected
    else Uncertain
  }

  // ---------------------------------------------------------------- steps

  // Every step executes one statement: at most one write to one record, or the POST.
  datatype Write =
    | Nothing
    | WriteClaim(fp: Fingerprint, claim: Claim)
    | WriteRow(key: Key, row: Status)
    | WriteFlag(signal: Signal, value: bool)
    | Post(card: Job)

  // The statement executed and where the process goes next; None: the call returned.
  datatype Decision = Decision(write: Write, next: Option<Phase>)

  function Goto(phase: Phase): Decision {
    Decision(Nothing, Some(phase))
  }

  // deliver returned `status`; deliver_initial still reports it on the claim.
  function Returned(job: Job, status: Status): Option<Phase> {
    if job.Initial? then Some(Report(status)) else None
  }

  function Flag(job: Job, value: bool): Write {
    if job.Initial? && job.v22 then WriteFlag(job.signal, value) else Nothing
  }

  // The siblings that a claim compares itself with: a setup of another policy compares with none, and
  // the scan that answers lists the active members only.
  function Seen(job: Job, a: Answer): set<Signal>
    requires job.Initial?
  {
    if job.v22 && a.Siblings? then a.others else {}
  }

  function Claiming(s: State, job: Job, others: set<Signal>): Decision
    requires job.Initial?
  {
    if ClaimGranted(s.claims, s.flags, job, others)
    then Decision(WriteClaim(job.fp, Claim(job.signal, Sending)), Some(Look))
    else Decision(Nothing, None)
  }

  function Looking(s: State, job: Job): Decision {
    if job.key !in s.outbox then Goto(if job.Initial? then Guard(false) else Take(false))
    else if job.Initial? && job.v22 && StartsBlocked(s.outbox[job.key]) then Goto(LookFlag)
    else Decision(Nothing, Returned(job, AlreadyAttempted))
  }

  function Decide(s: State, job: Job, phase: Phase, a: Answer): Decision {
    match phase
    case Ready =>
      if job.Initial? then Claiming(s, job, Seen(job, a)) else Decision(Nothing, None)
    case Look => Looking(s, job)
    case LookFlag =>
      if job.Initial? && job.signal in s.flags && !s.flags[job.signal] then Goto(Guard(true))
      else Decision(Nothing, Returned(job, AlreadyAttempted))
    case Guard(retry) =>
      if a.Block? then Decision(Nothing, Returned(job, Reason(a.reason))) else Goto(Take(retry))
    case Take(retry) =>
      if RowTaken(s.outbox, job.key, retry) then Decision(WriteRow(job.key, Sending), Some(Arm))
      else Decision(Nothing, Returned(job, AlreadyAttempted))
    case Arm => Decision(Flag(job, false), Some(Check))
    case Check =>
      if job.Update? then Goto(Send)
      else if a.Block? then Goto(Finish(Reason(a.reason)))
      else if a.Raise? then Goto(Finish(Uncertain))
      else Goto(Mark)
    case Mark => Decision(Flag(job, true), Some(if job.Initial? && job.v22 then Recheck else Send))
    case Recheck =>
      if a.Block? then Goto(Unmark(a.reason))
      else if a.Raise? then Goto(Finish(Uncertain))
      else Goto(Send)
    case Unmark(reason) => Decision(Flag(job, false), Some(Finish(Reason(reason))))
    case Send => Decision(Post(job), Some(Finish(Outcome(a))))
    case Finish(status) => Decision(WriteRow(job.key, status), Returned(job, status))
    case Report(status) =>
      if job.Initial? && job.fp in s.claims
      then Decision(WriteClaim(job.fp, Claim(s.claims[job.fp].signal, status)), None)
      else Decision(Nothing, None)
  }

  function Commit(s: State, w: Write): State {
    match w
    case Nothing => s
    case WriteClaim(fp, claim) => s.(claims := s.claims[fp := claim])
    case WriteRow(key, row) => s.(outbox := s.outbox[key := row])
    case WriteFlag(signal, value) => s.(flags := s.flags[signal := value])
    case Post(card) => s.(posts := s.posts + [card])
  }

  function Continue(s: State, p: Pid, d: Decision): State
    requires p in s.procs
  {
    Commit(s, d.write).(procs :=
      if d.next.Some? then s.procs[p := Proc(s.procs[p].job, d.next.value)] else s.procs - {p})
  }

  function Apply(s: State, e: Event): State {
    match e
    case Start(p, job) =>
      if p in s.procs then s else s.(procs := s.procs[p := Proc(job, if job.Initial? then Ready else Look)])
    case Step(p, a) =>
      if p !in s.procs then s
      else
        Continue(s, p, Decide(s, s.procs[p].job, s.procs[p].phase, a))
    case Crash(p) => s.(procs := s.procs - {p})
  }

  function Run(s: State, events: seq<Event>): State
    decreases |events|
  {
    if events == [] then s else Run(Apply(s, events[0]), events[1..])
  }

  lemma {:induction false} RunAppend(s: State, a: seq<Event>, b: seq<Event>)
    ensures Run(s, a + b) == Run(Run(s, a), b)
    decreases |a|
  {
    if a == [] {
      assert a + b == b;
    } else {
      assert (a + b)[0] == a[0] && (a + b)[1..] == a[1..] + b;
      RunAppend(Apply(s, a[0]), a[1..], b);
    }
  }

  // ---------------------------------------------------------------- invariant

  function CardsOn(posts: seq<Job>, key: Key): nat {
    if posts == [] then 0
    else CardsOn(posts[..|posts| - 1], key) + (if posts[|posts| - 1].key == key then 1 else 0)
  }

  // Initial cards posted for one economic fingerprint, over every channel and signal.
  function CardsFor(posts: seq<Job>, fp: Fingerprint): nat {
    if posts == [] then 0
    else
      var last := posts[|posts| - 1];
      CardsFor(posts[..|posts| - 1], fp) + (if last.Initial? && last.fp == fp then 1 else 0)
  }

  // The phases between taking an outbox row and writing its final status.
  predicate Owning(ph: Phase) {
    ph.Arm? || ph.Check? || ph.Mark? || ph.Recheck? || ph.Unmark? || ph.Send? || ph.Finish?
  }

  predicate Owns(s: State, p: Pid, key: Key) {
    p in s.procs && s.procs[p].job.key == key && Owning(s.procs[p].phase)
  }

  // p has been granted the claim `fp` and not yet reported its delivery status.
  predicate Holds(s: State, p: Pid, fp: Fingerprint) {
    p in s.procs && s.procs[p].job.Initial? && s.procs[p].job.fp == fp && !s.procs[p].phase.Ready?
  }

  // The phases and statuses possible once the POST of this process is out.
  predicate Done(ph: Phase) {
    (ph.Finish? && Attempted(ph.status)) || (ph.Report? && Attempted(ph.status))
  }

  ghost predicate RowInv(s: State, key: Key) {
    && (forall p, q :: Owns(s, p, key) && Owns(s, q, key) ==> p == q)
    && (forall p :: Owns(s, p, key) ==> key in s.outbox && s.outbox[key] == Sending)
    && CardsOn(s.posts, key) <= 1
    && (CardsOn(s.posts, key) == 1 ==>
          && key in s.outbox && Attempted(s.outbox[key])
          && forall p :: Owns(s, p, key) ==> Done(s.procs[p].phase))
  }

  ghost predicate ClaimInv(s: State, fp: Fingerprint) {
    && (forall p, q :: Holds(s, p, fp) && Holds(s, q, fp) ==> p == q)
    && (forall p :: Holds(s, p, fp) ==> fp in s.claims && s.claims[fp].status == Sending)
    && CardsFor(s.posts, fp) <= 1
    && (CardsFor(s.posts, fp) == 1 ==>
          && fp in s.claims && Attempted(s.claims[fp].status)
          && forall p :: Holds(s, p, fp) ==> Done(s.procs[p].phase))
  }

  lemma PostCounted(posts: seq<Job>, job: Job, key: Key, fp: Fingerprint)
    ensures CardsOn(posts + [job], key) == CardsOn(posts, key) + (if job.key == key then 1 else 0)
    ensures CardsFor(posts + [job], fp) == CardsFor(posts, fp) + (if job.Initial? && job.fp == fp then 1 else 0)
  {
    assert (posts + [job])[..|posts + [job]| - 1] == posts;
  }

  // What one statement of a delivery can do to an outbox row.
  ghost predicate RowLegal(s: State, job: Job, phase: Phase, d: Decision) {
    && (d.write.WriteRow? ==>
          && d.write.key == job.key
          && if phase.Finish? then d.write.row == phase.status && (d.next.Some? ==> !Owning(d.next.value))
             else phase.Take? && d.write.row == Sending && (job.key in s.outbox ==> s.outbox[job.key].Reason?))
    && (d.write.Post? ==> phase.Send? && d.write.card == job)
    && (phase.Send? && d.next.Some? ==> Done(d.next.value))
    && (d.next.Some? && Owning(d.next.value) ==>
          && (Owning(phase) || (phase.Take? && d.write == WriteRow(job.key, Sending)))
          && !phase.Finish?)
  }

  lemma DecisionRowLegal(s: State, job: Job, phase: Phase, a: Answer)
    ensures RowLegal(s, job, phase, Decide(s, job, phase, a))
  {
  }

  lemma RowContinue(s: State, p: Pid, d: Decision, key: Key)
    requires p in s.procs && RowInv(s, key)
    requires RowLegal(s, s.procs[p].job, s.procs[p].phase, d)
    ensures RowInv(Continue(s, p, d), key)
  {
    if s.procs[p].job.key != key || !(Owns(s, p, key) || d.write.WriteRow?) {
      RowUntouched(s, p, d, key);
    } else if Owns(s, p, key) {
      RowOwner(s, p, d, key);
    } else {
      RowTaker(s, p, d, key);
    }
  }

  // A statement about another row, or about none.
  lemma RowFrame(s: State, w: Write, key: Key)
    requires !(w.WriteRow? && w.key == key) && !(w.Post? && w.card.key == key)
    ensures var t := Commit(s, w);
            && (key in t.outbox <==> key in s.outbox) && (key in s.outbox ==> t.outbox[key] == s.outbox[key])
            && CardsOn(t.posts, key) == CardsOn(s.posts, key)
  {
    if w.Post? {
      PostCounted(s.posts, w.card, key, "");
    }
  }

  lemma RowUntouched(s: State, p: Pid, d: Decision, key: Key)
    requires p in s.procs && RowInv(s, key)
    requires RowLegal(s, s.procs[p].job, s.procs[p].phase, d)
    requires s.procs[p].job.key != key || !(Owns(s, p, key) || d.write.WriteRow?)
    ensures RowInv(Continue(s, p, d), key)
  {
    RowFrame(s, d.write, key);
    var t := Continue(s, p, d);
    forall q | Owns(t, q, key)
      ensures q != p && Owns(s, q, key) && t.procs[q] == s.procs[q]
    {
    }
  }

  lemma RowOwner(s: State, p: Pid, d: Decision, key: Key)
    requires p in s.procs && RowInv(s, key)
    requires RowLegal(s, s.procs[p].job, s.procs[p].phase, d)
    requires Owns(s, p, key)
    ensures RowInv(Continue(s, p, d), key)
  {
    var t := Continue(s, p, d);
    forall q | Owns(t, q, key)
      ensures q == p
    {
      assert q != p ==> Owns(s, q, key);
    }
    if s.procs[p].phase.Finish? {
      assert !Owns(t, p, key) && t.posts == s.posts;
    } else {
      OwnerGoesOn(s, p, d, key);
    }
  }

  // Before its final status, the owner leaves the row at `sending` and posts at most once.
  lemma OwnerGoesOn(s: State, p: Pid, d: Decision, key: Key)
    requires p in s.procs && RowInv(s, key)
    requires RowLegal(s, s.procs[p].job, s.procs[p].phase, d)
    requires Owns(s, p, key) && !s.procs[p].phase.Finish?
    ensures var t := Continue(s, p, d);
            && key in t.outbox && t.outbox[key] == Sending && CardsOn(t.posts, key) <= 1
            && (CardsOn(t.posts, key) == 1 && Owns(t, p, key) ==> Done(t.procs[p].phase))
  {
    PostCounted(s.posts, s.procs[p].job, key, "");
    assert !d.write.WriteRow?;
    assert s.procs[p].phase.Send? ==> CardsOn(s.posts, key) == 0;
  }

  lemma RowTaker(s: State, p: Pid, d: Decision, key: Key)
    requires p in s.procs && RowInv(s, key)
    requires RowLegal(s, s.procs[p].job, s.procs[p].phase, d)
    requires s.procs[p].job.key == key && !Owns(s, p, key) && d.write.WriteRow?
    ensures RowInv(Continue(s, p, d), key)
  {
    var t := Continue(s, p, d);
    assert forall q :: !Owns(s, q, key);
    forall q | Owns(t, q, key)
      ensures q == p
    {
      assert q != p ==> Owns(s, q, key);
    }
  }

  lemma RowStep(s: State, e: Event, key: Key)
    requires RowInv(s, key)
    ensures RowInv(Apply(s, e), key)
  {
    if e.Step? && e.pid in s.procs {
      var pr := s.procs[e.pid];
      DecisionRowLegal(s, pr.job, pr.phase, e.answer);
      RowContinue(s, e.pid, Decide(s, pr.job, pr.phase, e.answer), key);
    } else {
      assert forall q :: q != e.pid ==> Owns(Apply(s, e), q, key) == Owns(s, q, key);
    }
  }

  // What one statement can do to a claim row.
  ghost predicate ClaimLegal(s: State, job: Job, phase: Phase, d: Decision) {
    && (d.write.WriteClaim? ==>
          && job.Initial? && d.write.fp == job.fp
          && if phase.Report? then d.write.claim.status == phase.status && d.next.None?
             else
               && phase.Ready? && d.write.claim.status == Sending
               && (job.fp in s.claims ==> s.claims[job.fp].status.Reason?))
    && (d.write.Post? ==> phase.Send? && d.write.card == job)
    && (phase.Send? && d.next.Some? ==> Done(d.next.value))
    && (Done(phase) && d.next.Some? ==> Done(d.next.value))
    && (d.next.Some? ==> !d.next.value.Ready?)
    && (job.Initial? && phase.Ready? && d.next.Some? ==> d.write == WriteClaim(job.fp, Claim(job.signal, Sending)))
  }

  lemma DecisionClaimLegal(s: State, job: Job, phase: Phase, a: Answer)
    ensures ClaimLegal(s, job, phase, Decide(s, job, phase, a))
  {
  }

  lemma ClaimContinue(s: State, p: Pid, d: Decision, fp: Fingerprint)
    requires p in s.procs && ClaimInv(s, fp)
    requires ClaimLegal(s, s.procs[p].job, s.procs[p].phase, d)
    ensures ClaimInv(Continue(s, p, d), fp)
  {
    var job := s.procs[p].job;
    if !(job.Initial? && job.fp == fp) {
      ClaimUntouched(s, p, d, fp);
    } else if Holds(s, p, fp) {
      ClaimHolder(s, p, d, fp);
    } else {
      ClaimTaker(s, p, d, fp);
    }
  }

  lemma ClaimUntouched(s: State, p: Pid, d: Decision, fp: Fingerprint)
    requires p in s.procs && ClaimInv(s, fp)
    requires ClaimLegal(s, s.procs[p].job, s.procs[p].phase, d)
    requires !(s.procs[p].job.Initial? && s.procs[p].job.fp == fp)
    ensures ClaimInv(Continue(s, p, d), fp)
  {
    var t := Continue(s, p, d);
    PostCounted(s.posts, s.procs[p].job, "", fp);
    assert CardsFor(t.posts, fp) == CardsFor(s.posts, fp);
    assert fp in t.claims <==> fp in s.claims;
    assert fp in s.claims ==> t.claims[fp] == s.claims[fp];
    forall q | Holds(t, q, fp)
      ensures q != p && Holds(s, q, fp) && t.procs[q] == s.procs[q]
    {
    }
  }

  lemma ClaimHolder(s: State, p: Pid, d: Decision, fp: Fingerprint)
    requires p in s.procs && ClaimInv(s, fp) && Holds(s, p, fp)
    requires ClaimLegal(s, s.procs[p].job, s.procs[p].phase, d)
    ensures ClaimInv(Continue(s, p, d), fp)
  {
    var t := Continue(s, p, d);
    PostCounted(s.posts, s.procs[p].job, "", fp);
    forall q | Holds(t, q, fp)
      ensures q == p
    {
      assert q != p ==> Holds(s, q, fp);
    }
  }

  // A process without the claim either leaves it alone or is granted it while nobody holds it.
  lemma ClaimTaker(s: State, p: Pid, d: Decision, fp: Fingerprint)
    requires p in s.procs && ClaimInv(s, fp) && !Holds(s, p, fp)
    requires s.procs[p].job.Initial? && s.procs[p].job.fp == fp
    requires ClaimLegal(s, s.procs[p].job, s.procs[p].phase, d)
    ensures ClaimInv(Continue(s, p, d), fp)
  {
    var t := Continue(s, p, d);
    assert t.posts == s.posts;
    forall q | Holds(t, q, fp) && q != p
      ensures Holds(s, q, fp) && t.procs[q] == s.procs[q]
    {
    }
    if d.write.WriteClaim? {
      assert forall q :: !Holds(s, q, fp);
      assert t.claims[fp].status == Sending;
    } else {
      assert !Holds(t, p, fp) && t.claims == s.claims;
    }
  }

  lemma ClaimStep(s: State, e: Event, fp: Fingerprint)
    requires ClaimInv(s, fp)
    ensures ClaimInv(Apply(s, e), fp)
  {
    if e.Step? && e.pid in s.procs {
      var pr := s.procs[e.pid];
      DecisionClaimLegal(s, pr.job, pr.phase, e.answer);
      ClaimContinue(s, e.pid, Decide(s, pr.job, pr.phase, e.answer), fp);
    } else {
      assert forall q :: q != e.pid ==> Holds(Apply(s, e), q, fp) == Holds(s, q, fp);
    }
  }

  // ---------------------------------------------------------------- theorems over every run

  lemma {:induction false} RunKeepsInvariant(s: State, run: seq<Event>, key: Key, fp: Fingerprint)
    requires RowInv(s, key) && ClaimInv(s, fp)
    ensures RowInv(Run(s, run), key) && ClaimInv(Run(s, run), fp)
    decreases |run|
  {
    if run != [] {
      RowStep(s, run[0], key);
      ClaimStep(s, run[0], fp);
      RunKeepsInvariant(Apply(s, run[0]), run[1..], key, fp);
    }
  }

  /** However calls for one outbox key interleave, crash and retry, the key is posted at most once. */
  lemma AtMostOncePerKey(run: seq<Event>, key: Key)
    ensures CardsOn(Run(INIT, run).posts, key) <= 1
  {
    RunKeepsInvariant(INIT, run, key, "");
  }

  /** Across all setups, channels, processes, crashes and blocked retries, one economic
      fingerprint gets at most one initial card. */
  lemma AtMostOncePerFingerprint(run: seq<Event>, fp: Fingerprint)
    ensures CardsFor(Run(INIT, run).posts, fp) <= 1
  {
    RunKeepsInvariant(INIT, run, "", fp);
  }

  lemma {:induction false} PostsOnlyGrow(s: State, run: seq<Event>, key: Key, fp: Fingerprint)
    ensures CardsOn(s.posts, key) <= CardsOn(Run(s, run).posts, key)
    ensures CardsFor(s.posts, fp) <= CardsFor(Run(s, run).posts, fp)
    decreases |run|
  {
    if run != [] {
      var e := run[0];
      if e.Step? && e.pid in s.procs {
        PostCounted(s.posts, s.procs[e.pid].job, key, fp);
        DecisionRowLegal(s, s.procs[e.pid].job, s.procs[e.pid].phase, e.answer);
      }
      PostsOnlyGrow(Apply(s, e), run[1..], key, fp);
    }
  }

  /** Once a key is posted, no continuation of the run makes its row retryable again. */
  lemma PostedRowNeverRetried(before: seq<Event>, after: seq<Event>, key: Key)
    requires CardsOn(Run(INIT, before).posts, key) > 0
    ensures var s := Run(INIT, before + after);
            && key in s.outbox && Attempted(s.outbox[key])
            && !StartsBlocked(s.outbox[key])
            && !RowTaken(s.outbox, key, true) && !RowTaken(s.outbox, key, false)
  {
    RunAppend(INIT, before, after);
    RunKeepsInvariant(INIT, before + after, key, "");
    PostsOnlyGrow(Run(INIT, before), after, key, "");
  }

  /** Once a fingerprint is posted, no later claim on it is granted to anybody. */
  lemma PostedClaimNeverGranted(before: seq<Event>, after: seq<Event>, job: Job, others: set<Signal>)
    requires job.Initial? && CardsFor(Run(INIT, before).posts, job.fp) > 0
    ensures var s := Run(INIT, before + after); !ClaimGranted(s.claims, s.flags, job, others)
  {
    RunAppend(INIT, before, after);
    RunKeepsInvariant(INIT, before + after, "", job.fp);
    PostsOnlyGrow(Run(INIT, before), after, "", job.fp);
  }

  // The statuses that report an answer from Discord.
  predicate Answered(s: Status) {
    s.Sent? || s.Rejected? || s.RateLimited?
  }

  predicate AboutToRecord(s: State, p: Pid, key: Key) {
    p in s.procs && s.procs[p].job.key == key && s.procs[p].phase.Finish? && Answered(s.procs[p].phase.status)
  }

  ghost predicate TruthInv(s: State, key: Key) {
    && (key in s.outbox && Answered(s.outbox[key]) ==> CardsOn(s.posts, key) > 0)
    && (forall p :: AboutToRecord(s, p, key) ==> CardsOn(s.posts, key) > 0)
  }

  lemma OnlyPostsAreAnswered(s: State, job: Job, phase: Phase, a: Answer)
    ensures var d := Decide(s, job, phase, a);
            d.next.Some? && d.next.value.Finish? && Answered(d.next.value.status) ==> d.write == Post(job)
  {
  }

  lemma TruthContinue(s: State, p: Pid, d: Decision, key: Key)
    requires p in s.procs && TruthInv(s, key)
    requires RowLegal(s, s.procs[p].job, s.procs[p].phase, d)
    requires d.next.Some? && d.next.value.Finish? && Answered(d.next.value.status) ==> d.write == Post(s.procs[p].job)
    ensures TruthInv(Continue(s, p, d), key)
  {
    var t := Continue(s, p, d);
    MoreCards(s, d.write, key);
    if !(d.write.WriteRow? && d.write.key == key) && !(d.write.Post? && d.write.card.key == key) {
      RowFrame(s, d.write, key);
    } else if d.write.WriteRow? {
      assert Answered(d.write.row) ==> AboutToRecord(s, p, key);
    }
    forall q | AboutToRecord(t, q, key)
      ensures CardsOn(t.posts, key) > 0
    {
      assert q != p ==> AboutToRecord(s, q, key);
    }
  }

  lemma MoreCards(s: State, w: Write, key: Key)
    ensures CardsOn(Commit(s, w).posts, key) >= CardsOn(s.posts, key)
    ensures w.Post? && w.card.key == key ==> CardsOn(Commit(s, w).posts, key) > 0
  {
    if w.Post? {
      PostCounted(s.posts, w.card, key, "");
    }
  }

  lemma TruthStep(s: State, e: Event, key: Key)
    requires TruthInv(s, key)
    ensures TruthInv(Apply(s, e), key)
  {
    if e.Step? && e.pid in s.procs {
      var pr := s.procs[e.pid];
      DecisionRowLegal(s, pr.job, pr.phase, e.answer);
      OnlyPostsAreAnswered(s, pr.job, pr.phase, e.answer);
      TruthContinue(s, e.pid, Decide(s, pr.job, pr.phase, e.answer), key);
    } else {
      assert forall q :: AboutToRecord(Apply(s, e), q, key) ==> AboutToRecord(s, q, key);
    }
  }

  lemma {:induction false} TruthRun(s: State, run: seq<Event>, key: Key)
    requires TruthInv(s, key)
    ensures TruthInv(Run(s, run), key)
    decreases |run|
  {
    if run != [] {
      TruthStep(s, run[0], key);
      TruthRun(Apply(s, run[0]), run[1..], key);
    }
  }

  /** The stored status never invents an answer: sent, rejected and rate-limited rows were
      posted exactly once, and a blocked row was never posted. */
  lemma StoredStatusIsTrue(run: seq<Event>, key: Key)
    requires key in Run(INIT, run).outbox
    ensures var s := Run(INIT, run);
            && (Answered(s.outbox[key]) ==> CardsOn(s.posts, key) == 1)
            && (s.outbox[key].Reason? ==> CardsOn(s.posts, key) == 0)
  {
    TruthRun(INIT, run, key);
    RunKeepsInvariant(INIT, run, key, "");
  }

  // ---------------------------------------------------------------- what Discord answered

  // How a row or a claim should read after a post that got this answer, or none.
  predicate Reports(status: Status, a: Answer) {
    && (status.Sent? <==> a.Http? && 200 <= a.code <= 299)
    && (status.RateLimited? <==> a.Http? && a.code == 429)
    && (status.Rejected? <==> a.Http? && a.code != 429 && !(200 <= a.code <= 299))
    && (status.Uncertain? <==> !a.Http?)
  }

  // The posts of one outbox key, or those of one fingerprint.
  datatype Topic = OnKey(key: Key) | OnPlan(fp: Fingerprint)

  predicate Concerns(job: Job, topic: Topic) {
    if topic.OnKey? then job.key == topic.key else job.Initial? && job.fp == topic.fp
  }

  // The answer that an event brings to a post.
  function Replied(s: State, e: Event, topic: Topic): seq<Answer> {
    if e.Step? && e.pid in s.procs && s.procs[e.pid].phase.Send? && Concerns(s.procs[e.pid].job, topic)
    then [e.answer] else []
  }

  // The answers to all posts of a run, in order.
  function Replies(s: State, run: seq<Event>, topic: Topic): seq<Answer>
    decreases |run|
  {
    if run == [] then [] else Replied(s, run[0], topic) + Replies(Apply(s, run[0]), run[1..], topic)
  }

  ghost predicate RowAnswer(s: State, replies: seq<Answer>, key: Key) {
    && |replies| == CardsOn(s.posts, key)
    && (replies != [] ==>
          && key in s.outbox && (s.outbox[key].Sending? || Reports(s.outbox[key], replies[0]))
          && forall p :: Owns(s, p, key) ==> s.procs[p].phase.Finish? && Reports(s.procs[p].phase.status, replies[0]))
  }

  ghost predicate ClaimAnswer(s: State, replies: seq<Answer>, fp: Fingerprint) {
    && |replies| == CardsFor(s.posts, fp)
    && (replies != [] ==>
          && fp in s.claims && (s.claims[fp].status.Sending? || Reports(s.claims[fp].status, replies[0]))
          && forall p :: Holds(s, p, fp) ==> Done(s.procs[p].phase) && Reports(s.procs[p].phase.status, replies[0]))
  }

  // After the request, the next statement records how it was answered.
  lemma SendReports(s: State, job: Job, phase: Phase, a: Answer)
    ensures var d := Decide(s, job, phase, a);
            && (d.write.Post? <==> phase.Send?)
            && (phase.Send? ==> d.write == Post(job) && d.next.Some? && d.next.value.Finish? && Reports(d.next.value.status, a))
  {
  }

  // No statement changes the status it carries.
  lemma StatusCarried(s: State, job: Job, phase: Phase, a: Answer)
    requires Done(phase)
    ensures var d := Decide(s, job, phase, a);
            && (d.write.WriteRow? ==> phase.Finish? && d.write.row == phase.status)
            && (d.write.WriteClaim? ==> phase.Report? && d.write.claim.status == phase.status)
            && (d.next.Some? ==> Done(d.next.value) && d.next.value.status == phase.status)
  {
  }

  // The post itself is the first of its key, and its process records the answer next.
  lemma RowPosted(s: State, p: Pid, a: Answer, replies: seq<Answer>, key: Key)
    requires p in s.procs && RowInv(s, key) && RowAnswer(s, replies, key)
    requires s.procs[p].phase.Send? && s.procs[p].job.key == key
    ensures RowAnswer(Apply(s, Step(p, a)), replies + [a], key)
  {
    var job, t := s.procs[p].job, Apply(s, Step(p, a));
    SendReports(s, job, Send, a);
    PostCounted(s.posts, job, key, "");
    assert Owns(s, p, key) && replies == [];
    forall q | Owns(t, q, key) ensures q == p {
      assert q != p ==> Owns(s, q, key);
    }
  }

  // Any other statement: the owner of a posted row writes the status it carries, nobody else writes it.
  lemma RowAnswered(s: State, p: Pid, a: Answer, replies: seq<Answer>, key: Key)
    requires p in s.procs && RowInv(s, key) && RowAnswer(s, replies, key)
    requires !(s.procs[p].phase.Send? && s.procs[p].job.key == key)
    ensures RowAnswer(Apply(s, Step(p, a)), replies, key)
  {
    var job, phase, t := s.procs[p].job, s.procs[p].phase, Apply(s, Step(p, a));
    var d := Decide(s, job, phase, a);
    SendReports(s, job, phase, a);
    DecisionRowLegal(s, job, phase, a);
    PostCounted(s.posts, job, key, "");
    if replies != [] {
      if Owns(s, p, key) {
        StatusCarried(s, job, phase, a);
      } else if !(d.write.WriteRow? && d.write.key == key) {
        RowFrame(s, d.write, key);
      }
      forall q | Owns(t, q, key) ensures t.procs[q].phase.Finish? && Reports(t.procs[q].phase.status, replies[0]) {
        assert q != p ==> Owns(s, q, key) && t.procs[q] == s.procs[q];
      }
    }
  }

  // A statement without the claim leaves a posted one as it is: it is no longer blocked.
  lemma ClaimFrame(s: State, w: Write, fp: Fingerprint)
    requires !(w.WriteClaim? && w.fp == fp)
    ensures var t := Commit(s, w);
            (fp in t.claims <==> fp in s.claims) && (fp in s.claims ==> t.claims[fp] == s.claims[fp])
  {
  }

  lemma ClaimPosted(s: State, p: Pid, a: Answer, replies: seq<Answer>, fp: Fingerprint)
    requires p in s.procs && ClaimInv(s, fp) && ClaimAnswer(s, replies, fp)
    requires s.procs[p].phase.Send? && Concerns(s.procs[p].job, OnPlan(fp))
    ensures ClaimAnswer(Apply(s, Step(p, a)), replies + [a], fp)
  {
    var job, t := s.procs[p].job, Apply(s, Step(p, a));
    SendReports(s, job, Send, a);
    PostCounted(s.posts, job, "", fp);
    assert Holds(s, p, fp) && replies == [];
    forall q | Holds(t, q, fp) ensures q == p {
      assert q != p ==> Holds(s, q, fp);
    }
  }

  lemma ClaimAnswered(s: State, p: Pid, a: Answer, replies: seq<Answer>, fp: Fingerprint)
    requires p in s.procs && ClaimInv(s, fp) && ClaimAnswer(s, replies, fp)
    requires !(s.procs[p].phase.Send? && Concerns(s.procs[p].job, OnPlan(fp)))
    ensures ClaimAnswer(Apply(s, Step(p, a)), replies, fp)
  {
    var job, phase, t := s.procs[p].job, s.procs[p].phase, Apply(s, Step(p, a));
    var d := Decide(s, job, phase, a);
    SendReports(s, job, phase, a);
    DecisionClaimLegal(s, job, phase, a);
    PostCounted(s.posts, job, "", fp);
    if replies != [] {
      if Holds(s, p, fp) {
        StatusCarried(s, job, phase, a);
      } else {
        ClaimFrame(s, d.write, fp);
      }
      forall q | Holds(t, q, fp) ensures Done(t.procs[q].phase) && Reports(t.procs[q].phase.status, replies[0]) {
        assert q != p ==> Holds(s, q, fp) && t.procs[q] == s.procs[q];
      }
    }
  }

  lemma RowAnswersStep(s: State, e: Event, key: Key, replies: seq<Answer>)
    requires RowInv(s, key) && RowAnswer(s, replies, key)
    ensures RowAnswer(Apply(s, e), replies + Replied(s, e, OnKey(key)), key)
  {
    assert replies + [] == replies;
    if e.Step? && e.pid in s.procs {
      if s.procs[e.pid].phase.Send? && s.procs[e.pid].job.key == key {
        RowPosted(s, e.pid, e.answer, replies, key);
      } else {
        RowAnswered(s, e.pid, e.answer, replies, key);
      }
    } else {
      assert forall q :: Owns(Apply(s, e), q, key) ==> Owns(s, q, key) && Apply(s, e).procs[q] == s.procs[q];
    }
  }

  lemma ClaimAnswersStep(s: State, e: Event, fp: Fingerprint, replies: seq<Answer>)
    requires ClaimInv(s, fp) && ClaimAnswer(s, replies, fp)
    ensures ClaimAnswer(Apply(s, e), replies + Replied(s, e, OnPlan(fp)), fp)
  {
    assert replies + [] == replies;
    if e.Step? && e.pid in s.procs {
      if s.procs[e.pid].phase.Send? && Concerns(s.procs[e.pid].job, OnPlan(fp)) {
        ClaimPosted(s, e.pid, e.answer, replies, fp);
      } else {
        ClaimAnswered(s, e.pid, e.answer, replies, fp);
      }
    } else {
      assert forall q :: Holds(Apply(s, e), q, fp) ==> Holds(s, q, fp) && Apply(s, e).procs[q] == s.procs[q];
    }
  }

  lemma RepliesUnfold(s: State, run: seq<Event>, topic: Topic, before: seq<Answer>)
    requires run != []
    ensures before + Replies(s, run, topic) ==
            before + Replied(s, run[0], topic) + Replies(Apply(s, run[0]), run[1..], topic)
  {
  }

  lemma {:induction false} RowAnswersRun(s: State, run: seq<Event>, key: Key, replies: seq<Answer>)
    requires RowInv(s, key) && RowAnswer(s, replies, key)
    ensures RowAnswer(Run(s, run), replies + Replies(s, run, OnKey(key)), key)
    decreases |run|
  {
    if run == [] {
      assert replies + [] == replies;
    } else {
      RowStep(s, run[0], key);
      RowAnswersStep(s, run[0], key, replies);
      RowAnswersRun(Apply(s, run[0]), run[1..], key, replies + Replied(s, run[0], OnKey(key)));
      RepliesUnfold(s, run, OnKey(key), replies);
    }
  }

  lemma {:induction false} ClaimAnswersRun(s: State, run: seq<Event>, fp: Fingerprint, replies: seq<Answer>)
    requires ClaimInv(s, fp) && ClaimAnswer(s, replies, fp)
    ensures ClaimAnswer(Run(s, run), replies + Replies(s, run, OnPlan(fp)), fp)
    decreases |run|
  {
    if run == [] {
      assert replies + [] == replies;
    } else {
      ClaimStep(s, run[0], fp);
      ClaimAnswersStep(s, run[0], fp, replies);
      ClaimAnswersRun(Apply(s, run[0]), run[1..], fp, replies + Replied(s, run[0], OnPlan(fp)));
      RepliesUnfold(s, run, OnPlan(fp), replies);
    }
  }

  /** Over every run, a recorded row tells the truth about its post: it says sent exactly when the one
      post of its key was answered with a code in 200..299, rate-limited exactly for 429, rejected
      exactly for any other code, and a post without an answer stays uncertain. */
  lemma RowTellsTheAnswer(run: seq<Event>, key: Key)
    ensures var s, replies := Run(INIT, run), Replies(INIT, run, OnKey(key));
            && |replies| == CardsOn(s.posts, key) <= 1
            && (replies != [] ==> key in s.outbox && (s.outbox[key].Sending? || Reports(s.outbox[key], replies[0])))
            && (replies == [] && key in s.outbox ==>
                  !s.outbox[key].Sent? && !s.outbox[key].RateLimited? && !s.outbox[key].Rejected?)
  {
    RowAnswersRun(INIT, run, key, []);
    RunKeepsInvariant(INIT, run, key, "");
    TruthRun(INIT, run, key);
    assert [] + Replies(INIT, run, OnKey(key)) == Replies(INIT, run, OnKey(key));
  }

  /** And so does the claim of its fingerprint. */
  lemma ClaimTellsTheAnswer(run: seq<Event>, fp: Fingerprint)
    ensures var s, replies := Run(INIT, run), Replies(INIT, run, OnPlan(fp));
            && |replies| == CardsFor(s.posts, fp) <= 1
            && (replies != [] ==> fp in s.claims && (s.claims[fp].status.Sending? || Reports(s.claims[fp].status, replies[0])))
  {
    ClaimAnswersRun(INIT, run, fp, []);
    RunKeepsInvariant(INIT, run, "", fp);
    assert [] + Replies(INIT, run, OnPlan(fp)) == Replies(INIT, run, OnPlan(fp));
  }

  /** A card that may be on Discord, accepted or without an answer, keeps suppressing its siblings: no
      continuation inserts the claim of a setup that sees the claiming one. */
  lemma PossibleCardBlocksSiblings(run: seq<Event>, fp: Fingerprint, job: Job, others: set<Signal>)
    requires job.Initial? && CardsFor(Run(INIT, run).posts, fp) > 0
    requires var a := Replies(INIT, run, OnPlan(fp)); a != [] ==> !a[0].Http? || 200 <= a[0].code <= 299
    requires fp in Run(INIT, run).claims ==> Run(INIT, run).claims[fp].signal in others - {job.signal}
    ensures var s := Run(INIT, run); job.fp !in s.claims ==> !ClaimGranted(s.claims, s.flags, job, others)
  {
    var s := Run(INIT, run);
    ClaimTellsTheAnswer(run, fp);
    assert s.claims[fp].signal in others && Live(s.claims[fp].status);
  }

  // ---------------------------------------------------------------- one process alone

  // The durable records d with one process at phase ph.
  function At(d: State, p: Pid, job: Job, ph: Phase): State {
    d.(procs := map[p := Proc(job, ph)])
  }

  // Where the process is after a decision: at its next phase, or gone.
  function Beyond(d: State, p: Pid, job: Job, next: Option<Phase>): State {
    if next.Some? then At(d, p, job, next.value) else d.(procs := map[])
  }

  lemma RunOne(s: State, e: Event)
    ensures Run(s, [e]) == Apply(s, e)
  {
    assert [e][1..] == [];
  }

  // The same statement, with and without the process in the records.
  lemma AloneDecides(d: State, p: Pid, job: Job, ph: Phase, a: Answer)
    ensures Decide(At(d, p, job, ph), job, ph, a) == Decide(d, job, ph, a)
  {
  }

  lemma AloneContinues(d: State, p: Pid, job: Job, ph: Phase, w: Write, next: Option<Phase>)
    ensures Continue(At(d, p, job, ph), p, Decision(w, next)) == Beyond(Commit(d, w), p, job, next)
  {
    var s := At(d, p, job, ph);
    assert s.procs - {p} == map[];
    assert next.Some? ==> s.procs[p := Proc(job, next.value)] == map[p := Proc(job, next.value)];
  }

  lemma Follow(start: State, run: seq<Event>, d: State, p: Pid, job: Job, ph: Phase, a: Answer,
               w: Write, next: Option<Phase>) returns (longer: seq<Event>)
    requires Run(start, run) == At(d, p, job, ph)
    requires Decide(d, job, ph, a) == Decision(w, next)
    ensures longer == run + [Step(p, a)]
    ensures Run(start, longer) == Beyond(Commit(d, w), p, job, next)
  {
    longer := run + [Step(p, a)];
    RunAppend(start, run, [Step(p, a)]);
    RunOne(At(d, p, job, ph), Step(p, a));
    AloneDecides(d, p, job, ph, a);
    AloneContinues(d, p, job, ph, w, next);
  }
}
