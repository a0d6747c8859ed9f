// Two setups can be one execution event and still have different fingerprints.
// For a setup of the current policy, identity.claim consults the active members of that
// event before it inserts a claim, but not before it re-arms a blocked one. This module
// states exactly when the event stays exclusive and gives a run in which both cards go out.
module ExecutionEvents {
  import opened Common
  import opened Delivery

  // Two setups a and b may carry different fingerprints and still be the same execution event.
  predicate LiveClaim(claims: map<Fingerprint, Claim>, a: Signal) {
    exists fp :: fp in claims && claims[fp].signal == a && Live(claims[fp].status)
  }

  predicate BothLive(s: State, a: Signal, b: Signal) {
    LiveClaim(s.claims, a) && LiveClaim(s.claims, b)
  }

  // The claim statement of `signal`, the only one that consults the execution event.
  predicate ClaimsNow(s: State, e: Event, signal: Signal) {
    && e.Step? && e.pid in s.procs && s.procs[e.pid].phase.Ready?
    && s.procs[e.pid].job.Initial? && s.procs[e.pid].job.signal == signal
  }

  // Every claim of one of the two setups sees the other as a sibling.
  predicate Recognised(s: State, e: Event, a: Signal, b: Signal) {
    && (ClaimsNow(s, e, a) ==> b in Seen(s.procs[e.pid].job, e.answer))
    && (ClaimsNow(s, e, b) ==> a in Seen(s.procs[e.pid].job, e.answer))
  }

  // The claim of x is granted although the claim of y is live.
  predicate GrantedBeside(s: State, e: Event, x: Signal, y: Signal) {
    && ClaimsNow(s, e, x) && LiveClaim(s.claims, y)
    && ClaimGranted(s.claims, s.flags, s.procs[e.pid].job, Seen(s.procs[e.pid].job, e.answer))
  }

  predicate Bypasses(s: State, e: Event, a: Signal, b: Signal) {
    GrantedBeside(s, e, a, b) || GrantedBeside(s, e, b, a)
  }

  /** The only ways past a live sibling: a claim that is re-armed, a setup of another policy, or a
      sibling that is not among the active members the scan lists. */
  lemma WaysPast(s: State, e: Event, x: Signal, y: Signal)
    requires x != y && GrantedBeside(s, e, x, y)
    ensures var job := s.procs[e.pid].job;
            Rearmed(s.claims, s.flags, job) || !job.v22 || !(e.answer.Siblings? && y in e.answer.others)
  {
    var job := s.procs[e.pid].job;
    if !Rearmed(s.claims, s.flags, job) && y in Seen(job, e.answer) {
      SiblingBlocksInsert(s, job, Seen(job, e.answer), y);
    }
  }

  // The blocked claim of x is re-armed although the claim of y is live.
  predicate RearmedBeside(s: State, e: Event, x: Signal, y: Signal) {
    ClaimsNow(s, e, x) && LiveClaim(s.claims, y) && Rearmed(s.claims, s.flags, s.procs[e.pid].job)
  }

  lemma RecognisedOnlyRearms(s: State, e: Event, a: Signal, b: Signal)
    requires a != b && Recognised(s, e, a, b)
    ensures Bypasses(s, e, a, b) <==> RearmedBeside(s, e, a, b) || RearmedBeside(s, e, b, a)
  {
    if GrantedBeside(s, e, a, b) {
      WaysPast(s, e, a, b);
    }
    if GrantedBeside(s, e, b, a) {
      WaysPast(s, e, b, a);
    }
  }

  predicate RecognisedRun(s: State, run: seq<Event>, a: Signal, b: Signal)
    decreases |run|
  {
    run != [] ==> Recognised(s, run[0], a, b) && RecognisedRun(Apply(s, run[0]), run[1..], a, b)
  }

  predicate NoBypass(s: State, run: seq<Event>, a: Signal, b: Signal)
    decreases |run|
  {
    run != [] ==> !Bypasses(s, run[0], a, b) && NoBypass(Apply(s, run[0]), run[1..], a, b)
  }

  predicate NoRearmBeside(s: State, run: seq<Event>, a: Signal, b: Signal)
    decreases |run|
  {
    run != [] ==>
      && !RearmedBeside(s, run[0], a, b) && !RearmedBeside(s, run[0], b, a)
      && NoRearmBeside(Apply(s, run[0]), run[1..], a, b)
  }

  predicate NeverBothLive(s: State, run: seq<Event>, a: Signal, b: Signal)
    decreases |run|
  {
    && !BothLive(s, a, b)
    && (run != [] ==> NeverBothLive(Apply(s, run[0]), run[1..], a, b))
  }

  // A granted claim makes its own setup live and leaves every other setup as it was.
  lemma GrantMakesLive(s: State, job: Job, others: set<Signal>, x: Signal)
    requires job.Initial? && ClaimGranted(s.claims, s.flags, job, others)
    ensures var claims := s.claims[job.fp := Claim(job.signal, Sending)];
            && LiveClaim(claims, job.signal)
            && (x != job.signal ==> LiveClaim(claims, x) == LiveClaim(s.claims, x))
  {
    var claims := s.claims[job.fp := Claim(job.signal, Sending)];
    assert claims[job.fp].signal == job.signal;
    if x != job.signal && LiveClaim(s.claims, x) {
      var fp :| fp in s.claims && s.claims[fp].signal == x && Live(s.claims[fp].status);
      assert claims[fp].signal == x;
    }
  }

  lemma SiblingBlocksInsert(s: State, job: Job, others: set<Signal>, b: Signal)
    requires job.Initial? && b in others && b != job.signal && LiveClaim(s.claims, b)
    ensures ClaimGranted(s.claims, s.flags, job, others) <==> Rearmed(s.claims, s.flags, job)
  {
  }

  lemma EventStep(s: State, e: Event, a: Signal, b: Signal)
    requires a != b && !BothLive(s, a, b)
    requires forall fp :: ClaimInv(s, fp)
    ensures BothLive(Apply(s, e), a, b) <==> Bypasses(s, e, a, b)
  {
    if e.Step? && e.pid in s.procs {
      var pr := s.procs[e.pid];
      DecisionClaimLegal(s, pr.job, pr.phase, e.answer);
      if pr.phase.Ready? && pr.job.Initial? {
        ClaimStatement(s, e.pid, e.answer, a, b);
      } else if Decide(s, pr.job, pr.phase, e.answer).write.WriteClaim? {
        assert ClaimInv(s, pr.job.fp) && Holds(s, e.pid, pr.job.fp);
        ReportAddsNoLife(s, pr.job.fp, pr.phase.status, a);
        ReportAddsNoLife(s, pr.job.fp, pr.phase.status, b);
      }
    }
  }

  lemma ClaimStatement(s: State, p: Pid, answer: Answer, a: Signal, b: Signal)
    requires p in s.procs && s.procs[p].phase.Ready? && s.procs[p].job.Initial?
    requires a != b && !BothLive(s, a, b)
    ensures BothLive(Apply(s, Step(p, answer)), a, b) <==> Bypasses(s, Step(p, answer), a, b)
  {
    var job := s.procs[p].job;
    if ClaimGranted(s.claims, s.flags, job, Seen(job, answer)) {
      GrantMakesLive(s, job, Seen(job, answer), a);
      GrantMakesLive(s, job, Seen(job, answer), b);
    }
  }

  lemma ReportAddsNoLife(s: State, fp: Fingerprint, status: Status, x: Signal)
    requires fp in s.claims && s.claims[fp].status == Sending
    ensures LiveClaim(s.claims[fp := Claim(s.claims[fp].signal, status)], x) ==> LiveClaim(s.claims, x)
  {
    var claims := s.claims[fp := Claim(s.claims[fp].signal, status)];
    if LiveClaim(claims, x) {
      var f :| f in claims && claims[f].signal == x && Live(claims[f].status);
      assert s.claims[f].signal == x && Live(s.claims[f].status);
    }
  }

  /** The claims of two setups are never live together exactly when none is granted beside the other,
      and WaysPast says how that happens: for two setups that the scan recognises as one execution
      event, only by re-arming, since the retry skips the event check. */
  lemma {:induction false} EventExclusion(s: State, run: seq<Event>, a: Signal, b: Signal)
    requires a != b && !BothLive(s, a, b)
    requires forall fp :: ClaimInv(s, fp)
    ensures NeverBothLive(s, run, a, b) <==> NoBypass(s, run, a, b)
    decreases |run|
  {
    if run != [] {
      var t := Apply(s, run[0]);
      EventStep(s, run[0], a, b);
      forall fp ensures ClaimInv(t, fp) { ClaimStep(s, run[0], fp); }
      if !BothLive(t, a, b) {
        EventExclusion(t, run[1..], a, b);
      } else {
        assert !NeverBothLive(t, run[1..], a, b);
      }
    }
  }

  lemma {:induction false} RecognisedBypasses(s: State, run: seq<Event>, a: Signal, b: Signal)
    requires a != b && RecognisedRun(s, run, a, b)
    ensures NoBypass(s, run, a, b) <==> NoRearmBeside(s, run, a, b)
    decreases |run|
  {
    if run != [] {
      RecognisedOnlyRearms(s, run[0], a, b);
      RecognisedBypasses(Apply(s, run[0]), run[1..], a, b);
    }
  }

  /** Two setups that recognise each other as one event throughout a run are never live together exactly
      when neither is re-armed beside the other's live claim. */
  lemma RecognisedExclusion(s: State, run: seq<Event>, a: Signal, b: Signal)
    requires a != b && !BothLive(s, a, b) && RecognisedRun(s, run, a, b)
    requires forall fp :: ClaimInv(s, fp)
    ensures NeverBothLive(s, run, a, b) <==> NoRearmBeside(s, run, a, b)
  {
    EventExclusion(s, run, a, b);
    RecognisedBypasses(s, run, a, b);
  }

  // ---------------------------------------------------------------- a run that posts both cards

  const CARD_A := Initial("research:a:initial", "a", "fp-a", true)
  const CARD_B := Initial("research:b:initial", "b", "fp-b", true)

  lemma {:induction false} RecognisedAppend(s: State, run: seq<Event>, e: Event, a: Signal, b: Signal)
    requires RecognisedRun(s, run, a, b) && Recognised(Run(s, run), e, a, b)
    ensures RecognisedRun(s, run + [e], a, b)
    ensures Run(s, run + [e]) == Apply(Run(s, run), e)
    decreases |run|
  {
    if run == [] {
      assert run + [e] == [e] && [e][1..] == [];
    } else {
      assert (run + [e])[0] == run[0] && (run + [e])[1..] == run[1..] + [e];
      RecognisedAppend(Apply(s, run[0]), run[1..], e, a, b);
    }
  }

  ghost predicate Reached(run: seq<Event>, s: State) {
    Run(INIT, run) == s && RecognisedRun(INIT, run, "a", "b")
  }

  // Append the next statement of the one running process.
  lemma Hop(run: seq<Event>, d: State, p: Pid, job: Job, ph: Phase, a: Answer, w: Write, next: Phase)
    returns (longer: seq<Event>)
    requires Reached(run, At(d, p, job, ph)) && !ph.Ready?
    requires Decide(d, job, ph, a) == Decision(w, Some(next))
    ensures Reached(longer, At(Commit(d, w), p, job, next))
  {
    longer := run + [Step(p, a)];
    RecognisedAppend(INIT, run, Step(p, a), "a", "b");
    Moves(d, p, job, ph, a, w, next);
  }

  // Where one statement leaves the records and its process.
  lemma Moves(d: State, p: Pid, job: Job, ph: Phase, a: Answer, w: Write, next: Phase)
    requires Decide(d, job, ph, a) == Decision(w, Some(next))
    ensures Apply(At(d, p, job, ph), Step(p, a)) == At(Commit(d, w), p, job, next)
  {
    AloneDecides(d, p, job, ph, a);
    AloneContinues(d, p, job, ph, w, Some(next));
  }

  // Start a setup and grant its claim.
  lemma Begin(run: seq<Event>, d: State, p: Pid, job: Job, others: set<Signal>) returns (longer: seq<Event>)
    requires Reached(run, d) && d.procs == map[]
    requires job.Initial? && job.v22 && ClaimGranted(d.claims, d.flags, job, others)
    requires "a" in others && "b" in others
    ensures Reached(longer, At(d.(claims := d.claims[job.fp := Claim(job.signal, Sending)]), p, job, Look))
  {
    RecognisedAppend(INIT, run, Start(p, job), "a", "b");
    var s := At(d, p, job, Ready);
    assert Apply(d, Start(p, job)) == s;
    var e := Step(p, Siblings(others));
    RecognisedAppend(INIT, run + [Start(p, job)], e, "a", "b");
    longer := run + [Start(p, job)] + [e];
  }

  // The final claim update, after which the process is gone.
  lemma End(run: seq<Event>, d: State, p: Pid, job: Job, status: Status) returns (longer: seq<Event>)
    requires Reached(run, At(d, p, job, Report(status))) && d.procs == map[]
    requires job.Initial? && job.fp in d.claims
    ensures Reached(longer, d.(claims := d.claims[job.fp := Claim(d.claims[job.fp].signal, status)]))
  {
    longer := run + [Step(p, Go)];
    RecognisedAppend(INIT, run, Step(p, Go), "a", "b");
  }

  // Take the outbox row and disarm the dispatch flag.
  lemma TakeRow(run: seq<Event>, d: State, p: Pid, job: Job, retry: bool) returns (longer: seq<Event>)
    requires Reached(run, At(d, p, job, Guard(retry))) && RowTaken(d.outbox, job.key, retry) && job.Initial? && job.v22
    ensures Reached(longer, At(d.(outbox := d.outbox[job.key := Sending], flags := d.flags[job.signal := false]), p, job, Check))
  {
    longer := Hop(run, d, p, job, Guard(retry), Go, Nothing, Take(retry));
    longer := Hop(longer, d, p, job, Take(retry), Go, WriteRow(job.key, Sending), Arm);
    longer := Hop(longer, d.(outbox := d.outbox[job.key := Sending]), p, job, Arm, Go, WriteFlag(job.signal, false), Check);
  }

  // Pass every guard up to the request.
  lemma ClearCard(run: seq<Event>, d: State, p: Pid, job: Job) returns (longer: seq<Event>)
    requires Reached(run, At(d, p, job, Check)) && job.Initial? && job.v22
    ensures Reached(longer, At(d.(flags := d.flags[job.signal := true]), p, job, Send))
  {
    longer := Hop(run, d, p, job, Check, Go, Nothing, Mark);
    longer := Hop(longer, d, p, job, Mark, Go, WriteFlag(job.signal, true), Recheck);
    longer := Hop(longer, d.(flags := d.flags[job.signal := true]), p, job, Recheck, Go, Nothing, Send);
  }

  // Pass every guard, post, and record the answer.
  lemma PostCard(run: seq<Event>, d: State, p: Pid, job: Job) returns (longer: seq<Event>)
    requires Reached(run, At(d, p, job, Check)) && job.Initial? && job.v22
    ensures Reached(longer, At(d.(flags := d.flags[job.signal := true], posts := d.posts + [job],
                                  outbox := d.outbox[job.key := Sent]), p, job, Report(Sent)))
  {
    longer := ClearCard(run, d, p, job);
    var marked := d.(flags := d.flags[job.signal := true]);
    longer := Hop(longer, marked, p, job, Send, Http(200), Post(job), Finish(Sent));
    longer := Hop(longer, marked.(posts := d.posts + [job]), p, job, Finish(Sent), Go, WriteRow(job.key, Sent), Report(Sent));
  }

  // a is claimed and blocked by the last guards: "blocked:stale".
  lemma BlockedAttempt() returns (run: seq<Event>, d: State)
    ensures Reached(run, d) && d.procs == map[] && d.posts == []
    ensures d.claims == map["fp-a" := Claim("a", Reason("blocked:stale"))]
    ensures d.outbox == map[CARD_A.key := Reason("blocked:stale")]
    ensures d.flags == map["a" := false]
  {
    d := INIT;
    assert !EconomicDuplicate(d.claims, "a", {"a", "b"});
    run := Begin([], d, 0, CARD_A, {"a", "b"});
    d := d.(claims := d.claims["fp-a" := Claim("a", Sending)]);
    run := Hop(run, d, 0, CARD_A, Look, Go, Nothing, Guard(false));
    run := TakeRow(run, d, 0, CARD_A, false);
    d := d.(outbox := d.outbox[CARD_A.key := Sending], flags := d.flags["a" := false]);
    var stale := Reason("blocked:stale");
    run := Hop(run, d, 0, CARD_A, Check, Block("blocked:stale"), Nothing, Finish(stale));
    run := Hop(run, d, 0, CARD_A, Finish(stale), Go, WriteRow(CARD_A.key, stale), Report(stale));
    d := d.(outbox := d.outbox[CARD_A.key := stale]);
    run := End(run, d, 0, CARD_A, stale);
    d := d.(claims := d.claims["fp-a" := Claim("a", stale)]);
  }

  const BLOCKED_CLAIM := Claim("a", Reason("blocked:stale"))

  // b, the same event, takes its row: the claim of a is blocked, so it does not count.
  lemma SiblingTakesRow() returns (run: seq<Event>, d: State)
    ensures Reached(run, At(d, 1, CARD_B, Check)) && d.procs == map[] && d.posts == []
    ensures d.claims == map["fp-a" := BLOCKED_CLAIM, "fp-b" := Claim("b", Sending)]
    ensures CARD_A.key in d.outbox && d.outbox[CARD_A.key] == Reason("blocked:stale")
    ensures "a" in d.flags && !d.flags["a"]
  {
    run, d := BlockedAttempt();
    assert CARD_A.key[9] != CARD_B.key[9];
    assert !EconomicDuplicate(d.claims, "b", {"a", "b"});
    run := Begin(run, d, 1, CARD_B, {"a", "b"});
    d := d.(claims := d.claims["fp-b" := Claim("b", Sending)]);
    run := Hop(run, d, 1, CARD_B, Look, Go, Nothing, Guard(false));
    run := TakeRow(run, d, 1, CARD_B, false);
    d := d.(outbox := d.outbox[CARD_B.key := Sending], flags := d.flags["b" := false]);
  }

  // And is sent.
  lemma SiblingSent() returns (run: seq<Event>, d: State)
    ensures Reached(run, d) && d.procs == map[] && d.posts == [CARD_B]
    ensures d.claims == map["fp-a" := BLOCKED_CLAIM, "fp-b" := Claim("b", Sent)]
    ensures CARD_A.key in d.outbox && d.outbox[CARD_A.key] == Reason("blocked:stale")
    ensures "a" in d.flags && !d.flags["a"]
  {
    run, d := SiblingTakesRow();
    assert CARD_A.key[9] != CARD_B.key[9];
    run := PostCard(run, d, 1, CARD_B);
    d := d.(flags := d.flags["b" := true], posts := d.posts + [CARD_B], outbox := d.outbox[CARD_B.key := Sent]);
    run := End(run, d, 1, CARD_B, Sent);
    d := d.(claims := d.claims["fp-b" := Claim("b", Sent)]);
  }

  // a is re-armed beside the live claim of b, and retries its row.
  lemma RetryTakesRow() returns (run: seq<Event>, d: State)
    ensures Reached(run, At(d, 2, CARD_A, Check)) && d.procs == map[] && d.posts == [CARD_B]
    ensures d.claims == map["fp-a" := Claim("a", Sending), "fp-b" := Claim("b", Sent)]
  {
    run, d := SiblingSent();
    assert Rearmed(d.claims, d.flags, CARD_A);
    run := Begin(run, d, 2, CARD_A, {"a", "b"});
    d := d.(claims := d.claims["fp-a" := Claim("a", Sending)]);
    run := Hop(run, d, 2, CARD_A, Look, Go, Nothing, LookFlag);
    run := Hop(run, d, 2, CARD_A, LookFlag, Go, Nothing, Guard(true));
    run := TakeRow(run, d, 2, CARD_A, true);
    d := d.(outbox := d.outbox[CARD_A.key := Sending], flags := d.flags["a" := false]);
  }

  // And is sent.
  lemma RetrySent() returns (run: seq<Event>, d: State)
    ensures Reached(run, d) && d.posts == [CARD_B, CARD_A]
    ensures d.claims == map["fp-a" := Claim("a", Sent), "fp-b" := Claim("b", Sent)]
  {
    run, d := RetryTakesRow();
    run := PostCard(run, d, 2, CARD_A);
    d := d.(flags := d.flags["a" := true], posts := d.posts + [CARD_A], outbox := d.outbox[CARD_A.key := Sent]);
    run := End(run, d, 2, CARD_A, Sent);
    d := d.(claims := d.claims["fp-a" := Claim("a", Sent)]);
  }

  /** A retry posts a second card for one execution event: every claim named the sibling,
      yet both setups end sent. */
  lemma RetryBypassesTheEventCheck() returns (run: seq<Event>)
    ensures RecognisedRun(INIT, run, "a", "b")
    ensures BothLive(Run(INIT, run), "a", "b")
    ensures Run(INIT, run).posts == [CARD_B, CARD_A]
    ensures !NoBypass(INIT, run, "a", "b")
  {
    var d;
    run, d := RetrySent();
    assert d.claims["fp-a"] == Claim("a", Sent) && d.claims["fp-b"] == Claim("b", Sent);
    if NeverBothLive(INIT, run, "a", "b") {
      NeverMeansNotNow(INIT, run, "a", "b");
    }
    EventExclusion(INIT, run, "a", "b");
  }

  lemma {:induction false} NeverMeansNotNow(s: State, run: seq<Event>, a: Signal, b: Signal)
    requires NeverBothLive(s, run, a, b)
    ensures !BothLive(Run(s, run), a, b)
    decreases |run|
  {
    if run != [] {
      NeverMeansNotNow(Apply(s, run[0]), run[1..], a, b);
    }
  }
}
