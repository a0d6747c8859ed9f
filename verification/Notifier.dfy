// The delivery methods in the source's own form: one process updating the claim
// table, the outbox and the dispatch flags statement by statement. Each method is
// tied to the step relation of module Delivery by the ghost run it returns.
module Notifications {
  import opened Common
  import opened Delivery

  // The row is free, or blocked with its dispatch flag still false.
  predicate Available(outbox: map<Key, Status>, flags: map<Signal, bool>, job: Job) {
    || job.key !in outbox
    || (job.Initial? && job.v22 && StartsBlocked(outbox[job.key]) && job.signal in flags && !flags[job.signal])
  }

  predicate Passes(a: Answer) {
    !a.Block? && !a.Raise?
  }

  // The guards after the row is taken all let the card through.
  predicate Cleared(job: Job, check: Answer, recheck: Answer) {
    job.Initial? ==> Passes(check) && (job.v22 ==> Passes(recheck))
  }

  // Python's prefix test is stricter than SQLite's pattern.
  lemma StartsIsLike(s: Status)
    ensures StartsBlocked(s) ==> LikeBlocked(s)
  {
    if StartsBlocked(s) {
      forall i | 0 <= i < |BLOCKED| ensures Lower(s.text[i]) == BLOCKED[i] {
        assert s.text[i] == BLOCKED[i];
      }
    }
  }

  class Notifier {
    var claims: map<Fingerprint, Claim>
    var outbox: map<Key, Status>
    var flags: map<Signal, bool>
    var posts: seq<Job>

    constructor ()
      ensures Durable() == INIT
    {
      claims, outbox, flags, posts := map[], map[], map[], [];
    }

    // The three records and the requests sent so far.
    function Durable(): State
      reads this
    {
      State(claims, outbox, flags, map[], posts)
    }

    method PutFlag(job: Job, value: bool)
      modifies this`flags
      ensures flags == if job.Initial? && job.v22 then old(flags)[job.signal := value] else old(flags)
    {
      if job.Initial? && job.v22 {
        flags := flags[job.signal := value];
      }
    }

    // The lookup of deliver: the row is free, retryable, or already attempted.
    method Look(job: Job, ghost start: State, ghost before: seq<Event>)
      returns (free: bool, retry: bool, ghost run: seq<Event>)
      requires Run(start, before) == At(Durable(), 0, job, Phase.Look)
      ensures free ==> Run(start, run) == At(Durable(), 0, job, if job.Initial? then Guard(retry) else Take(false))
      ensures !free ==> Run(start, run) == Beyond(Durable(), 0, job, Returned(job, AlreadyAttempted))
      ensures free <==> Available(outbox, flags, job)
      ensures free ==> (retry <==> job.key in outbox) && RowTaken(outbox, job.key, retry) && (job.Update? ==> !retry)
    {
      if job.key in outbox {
        StartsIsLike(outbox[job.key]);
      }
      var next := if job.Initial? then Guard(false) else Take(false);
      if job.key !in outbox {
        run := Follow(start, before, Durable(), 0, job, Phase.Look, Go, Nothing, Some(next));
        return true, false, run;
      }
      if !(job.Initial? && job.v22 && StartsBlocked(outbox[job.key])) {
        run := Follow(start, before, Durable(), 0, job, Phase.Look, Go, Nothing, Returned(job, AlreadyAttempted));
        return false, false, run;
      }
      run := Follow(start, before, Durable(), 0, job, Phase.Look, Go, Nothing, Some(LookFlag));
      if job.signal in flags && !flags[job.signal] {
        run := Follow(start, run, Durable(), 0, job, LookFlag, Go, Nothing, Some(Guard(true)));
        return true, true, run;
      }
      run := Follow(start, run, Durable(), 0, job, LookFlag, Go, Nothing, Returned(job, AlreadyAttempted));
      return false, false, run;
    }

    // Insert the row, or compare-and-set a blocked one, and disarm the dispatch flag.
    method TakeRow(job: Job, retry: bool, ghost start: State, ghost before: seq<Event>)
      returns (taken: bool, ghost run: seq<Event>)
      requires Run(start, before) == At(Durable(), 0, job, Take(retry))
      modifies this`outbox, this`flags
      ensures taken <==> RowTaken(old(outbox), job.key, retry)
      ensures taken ==> Run(start, run) == At(Durable(), 0, job, Check)
      ensures !taken ==> Run(start, run) == Beyond(Durable(), 0, job, Returned(job, AlreadyAttempted))
    {
      taken := RowTaken(outbox, job.key, retry);
      if !taken {
        run := Follow(start, before, Durable(), 0, job, Take(retry), Go, Nothing, Returned(job, AlreadyAttempted));
        return;
      }
      run := Follow(start, before, Durable(), 0, job, Take(retry), Go, WriteRow(job.key, Sending), Some(Arm));
      outbox := outbox[job.key := Sending];
      run := Follow(start, run, Durable(), 0, job, Arm, Go, Flag(job, false), Some(Check));
      PutFlag(job, false);
    }

    // The guards before dispatch, the dispatch flag, and the guards after it.
    method Clear(job: Job, check: Answer, recheck: Answer, ghost start: State, ghost before: seq<Event>)
      returns (refused: Option<Status>, ghost run: seq<Event>)
      requires job.Initial? && Run(start, before) == At(Durable(), 0, job, Check)
      modifies this`flags
      ensures Run(start, run) == At(Durable(), 0, job, if refused.Some? then Finish(refused.value) else Send)
      ensures refused.None? <==> Cleared(job, check, recheck)
      ensures refused.Some? ==> refused.value.Reason? || refused.value.Uncertain?
    {
      if check.Block? {
        run := Follow(start, before, Durable(), 0, job, Check, check, Nothing, Some(Finish(Reason(check.reason))));
        return Some(Reason(check.reason)), run;
      }
      if check.Raise? {
        run := Follow(start, before, Durable(), 0, job, Check, check, Nothing, Some(Finish(Uncertain)));
        return Some(Uncertain), run;
      }
      run := Follow(start, before, Durable(), 0, job, Check, check, Nothing, Some(Mark));
      run := Follow(start, run, Durable(), 0, job, Mark, Go, Flag(job, true), Some(if job.v22 then Recheck else Send));
      PutFlag(job, true);
      refused := None;
      if job.v22 {
        refused, run := ClearAgain(job, recheck, start, run);
      }
    }

    // A flag that is already true is withdrawn when the last guards refuse.
    method ClearAgain(job: Job, recheck: Answer, ghost start: State, ghost before: seq<Event>)
      returns (refused: Option<Status>, ghost run: seq<Event>)
      requires job.Initial? && job.v22 && Run(start, before) == At(Durable(), 0, job, Recheck)
      modifies this`flags
      ensures Run(start, run) == At(Durable(), 0, job, if refused.Some? then Finish(refused.value) else Send)
      ensures refused.None? <==> Passes(recheck)
      ensures refused.Some? ==> refused.value.Reason? || refused.value.Uncertain?
    {
      if recheck.Block? {
        run := Follow(start, before, Durable(), 0, job, Recheck, recheck, Nothing, Some(Unmark(recheck.reason)));
        run := Follow(start, run, Durable(), 0, job, Unmark(recheck.reason), Go,
                      Flag(job, false), Some(Finish(Reason(recheck.reason))));
        PutFlag(job, false);
        return Some(Reason(recheck.reason)), run;
      }
      if recheck.Raise? {
        run := Follow(start, before, Durable(), 0, job, Recheck, recheck, Nothing, Some(Finish(Uncertain)));
        return Some(Uncertain), run;
      }
      run := Follow(start, before, Durable(), 0, job, Recheck, recheck, Nothing, Some(Send));
      refused := None;
    }

    /** Notifier.deliver, given the answers of its guards and of Discord: it posts once, exactly when
        the row is available and every guard lets the card through, and it leaves exactly the records
        of a run of the protocol. */
    method Deliver(job: Job, guard: Answer, check: Answer, recheck: Answer, http: Answer)
      returns (status: Status, ghost run: seq<Event>)
      modifies this`outbox, this`flags, this`posts
      ensures Run(old(At(Durable(), 0, job, Phase.Look)), run) == Beyond(Durable(), 0, job, Returned(job, status))
      ensures var sends := Available(old(outbox), old(flags), job) && (job.Initial? ==> !guard.Block?) && Cleared(job, check, recheck);
              posts == if sends then old(posts) + [job] else old(posts)
      ensures posts != old(posts) ==> Reports(status, http) && job.key in outbox && outbox[job.key] == status
      ensures status.Reason? || status.AlreadyAttempted? ==> posts == old(posts)
    {
      ghost var start := At(Durable(), 0, job, Phase.Look);
      var free, retry;
      free, retry, run := Look(job, start, []);
      if !free {
        return AlreadyAttempted, run;
      }
      if job.Initial? {
        if guard.Block? {
          run := Follow(start, run, Durable(), 0, job, Guard(retry), guard, Nothing, Returned(job, Reason(guard.reason)));
          return Reason(guard.reason), run;
        }
        run := Follow(start, run, Durable(), 0, job, Guard(retry), guard, Nothing, Some(Take(retry)));
      }
      var taken;
      taken, run := TakeRow(job, retry, start, run);
      if !taken {
        return AlreadyAttempted, run;
      }
      status, run := Dispatch(job, check, recheck, http, start, run);
    }

    // Everything between taking the row and recording its status.
    method Dispatch(job: Job, check: Answer, recheck: Answer, http: Answer, ghost start: State, ghost before: seq<Event>)
      returns (status: Status, ghost run: seq<Event>)
      requires Run(start, before) == At(Durable(), 0, job, Check)
      modifies this`outbox, this`flags, this`posts
      ensures Run(start, run) == Beyond(Durable(), 0, job, Returned(job, status))
      ensures posts == if Cleared(job, check, recheck) then old(posts) + [job] else old(posts)
      ensures posts != old(posts) ==> Reports(status, http)
      ensures job.key in outbox && outbox[job.key] == status
      ensures status.Reason? || status.AlreadyAttempted? ==> posts == old(posts)
    {
      var refused := None;
      if job.Initial? {
        refused, run := Clear(job, check, recheck, start, before);
      } else {
        run := Follow(start, before, Durable(), 0, job, Check, check, Nothing, Some(Send));
      }
      if refused.Some? {
        status := refused.value;
      } else {
        status, run := Request(job, http, start, run);
      }
      run := Record(job, status, start, run);
    }

    // The final status of the row.
    method Record(job: Job, status: Status, ghost start: State, ghost before: seq<Event>) returns (ghost run: seq<Event>)
      requires Run(start, before) == At(Durable(), 0, job, Finish(status))
      modifies this`outbox
      ensures Run(start, run) == Beyond(Durable(), 0, job, Returned(job, status))
      ensures outbox == old(outbox)[job.key := status]
    {
      run := Follow(start, before, Durable(), 0, job, Finish(status), Go, WriteRow(job.key, status), Returned(job, status));
      outbox := outbox[job.key := status];
    }

    // The POST itself.
    method Request(job: Job, http: Answer, ghost start: State, ghost before: seq<Event>)
      returns (status: Status, ghost run: seq<Event>)
      requires Run(start, before) == At(Durable(), 0, job, Send)
      modifies this`posts
      ensures Run(start, run) == At(Durable(), 0, job, Finish(status))
      ensures posts == old(posts) + [job] && Reports(status, http)
    {
      run := Follow(start, before, Durable(), 0, job, Send, http, Post(job), Some(Finish(Outcome(http))));
      posts := posts + [job];
      status := Outcome(http);
    }

    /** deliver_initial after its early guards: claim the fingerprint, deliver, and record the
        status on the claim; an ungranted claim changes nothing. */
    method DeliverInitial(job: Job, others: set<Signal>, guard: Answer, check: Answer, recheck: Answer, http: Answer)
      returns (granted: bool, status: Status, ghost run: seq<Event>)
      requires job.Initial?
      modifies this
      ensures granted == ClaimGranted(old(claims), old(flags), job, Seen(job, Siblings(others)))
      ensures Run(old(At(Durable(), 0, job, Ready)), run) == Durable()
      ensures !granted ==> Durable() == old(Durable())
      ensures granted ==> job.fp in claims && claims[job.fp] == Claim(job.signal, status)
      ensures posts != old(posts) ==> Reports(status, http)
      ensures var sends := granted && Available(old(outbox), old(flags), job) && !guard.Block? && Cleared(job, check, recheck);
              posts == if sends then old(posts) + [job] else old(posts)
    {
      ghost var start := At(Durable(), 0, job, Ready);
      granted, status := ClaimGranted(claims, flags, job, Seen(job, Siblings(others))), AlreadyAttempted;
      if !granted {
        run := Follow(start, [], Durable(), 0, job, Ready, Siblings(others), Nothing, None);
        return;
      }
      ghost var claimed := Follow(start, [], Durable(), 0, job, Ready, Siblings(others),
                                  WriteClaim(job.fp, Claim(job.signal, Sending)), Some(Phase.Look));
      claims := claims[job.fp := Claim(job.signal, Sending)];
      status, run := Deliver(job, guard, check, recheck, http);
      RunAppend(start, claimed, run);
      run := Follow(start, claimed + run, Durable(), 0, job, Report(status), Go,
                    WriteClaim(job.fp, Claim(job.signal, status)), None);
      claims := claims[job.fp := Claim(job.signal, status)];
    }
  }
}
