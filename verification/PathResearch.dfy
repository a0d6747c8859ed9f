// Forward path research: four stop policies fixed at the decision and judged over the
// same closed one-minute candles, delivered in pages until the job's deadline.
module PathResearch {
  import opened Common
  import opened Bars

  const WEEK := 604800000
  const FOUR_HOURS := 14400000

  datatype Outcome = Stop | Target | Expired

  datatype Policy = Policy(stop: real, risk: real, outcome: Option<Outcome>, exit: int, ambiguous: bool, netR: Option<real>)

  // What the decision freezes.
  datatype Plan = Plan(direction: Direction, entry: real, stop: real, tp1: real, tp2: real, decision: int,
                       triggerDeadline: int, primaryDeadline: int, structural: real, risk: real, cost: Option<real>)

  // What the candles change. Policy 0 is the incumbent.
  datatype Job = Job(cursor: int, covered: bool, ambiguous: bool, entered: Option<int>,
                     firstStop: Option<int>, firstTp1: Option<int>, firstTp2: Option<int>, reclaim: Option<int>,
                     overshoot: real, beyond: int, mfe: real, mae: real, failure: Option<int>, policies: seq<Policy>)

  // sign * x.
  function Signed(d: Direction, x: real): real {
    if d.Long? then x else -x
  }

  // ---------------------------------------------------------------- registration

  function Distances(entry: real, stop: real, atr: real, noise: real, structural: real): seq<real> {
    var risk := Abs(entry - stop);
    [risk, Max(risk, noise), Max(risk, Abs(entry - structural) + 0.3 * atr), Max(risk, atr)]
  }

  function PolicyAt(d: Direction, entry: real, distance: real): Policy {
    Policy(entry - Signed(d, distance), distance, None, 0, false, None)
  }

  function Register(p: Plan, atr: real, noise: real): Job {
    var d := Distances(p.entry, p.stop, atr, noise, p.structural);
    Job(Floor(p.decision), true, false, None, None, None, None, None, 0.0, 0, 0.0, 0.0, None,
        [PolicyAt(p.direction, p.entry, d[0]), PolicyAt(p.direction, p.entry, d[1]),
         PolicyAt(p.direction, p.entry, d[2]), PolicyAt(p.direction, p.entry, d[3])])
  }

  function JobDeadline(p: Plan): int {
    if p.primaryDeadline >= p.decision + WEEK then p.primaryDeadline else p.decision + WEEK
  }

  // ---------------------------------------------------------------- one candle

  function Adverse(p: Plan, b: Bar): real {
    if p.direction.Long? then b.low else b.high
  }

  function Favorable(p: Plan, b: Bar): real {
    if p.direction.Long? then b.high else b.low
  }

  predicate Within(b: Bar, level: real) {
    b.low <= level <= b.high
  }

  // sign * (adverse - stop) <= 0.
  predicate Crossed(p: Plan, b: Bar, stop: real) {
    Signed(p.direction, Adverse(p, b) - stop) <= 0.0
  }

  predicate Reached(p: Plan, b: Bar, target: real) {
    Signed(p.direction, Favorable(p, b) - target) >= 0.0
  }

  // One policy after one candle, once the job is entered.
  function Judge(p: Plan, entered: int, b: Bar, policy: Policy): Policy {
    var crossed, tp1 := Crossed(p, b, policy.stop), Reached(p, b, p.tp1);
    if policy.outcome.Some? || !(crossed || tp1 || b.End() >= p.primaryDeadline) then policy
    else
      var price := if crossed then policy.stop else if tp1 then p.tp1 else b.close;
      policy.(outcome := Some(if crossed then Stop else if tp1 then Target else Expired),
              exit := b.End(), ambiguous := (crossed && tp1) || b.End() == entered,
              netR := if p.cost.Some? && policy.risk != 0.0
                      then Some((Signed(p.direction, price - p.entry) - p.cost.value) / policy.risk) else None)
  }

  function JudgeAll(p: Plan, entered: int, b: Bar, policies: seq<Policy>): (r: seq<Policy>)
    ensures |r| == |policies|
    ensures forall k :: 0 <= k < |policies| ==> r[k] == Judge(p, entered, b, policies[k])
  {
    seq(|policies|, k requires 0 <= k < |policies| => Judge(p, entered, b, policies[k]))
  }

  function First(current: Option<int>, hit: bool, at: int): Option<int> {
    if hit && current.None? then Some(at) else current
  }

  // What happens after the plan's stop was first touched.
  function AfterStop(p: Plan, j: Job, b: Bar): Job {
    if j.firstStop.None? then j
    else
      var adverse, favorable := Adverse(p, b), Favorable(p, b);
      var outside := Signed(p.direction, b.close - p.stop) < 0.0;
      j.(overshoot := Max(j.overshoot, -Signed(p.direction, adverse - p.stop)),
         beyond := if outside then j.beyond + b.interval else j.beyond,
         reclaim := if !outside && j.reclaim.None? && b.End() > j.firstStop.value then Some(b.End()) else j.reclaim,
         mfe := if p.risk != 0.0 then Max(j.mfe, Signed(p.direction, favorable - p.entry) / p.risk) else j.mfe,
         mae := if p.risk != 0.0 then Min(j.mae, Signed(p.direction, adverse - p.entry) / p.risk) else j.mae)
  }

  // A well-formed candle of an entered job.
  function Follow(p: Plan, j: Job, b: Bar): Job
    requires j.entered.Some?
  {
    var stop, tp1, tp2 := Crossed(p, b, p.stop), Reached(p, b, p.tp1), Reached(p, b, p.tp2);
    var touched := j.(firstStop := First(j.firstStop, stop, b.End()), firstTp1 := First(j.firstTp1, tp1, b.End()),
                      firstTp2 := First(j.firstTp2, tp2, b.End()), ambiguous := j.ambiguous || (stop && tp1));
    var tracked := AfterStop(p, touched, b);
    tracked.(failure := if b.End() % FOUR_HOURS == 0 && Signed(p.direction, b.close - p.structural) < 0.0
                        then Some(b.End()) else j.failure,
             policies := JudgeAll(p, j.entered.value, b, j.policies))
  }

  // One candle of the loop of advance.
  function Step(p: Plan, limit: int, j: Job, b: Bar): Job {
    if b.End() <= j.cursor || b.End() > limit then j
    else
      var seen := j.(covered := j.covered && b.start == j.cursor && b.interval == MINUTE, cursor := b.End());
      if !b.WellFormed() then seen.(covered := false)
      else if b.start < p.decision < b.End() then
        seen.(ambiguous := j.ambiguous || Within(b, p.entry) || Within(b, p.stop) || Within(b, p.tp1) || Within(b, p.tp2))
      else if j.entered.None? then
        if b.start > p.triggerDeadline || !Within(b, p.entry) then seen
        else
          Follow(p, seen.(entered := Some(b.End()),
                          ambiguous := j.ambiguous || Within(b, p.stop) || Within(b, p.tp1) || Within(b, p.tp2)), b)
      else Follow(p, seen, b)
  }

  function Walk(p: Plan, limit: int, j: Job, bars: seq<Bar>): Job {
    if bars == [] then j else Step(p, limit, Walk(p, limit, j, bars[..|bars| - 1]), bars[|bars| - 1])
  }

  function Limit(p: Plan, now: int): int {
    if now <= JobDeadline(p) then now else JobDeadline(p)
  }

  // What one candle does to the cursor and to the policies.
  lemma StepMoves(p: Plan, limit: int, j: Job, b: Bar)
    ensures var t := Step(p, limit, j, b);
            && t.cursor == (if b.End() <= j.cursor || b.End() > limit then j.cursor else b.End())
            && (t.policies == j.policies
                || exists entered :: t.policies == JudgeAll(p, entered, b, j.policies) && t.cursor == b.End())
  {
    if b.End() > j.cursor && b.End() <= limit && b.WellFormed() && !(b.start < p.decision < b.End()) {
      var entered := if j.entered.Some? then j.entered.value else b.End();
      var t := Step(p, limit, j, b);
      assert t.policies == j.policies || t.policies == JudgeAll(p, entered, b, j.policies);
    }
  }

  // Where a walk leaves the cursor.
  function Reach(limit: int, cursor: int, bars: seq<Bar>): int {
    if bars == [] then cursor
    else
      var c, end := Reach(limit, cursor, bars[..|bars| - 1]), bars[|bars| - 1].End();
      if end <= c || end > limit then c else end
  }

  lemma {:induction false} WalkReaches(p: Plan, limit: int, j: Job, bars: seq<Bar>)
    ensures Walk(p, limit, j, bars).cursor == Reach(limit, j.cursor, bars)
  {
    if bars != [] {
      WalkReaches(p, limit, j, bars[..|bars| - 1]);
      StepMoves(p, limit, Walk(p, limit, j, bars[..|bars| - 1]), bars[|bars| - 1]);
    }
  }

  lemma {:induction false} ReachIsBeyond(limit: int, cursor: int, bars: seq<Bar>)
    ensures Reach(limit, cursor, bars) >= cursor
    ensures forall k :: 0 <= k < |bars| ==> bars[k].End() <= Reach(limit, cursor, bars) || bars[k].End() > limit
  {
    if bars != [] {
      ReachIsBeyond(limit, cursor, bars[..|bars| - 1]);
    }
  }

  // ---------------------------------------------------------------- stop-policy dominance

  // The incumbent stop is the first to be crossed.
  ghost predicate Tightest(p: Plan, policies: seq<Policy>) {
    && policies != []
    && forall k :: 0 <= k < |policies| ==> Signed(p.direction, policies[k].stop - policies[0].stop) <= 0.0
  }

  // How one wider policy relates to the incumbent.
  predicate Dominated(incumbent: Policy, wider: Policy) {
    && (incumbent.outcome.None? ==> wider.outcome.None?)
    && (incumbent.outcome.Some? && !incumbent.outcome.value.Stop? ==>
          wider.outcome == incumbent.outcome && wider.exit == incumbent.exit)
    && (wider.outcome == Some(Stop) ==> incumbent.outcome == Some(Stop))
    && (wider.outcome.Some? ==> incumbent.exit <= wider.exit)
  }

  ghost predicate Dominates(p: Plan, policies: seq<Policy>, cursor: int) {
    && Tightest(p, policies)
    && (forall k :: 0 <= k < |policies| ==> Dominated(policies[0], policies[k]))
    && (forall k :: 0 <= k < |policies| && policies[k].outcome.Some? ==> policies[k].exit <= cursor)
  }

  ghost predicate GridInv(p: Plan, j: Job) {
    Dominates(p, j.policies, j.cursor)
  }

  lemma JudgeKeepsDominance(p: Plan, entered: int, b: Bar, incumbent: Policy, wider: Policy)
    requires Signed(p.direction, wider.stop - incumbent.stop) <= 0.0
    requires Dominated(incumbent, wider)
    requires incumbent.outcome.Some? ==> incumbent.exit <= b.End()
    requires wider.outcome.Some? ==> wider.exit <= b.End()
    ensures Dominated(Judge(p, entered, b, incumbent), Judge(p, entered, b, wider))
  {
  }

  lemma JudgeAllKeepsDominance(p: Plan, entered: int, b: Bar, policies: seq<Policy>, cursor: int)
    requires Dominates(p, policies, cursor) && cursor <= b.End()
    ensures Dominates(p, JudgeAll(p, entered, b, policies), b.End())
  {
    var judged := JudgeAll(p, entered, b, policies);
    forall k | 0 <= k < |policies|
      ensures Dominated(judged[0], judged[k]) && judged[k].stop == policies[k].stop
      ensures judged[k].outcome.Some? ==> judged[k].exit <= b.End()
    {
      JudgeKeepsDominance(p, entered, b, policies[0], policies[k]);
    }
  }

  lemma StepKeepsGrid(p: Plan, limit: int, j: Job, b: Bar)
    requires GridInv(p, j)
    ensures GridInv(p, Step(p, limit, j, b))
  {
    StepMoves(p, limit, j, b);
    forall entered ensures j.cursor <= b.End() ==> Dominates(p, JudgeAll(p, entered, b, j.policies), b.End()) {
      if j.cursor <= b.End() {
        JudgeAllKeepsDominance(p, entered, b, j.policies, j.cursor);
      }
    }
  }

  lemma RegisterTightest(p: Plan, atr: real, noise: real)
    ensures GridInv(p, Register(p, atr, noise))
  {
  }

  /** Dominance over every candle sequence: an undecided incumbent means all are undecided, its
      target or expiry is everyone's at the same candle, and a wider policy's stop implies an
      incumbent stop no later. */
  lemma {:induction false} StopPolicyDominance(p: Plan, atr: real, noise: real, limit: int, bars: seq<Bar>)
    ensures GridInv(p, Walk(p, limit, Register(p, atr, noise), bars))
  {
    if bars == [] {
      RegisterTightest(p, atr, noise);
    } else {
      StopPolicyDominance(p, atr, noise, limit, bars[..|bars| - 1]);
      StepKeepsGrid(p, limit, Walk(p, limit, Register(p, atr, noise), bars[..|bars| - 1]), bars[|bars| - 1]);
    }
  }

  // ---------------------------------------------------------------- the incumbent and the first touches

  // Untouched up to a time.
  predicate After(touch: Option<int>, at: int) {
    touch.Some? ==> touch.value > at
  }

  // The incumbent's outcome is the first touch of the plan's own stop or target.
  predicate FirstTouch(j: Job, incumbent: Policy) {
    match incumbent.outcome
    case None => j.firstStop.None? && j.firstTp1.None?
    case Some(Stop) => j.firstStop == Some(incumbent.exit) && incumbent.exit <= j.cursor
    case Some(Target) => j.firstTp1 == Some(incumbent.exit) && After(j.firstStop, incumbent.exit) && incumbent.exit <= j.cursor
    case Some(Expired) => After(j.firstTp1, incumbent.exit) && After(j.firstStop, incumbent.exit) && incumbent.exit <= j.cursor
  }

  // What is measured after the stop, and the four-hour failure.
  predicate AftermathInv(j: Job) {
    && (j.reclaim.Some? ==> j.firstStop.Some? && j.firstStop.value < j.reclaim.value)
    && (j.firstStop.None? ==> j.overshoot == 0.0 && j.beyond == 0 && j.mfe == 0.0 && j.mae == 0.0)
    && j.overshoot >= 0.0 && j.mae <= 0.0 <= j.mfe
    && (j.failure.Some? ==> j.failure.value % FOUR_HOURS == 0)
    && (j.entered.None? ==> j.firstStop.None? && j.failure.None?)
  }

  ghost predicate TouchInv(p: Plan, j: Job) {
    && j.policies != [] && j.policies[0].stop == p.stop
    && FirstTouch(j, j.policies[0]) && AftermathInv(j)
  }

  lemma FollowTouches(p: Plan, j: Job, b: Bar, before: int)
    requires j.entered.Some? && before < b.End() == j.cursor
    requires TouchInv(p, j.(cursor := before))
    ensures TouchInv(p, Follow(p, j, b))
  {
    var t := Follow(p, j, b);
    assert t.policies[0] == Judge(p, j.entered.value, b, j.policies[0]);
  }

  lemma StepTouches(p: Plan, limit: int, j: Job, b: Bar)
    requires TouchInv(p, j)
    ensures TouchInv(p, Step(p, limit, j, b))
  {
    if b.End() > j.cursor && b.End() <= limit && b.WellFormed() && !(b.start < p.decision < b.End()) {
      var seen := j.(covered := j.covered && b.start == j.cursor && b.interval == MINUTE, cursor := b.End());
      if j.entered.Some? {
        FollowTouches(p, seen, b, j.cursor);
      } else if !(b.start > p.triggerDeadline || !Within(b, p.entry)) {
        FollowTouches(p, seen.(entered := Some(b.End()),
                               ambiguous := j.ambiguous || Within(b, p.stop) || Within(b, p.tp1) || Within(b, p.tp2)), b, j.cursor);
      }
    }
  }

  /** For a plan whose stop is on its losing side, over every candle sequence: the incumbent stops at
      the first touch of the stop, takes profit at the first touch of the target, and is undecided
      while neither was touched; and what happens after the stop is measured only after it. */
  lemma {:induction false} IncumbentIsTheFirstTouch(p: Plan, atr: real, noise: real, limit: int, bars: seq<Bar>)
    requires Signed(p.direction, p.entry - p.stop) >= 0.0
    ensures TouchInv(p, Walk(p, limit, Register(p, atr, noise), bars))
  {
    if bars != [] {
      IncumbentIsTheFirstTouch(p, atr, noise, limit, bars[..|bars| - 1]);
      StepTouches(p, limit, Walk(p, limit, Register(p, atr, noise), bars[..|bars| - 1]), bars[|bars| - 1]);
    }
  }

  // ---------------------------------------------------------------- pages

  predicate ClosedBy(p: Plan, bars: seq<Bar>, now: int) {
    forall k :: 0 <= k < |bars| ==> bars[k].End() <= now || bars[k].End() > JobDeadline(p)
  }

  lemma {:induction false} WalkAppend(p: Plan, limit: int, j: Job, a: seq<Bar>, b: seq<Bar>)
    ensures Walk(p, limit, j, a + b) == Walk(p, limit, Walk(p, limit, j, a), b)
  {
    if b == [] {
      assert a + b == a;
    } else {
      WalkAppend(p, limit, j, a, b[..|b| - 1]);
      assert (a + b)[..|a + b| - 1] == a + b[..|b| - 1];
    }
  }

  lemma {:induction false} SameLimit(p: Plan, n1: int, n2: int, j: Job, bars: seq<Bar>)
    requires n1 <= n2 && ClosedBy(p, bars, n1)
    ensures Walk(p, Limit(p, n1), j, bars) == Walk(p, Limit(p, n2), j, bars)
  {
    if bars != [] {
      SameLimit(p, n1, n2, j, bars[..|bars| - 1]);
    }
  }

  lemma WalkedAreBehind(p: Plan, limit: int, j: Job, bars: seq<Bar>)
    ensures Walk(p, limit, j, bars).cursor >= j.cursor
    ensures forall k :: 0 <= k < |bars| ==> bars[k].End() <= Walk(p, limit, j, bars).cursor || bars[k].End() > limit
  {
    WalkReaches(p, limit, j, bars);
    ReachIsBeyond(limit, j.cursor, bars);
  }

  lemma {:induction false} SkipAll(p: Plan, limit: int, j: Job, bars: seq<Bar>)
    requires forall k :: 0 <= k < |bars| ==> bars[k].End() <= j.cursor || bars[k].End() > limit
    ensures Walk(p, limit, j, bars) == j
  {
    if bars != [] {
      SkipAll(p, limit, j, bars[..|bars| - 1]);
    }
  }

  // Candles of a walked page, delivered again, change nothing.
  lemma AgainIsSkipped(p: Plan, limit: int, job: Job, page: seq<Bar>, j: nat)
    requires j <= |page|
    ensures Walk(p, limit, Walk(p, limit, job, page), page[j..]) == Walk(p, limit, job, page)
  {
    var first, again := Walk(p, limit, job, page), page[j..];
    WalkedAreBehind(p, limit, job, page);
    forall i | 0 <= i < |again| ensures again[i].End() <= first.cursor || again[i].End() > limit {
      assert again[i] == page[j + i];
    }
    SkipAll(p, limit, first, again);
  }

  /** Paging is invisible: closed candles split anywhere into two ordered pages, with any part of
      the first delivered again, leave the very job that one call over all of them leaves. */
  lemma PagingInvisible(p: Plan, job: Job, bars: seq<Bar>, n1: int, n2: int, j: nat, k: nat)
    requires j <= k <= |bars| && n1 <= n2 && ClosedBy(p, bars[..k], n1)
    ensures Walk(p, Limit(p, n2), Walk(p, Limit(p, n1), job, bars[..k]), bars[j..]) == Walk(p, Limit(p, n2), job, bars)
  {
    var page, again, later := bars[..k], bars[j..k], bars[k..];
    var limit := Limit(p, n2);
    SameLimit(p, n1, n2, job, page);
    var first := Walk(p, limit, job, page);
    assert again == page[j..];
    AgainIsSkipped(p, limit, job, page, j);
    assert bars == page + later && bars[j..] == again + later;
    WalkAppend(p, limit, job, page, later);
    WalkAppend(p, limit, first, again, later);
  }

  // ---------------------------------------------------------------- completion

  lemma {:induction false} ReachMeets(limit: int, deadline: int, cursor: int, bars: seq<Bar>)
    requires cursor < deadline && limit <= deadline
    ensures Reach(limit, cursor, bars) <= deadline
    ensures Reach(limit, cursor, bars) == deadline <==> limit == deadline && exists b :: b in bars && b.End() == deadline
  {
    if bars != [] {
      var front, last := bars[..|bars| - 1], bars[|bars| - 1];
      ReachMeets(limit, deadline, cursor, front);
      assert last in bars && forall b :: b in bars <==> b in front || b == last;
    }
  }

  /** The job closes exactly when a candle that ends at its deadline has been delivered. */
  lemma ClosesAtTheDeadlineOnly(p: Plan, now: int, j: Job, bars: seq<Bar>)
    requires j.cursor < JobDeadline(p)
    ensures Walk(p, Limit(p, now), j, bars).cursor <= JobDeadline(p)
    ensures Walk(p, Limit(p, now), j, bars).cursor >= JobDeadline(p) <==>
              JobDeadline(p) <= now && exists b :: b in bars && b.End() == JobDeadline(p)
  {
    WalkReaches(p, Limit(p, now), j, bars);
    ReachMeets(Limit(p, now), JobDeadline(p), j.cursor, bars);
  }

  /** So with candles on whole minutes, a deadline off the minute is never met. */
  lemma {:induction false} OffMinuteDeadlineNeverCloses(p: Plan, now: int, j: Job, bars: seq<Bar>)
    requires j.cursor < JobDeadline(p) && JobDeadline(p) % MINUTE != 0
    requires forall b :: b in bars ==> b.End() % MINUTE == 0
    ensures Walk(p, Limit(p, now), j, bars).cursor < JobDeadline(p)
  {
    ClosesAtTheDeadlineOnly(p, now, j, bars);
  }

  datatype Class =
    | PathAmbiguous | ThesisAndTimingCorrect | HorizonTooShort | StopTooTight | ThesisWrong | Unresolved

  predicate Complete(j: Job) {
    && j.covered && !j.ambiguous && j.entered.Some?
    && forall k :: 0 <= k < |j.policies| ==> !j.policies[k].ambiguous
  }

  predicate Truthy(t: Option<int>) {
    t.Some? && t.value != 0
  }

  function NetRR(p: Plan, policy: Policy): Option<real> {
    if p.cost.Some? && policy.risk != 0.0
    then Some((Signed(p.direction, p.tp1 - p.entry) - p.cost.value) / policy.risk) else None
  }

  predicate WiderSuccess(p: Plan, j: Job) {
    exists k :: 1 <= k < |j.policies| && j.policies[k].outcome == Some(Target)
                && NetRR(p, j.policies[k]).Some? && NetRR(p, j.policies[k]).value >= 2.0
  }

  // classify_path.
  function Classify(p: Plan, atr: real, j: Job): Class
    requires j.policies != []
  {
    var original := j.policies[0].outcome;
    if !Complete(j) then PathAmbiguous
    else if original == Some(Target) then ThesisAndTimingCorrect
    else if original == Some(Expired) && Truthy(j.firstTp1) && !Truthy(j.firstStop) then HorizonTooShort
    else if original == Some(Stop) && Truthy(j.firstStop) && Truthy(j.reclaim) && Truthy(j.firstTp1)
            && j.firstTp1.value <= p.primaryDeadline && 0 < j.reclaim.value - j.firstStop.value <= FOUR_HOURS
            && j.overshoot <= 0.25 * atr && j.failure.None? && WiderSuccess(p, j)
    then StopTooTight
    else if Truthy(j.failure) && j.mfe < 0.25 then ThesisWrong
    else Unresolved
  }

  /** The classes speak for the whole grid: a correct thesis means that all four policies took
      profit, a short horizon that all four expired, and a tight stop that some wider one held. */
  lemma ClassesAgreeWithTheGrid(p: Plan, atr: real, noise: real, limit: int, bars: seq<Bar>)
    ensures var j := Walk(p, limit, Register(p, atr, noise), bars);
            && j.policies != []
            && (Classify(p, atr, j) == ThesisAndTimingCorrect ==>
                  forall k :: 0 <= k < |j.policies| ==> j.policies[k].outcome == Some(Target))
            && (Classify(p, atr, j) == HorizonTooShort ==>
                  forall k :: 0 <= k < |j.policies| ==> j.policies[k].outcome == Some(Expired))
            && (Classify(p, atr, j) == StopTooTight ==>
                  exists k :: 1 <= k < |j.policies| && j.policies[k].outcome == Some(Target)
                              && j.policies[0].exit <= j.policies[k].exit)
  {
    StopPolicyDominance(p, atr, noise, limit, bars);
    var j := Walk(p, limit, Register(p, atr, noise), bars);
    if Classify(p, atr, j) == StopTooTight {
      var k :| 1 <= k < |j.policies| && j.policies[k].outcome == Some(Target);
      assert Dominated(j.policies[0], j.policies[k]);
    }
  }

  /** A stop is called too tight exactly when a complete path stopped the incumbent, came back within four hours,
      reached the target in time, went no further beyond the stop than a quarter of the decision's range, never
      failed on four hours, and some wider policy took a profit that was worth twice its risk. */
  lemma TooTightMeans(p: Plan, atr: real, j: Job)
    requires j.policies != []
    ensures Classify(p, atr, j) == StopTooTight <==>
              && Complete(j) && j.policies[0].outcome == Some(Stop)
              && j.firstStop.Some? && j.firstStop.value != 0 && j.reclaim.Some? && j.reclaim.value != 0
              && j.firstStop.value < j.reclaim.value <= j.firstStop.value + 14400000
              && j.firstTp1.Some? && j.firstTp1.value != 0 && j.firstTp1.value <= p.primaryDeadline
              && 4.0 * j.overshoot <= atr && j.failure.None?
              && exists k :: 1 <= k < |j.policies| && Rewarded(p, j.policies[k])
  {
    forall k | 0 <= k < |j.policies| ensures Rewarded(p, j.policies[k]) <==>
        j.policies[k].outcome == Some(Target) && NetRR(p, j.policies[k]).Some? && NetRR(p, j.policies[k]).value >= 2.0 {
      RewardedExactly(p, j.policies[k]);
    }
  }

  // A policy that took profit, for at least twice its risk after cost.
  predicate Rewarded(p: Plan, policy: Policy) {
    && policy.outcome == Some(Target) && p.cost.Some? && policy.risk != 0.0
    && var profit := (if p.direction.Long? then p.tp1 - p.entry else p.entry - p.tp1) - p.cost.value;
       if policy.risk > 0.0 then profit >= 2.0 * policy.risk else profit <= 2.0 * policy.risk
  }

  lemma RewardedExactly(p: Plan, policy: Policy)
    ensures Rewarded(p, policy) <==>
              policy.outcome == Some(Target) && NetRR(p, policy).Some? && NetRR(p, policy).value >= 2.0
  {
    if p.cost.Some? && policy.risk != 0.0 {
      Divided(Signed(p.direction, p.tp1 - p.entry) - p.cost.value, policy.risk);
    }
  }

  // ---------------------------------------------------------------- the job told from its candles

  // A candle that the job follows: in its turn, well formed, clear of the decision, and past the entry or
  // entering itself.
  predicate Follows(p: Plan, limit: int, j: Job, b: Bar) {
    && j.cursor < b.End() <= limit && b.WellFormed() && !(b.start < p.decision < b.End())
    && (j.entered.Some? || (b.start <= p.triggerDeadline && b.low <= p.entry <= b.high))
  }

  // The candles a walk follows; the first of them is the entry.
  function Followed(p: Plan, limit: int, j: Job, bars: seq<Bar>): seq<Bar> {
    if bars == [] then []
    else
      var front, last := bars[..|bars| - 1], bars[|bars| - 1];
      Followed(p, limit, j, front) + if Follows(p, limit, Walk(p, limit, j, front), last) then [last] else []
  }

  datatype Mark = StopMark | FirstTarget | SecondTarget

  predicate Hits(p: Plan, b: Bar, m: Mark) {
    match m
    case StopMark => if p.direction.Long? then b.low <= p.stop else b.high >= p.stop
    case FirstTarget => if p.direction.Long? then b.high >= p.tp1 else b.low <= p.tp1
    case SecondTarget => if p.direction.Long? then b.high >= p.tp2 else b.low <= p.tp2
  }

  // The time of the first candle that hits a mark.
  function FirstHit(p: Plan, seen: seq<Bar>, m: Mark): Option<int> {
    if seen == [] then None
    else
      var earlier := FirstHit(p, seen[..|seen| - 1], m);
      if earlier.Some? then earlier else if Hits(p, seen[|seen| - 1], m) then Some(seen[|seen| - 1].End()) else None
  }

  // The candles from the first one at the stop on.
  function SinceStop(p: Plan, seen: seq<Bar>): seq<Bar> {
    if seen == [] then []
    else
      var earlier, last := SinceStop(p, seen[..|seen| - 1]), seen[|seen| - 1];
      if earlier != [] || Hits(p, last, StopMark) then earlier + [last] else []
  }

  // A close on the losing side of a level.
  predicate ClosesBehind(p: Plan, b: Bar, level: real) {
    if p.direction.Long? then b.close < level else b.close > level
  }

  // How far a candle goes beyond the stop, and in units of the plan's risk for the entry and against it.
  datatype Measure = Excess | Gain | Pain

  function Measured(p: Plan, b: Bar, m: Measure): real
    requires p.risk != 0.0
  {
    match m
    case Excess => if p.direction.Long? then p.stop - b.low else b.high - p.stop
    case Gain => (if p.direction.Long? then b.high - p.entry else p.entry - b.low) / p.risk
    case Pain => (if p.direction.Long? then p.entry - b.low else b.high - p.entry) / p.risk
  }

  // The largest measure of some candles, or zero.
  function Largest(p: Plan, bars: seq<Bar>, m: Measure): real
    requires p.risk != 0.0
  {
    if bars == [] then 0.0 else Max(Largest(p, bars[..|bars| - 1], m), Measured(p, bars[|bars| - 1], m))
  }

  // The time spent closing behind the stop.
  function TimeBehind(p: Plan, bars: seq<Bar>): int {
    if bars == [] then 0
    else
      var last := bars[|bars| - 1];
      TimeBehind(p, bars[..|bars| - 1]) + if ClosesBehind(p, last, p.stop) then last.interval else 0
  }

  // The first close back, after the candle of the first touch.
  function FirstReclaim(p: Plan, bars: seq<Bar>): Option<int> {
    if |bars| <= 1 then None
    else
      var earlier, last := FirstReclaim(p, bars[..|bars| - 1]), bars[|bars| - 1];
      if earlier.Some? then earlier else if !ClosesBehind(p, last, p.stop) then Some(last.End()) else None
  }

  // The last four-hour close behind the structural level.
  function LastFailure(p: Plan, seen: seq<Bar>): Option<int> {
    if seen == [] then None
    else
      var last := seen[|seen| - 1];
      if last.End() % FOUR_HOURS == 0 && ClosesBehind(p, last, p.structural) then Some(last.End())
      else LastFailure(p, seen[..|seen| - 1])
  }

  // The entry and the marks are dated by the followed candles.
  predicate MarksTold(p: Plan, j: Job, seen: seq<Bar>) {
    && j.entered == (if seen == [] then None else Some(seen[0].End()))
    && j.firstStop == FirstHit(p, seen, StopMark)
    && j.firstTp1 == FirstHit(p, seen, FirstTarget)
    && j.firstTp2 == FirstHit(p, seen, SecondTarget)
    && j.failure == LastFailure(p, seen)
  }

  // What is measured since the stop.
  predicate AftermathTold(p: Plan, j: Job, seen: seq<Bar>)
    requires p.risk != 0.0
  {
    var since := SinceStop(p, seen);
    && (j.firstStop.Some? <==> since != []) && (since != [] ==> j.firstStop == Some(since[0].End()))
    && j.overshoot == Largest(p, since, Excess)
    && j.beyond == TimeBehind(p, since)
    && j.reclaim == FirstReclaim(p, since)
    && j.mfe == Largest(p, since, Gain)
    && j.mae == -Largest(p, since, Pain)
  }

  predicate Behind(seen: seq<Bar>, cursor: int) {
    && (seen != [] ==> seen[|seen| - 1].End() <= cursor)
    && forall i, k :: 0 <= i < k < |seen| ==> seen[i].End() < seen[k].End()
  }

  // A candle that decides a policy: at its stop, at the target, or at the deadline.
  predicate Decides(p: Plan, b: Bar, stop: real) {
    || (if p.direction.Long? then b.low <= stop else b.high >= stop)
    || Hits(p, b, FirstTarget)
    || b.End() >= p.primaryDeadline
  }

  // What the deciding candle makes of a policy.
  predicate DecidedAs(p: Plan, b: Bar, entered: int, before: Policy, after: Policy) {
    var atStop := if p.direction.Long? then b.low <= before.stop else b.high >= before.stop;
    var atTarget := Hits(p, b, FirstTarget);
    var price := if atStop then before.stop else if atTarget then p.tp1 else b.close;
    var profit := if p.direction.Long? then price - p.entry else p.entry - price;
    && after.outcome == Some(if atStop then Stop else if atTarget then Target else Expired)
    && after.exit == b.End() && after.ambiguous == ((atStop && atTarget) || b.End() == entered)
    && (after.netR.Some? <==> p.cost.Some? && before.risk != 0.0)
    && (after.netR.Some? ==> after.netR.value * before.risk == profit - p.cost.value)
  }

  // A policy as the followed candles leave it: decided by the first that decides.
  ghost predicate PolicyTold(p: Plan, seen: seq<Bar>, before: Policy, after: Policy) {
    && after.stop == before.stop && after.risk == before.risk
    && if after.outcome.None? then after == before && forall i :: 0 <= i < |seen| ==> !Decides(p, seen[i], before.stop)
       else exists k :: 0 <= k < |seen| && Decides(p, seen[k], before.stop) && DecidedAs(p, seen[k], seen[0].End(), before, after)
                        && forall i :: 0 <= i < k ==> !Decides(p, seen[i], before.stop)
  }

  lemma Divided(x: real, y: real)
    requires y != 0.0
    ensures x / y * y == x
  {
  }

  lemma JudgeTells(p: Plan, entered: int, b: Bar, policy: Policy)
    requires policy.outcome.None?
    ensures var r := Judge(p, entered, b, policy);
            && r.stop == policy.stop && r.risk == policy.risk
            && if Decides(p, b, policy.stop) then DecidedAs(p, b, entered, policy, r) else r == policy
  {
    var atStop := Crossed(p, b, policy.stop);
    var price := if atStop then policy.stop else if Reached(p, b, p.tp1) then p.tp1 else b.close;
    if p.cost.Some? && policy.risk != 0.0 {
      Divided(Signed(p.direction, price - p.entry) - p.cost.value, policy.risk);
    }
  }

  // One more followed candle.
  lemma PolicyFurther(p: Plan, seen: seq<Bar>, b: Bar, before: Policy, after: Policy)
    requires before.outcome.None? && PolicyTold(p, seen, before, after)
    ensures PolicyTold(p, seen + [b], before, Judge(p, (seen + [b])[0].End(), b, after))
  {
    var longer := seen + [b];
    assert forall i :: 0 <= i < |seen| ==> longer[i] == seen[i];
    assert longer[|seen|] == b;
    if after.outcome.None? {
      JudgeTells(p, longer[0].End(), b, after);
    } else {
      var k :| 0 <= k < |seen| && Decides(p, seen[k], before.stop) && DecidedAs(p, seen[k], seen[0].End(), before, after)
               && forall i :: 0 <= i < k ==> !Decides(p, seen[i], before.stop);
      assert Decides(p, longer[k], before.stop) && DecidedAs(p, longer[k], longer[0].End(), before, after);
    }
  }

  // The job that a followed candle is applied to: entered, and otherwise in the measured fields as before.
  lemma StepFollows(p: Plan, limit: int, j: Job, b: Bar) returns (on: Job)
    requires Follows(p, limit, j, b)
    ensures on.entered == Some(if j.entered.Some? then j.entered.value else b.End()) && on.cursor == b.End()
    ensures Step(p, limit, j, b) == Follow(p, on, b)
    ensures on == j.(entered := on.entered, covered := on.covered, cursor := on.cursor, ambiguous := on.ambiguous)
  {
    on := j.(covered := j.covered && b.start == j.cursor && b.interval == MINUTE, cursor := b.End());
    if j.entered.None? {
      on := on.(entered := Some(b.End()),
                ambiguous := j.ambiguous || Within(b, p.stop) || Within(b, p.tp1) || Within(b, p.tp2));
    }
  }

  lemma StepPasses(p: Plan, limit: int, j: Job, b: Bar)
    requires !Follows(p, limit, j, b)
    ensures var t := Step(p, limit, j, b);
            t == j.(covered := t.covered, cursor := t.cursor, ambiguous := t.ambiguous) && t.cursor >= j.cursor
  {
  }

  lemma HitsMeans(p: Plan, b: Bar)
    ensures Hits(p, b, StopMark) <==> Crossed(p, b, p.stop)
    ensures Hits(p, b, FirstTarget) <==> Reached(p, b, p.tp1)
    ensures Hits(p, b, SecondTarget) <==> Reached(p, b, p.tp2)
    ensures forall level :: ClosesBehind(p, b, level) <==> Signed(p.direction, b.close - level) < 0.0
  {
  }

  lemma SeenFurther(p: Plan, seen: seq<Bar>, b: Bar)
    ensures var longer := seen + [b];
            && (forall m :: FirstHit(p, longer, m) ==
                            if FirstHit(p, seen, m).Some? then FirstHit(p, seen, m) else if Hits(p, b, m) then Some(b.End()) else None)
            && SinceStop(p, longer) == (if SinceStop(p, seen) != [] || Hits(p, b, StopMark) then SinceStop(p, seen) + [b] else [])
            && LastFailure(p, longer) == (if b.End() % FOUR_HOURS == 0 && ClosesBehind(p, b, p.structural)
                                          then Some(b.End()) else LastFailure(p, seen))
  {
    assert (seen + [b])[..|seen|] == seen;
  }

  lemma MarksFurther(p: Plan, j: Job, on: Job, seen: seq<Bar>, b: Bar)
    requires MarksTold(p, j, seen)
    requires on.entered == Some(if j.entered.Some? then j.entered.value else b.End())
    requires on == j.(entered := on.entered, covered := on.covered, cursor := on.cursor, ambiguous := on.ambiguous)
    ensures MarksTold(p, Follow(p, on, b), seen + [b])
  {
    HitsMeans(p, b);
    SeenFurther(p, seen, b);
    assert seen != [] ==> (seen + [b])[0] == seen[0];
  }

  lemma SinceFurther(p: Plan, since: seq<Bar>, b: Bar)
    requires p.risk != 0.0
    ensures var longer := since + [b];
            && (forall m :: Largest(p, longer, m) == Max(Largest(p, since, m), Measured(p, b, m)))
            && TimeBehind(p, longer) == TimeBehind(p, since) + (if ClosesBehind(p, b, p.stop) then b.interval else 0)
            && FirstReclaim(p, longer) == (if FirstReclaim(p, since).Some? then FirstReclaim(p, since)
                                           else if since != [] && !ClosesBehind(p, b, p.stop) then Some(b.End()) else None)
  {
    assert (since + [b])[..|since|] == since;
  }

  lemma NegatedQuotient(x: real, r: real)
    requires r != 0.0
    ensures (-x) / r == -(x / r)
  {
  }

  // The measures of one candle, as the loop writes them.
  lemma MeasuredMeans(p: Plan, b: Bar)
    requires p.risk != 0.0
    ensures Measured(p, b, Excess) == -Signed(p.direction, Adverse(p, b) - p.stop)
    ensures Measured(p, b, Gain) == Signed(p.direction, Favorable(p, b) - p.entry) / p.risk
    ensures Measured(p, b, Pain) == -(Signed(p.direction, Adverse(p, b) - p.entry) / p.risk)
  {
    NegatedQuotient(Signed(p.direction, Adverse(p, b) - p.entry), p.risk);
  }

  // Overshoot, time and reclaim, one candle on.
  lemma TimesStep(p: Plan, j: Job, since: seq<Bar>, b: Bar)
    requires p.risk != 0.0 && j.firstStop.Some? && (since == [] ==> j.firstStop.value == b.End())
    requires since != [] ==> j.firstStop.value == since[0].End() < b.End()
    requires j.overshoot == Largest(p, since, Excess) && j.beyond == TimeBehind(p, since) && j.reclaim == FirstReclaim(p, since)
    ensures var t, longer := AfterStop(p, j, b), since + [b];
            t.overshoot == Largest(p, longer, Excess) && t.beyond == TimeBehind(p, longer) && t.reclaim == FirstReclaim(p, longer)
  {
    HitsMeans(p, b);
    MeasuredMeans(p, b);
    SinceFurther(p, since, b);
    assert since == [] ==> FirstReclaim(p, since).None?;
  }

  // The two excursions, one candle on.
  lemma ExcursionsStep(p: Plan, mfe: real, mae: real, since: seq<Bar>, b: Bar)
    requires p.risk != 0.0 && mfe == Largest(p, since, Gain) && mae == -Largest(p, since, Pain)
    ensures Max(mfe, Signed(p.direction, Favorable(p, b) - p.entry) / p.risk) == Largest(p, since + [b], Gain)
    ensures Min(mae, Signed(p.direction, Adverse(p, b) - p.entry) / p.risk) == -Largest(p, since + [b], Pain)
  {
    MeasuredMeans(p, b);
    SinceFurther(p, since, b);
  }

  // What a followed candle does to the measured fields.
  lemma FollowMeasures(p: Plan, on: Job, b: Bar)
    requires on.entered.Some?
    ensures var first := First(on.firstStop, Crossed(p, b, p.stop), b.End());
            var t, a := Follow(p, on, b), AfterStop(p, on.(firstStop := first), b);
            && t.firstStop == first && t.overshoot == a.overshoot && t.beyond == a.beyond && t.reclaim == a.reclaim
            && t.mfe == (if first.Some? && p.risk != 0.0
                         then Max(on.mfe, Signed(p.direction, Favorable(p, b) - p.entry) / p.risk) else on.mfe)
            && t.mae == (if first.Some? && p.risk != 0.0
                         then Min(on.mae, Signed(p.direction, Adverse(p, b) - p.entry) / p.risk) else on.mae)
            && (first.None? ==> t.overshoot == on.overshoot && t.beyond == on.beyond && t.reclaim == on.reclaim)
  {
  }

  lemma AftermathFurther(p: Plan, j: Job, on: Job, seen: seq<Bar>, b: Bar)
    requires p.risk != 0.0 && AftermathTold(p, j, seen) && MarksTold(p, j, seen)
    requires SinceStop(p, seen) != [] ==> SinceStop(p, seen)[0].End() < b.End()
    requires on == j.(entered := on.entered, covered := on.covered, cursor := on.cursor, ambiguous := on.ambiguous) && on.entered.Some?
    ensures AftermathTold(p, Follow(p, on, b), seen + [b])
  {
    var since, first := SinceStop(p, seen), First(j.firstStop, Crossed(p, b, p.stop), b.End());
    HitsMeans(p, b);
    SeenFurther(p, seen, b);
    FollowMeasures(p, on, b);
    if first.Some? {
      TimesStep(p, on.(firstStop := first), since, b);
      ExcursionsStep(p, on.mfe, on.mae, since, b);
      assert since != [] ==> (since + [b])[0] == since[0];
      assert SinceStop(p, seen + [b]) == since + [b];
    }
  }

  lemma {:induction false} SinceIsLater(p: Plan, seen: seq<Bar>, end: int)
    requires seen != [] ==> seen[|seen| - 1].End() < end
    requires forall i, k :: 0 <= i < k < |seen| ==> seen[i].End() < seen[k].End()
    ensures SinceStop(p, seen) != [] ==> SinceStop(p, seen)[0].End() < end
  {
    if seen != [] {
      var n := |seen| - 1;
      if n > 0 {
        assert seen[n - 1].End() < seen[n].End();
      }
      SinceIsLater(p, seen[..n], seen[n].End());
    }
  }

  // The grid as registered and as it stands.
  ghost predicate GridTold(p: Plan, seen: seq<Bar>, before: seq<Policy>, after: seq<Policy>) {
    |after| == |before| && forall k :: 0 <= k < |before| ==> before[k].outcome.None? && PolicyTold(p, seen, before[k], after[k])
  }

  lemma GridFurther(p: Plan, seen: seq<Bar>, b: Bar, before: seq<Policy>, after: seq<Policy>)
    requires GridTold(p, seen, before, after)
    ensures GridTold(p, seen + [b], before, JudgeAll(p, (seen + [b])[0].End(), b, after))
  {
    forall k | 0 <= k < |before|
      ensures PolicyTold(p, seen + [b], before[k], JudgeAll(p, (seen + [b])[0].End(), b, after)[k])
    {
      PolicyFurther(p, seen, b, before[k], after[k]);
    }
  }

  ghost predicate Told(p: Plan, grid: seq<Policy>, j: Job, seen: seq<Bar>)
    requires p.risk != 0.0
  {
    Behind(seen, j.cursor) && MarksTold(p, j, seen) && AftermathTold(p, j, seen) && GridTold(p, seen, grid, j.policies)
  }

  lemma BehindFurther(p: Plan, seen: seq<Bar>, cursor: int, b: Bar)
    requires Behind(seen, cursor) && cursor < b.End()
    ensures Behind(seen + [b], b.End()) && (SinceStop(p, seen) != [] ==> SinceStop(p, seen)[0].End() < b.End())
  {
    SinceIsLater(p, seen, b.End());
  }

  lemma ToldFollowing(p: Plan, limit: int, grid: seq<Policy>, j: Job, seen: seq<Bar>, b: Bar)
    requires p.risk != 0.0 && Told(p, grid, j, seen) && Follows(p, limit, j, b)
    ensures Told(p, grid, Step(p, limit, j, b), seen + [b])
  {
    var on := StepFollows(p, limit, j, b);
    BehindFurther(p, seen, j.cursor, b);
    MarksFurther(p, j, on, seen, b);
    AftermathFurther(p, j, on, seen, b);
    GridFurther(p, seen, b, grid, j.policies);
    FollowGrid(p, on, b);
    assert seen != [] ==> (seen + [b])[0] == seen[0];
  }

  lemma FollowGrid(p: Plan, on: Job, b: Bar)
    requires on.entered.Some?
    ensures var t := Follow(p, on, b); t.policies == JudgeAll(p, on.entered.value, b, on.policies) && t.cursor == on.cursor
  {
  }

  lemma ToldFurther(p: Plan, limit: int, grid: seq<Policy>, j: Job, seen: seq<Bar>, b: Bar)
    requires p.risk != 0.0 && Told(p, grid, j, seen)
    ensures Told(p, grid, Step(p, limit, j, b), seen + if Follows(p, limit, j, b) then [b] else [])
  {
    if Follows(p, limit, j, b) {
      ToldFollowing(p, limit, grid, j, seen, b);
    } else {
      StepPasses(p, limit, j, b);
      assert seen + [] == seen;
    }
  }

  /** Everything a job records, over every candle sequence, told from the candles it follows: the entry and the
      first touches, the time, extremes, reclaim and failure after the stop, and for each policy of the grid the
      first candle that decides it, with the outcome, the ambiguity and the net result that candle gives. */
  lemma {:induction false} JobIsItsCandles(p: Plan, atr: real, noise: real, limit: int, bars: seq<Bar>)
    requires p.risk != 0.0
    ensures var start := Register(p, atr, noise);
            Told(p, start.policies, Walk(p, limit, start, bars), Followed(p, limit, start, bars))
  {
    var start := Register(p, atr, noise);
    if bars != [] {
      var front, last := bars[..|bars| - 1], bars[|bars| - 1];
      JobIsItsCandles(p, atr, noise, limit, front);
      ToldFurther(p, limit, start.policies, Walk(p, limit, start, front), Followed(p, limit, start, front), last);
    }
  }

  // A candle whose turn it is: past the cursor, and not beyond the limit.
  predicate InTurn(limit: int, j: Job, b: Bar) {
    j.cursor < b.End() <= limit
  }

  // Every candle in its turn starts at the cursor, lasts a minute and is well formed.
  predicate Gapless(p: Plan, limit: int, j: Job, bars: seq<Bar>) {
    bars == [] ||
    var front, b := bars[..|bars| - 1], bars[|bars| - 1];
    var u := Walk(p, limit, j, front);
    Gapless(p, limit, j, front) && (InTurn(limit, u, b) ==> b.start == u.cursor && b.interval == 60000 && b.WellFormed())
  }

  // The range of a candle contains a level.
  predicate Contains(b: Bar, level: real) {
    b.low <= level && level <= b.high
  }

  // The candle around the decision meets one of the plan's levels.
  predicate DecisionMeets(p: Plan, limit: int, j: Job, bars: seq<Bar>) {
    bars != [] &&
    var front, b := bars[..|bars| - 1], bars[|bars| - 1];
    || DecisionMeets(p, limit, j, front)
    || (InTurn(limit, Walk(p, limit, j, front), b) && b.WellFormed() && b.start < p.decision && p.decision < b.End()
        && (Contains(b, p.entry) || Contains(b, p.stop) || Contains(b, p.tp1) || Contains(b, p.tp2)))
  }

  // The entry candle meets another level, or some followed candle both the stop and the target.
  predicate Unordered(p: Plan, seen: seq<Bar>) {
    && seen != []
    && (|| Unordered(p, seen[..|seen| - 1])
        || (Hits(p, seen[|seen| - 1], StopMark) && Hits(p, seen[|seen| - 1], FirstTarget))
        || (|seen| == 1 && (Contains(seen[0], p.stop) || Contains(seen[0], p.tp1) || Contains(seen[0], p.tp2))))
  }

  lemma UnorderedFurther(p: Plan, seen: seq<Bar>, b: Bar)
    ensures Unordered(p, seen + [b]) <==>
              Unordered(p, seen) || (Hits(p, b, StopMark) && Hits(p, b, FirstTarget))
              || (seen == [] && (Contains(b, p.stop) || Contains(b, p.tp1) || Contains(b, p.tp2)))
  {
    assert (seen + [b])[..|seen|] == seen;
  }

  // The two flags, one candle on.
  lemma FlagsStep(p: Plan, limit: int, j: Job, b: Bar)
    ensures var t := Step(p, limit, j, b);
            && t.covered == (j.covered && (InTurn(limit, j, b) ==> b.start == j.cursor && b.interval == 60000 && b.WellFormed()))
            && t.ambiguous ==
               (|| j.ambiguous
                || (InTurn(limit, j, b) && b.WellFormed() && b.start < p.decision && p.decision < b.End()
                    && (Contains(b, p.entry) || Contains(b, p.stop) || Contains(b, p.tp1) || Contains(b, p.tp2)))
                || (Follows(p, limit, j, b)
                    && ((Hits(p, b, StopMark) && Hits(p, b, FirstTarget))
                        || (j.entered.None? && (Contains(b, p.stop) || Contains(b, p.tp1) || Contains(b, p.tp2))))))
  {
    HitsMeans(p, b);
  }

  /** A job is covered exactly while its candles leave no gap and are all well formed, and ambiguous exactly when
      the candle around the decision meets a level, the entry candle meets another one, or a followed candle both
      the stop and the target. */
  lemma {:induction false} FlagsAreItsCandles(p: Plan, atr: real, noise: real, limit: int, bars: seq<Bar>)
    requires p.risk != 0.0
    ensures var start := Register(p, atr, noise);
            var j := Walk(p, limit, start, bars);
            && j.covered == Gapless(p, limit, start, bars)
            && j.ambiguous == (DecisionMeets(p, limit, start, bars) || Unordered(p, Followed(p, limit, start, bars)))
  {
    var start := Register(p, atr, noise);
    if bars != [] {
      var front, last := bars[..|bars| - 1], bars[|bars| - 1];
      var u, seen := Walk(p, limit, start, front), Followed(p, limit, start, front);
      FlagsAreItsCandles(p, atr, noise, limit, front);
      JobIsItsCandles(p, atr, noise, limit, front);
      FlagsStep(p, limit, u, last);
      UnorderedFurther(p, seen, last);
      assert u.entered.None? <==> seen == [];
      assert seen + [] == seen;
    }
  }

  /** The grid: each stop stands its width away on the losing side, the incumbent at the plan's own stop, and
      every other width is the larger of the plan's risk and its own floor. */
  lemma GridIs(p: Plan, atr: real, noise: real)
    requires if p.direction.Long? then p.stop <= p.entry else p.stop >= p.entry
    ensures var risk := if p.direction.Long? then p.entry - p.stop else p.stop - p.entry;
            var anchor := if p.entry >= p.structural then p.entry - p.structural else p.structural - p.entry;
            var g := Register(p, atr, noise).policies;
            && |g| == 4 && g[0].stop == p.stop && g[0].risk == risk
            && g[1].risk == Max(risk, noise) && g[2].risk == Max(risk, anchor + 0.3 * atr) && g[3].risk == Max(risk, atr)
            && forall k :: 0 <= k < 4 ==>
                 g[k].outcome.None? && g[k].stop == if p.direction.Long? then p.entry - g[k].risk else p.entry + g[k].risk
  {
  }

  /** A stopped policy loses its own risk and the cost. */
  lemma StoppedLosesItsRisk(p: Plan, seen: seq<Bar>, before: Policy, after: Policy)
    requires PolicyTold(p, seen, before, after) && after.outcome == Some(Stop) && after.netR.Some? && p.cost.Some?
    requires before.stop == if p.direction.Long? then p.entry - before.risk else p.entry + before.risk
    ensures after.netR.value * before.risk == -before.risk - p.cost.value
  {
  }

  // ---------------------------------------------------------------- the job and label tables

  datatype Stored = Stored(plan: Plan, atr: real, job: Job)

  datatype Label = Label(available: int, class_: Class, stored: Stored)

  // An open job is short of its deadline and its grid is still dominated.
  ghost predicate Open(s: Stored) {
    GridInv(s.plan, s.job) && s.job.cursor < JobDeadline(s.plan)
  }

  // A label was written at the deadline and classifies the grid it carries.
  ghost predicate Settled(l: Label) {
    && GridInv(l.stored.plan, l.stored.job)
    && l.stored.job.cursor == JobDeadline(l.stored.plan)
    && l.class_ == Classify(l.stored.plan, l.stored.atr, l.stored.job)
  }

  lemma {:induction false} WalkKeepsGrid(p: Plan, limit: int, j: Job, bars: seq<Bar>)
    requires GridInv(p, j)
    ensures GridInv(p, Walk(p, limit, j, bars))
  {
    if bars != [] {
      WalkKeepsGrid(p, limit, j, bars[..|bars| - 1]);
      StepKeepsGrid(p, limit, Walk(p, limit, j, bars[..|bars| - 1]), bars[|bars| - 1]);
    }
  }

  // What one page of candles, already in start order, makes of a job.
  function Advanced(s: Stored, now: int, bars: seq<Bar>): Stored {
    s.(job := Walk(s.plan, Limit(s.plan, now), s.job, bars))
  }

  function Labelled(s: Stored, now: int): Label
    requires s.job.policies != []
  {
    Label(now, Classify(s.plan, s.atr, s.job), s)
  }

  lemma AdvancedIsOpenOrSettled(s: Stored, now: int, bars: seq<Bar>)
    requires Open(s)
    ensures var t := Advanced(s, now, bars);
            && t.job.policies != []
            && (t.job.cursor < JobDeadline(s.plan) ==> Open(t))
            && (t.job.cursor >= JobDeadline(s.plan) ==> Settled(Labelled(t, now)))
  {
    WalkKeepsGrid(s.plan, Limit(s.plan, now), s.job, bars);
    ClosesAtTheDeadlineOnly(s.plan, now, s.job, bars);
  }

  // The two tables.
  datatype Tables = Tables(jobs: map<string, Stored>, labels: map<string, Label>)

  ghost predicate Sound(t: Tables) {
    && t.jobs.Keys !! t.labels.Keys
    && (forall id :: id in t.jobs ==> Open(t.jobs[id]))
    && (forall id :: id in t.labels ==> Settled(t.labels[id]))
  }

  // What a call writes back: the moved job, or at the deadline its label instead.
  function Written(t: Tables, id: string, s: Stored, class_: Class, now: int): Tables {
    if s.job.cursor >= JobDeadline(s.plan) then Tables(t.jobs - {id}, t.labels[id := Label(now, class_, s)])
    else Tables(t.jobs[id := s], t.labels)
  }

  // One call of advance, its candles already in start order.
  ghost function Visited(t: Tables, id: string, bars: seq<Bar>, now: int): (r: Tables)
    requires Sound(t)
    ensures Sound(r)
  {
    if id !in t.jobs then t
    else
      var s := Advanced(t.jobs[id], now, bars);
      AdvancedIsOpenOrSettled(t.jobs[id], now, bars);
      Written(t, id, s, Classify(s.plan, s.atr, s.job), now)
  }

  // One call of a run: candles `from` up to `to` of the stream, read at `now`.
  datatype Page = Page(from: nat, to: nat, now: int)

  // Ordered pages without a hole between them: each may deliver candles of earlier ones again.
  predicate Paged(p: Plan, bars: seq<Bar>, pages: seq<Page>) {
    && (forall k :: 0 <= k < |pages| ==> pages[k].from <= pages[k].to <= |bars| && ClosedBy(p, bars[..pages[k].to], pages[k].now))
    && (forall k :: 0 < k < |pages| ==>
          pages[k].from <= pages[k - 1].to <= pages[k].to && pages[k - 1].now <= pages[k].now)
    && (pages != [] ==> pages[0].from == 0)
  }

  // Call after call, until the job has its label.
  ghost function Fed(t: Tables, id: string, bars: seq<Bar>, pages: seq<Page>): (r: Tables)
    requires Sound(t) && forall k :: 0 <= k < |pages| ==> pages[k].from <= pages[k].to <= |bars|
    ensures Sound(r)
  {
    if pages == [] then t
    else
      var last := pages[|pages| - 1];
      Visited(Fed(t, id, bars, pages[..|pages| - 1]), id, SortByStart(bars[last.from..last.to]), last.now)
  }

  // The same tables, but for the time at which a job's label became available.
  ghost predicate SameButTime(a: Tables, b: Tables, id: string) {
    && a.jobs == b.jobs && a.labels.Keys == b.labels.Keys
    && (forall k :: k in a.labels && k != id ==> a.labels[k] == b.labels[k])
    && (id in a.labels ==> a.labels[id].stored == b.labels[id].stored && a.labels[id].class_ == b.labels[id].class_)
  }

  // A job at its deadline walks no further.
  lemma ClosedStays(p: Plan, now: int, j: Job, bars: seq<Bar>)
    requires j.cursor >= JobDeadline(p)
    ensures Walk(p, Limit(p, now), j, bars) == j
  {
    SkipAll(p, Limit(p, now), j, bars);
  }

  // One more page for the job.
  lemma NextAdvance(s: Stored, bars: seq<Bar>, n1: int, n2: int, j: nat, k: nat, m: nat)
    requires j <= k <= m <= |bars| && n1 <= n2 && ClosedBy(s.plan, bars[..k], n1)
    ensures var first := Advanced(s, n1, bars[..k]);
            && Advanced(first, n2, bars[j..m]) == Advanced(s, n2, bars[..m])
            && (first.job.cursor >= JobDeadline(s.plan) ==> Advanced(s, n2, bars[..m]) == first)
  {
    var whole := bars[..m];
    assert whole[..k] == bars[..k] && whole[j..] == bars[j..m];
    PagingInvisible(s.plan, s.job, whole, n1, n2, j, k);
    var first := Advanced(s, n1, bars[..k]);
    if first.job.cursor >= JobDeadline(s.plan) {
      ClosedStays(s.plan, n2, first.job, bars[j..m]);
    }
  }

  // Writing after an open write is writing once; after a closed one there is nothing to write.
  lemma WrittenAgain(t: Tables, u: Tables, id: string, first: Stored, class1: Class, n1: int, next: Stored, class2: Class, n2: int)
    requires id in t.jobs && t.jobs.Keys !! t.labels.Keys && SameButTime(u, Written(t, id, first, class1, n1), id)
    ensures first.job.cursor < JobDeadline(first.plan) ==>
              id in u.jobs && u.jobs[id] == first && Written(u, id, next, class2, n2) == Written(t, id, next, class2, n2)
    ensures first.job.cursor >= JobDeadline(first.plan) ==>
              id !in u.jobs && SameButTime(u, Written(t, id, first, class1, n2), id)
  {
    if first.job.cursor < JobDeadline(first.plan) {
      assert u.labels == t.labels;
      assert t.jobs[id := first] - {id} == t.jobs - {id} && t.jobs[id := first][id := next] == t.jobs[id := next];
    }
  }

  // One more page.
  lemma NextPage(t: Tables, u: Tables, id: string, bars: seq<Bar>, n1: int, n2: int, j: nat, k: nat, m: nat)
    requires Sound(t) && Sound(u) && id in t.jobs && j <= k <= m <= |bars| && n1 <= n2
    requires ClosedBy(t.jobs[id].plan, bars[..k], n1) && SameButTime(u, Visited(t, id, bars[..k], n1), id)
    ensures SameButTime(Visited(u, id, bars[j..m], n2), Visited(t, id, bars[..m], n2), id)
  {
    var s := t.jobs[id];
    NextAdvance(s, bars, n1, n2, j, k, m);
    AdvancedIsOpenOrSettled(s, n1, bars[..k]);
    AdvancedIsOpenOrSettled(s, n2, bars[..m]);
    var first, next := Advanced(s, n1, bars[..k]), Advanced(s, n2, bars[..m]);
    WrittenAgain(t, u, id, first, Classify(first.plan, first.atr, first.job), n1, next, Classify(next.plan, next.atr, next.job), n2);
  }

  /** Paging is invisible in the tables: however a stream of closed candles is split into ordered pages,
      and whatever each page delivers again, the calls leave the job and the label that one call over all
      of it leaves, but for the time of the label. */
  lemma {:induction false} PagesInvisible(t: Tables, id: string, bars: seq<Bar>, pages: seq<Page>)
    requires Sound(t) && id in t.jobs && Sorted(bars) && Paged(t.jobs[id].plan, bars, pages) && pages != []
    ensures var last := pages[|pages| - 1];
            SameButTime(Fed(t, id, bars, pages), Visited(t, id, bars[..last.to], last.now), id)
  {
    var front, last := pages[..|pages| - 1], pages[|pages| - 1];
    SortedAlready(bars[last.from..last.to]);
    if |pages| == 1 {
      assert front == [] && bars[last.from..last.to] == bars[..last.to];
    } else {
      var before := pages[|pages| - 2];
      FrontPages(t.jobs[id].plan, bars, pages);
      PagesInvisible(t, id, bars, front);
      NextPage(t, Fed(t, id, bars, front), id, bars, before.now, last.now, last.from, before.to, last.to);
    }
  }

  lemma FrontPages(p: Plan, bars: seq<Bar>, pages: seq<Page>)
    requires Paged(p, bars, pages) && |pages| > 1
    ensures Paged(p, bars, pages[..|pages| - 1]) && pages[..|pages| - 1] != []
    ensures pages[..|pages| - 1][|pages| - 2] == pages[|pages| - 2]
  {
  }

  /** The candle loop of advance. */
  method FollowPage(s: Stored, now: int, bars: seq<Bar>) returns (t: Stored)
    ensures t == Advanced(s, now, SortByStart(bars))
  {
    var limit, job := Limit(s.plan, now), s.job;
    var sorted := Sort(bars);
    for i := 0 to |sorted|
      invariant job == Walk(s.plan, limit, s.job, sorted[..i])
    {
      assert sorted[..i + 1][..i] == sorted[..i];
      job := Step(s.plan, limit, job, sorted[i]);
    }
    assert sorted[..|sorted|] == sorted;
    return s.(job := job);
  }

  class Research {
    var jobs: map<string, Stored>
    var labels: map<string, Label>

    function State(): Tables
      reads this
    {
      Tables(jobs, labels)
    }

    ghost predicate Valid()
      reads this
    {
      Sound(State())
    }

    constructor ()
      ensures Valid() && jobs == map[] && labels == map[]
    {
      jobs, labels := map[], map[];
    }

    /** Freeze the grid of a decision once: a decision that is not eligible, is already being
        followed or already has its label changes nothing. */
    method Enrol(id: string, eligible: bool, p: Plan, atr: Option<real>, noise: Option<real>)
      requires Valid() && p.risk == Abs(p.entry - p.stop)
      modifies this
      ensures Valid() && labels == old(labels)
      ensures var frozen := eligible && id !in old(labels) && id !in old(jobs) && noise.Some? && p.risk != 0.0
                            && atr.Some? && atr.value != 0.0;
              jobs == if frozen then old(jobs)[id := Stored(p, atr.value, Register(p, atr.value, noise.value))] else old(jobs)
    {
      if !eligible || id in labels {
        return;
      }
      if atr.None? || atr.value == 0.0 || noise.None? || p.risk == 0.0 {
        return;
      }
      if id !in jobs {
        RegisterTightest(p, atr.value, noise.value);
        jobs := jobs[id := Stored(p, atr.value, Register(p, atr.value, noise.value))];
      }
    }

    /** One page of candles for one job. The job moves exactly as the walk over the page in start
        order says; at the deadline it becomes a label, and a label is never written twice. */
    method Advance(id: string, bars: seq<Bar>, now: int) returns (r: Option<Job>)
      requires Valid()
      modifies this
      ensures Valid() && State() == Visited(old(State()), id, SortByStart(bars), now)
      ensures r == if id in old(jobs) then Some(Advanced(old(jobs)[id], now, SortByStart(bars)).job) else None
    {
      if id !in jobs {
        return None;
      }
      AdvancedIsOpenOrSettled(jobs[id], now, SortByStart(bars));
      var t := FollowPage(jobs[id], now, bars);
      if t.job.cursor >= JobDeadline(t.plan) {
        if id !in labels {
          labels := labels[id := Labelled(t, now)];
        }
        jobs := jobs - {id};
      } else {
        jobs := jobs[id := t];
      }
      return Some(t.job);
    }
  }
}
