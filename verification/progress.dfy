/** When a run of the engine ends in a report (internal/detect/engine.go, Run; and
    internal/runtime/pool.go, execute): every step uses up a bounded amount of
    work, and only a job that expired unrun can leave none to take. */
module Progress {
  import opened Order
  import opened Findings
  import opened RuleViews
  import opened RuleKeys
  import Retention
  import opened RuleRecords
  import opened Engine

  /** Steps of the surroundings, which may come at any time. */
  predicate Outside(step: Step) {
    step.Cancel? || step.Evict? || step.Foreign?
  }

  function TotalLength(levels: seq<seq<string>>): nat {
    if levels == [] then 0 else |levels[0]| + TotalLength(levels[1..])
  }

  /** Submissions still to come. */
  function Remaining(levels: seq<seq<string>>, level: nat, pos: nat): int {
    if level < |levels| then TotalLength(levels[level..]) - pos else 0
  }

  function PhaseRank(p: Phase): nat {
    match p
    case Submitting => 3
    case Waiting => 2
    case Draining => 1
    case Reported => 0
  }

  function Pending(t: State): nat {
    3 * |t.queued| + |t.queued - t.taken| + 2 * |t.running| + |t.adding|
  }

  function Position(s: Setup, level: nat, pos: nat): int {
    5 * Remaining(s.levels, level, pos) + 2 * (|s.levels| - level)
  }

  function Work(s: Setup, t: State): int {
    Position(s, t.level, t.pos) + Pending(t) + PhaseRank(t.phase)
  }

  lemma NextLevelRemaining(levels: seq<seq<string>>, level: nat)
    requires level < |levels|
    ensures Remaining(levels, level, |levels[level]|) == Remaining(levels, level + 1, 0)
    ensures forall pos :: 0 <= pos <= |levels[level]| ==> Remaining(levels, level, pos) >= 0
  {
    assert levels[level..] == [levels[level]] + levels[level + 1..];
  }

  lemma WorkNonNegative(s: Setup, t: State)
    requires InBounds(s, t)
    ensures Work(s, t) >= 0
  {
    if t.level < |s.levels| {
      NextLevelRemaining(s.levels, t.level);
    }
  }

  lemma SettlePending(t: State, id: string, r: Retention.RuleResult)
    requires id in t.queued + t.running
    ensures Pending(Settle(t, id, r)) <= Pending(t) - 2
  {
    Removed(t.queued, id);
    Removed(t.running, id);
    FewerUntaken(t, id);
  }

  lemma CompletePending(s: Setup, t: State, id: string, cached: bool, fs: seq<Finding>)
    requires id in t.queued + t.running && id in s.rules
    ensures Pending(Complete(s, t, id, cached, fs)) <= Pending(t) - 1
  {
    SettlePending(t, id, CompletedResult(s.rules[id], cached, |fs|));
    MapSizes(t.adding, id, fs);
  }

  lemma Untaken(t: State, id: string)
    requires id in t.queued && id !in t.taken
    ensures |t.queued - (t.taken + {id})| == |t.queued - t.taken| - 1
  {
    Removed(t.queued - t.taken, id);
    assert t.queued - (t.taken + {id}) == (t.queued - t.taken) - {id};
  }

  lemma LosePending(t: State, id: string)
    requires id in t.queued
    ensures Pending(Lose(t, id)) < Pending(t)
  {
    FewerUntaken(t, id);
    Removed(t.queued, id);
  }

  lemma FewerUntaken(t: State, id: string)
    ensures |(t.queued - {id}) - t.taken| <= |t.queued - t.taken|
  {
    Removed(t.queued - t.taken, id);
    assert (t.queued - {id}) - t.taken == (t.queued - t.taken) - {id};
  }

  /** The workers' steps. */
  predicate AtWork(step: Step) {
    step.Take? || step.Start? || step.Hit? || step.Fresh? || step.Publish? || step.Interrupt? || Loses(step)
  }

  lemma BeginPending(t: State, id: string)
    requires AtWorker(t, id)
    ensures Pending(Begin(t, id)) < Pending(t)
  {
    Removed(t.queued, id);
    Added(t.running, id);
    assert Begin(t, id).queued - t.taken == t.queued - t.taken;
  }

  lemma PublishPending(s: Setup, t: State, id: string)
    requires id in t.adding
    ensures Pending(AddFindings(s, t, id)) < Pending(t)
  {
    MapSizes(t.adding, id, t.adding[id]);
  }

  lemma WorkerStep(s: Setup, t: State, step: Step)
    requires Enabled(s, t, step)
    requires AtWork(step)
    ensures Pending(Apply(s, t, step)) < Pending(t)
  {
    match step
    case Take(id) => Untaken(t, id);
    case Start(id) => BeginPending(t, id);
    case Hit(id) => CompletePending(s, t, id, true, Served(s, t, id).value);
    case Fresh(id, stored) => FreshStep(s, t, id, stored);
    case Publish(id) => PublishPending(s, t, id);
    case Interrupt(id) => SettlePending(t, id, PlainResult(s.rules[id], Retention.Cancelled));
    case Late(id) => LosePending(t, id);
    case Expire(id) => LosePending(t, id);
    case Drop(id) => LosePending(t, id);
  }

  lemma WorkerStays(s: Setup, t: State, step: Step)
    requires Enabled(s, t, step) && AtWork(step)
    ensures var u := Apply(s, t, step); u.level == t.level && u.pos == t.pos && u.phase == t.phase
  {
    if step.Fresh? {
      FreshStep(s, t, step.id, step.stored);
    }
  }

  lemma FreshStep(s: Setup, t: State, id: string, stored: bool)
    requires id in t.running && id in s.rules
    ensures var u := ExecuteJob(s, t, id, stored);
      Pending(u) < Pending(t) && u.level == t.level && u.pos == t.pos && u.phase == t.phase
  {
    match OutcomeOf(s, t.prior, id)
    case JobFailed => SettlePending(t, id, PlainResult(s.rules[id], Retention.Failed));
    case JobDone(fs) => CompletePending(s, t, id, false, fs);
  }

  lemma MorePending(t: State, id: string)
    ensures Pending(Enqueue(t, id)) <= Pending(t) + 4
  {
    Added(t.queued, id);
    Added(t.queued - t.taken, id);
    if id in t.taken {
      assert (t.queued + {id}) - t.taken == t.queued - t.taken;
    } else {
      assert (t.queued + {id}) - t.taken == (t.queued - t.taken) + {id};
    }
  }

  lemma SubmissionUsesWork(s: Setup, t: State, step: Step)
    requires InBounds(s, t) && Enabled(s, t, step) && (step.Submit? || step.Gate? || step.Reject?)
    ensures Work(s, Apply(s, t, step)) < Work(s, t)
  {
    SubmissionsShrink(s, t.level, t.pos);
    if step.Submit? {
      MorePending(t, Current(s, t));
    } else {
      SamePending(t, Apply(s, t, step));
    }
  }

  lemma EngineStep(s: Setup, t: State, step: Step)
    requires InBounds(s, t) && Enabled(s, t, step)
    requires step.Gate? || step.Submit? || step.Reject? || step.EndSubmit? || step.Barrier? || step.Finish? || step.Break? || step.Conclude?
    ensures Work(s, Apply(s, t, step)) < Work(s, t)
  {
    if step.Submit? || step.Gate? || step.Reject? {
      SubmissionUsesWork(s, t, step);
    } else if step.Barrier? {
      SamePending(t, Apply(s, t, step));
      NextLevelRemaining(s.levels, t.level);
    } else {
      SamePending(t, Apply(s, t, step));
    }
  }

  lemma SamePending(t: State, u: State)
    requires u.queued == t.queued && u.running == t.running && u.adding == t.adding && u.taken == t.taken
    ensures Pending(u) == Pending(t)
  {
  }

  lemma SubmissionsShrink(s: Setup, level: nat, pos: nat)
    requires level < |s.levels|
    ensures Position(s, level, pos + 1) == Position(s, level, pos) - 5
  {
  }

  lemma WorkerUsesWork(s: Setup, t: State, step: Step)
    requires Enabled(s, t, step) && AtWork(step)
    ensures Work(s, Apply(s, t, step)) < Work(s, t)
  {
    WorkerStep(s, t, step);
    WorkerStays(s, t, step);
  }

  /** Every step but those of the surroundings uses up work. */
  lemma StepUsesWork(s: Setup, t: State, step: Step)
    requires InBounds(s, t) && Enabled(s, t, step)
    ensures Work(s, Apply(s, t, step)) <= Work(s, t) - (if Outside(step) then 0 else 1)
  {
    if AtWork(step) {
      WorkerUsesWork(s, t, step);
    } else if !Outside(step) {
      EngineStep(s, t, step);
    }
  }

  function OwnSteps(steps: seq<Step>): nat {
    if steps == [] then 0 else (if Outside(steps[0]) then 0 else 1) + OwnSteps(steps[1..])
  }

  /** A run takes at most as many steps as it has work, however often it is
      cancelled or its cache entries are lost. */
  lemma {:induction false} RunsAreBounded(s: Setup, t: State, steps: seq<Step>, u: State)
    requires WellLeveled(s) && Inv(s, t) && Runs(s, t, steps, u)
    ensures OwnSteps(steps) + Work(s, u) <= Work(s, t) && Work(s, u) >= 0
    decreases steps
  {
    if steps == [] {
      WorkNonNegative(s, t);
    } else {
      StepUsesWork(s, t, steps[0]);
      StepKeepsInv(s, t, steps[0]);
      RunsAreBounded(s, Apply(s, t, steps[0]), steps[1..], u);
    }
  }

  // ----- lost signals

  /** No job of the current level was lost, or the barrier may be broken off. */
  predicate CanComplete(t: State) {
    t.lost == {} || t.cancelled
  }

  lemma ReportedCanComplete(s: Setup, t: State)
    requires Inv(s, t) && t.phase.Reported?
    ensures CanComplete(t)
  {
    if !t.cancelled {
      assert Passed(s, t.level, t.pos) == {};
    }
  }

  lemma JobsKeepLost(s: Setup, t: State, step: Step)
    requires Enabled(s, t, step) && (step.Hit? || step.Fresh? || step.Publish? || step.Interrupt? || step.Start? || step.Take?)
    ensures Apply(s, t, step).lost == t.lost && Apply(s, t, step).cancelled == t.cancelled
  {
    if step.Fresh? {
      match OutcomeOf(s, t.prior, step.id)
      case JobFailed =>
      case JobDone(_) =>
    }
  }

  /** A calm step neither loses a job nor finds one again. */
  lemma CalmKeepsLost(s: Setup, t: State, step: Step)
    requires WellLeveled(s) && Inv(s, t) && Enabled(s, t, step) && Calm(step)
    ensures CanComplete(Apply(s, t, step)) <==> CanComplete(t)
  {
    if step.Hit? || step.Fresh? || step.Publish? || step.Start? || step.Take? {
      JobsKeepLost(s, t, step);
    } else if step.Barrier? {
      BarrierIdle(s, t);
    }
  }

  /** Only cancellation makes up for a lost job. */
  lemma LostStays(s: Setup, t: State, step: Step)
    requires WellLeveled(s) && Inv(s, t) && Enabled(s, t, step) && !step.Cancel? && !CanComplete(t)
    ensures !CanComplete(Apply(s, t, step))
  {
    if step.Hit? || step.Fresh? || step.Publish? || step.Interrupt? || step.Start? || step.Take? {
      JobsKeepLost(s, t, step);
    } else if step.Barrier? {
      BarrierIdle(s, t);
    } else if Loses(step) {
      assert step.id in Apply(s, t, step).lost;
    }
  }

  lemma {:induction false} NoReportWithoutCancel(s: Setup, t: State, steps: seq<Step>, u: State)
    requires WellLeveled(s) && Inv(s, t) && !CanComplete(t) && Runs(s, t, steps, u) && Cancel !in steps
    ensures !u.phase.Reported?
    decreases steps
  {
    if steps == [] {
      if u.phase.Reported? {
        ReportedCanComplete(s, u);
      }
    } else {
      assert steps[0] in steps;
      LostStays(s, t, steps[0]);
      StepKeepsInv(s, t, steps[0]);
      NoReportWithoutCancel(s, Apply(s, t, steps[0]), steps[1..], u);
    }
  }

  // ----- the next step

  /** Until the report is made, some calm step of the run's own is enabled, unless
      a lost job holds up a barrier that is not broken off. */
  lemma NextStep(s: Setup, t: State) returns (step: Step)
    requires WellLeveled(s) && Inv(s, t) && !t.phase.Reported? && CanComplete(t)
    ensures Enabled(s, t, step) && !Outside(step) && Calm(step) && !step.Hit?
    ensures step.Fresh? ==> step == Fresh(step.id, false)
  {
    if Idle(t) {
      step := NextWhenIdle(s, t);
    } else {
      step := NextJob(s, t);
    }
  }

  lemma NextJob(s: Setup, t: State) returns (step: Step)
    requires JobsOk(s, t) && !Idle(t)
    ensures Enabled(s, t, step) && !Outside(step) && Calm(step)
    ensures step.Take? || step.Start? || step.Fresh? || step.Publish?
    ensures step.Fresh? ==> step == Fresh(step.id, false)
  {
    if t.queued != {} {
      var id :| id in t.queued;
      step := if id in t.taken then Start(id) else Take(id);
    } else if t.running != {} {
      var id :| id in t.running;
      assert id in t.queued + t.running;
      step := Fresh(id, false);
    } else {
      var id :| id in t.adding;
      step := Publish(id);
    }
  }

  lemma NextWhenIdle(s: Setup, t: State) returns (step: Step)
    requires WellLeveled(s) && InBounds(s, t) && Conserved(t) && Idle(t) && !t.phase.Reported? && CanComplete(t)
    ensures Enabled(s, t, step) && !Outside(step) && Calm(step) && !step.Hit? && !step.Fresh?
  {
    if t.phase.Waiting? {
      step := if t.lost == {} then Barrier else Break;
    } else if t.phase.Draining? {
      step := Conclude;
    } else if t.level == |s.levels| {
      step := Finish;
    } else {
      step := NextSubmission(s, t);
    }
  }

  lemma NextSubmission(s: Setup, t: State) returns (step: Step)
    requires WellLeveled(s) && InBounds(s, t) && t.phase.Submitting? && t.level < |s.levels|
    ensures Enabled(s, t, step) && (step.EndSubmit? || step.Submit? || step.Gate?)
  {
    if t.pos == |s.levels[t.level]| {
      step := EndSubmit;
    } else {
      assert Current(s, t) in s.levels[t.level];
      step := if Passes(s, t) then Submit else Gate;
    }
  }

  // ----- completion

  lemma {:induction false} RunCompletes(s: Setup, t: State) returns (steps: seq<Step>, u: State)
    requires WellLeveled(s) && Inv(s, t) && CanComplete(t)
    ensures Runs(s, t, steps, u) && u.phase.Reported? && AllCalm(steps)
    decreases Work(s, t)
  {
    WorkNonNegative(s, t);
    if t.phase.Reported? {
      steps, u := [], t;
    } else {
      var step := NextStep(s, t);
      StepUsesWork(s, t, step);
      StepKeepsInv(s, t, step);
      CalmKeepsLost(s, t, step);
      var rest, v := RunCompletes(s, Apply(s, t, step));
      steps, u := [step] + rest, v;
      assert steps[1..] == rest;
    }
  }

  /** Some calm steps lead to a report. */
  ghost predicate Completes(s: Setup, t: State) {
    exists steps, u :: Runs(s, t, steps, u) && AllCalm(steps) && u.phase.Reported?
  }

  lemma NoneCompletes(s: Setup, t: State)
    requires WellLeveled(s) && Inv(s, t) && !CanComplete(t)
    ensures !Completes(s, t)
  {
    if Completes(s, t) {
      var steps, u :| Runs(s, t, steps, u) && AllCalm(steps) && u.phase.Reported?;
      NoReportWithoutCancel(s, t, steps, u);
    }
  }

  /** Calm steps lead to a report exactly when no job of the current level was
      lost or the run is cancelled. */
  lemma CompletesIff(s: Setup, t: State)
    requires WellLeveled(s) && Inv(s, t)
    ensures Completes(s, t) <==> CanComplete(t)
  {
    if CanComplete(t) {
      var steps, u := RunCompletes(s, t);
    } else {
      NoneCompletes(s, t);
    }
  }

  /** The barrier waits for a signal that is never sent. */
  predicate Blocked(t: State) {
    t.phase.Waiting? && Idle(t) && t.lost != {} && !t.cancelled
  }

  /** Nothing but the surroundings can move a blocked run. */
  lemma BlockedIsStuck(s: Setup, t: State, step: Step)
    requires Inv(s, t) && Blocked(t) && Enabled(s, t, step)
    ensures Outside(step)
  {
    if step.Barrier? {
      BarrierIdle(s, t);
    }
  }

  /** A job whose deadline passes, on being taken or, with a rate limit, while it
      waits for its token, leads by calm steps alone to a blocked run. */
  lemma ExpiryBlocks(s: Setup, t: State, step: Step) returns (steps: seq<Step>, u: State)
    requires WellLeveled(s) && Inv(s, t) && !t.cancelled && (step.Late? || step.Expire?) && Enabled(s, t, step)
    ensures Runs(s, t, [step] + steps, u) && AllCalm(steps) && Blocked(u)
  {
    var next := Apply(s, t, step);
    StepKeepsInv(s, t, step);
    assert step.id in next.lost;
    steps, u := ComesToRest(s, next);
    assert ([step] + steps)[1..] == steps;
  }

  /** Neither cancelled nor late. */
  predicate Punctual(step: Step) {
    !step.Cancel? && !step.Late?
  }

  /** Without a rate limit, a run that is neither cancelled nor late at taking a job
      loses none, and so can always complete. */
  lemma {:induction false} UnlimitedCompletes(s: Setup, t: State, steps: seq<Step>, u: State)
    requires WellLeveled(s) && !s.limited && Inv(s, t) && !t.cancelled && t.lost == {}
    requires Runs(s, t, steps, u) && forall step :: step in steps ==> Punctual(step)
    ensures Inv(s, u) && u.lost == {} && Completes(s, u)
    decreases steps
  {
    if steps == [] {
      CompletesIff(s, t);
    } else {
      assert steps[0] in steps;
      StepKeepsInv(s, t, steps[0]);
      PunctualKeeps(s, t, steps[0]);
      UnlimitedCompletes(s, Apply(s, t, steps[0]), steps[1..], u);
    }
  }

  lemma PunctualKeeps(s: Setup, t: State, step: Step)
    requires !s.limited && !t.cancelled && t.lost == {} && Enabled(s, t, step) && Punctual(step)
    ensures !Apply(s, t, step).cancelled && Apply(s, t, step).lost == {}
  {
    if step.Hit? || step.Fresh? || step.Publish? || step.Interrupt? || step.Start? || step.Take? {
      JobsKeepLost(s, t, step);
    }
  }

  lemma NextUnblocked(s: Setup, t: State) returns (step: Step)
    requires WellLeveled(s) && InBounds(s, t) && JobsOk(s, t) && !CanComplete(t) && !Blocked(t)
    requires t.level < |s.levels| && (t.phase.Submitting? || t.phase.Waiting?)
    ensures Enabled(s, t, step) && !Outside(step) && Calm(step)
  {
    if Idle(t) {
      step := NextSubmission(s, t);
      assert !Outside(step) && Calm(step);
    } else {
      step := NextJob(s, t);
    }
  }

  lemma {:induction false} ComesToRest(s: Setup, t: State) returns (steps: seq<Step>, u: State)
    requires WellLeveled(s) && Inv(s, t) && !CanComplete(t)
    ensures Runs(s, t, steps, u) && AllCalm(steps) && Blocked(u)
    decreases Work(s, t)
  {
    WorkNonNegative(s, t);
    if Blocked(t) {
      steps, u := [], t;
    } else {
      LostInLevel(s, t);
      var step := NextUnblocked(s, t);
      StepUsesWork(s, t, step);
      StepKeepsInv(s, t, step);
      CalmKeepsLost(s, t, step);
      var rest, v := ComesToRest(s, Apply(s, t, step));
      steps, u := [step] + rest, v;
      assert steps[1..] == rest;
    }
  }

  /** A job is only lost in a level that is under way. */
  lemma LostInLevel(s: Setup, t: State)
    requires Inv(s, t) && !CanComplete(t)
    ensures t.level < |s.levels| && (t.phase.Submitting? || t.phase.Waiting?)
  {
  }
}
