/** When the cache shows: exactly when a record that a lookup of the run finds would
    serve something else than the rule finds (internal/detect/engine.go,
    lookupFindings). */
module CacheVisibility {
  import opened Wrappers
  import opened Order
  import opened Merging
  import opened Findings
  import opened FindingJson
  import opened Retention
  import opened RuleViews
  import opened RuleKeys
  import opened RuleRecords
  import opened Engine
  import opened Progress
  import opened Reference
  import opened Following
  import opened Equivalence

  /** Every calm run from the cache reports, and has its rules add, what the
      reference computes. */
  ghost predicate AlwaysMeets(s: Setup, cache: map<Digest, Record>) {
    forall steps, u :: Runs(s, Init(s, cache), steps, u) && AllCalm(steps) && u.phase.Reported?
      ==> Meets(s, After(s, |s.levels|), u)
  }

  lemma {:induction false} RunsThen(s: Setup, t: State, a: seq<Step>, u: State, b: seq<Step>, v: State)
    requires Runs(s, t, a, u) && Runs(s, u, b, v)
    ensures Runs(s, t, a + b, v)
    decreases a
  {
    if a == [] {
      assert a + b == b;
    } else {
      RunsThen(s, Apply(s, t, a[0]), a[1..], u, b, v);
      assert (a + b)[0] == a[0] && (a + b)[1..] == a[1..] + b;
    }
  }

  // ----- what the reference has batched

  ghost predicate RulesNamed(s: Setup) {
    forall id :: id in s.rules ==> s.rules[id].id == id
  }

  ghost predicate OwnAt(s: Setup, k: nat)
    requires k <= |s.levels|
  {
    OwnBatches(After(s, k).batches)
  }

  ghost predicate OwnStays(s: Setup, k: nat)
    requires k < |s.levels|
  {
    OwnAt(s, k) ==> OwnAt(s, k + 1)
  }

  lemma {:induction false} OwnClimbs(s: Setup, k: nat)
    requires k <= |s.levels| && forall m :: 0 <= m < |s.levels| ==> OwnStays(s, m)
    ensures OwnAt(s, k)
  {
    if k > 0 {
      OwnClimbs(s, k - 1);
      assert OwnStays(s, k - 1);
    }
  }

  lemma BatchesOwn(s: Setup, k: nat)
    requires RulesNamed(s) && k <= |s.levels|
    ensures OwnAt(s, k)
  {
    forall m | 0 <= m < |s.levels| ensures OwnStays(s, m) {
      if OwnAt(s, m) {
        NextOwn(s, m);
      }
    }
    OwnClimbs(s, k);
  }

  lemma NextOwn(s: Setup, k: nat)
    requires RulesNamed(s) && k < |s.levels| && OwnBatches(After(s, k).batches)
    ensures OwnBatches(After(s, k + 1).batches)
  {
    if Known(s, s.levels[k]) {
      LevelOwn(s, After(s, k), s.levels[k]);
    }
  }

  lemma LevelOwn(s: Setup, b: Base, level: seq<string>)
    requires RulesNamed(s) && Known(s, level) && OwnBatches(b.batches)
    ensures OwnBatches(NextBase(s, b, level).batches)
  {
    forall id | id in LevelBatches(s, b, level) ensures IsBatch(LevelBatches(s, b, level)[id], id) {
      OwnBatch(s, b, id);
    }
  }

  lemma OwnBatch(s: Setup, b: Base, id: string)
    requires id in s.rules && s.rules[id].id == id
    ensures BatchOf(s, b, id).Some? ==> IsBatch(BatchOf(s, b, id).value, id)
  {
    ExecuteBatch(s.world, s.rules[id], ViewOf(s.snapshot, b.prior, s.config));
  }

  lemma PriorsOk(s: Setup, k: nat)
    requires WellLeveled(s) && k <= |s.levels|
    ensures PriorOk(After(s, k).prior)
  {
    var json, batches := s.world.json, After(s, k).batches;
    var all := AllFindings(batches);
    BatchesOwn(s, k);
    PriorIsRetained(s, k);
    AllFindingsCounted(batches);
    NothingAdded(json);
    AddKeepsTop(json, EMPTY, multiset{}, all);
    assert multiset{} + multiset(all) == multiset(all);
    RetainedAlike(json, batches, multiset(all), Retained(json, batches));
  }

  lemma BatchAdded(s: Setup, b: Base, level: seq<string>, id: string)
    requires Known(s, level)
    ensures var next := NextBase(s, b, level).batches;
      && (id in level && BatchOf(s, b, id).Some? ==> id in next && next[id] == BatchOf(s, b, id).value)
      && (id !in level && id in b.batches ==> id in next && next[id] == b.batches[id])
  {
    assert id in level && BatchOf(s, b, id).Some? ==> id in LevelBatches(s, b, level);
  }

  /** What a rule has added, if anything, before the m-th level. */
  ghost predicate BatchIs(s: Setup, m: nat, id: string, want: Option<seq<Finding>>)
    requires m <= |s.levels|
  {
    var batches := After(s, m).batches;
    if want.Some? then id in batches && batches[id] == want.value else id !in batches
  }

  lemma BatchStarts(s: Setup, k: nat, id: string)
    requires WellLeveled(s) && k < |s.levels| && id in s.levels[k] && id in s.rules
    ensures BatchIs(s, k + 1, id, BatchOf(s, After(s, k), id))
  {
    LevelKnown(s, k);
    LaterUndecided(s, k, k, id);
    BatchedAreDecided(s, k);
    BatchAdded(s, After(s, k), s.levels[k], id);
  }

  lemma BatchStays(s: Setup, m: nat, id: string, want: Option<seq<Finding>>)
    requires m < |s.levels| && BatchIs(s, m, id, want) && id !in s.levels[m]
    ensures BatchIs(s, m + 1, id, want)
  {
  }

  /** What a rule adds in its level, if anything, stands in every later base. */
  lemma {:induction false} BatchStands(s: Setup, k: nat, m: nat, id: string, want: Option<seq<Finding>>)
    requires k < m <= |s.levels| && BatchIs(s, k + 1, id, want)
    requires forall j :: k < j < |s.levels| ==> id !in s.levels[j]
    ensures BatchIs(s, m, id, want)
    decreases m
  {
    if k + 1 < m {
      BatchStands(s, k, m - 1, id, want);
      BatchStays(s, m - 1, id, want);
    }
  }

  lemma FinalBatch(s: Setup, k: nat, id: string)
    requires WellLeveled(s) && k < |s.levels| && id in s.levels[k] && id in s.rules
    ensures BatchIs(s, |s.levels|, id, BatchOf(s, After(s, k), id))
  {
    BatchStarts(s, k, id);
    BatchStands(s, k, |s.levels|, id, BatchOf(s, After(s, k), id));
  }

  lemma OneLevelOnly(s: Setup, k: nat, m: nat, id: string)
    requires WellLeveled(s) && k < |s.levels| && m < |s.levels| && id in s.levels[k] && id in s.levels[m]
    ensures k == m
  {
  }

  // ----- a run up to a rule of choice

  /** A run that follows the reference has not decided the rule yet. */
  ghost predicate Before(s: Setup, t: State, k: nat, id: string) {
    && OnTrack(s, t) && t.lost == {} && id !in t.acc.results
    && Looks(s, k, id)
  }

  lemma BeforeIsOpen(s: Setup, t: State, k: nat, id: string)
    requires WellLeveled(s) && Before(s, t, k, id)
    ensures !t.phase.Draining? && !t.phase.Reported?
  {
    if t.level == |s.levels| {
      EveryRuleDecided(s);
    }
  }

  /** The rule's own gate lets it pass. */
  lemma OtherGated(s: Setup, t: State, k: nat, id: string)
    requires WellLeveled(s) && Before(s, t, k, id) && AtRule(s, t) && !Passes(s, t)
    ensures Current(s, t) != id
  {
    if Current(s, t) == id {
      AtGate(s, After(s, t.level), t, id);
      OneLevelOnly(s, k, t.level, id);
    }
  }

  lemma OtherDecided(s: Setup, t: State, k: nat, id: string, other: string)
    requires WellLeveled(s) && id !in t.acc.results && other != id && other in s.rules
    ensures id !in ExecuteJob(s, t, other, false).acc.results && ExecuteJob(s, t, other, false).cache == t.cache
    ensures ExecuteJob(s, t, other, false).lost == t.lost
  {
    NamedById(s, other);
    UnstoredKeeps(s, t, other);
    match OutcomeOf(s, t.prior, other)
    case JobFailed =>
    case JobDone(_) =>
  }

  lemma UnstoredKeeps(s: Setup, t: State, id: string)
    requires id in s.rules
    ensures ExecuteJob(s, t, id, false).cache == t.cache
  {
    match OutcomeOf(s, t.prior, id)
    case JobFailed =>
    case JobDone(_) =>
  }

  lemma GatedAway(s: Setup, t: State, id: string)
    requires WellLeveled(s) && AtRule(s, t) && !Passes(s, t) && Current(s, t) != id && id !in t.acc.results
    ensures id !in Apply(s, t, Gate).acc.results && Apply(s, t, Gate).lost == t.lost && Apply(s, t, Gate).cache == t.cache
  {
    NamedById(s, Current(s, t));
  }

  predicate Quiet(step: Step) {
    step.Submit? || step.EndSubmit? || step.Barrier? || step.Finish? || step.Take? || step.Start? || step.Publish?
  }

  lemma QuietStays(s: Setup, t: State, step: Step)
    requires Enabled(s, t, step)
    requires Quiet(step)
    ensures var u := Apply(s, t, step);
      u.acc.results == t.acc.results && (t.lost == {} ==> u.lost == {}) && u.cache == t.cache
  {
  }

  /** A step of the engine's own choice, with the rule not running, leaves it
      undecided and the cache as it was. */
  lemma StaysBefore(s: Setup, t: State, k: nat, id: string, step: Step)
    requires WellLeveled(s) && Before(s, t, k, id) && id !in t.running && !t.phase.Draining? && !t.cancelled
    requires Enabled(s, t, step) && Calm(step) && !Outside(step) && !step.Hit? && (step.Fresh? ==> step == Fresh(step.id, false))
    ensures var u := Apply(s, t, step); id !in u.acc.results && u.lost == {} && u.cache == t.cache
  {
    if step.Gate? {
      OtherGated(s, t, k, id);
      GatedAway(s, t, id);
    } else if step.Fresh? {
      OtherDecided(s, t, k, id, step.id);
    } else {
      OwnQuiet(s, t, step);
      QuietStays(s, t, step);
    }
  }

  lemma OwnQuiet(s: Setup, t: State, step: Step)
    requires Enabled(s, t, step) && Calm(step) && !Outside(step) && !t.phase.Draining? && !t.cancelled
    requires !step.Gate? && !step.Hit? && !step.Fresh?
    ensures Quiet(step)
  {
  }

  /** One such step. */
  lemma OneStepOn(s: Setup, t: State, k: nat, id: string) returns (step: Step)
    requires WellLeveled(s) && Before(s, t, k, id) && id !in t.running
    ensures Enabled(s, t, step) && Calm(step) && Work(s, Apply(s, t, step)) < Work(s, t)
    ensures Before(s, Apply(s, t, step), k, id) && Apply(s, t, step).cache == t.cache
  {
    BeforeIsOpen(s, t, k, id);
    step := NextStep(s, t);
    StepUsesWork(s, t, step);
    StaysBefore(s, t, k, id, step);
    CalmStep(s, t, step);
  }

  /** Some run without a hit brings the rule to a worker, following the
      reference. */
  lemma {:induction false} BringsToWorker(s: Setup, t: State, k: nat, id: string) returns (steps: seq<Step>, u: State)
    requires WellLeveled(s) && Before(s, t, k, id)
    ensures Runs(s, t, steps, u) && AllCalm(steps) && Before(s, u, k, id) && id in u.running && u.cache == t.cache
    decreases Work(s, t)
  {
    WorkNonNegative(s, t);
    if id in t.running {
      steps, u := [], t;
    } else {
      var step := OneStepOn(s, t, k, id);
      var rest, v := BringsToWorker(s, Apply(s, t, step), k, id);
      steps, u := [step] + rest, v;
      FirstStep(s, t, step, rest, v);
    }
  }

  lemma FirstStep(s: Setup, t: State, step: Step, rest: seq<Step>, v: State)
    requires Enabled(s, t, step) && Calm(step) && Runs(s, Apply(s, t, step), rest, v) && AllCalm(rest)
    ensures Runs(s, t, [step] + rest, v) && AllCalm([step] + rest)
  {
    assert ([step] + rest)[1..] == rest;
  }

  // ----- what was served is reported

  /** fs is what the rule adds or has added. */
  ghost predicate Adds(t: State, id: string, fs: seq<Finding>) {
    if id in t.adding then t.adding[id] == fs else id in t.batches && t.batches[id] == fs
  }

  ghost predicate Holds(t: State, id: string, fs: seq<Finding>) {
    id in t.acc.results && Adds(t, id, fs)
  }

  lemma OtherAdds(s: Setup, t: State, other: string, stored: bool, id: string, fs: seq<Finding>)
    requires other in s.rules && other != id && Adds(t, id, fs)
    ensures Adds(ExecuteJob(s, t, other, stored), id, fs)
  {
    match OutcomeOf(s, t.prior, other)
    case JobFailed =>
    case JobDone(_) =>
  }

  lemma AddsOn(s: Setup, t: State, id: string, fs: seq<Finding>, step: Step)
    requires Adds(t, id, fs) && Enabled(s, t, step) && (step.Hit? || step.Fresh? ==> step.id != id)
    ensures Adds(Apply(s, t, step), id, fs)
  {
    if step.Fresh? {
      OtherAdds(s, t, step.id, step.stored, id, fs);
    }
  }

  lemma HoldsOn(s: Setup, t: State, id: string, fs: seq<Finding>, step: Step)
    requires WellLeveled(s) && Inv(s, t) && Holds(t, id, fs) && Enabled(s, t, step)
    ensures Inv(s, Apply(s, t, step)) && Holds(Apply(s, t, step), id, fs)
  {
    StepKeepsInv(s, t, step);
    OtherRuns(s, t, id, step);
    AddsOn(s, t, id, fs, step);
  }

  /** A decided rule is not at work. */
  lemma OtherRuns(s: Setup, t: State, id: string, step: Step)
    requires JobsOk(s, t) && id in t.acc.results && Enabled(s, t, step)
    ensures step.Hit? || step.Fresh? ==> step.id != id
  {
    if step.Hit? || step.Fresh? {
      assert step.id in t.queued + t.running;
    }
  }

  lemma {:induction false} HoldsToTheEnd(s: Setup, t: State, id: string, fs: seq<Finding>, steps: seq<Step>, u: State)
    requires WellLeveled(s) && Inv(s, t) && Holds(t, id, fs) && Runs(s, t, steps, u)
    ensures Inv(s, u) && Holds(u, id, fs)
    decreases steps
  {
    if steps != [] {
      HoldsOn(s, t, id, fs, steps[0]);
      HoldsToTheEnd(s, Apply(s, t, steps[0]), id, fs, steps[1..], u);
    }
  }

  /** With a record in place the rule, once running, may be served it. */
  lemma HitAdds(s: Setup, t: State, k: nat, id: string, fs: seq<Finding>)
    requires WellLeveled(s) && Before(s, t, k, id) && id in t.running
    requires KeyAt(s, k, id) in t.cache && DecodeFor(s, id, t.cache[KeyAt(s, k, id)]) == Some(fs)
    ensures Enabled(s, t, Hit(id)) && Holds(Apply(s, t, Hit(id)), id, fs)
  {
    RunningLevel(s, t, id);
    OneLevelOnly(s, k, t.level, id);
    NamedById(s, id);
    assert Served(s, t, id) == Some(fs);
  }

  lemma StartsBefore(s: Setup, cache: map<Digest, Record>, k: nat, id: string)
    requires WellLeveled(s) && Looks(s, k, id)
    ensures Before(s, Init(s, cache), k, id)
  {
    StartsOnTrack(s, cache);
    LevelsAreSelected(s, id);
  }

  /** A record that a lookup finds is served in some calm run, which reports that the
      rule added it. */
  lemma RecordShows(s: Setup, cache: map<Digest, Record>, k: nat, id: string, fs: seq<Finding>) returns (steps: seq<Step>, u: State)
    requires WellLeveled(s) && Looks(s, k, id)
    requires KeyAt(s, k, id) in cache && DecodeFor(s, id, cache[KeyAt(s, k, id)]) == Some(fs)
    ensures Runs(s, Init(s, cache), steps, u) && AllCalm(steps) && u.phase.Reported?
    ensures id in u.batches && u.batches[id] == fs
  {
    StartsBefore(s, cache, k, id);
    var before, t := BringsToWorker(s, Init(s, cache), k, id);
    HitAdds(s, t, k, id, fs);
    StepKeepsInv(s, t, Hit(id));
    var next := Apply(s, t, Hit(id));
    CalmKeepsLost(s, t, Hit(id));
    var after, v := RunCompletes(s, next);
    HoldsToTheEnd(s, next, id, fs, after, v);
    FirstStep(s, t, Hit(id), after, v);
    RunsThen(s, Init(s, cache), before, t, [Hit(id)] + after, v);
    steps, u := before + ([Hit(id)] + after), v;
  }

  /** For each cache: its runs report what the reference does, if and only if
      whatever it would serve to a lookup of the run is what the rule finds. */
  lemma ShowsIff(s: Setup, cache: map<Digest, Record>)
    requires WellLeveled(s)
    ensures AlwaysMeets(s, cache) <==> CacheAgrees(s, cache)
  {
    if CacheAgrees(s, cache) {
      forall steps, u | Runs(s, Init(s, cache), steps, u) && AllCalm(steps) && u.phase.Reported?
        ensures Meets(s, After(s, |s.levels|), u)
      {
        RunMeetsReference(s, cache, steps, u);
      }
    } else {
      var k: nat, id: string :| !AgreesAt(s, cache, k, id);
      FinalBatch(s, k, id);
      var fs := DecodeFor(s, id, cache[KeyAt(s, k, id)]).value;
      var steps, u := RecordShows(s, cache, k, id, fs);
      assert !Meets(s, After(s, |s.levels|), u);
    }
  }
}
