/** What becomes of each rule of a run (internal/detect/engine.go: Run, processRule,
    executeRule, storeFindings), said of its declaration, its dependencies'
    results and what its detector returns. */
module RuleOutcomes {
  import opened Wrappers
  import opened Order
  import opened Merging
  import opened Identities
  import opened Findings
  import opened FindingJson
  import opened Retention
  import opened Registries
  import opened RuleViews
  import opened RuleKeys
  import opened RuleRecords
  import opened RuleContracts
  import opened Engine
  import opened Reference
  import opened Following
  import opened Equivalence
  import opened CacheVisibility

  // ----- selection, in any run

  /** required[i] is the first kind the corpus does not have. */
  ghost predicate FirstAbsent(required: seq<string>, kinds: set<string>, i: nat) {
    i < |required| && required[i] !in kinds && forall j :: 0 <= j < i ==> required[j] in kinds
  }

  lemma {:induction false} MissingIsFirst(required: seq<string>, kinds: set<string>)
    ensures MissingKind(required, kinds).None? <==> forall kind :: kind in required ==> kind in kinds
    ensures MissingKind(required, kinds).Some? ==>
      exists i: nat :: FirstAbsent(required, kinds, i) && MissingKind(required, kinds) == Some(required[i])
  {
    if required != [] {
      MissingIsFirst(required[1..], kinds);
      if required[0] !in kinds {
        assert FirstAbsent(required, kinds, 0);
      } else if MissingKind(required[1..], kinds).Some? {
        var i: nat :| FirstAbsent(required[1..], kinds, i) && MissingKind(required[1..], kinds) == Some(required[1..][i]);
        assert FirstAbsent(required, kinds, i + 1);
      }
    }
  }

  lemma SelectedMeans(r: Rule, kinds: set<string>)
    ensures Selected(r, kinds) <==> r.enabled && forall kind :: kind in r.kinds ==> kind in kinds
  {
    MissingIsFirst(r.kinds, kinds);
  }

  /** However the run goes, a disabled rule is skipped as such, and one whose corpus
      lacks a kind is skipped for the first it lacks. */
  lemma UnselectedSkipped(s: Setup, cache: map<Digest, Record>, steps: seq<Step>, u: State, id: string)
    requires WellLeveled(s) && Runs(s, Init(s, cache), steps, u) && id in s.rules
    ensures var r := s.rules[id];
      && (!r.enabled ==> id in u.acc.results && u.acc.results[id] == RuleResult(id, r.version, Skipped, Disabled, false, 0))
      && (forall i: nat :: r.enabled && FirstAbsent(r.kinds, s.kinds, i)
            ==> id in u.acc.results && u.acc.results[id] == RuleResult(id, r.version, Skipped, KindAbsent(r.kinds[i]), false, 0))
  {
    InitInv(s, cache);
    RunKeepsInv(s, Init(s, cache), steps, u);
    NamedById(s, id);
    InitSkips(s, id);
    assert InitialResults(s.rules, s.kinds) == Init(s, cache).acc.results;
  }

  lemma InitSkips(s: Setup, id: string)
    requires id in s.rules && s.rules[id].id == id
    ensures var r, results := s.rules[id], InitialResults(s.rules, s.kinds);
      && (!r.enabled ==> id in results && results[id] == RuleResult(id, r.version, Skipped, Disabled, false, 0))
      && (forall i: nat :: r.enabled && FirstAbsent(r.kinds, s.kinds, i)
            ==> id in results && results[id] == RuleResult(id, r.version, Skipped, KindAbsent(r.kinds[i]), false, 0))
  {
    var r := s.rules[id];
    MissingIsFirst(r.kinds, s.kinds);
    forall i: nat | FirstAbsent(r.kinds, s.kinds, i) ensures MissingKind(r.kinds, s.kinds) == Some(r.kinds[i]) {
      assert r.kinds[i] in r.kinds;
      var j: nat :| FirstAbsent(r.kinds, s.kinds, j) && MissingKind(r.kinds, s.kinds) == Some(r.kinds[j]);
      assert i == j;
    }
  }

  // ----- who starts, in any run

  ghost predicate InLevels(s: Setup, id: string) {
    exists k :: 0 <= k < |s.levels| && id in s.levels[k]
  }

  predicate Ran(r: RuleResult) {
    r.status == Completed || r.status == Failed
  }

  /** A completed rule's findings, on their way or added, are as many as reported. */
  ghost predicate Delivered(t: State, id: string) {
    id in t.acc.results
    && if id in t.adding then |t.adding[id]| == t.acc.results[id].findings
       else id in t.batches && |t.batches[id]| == t.acc.results[id].findings
  }

  /** Only rules of the levels start, only those that started complete or fail, and
      the completed ones are those that add findings. */
  ghost predicate Worked(s: Setup, t: State) {
    && t.running <= t.started
    && (forall id :: id in t.started ==> InLevels(s, id))
    && (forall id :: id in t.acc.results && Ran(t.acc.results[id]) ==> id in t.started)
    && (forall id :: id in t.acc.results && t.acc.results[id].status == Completed ==> Delivered(t, id))
    && (forall id :: id in t.adding || id in t.batches ==> id in t.acc.results && t.acc.results[id].status == Completed)
  }

  lemma InitWorked(s: Setup, cache: map<Digest, Record>)
    ensures Worked(s, Init(s, cache))
  {
  }

  lemma QueuedInLevels(s: Setup, t: State, id: string)
    requires PendingOk(s, t) && id in t.queued
    ensures InLevels(s, id)
  {
    assert id in Passed(s, t.level, t.pos);
  }

  lemma StartWorked(s: Setup, t: State, id: string)
    requires Worked(s, t) && PendingOk(s, t) && id in t.queued
    ensures Worked(s, Begin(t, id))
  {
    QueuedInLevels(s, t, id);
  }

  /** A running rule gets its result. */
  lemma SettleWorked(s: Setup, t: State, id: string, r: RuleResult, signals: nat)
    requires Worked(s, t) && JobsOk(s, t) && id in t.queued + t.running && r.ruleId == id && !r.status.Completed?
    requires r.status.Failed? ==> id in t.running
    ensures Worked(s, Settle(t, id, r).(signals := signals))
  {
  }

  lemma CompleteWorked(s: Setup, t: State, id: string, cached: bool, fs: seq<Finding>, cache: map<Digest, Record>)
    requires Worked(s, t) && JobsOk(s, t) && id in t.running && id in s.rules && s.rules[id].id == id
    ensures Worked(s, Complete(s, t, id, cached, fs).(cache := cache))
  {
    assert id in t.queued + t.running;
  }

  lemma PublishWorked(s: Setup, t: State, id: string)
    requires Worked(s, t) && id in t.adding
    ensures Worked(s, AddFindings(s, t, id))
  {
  }

  lemma GateWorked(s: Setup, t: State, r: RuleResult)
    requires Worked(s, t) && r.status.Skipped?
    ensures Worked(s, Skip(t, r))
  {
  }

  lemma ConcludeWorked(s: Setup, t: State)
    requires Worked(s, t) && Enabled(s, t, Conclude)
    ensures Worked(s, Apply(s, t, Conclude))
  {
  }

  /** Steps that touch neither results nor findings, and start nothing. */
  lemma SameWorked(s: Setup, t: State, u: State)
    requires Worked(s, t) && u.acc.results == t.acc.results && u.adding == t.adding && u.batches == t.batches
    requires u.running <= t.running && u.started == t.started
    ensures Worked(s, u)
  {
  }

  lemma InterruptWorked(s: Setup, t: State, id: string)
    requires Worked(s, t) && JobsOk(s, t) && Enabled(s, t, Interrupt(id)) && s.rules[id].id == id
    ensures Worked(s, Apply(s, t, Interrupt(id)))
  {
    SettleWorked(s, t, id, PlainResult(s.rules[id], Cancelled), t.signals + 1);
  }

  lemma HitWorked(s: Setup, t: State, id: string)
    requires Worked(s, t) && JobsOk(s, t) && Enabled(s, t, Hit(id)) && s.rules[id].id == id
    ensures Worked(s, Apply(s, t, Hit(id)))
  {
    CompleteWorked(s, t, id, true, Served(s, t, id).value, t.cache);
  }

  lemma ExecuteWorked(s: Setup, t: State, id: string, stored: bool)
    requires Worked(s, t) && JobsOk(s, t) && id in t.running && id in s.rules && s.rules[id].id == id
    ensures Worked(s, ExecuteJob(s, t, id, stored))
  {
    match OutcomeOf(s, t.prior, id)
    case JobFailed => SettleWorked(s, t, id, PlainResult(s.rules[id], Failed), t.signals + 1);
    case JobDone(fs) => CompleteWorked(s, t, id, false, fs, CacheAfter(s, t, id, stored, fs));
  }

  lemma OtherWorked(s: Setup, t: State, step: Step)
    requires Worked(s, t) && Enabled(s, t, step)
    requires !step.Hit? && !step.Fresh? && !step.Interrupt? && !step.Start? && !step.Publish? && !step.Gate? && !step.Conclude?
    ensures Worked(s, Apply(s, t, step))
  {
    SameWorked(s, t, Apply(s, t, step));
  }

  lemma StepWorked(s: Setup, t: State, step: Step)
    requires WellLeveled(s) && Inv(s, t) && Worked(s, t) && Enabled(s, t, step)
    ensures Worked(s, Apply(s, t, step))
  {
    if step.Hit? {
      NamedById(s, step.id);
      HitWorked(s, t, step.id);
    } else if step.Fresh? {
      NamedById(s, step.id);
      ExecuteWorked(s, t, step.id, step.stored);
    } else if step.Interrupt? {
      NamedById(s, step.id);
      InterruptWorked(s, t, step.id);
    } else if step.Start? {
      StartWorked(s, t, step.id);
    } else if step.Publish? {
      PublishWorked(s, t, step.id);
    } else if step.Gate? {
      GateWorked(s, t, GateSkip(s.rules[Current(s, t)], FirstIncomplete(s.rules[Current(s, t)].dependencies, t.acc.results).value));
    } else if step.Conclude? {
      ConcludeWorked(s, t);
    } else {
      OtherWorked(s, t, step);
    }
  }

  lemma {:induction false} RunWorked(s: Setup, t: State, steps: seq<Step>, u: State)
    requires WellLeveled(s) && Inv(s, t) && Worked(s, t) && Runs(s, t, steps, u)
    ensures Inv(s, u) && Worked(s, u)
    decreases steps
  {
    if steps != [] {
      StepKeepsInv(s, t, steps[0]);
      StepWorked(s, t, steps[0]);
      RunWorked(s, Apply(s, t, steps[0]), steps[1..], u);
    }
  }

  /** However the run goes: a disabled rule, or one whose corpus lacks a kind, never
      starts. */
  lemma UnselectedNeverStarts(s: Setup, cache: map<Digest, Record>, steps: seq<Step>, u: State, id: string)
    requires WellLeveled(s) && Runs(s, Init(s, cache), steps, u) && id in u.started
    ensures id in s.rules && s.rules[id].enabled && forall kind :: kind in s.rules[id].kinds ==> kind in s.kinds
  {
    InitInv(s, cache);
    InitWorked(s, cache);
    RunWorked(s, Init(s, cache), steps, u);
    assert InLevels(s, id);
    LevelsAreSelected(s, id);
    SelectedMeans(s.rules[id], s.kinds);
  }

  /** And at its end: only rules that started completed or failed, the others being
      skipped or cancelled; findings were added by the completed ones, each as many
      as its result says. */
  lemma ReportedWork(s: Setup, cache: map<Digest, Record>, steps: seq<Step>, u: State, id: string)
    requires WellLeveled(s) && Runs(s, Init(s, cache), steps, u) && u.phase.Reported? && id in s.rules
    ensures id in u.acc.results
    ensures var r := u.acc.results[id];
      && (r.status == Completed || r.status == Failed ==> id in u.started)
      && (r.status == Completed <==> id in u.batches)
      && (id in u.batches ==> |u.batches[id]| == r.findings)
  {
    InitInv(s, cache);
    InitWorked(s, cache);
    RunWorked(s, Init(s, cache), steps, u);
    assert u.adding == map[];
  }

  // ----- every result gives its reason, in any run

  /** Why the rule ended so, if it was skipped; only completed rules have findings. */
  ghost predicate Explained(s: Setup, id: string, r: RuleResult) {
    && id in s.rules && r.ruleId == id && r.version == s.rules[id].version
    && (r.status != Completed ==> r.findings == 0 && !r.cached)
    && match r.reason
       case NoReason => r.status != Skipped
       case Disabled => r.status == Skipped && !s.rules[id].enabled
       case KindAbsent(kind) =>
         r.status == Skipped && s.rules[id].enabled && exists i: nat :: FirstAbsent(s.rules[id].kinds, s.kinds, i) && s.rules[id].kinds[i] == kind
       case DependencyIncomplete(d, st) => r.status == Skipped && st != Completed && d in s.rules[id].dependencies
  }

  ghost predicate AllExplained(s: Setup, results: map<string, RuleResult>) {
    forall id :: id in results ==> Explained(s, id, results[id])
  }

  lemma InitExplained(s: Setup)
    requires WellLeveled(s)
    ensures AllExplained(s, InitialResults(s.rules, s.kinds))
  {
    forall id | id in InitialResults(s.rules, s.kinds) ensures Explained(s, id, InitialResults(s.rules, s.kinds)[id]) {
      NamedById(s, id);
      MissingIsFirst(s.rules[id].kinds, s.kinds);
    }
  }

  lemma {:induction false} BlockedIsDependency(deps: seq<string>, results: map<string, RuleResult>)
    requires FirstIncomplete(deps, results).Some?
    ensures var blocked := FirstIncomplete(deps, results).value; blocked.0 in deps && blocked.1 != Completed
  {
    if deps[0] in results && results[deps[0]].status == Completed {
      BlockedIsDependency(deps[1..], results);
    }
  }

  lemma GateExplained(s: Setup, t: State)
    requires WellLeveled(s) && AtRule(s, t) && !Passes(s, t) && AllExplained(s, t.acc.results)
    ensures AllExplained(s, Apply(s, t, Gate).acc.results)
  {
    var id := Current(s, t);
    CurrentNamed(s, t);
    BlockedIsDependency(s.rules[id].dependencies, t.acc.results);
    SkipExplained(s, t, id, GateSkip(s.rules[id], FirstIncomplete(s.rules[id].dependencies, t.acc.results).value));
  }

  lemma SkipExplained(s: Setup, t: State, id: string, r: RuleResult)
    requires AllExplained(s, t.acc.results) && Explained(s, id, r)
    ensures AllExplained(s, Skip(t, r).acc.results)
  {
  }

  lemma SettleExplained(s: Setup, t: State, id: string, r: RuleResult)
    requires AllExplained(s, t.acc.results) && Explained(s, id, r)
    ensures AllExplained(s, Settle(t, id, r).acc.results)
  {
  }

  lemma FreshExplained(s: Setup, t: State, id: string, stored: bool)
    requires AllExplained(s, t.acc.results) && id in s.rules && s.rules[id].id == id
    ensures AllExplained(s, ExecuteJob(s, t, id, stored).acc.results)
  {
    match OutcomeOf(s, t.prior, id)
    case JobFailed => SettleExplained(s, t, id, PlainResult(s.rules[id], Failed));
    case JobDone(fs) => SettleExplained(s, t, id, CompletedResult(s.rules[id], false, |fs|));
  }

  lemma ConcludeExplained(s: Setup, results: map<string, RuleResult>)
    requires WellLeveled(s) && AllExplained(s, results)
    ensures AllExplained(s, Placeholders(s) + results)
  {
    forall id | id in Placeholders(s) ensures Explained(s, id, Placeholders(s)[id]) {
      NamedById(s, id);
    }
  }

  lemma JobExplained(s: Setup, t: State, step: Step)
    requires WellLeveled(s) && AllExplained(s, t.acc.results) && Enabled(s, t, step) && (step.Hit? || step.Interrupt?)
    ensures AllExplained(s, Apply(s, t, step).acc.results)
  {
    NamedById(s, step.id);
    if step.Hit? {
      SettleExplained(s, t, step.id, CompletedResult(s.rules[step.id], true, |Served(s, t, step.id).value|));
    } else {
      SettleExplained(s, t, step.id, PlainResult(s.rules[step.id], Cancelled));
    }
  }

  lemma StepExplained(s: Setup, t: State, step: Step)
    requires WellLeveled(s) && AllExplained(s, t.acc.results) && Enabled(s, t, step)
    ensures AllExplained(s, Apply(s, t, step).acc.results)
  {
    if step.Gate? {
      GateExplained(s, t);
    } else if step.Hit? || step.Interrupt? {
      JobExplained(s, t, step);
    } else if step.Fresh? {
      NamedById(s, step.id);
      FreshExplained(s, t, step.id, step.stored);
    } else if step.Conclude? {
      ConcludeExplained(s, t.acc.results);
    } else {
      ResultsStay(s, t, step);
    }
  }

  lemma {:induction false} RunExplained(s: Setup, t: State, steps: seq<Step>, u: State)
    requires WellLeveled(s) && AllExplained(s, t.acc.results) && Runs(s, t, steps, u)
    ensures AllExplained(s, u.acc.results)
    decreases steps
  {
    if steps != [] {
      StepExplained(s, t, steps[0]);
      RunExplained(s, Apply(s, t, steps[0]), steps[1..], u);
    }
  }

  /** However the run goes, a rule that is reported skipped was disabled, lacked a
      kind or had a dependency that did not complete, and its result says which. */
  lemma ResultsExplained(s: Setup, cache: map<Digest, Record>, steps: seq<Step>, u: State, id: string)
    requires WellLeveled(s) && Runs(s, Init(s, cache), steps, u) && id in u.acc.results
    ensures Explained(s, id, u.acc.results[id])
  {
    InitExplained(s);
    RunExplained(s, Init(s, cache), steps, u);
  }

  // ----- what is stored, in any run from an empty cache

  /** rec holds, under a key of the rule id, what that completed rule found. */
  ghost predicate OwnedBy(s: Setup, t: State, key: Digest, rec: Record, id: string, prior: seq<Finding>, fs: seq<Finding>) {
    && id in s.rules && key == KeyFor(s.world, LookupOf(s, prior, id))
    && id in t.acc.results && t.acc.results[id].status == Completed && Adds(t, id, fs)
    && AllWritable(fs) && rec == Record(RecordCompleted, "detect.rule", "rule:" + id, 4, RereadAll(fs))
  }

  ghost predicate Owned(s: Setup, t: State, key: Digest, rec: Record) {
    exists id, prior, fs :: OwnedBy(s, t, key, rec, id, prior, fs)
  }

  /** Nothing was stored but by completed rules, and nothing was served. */
  ghost predicate Cold(s: Setup, t: State) {
    && (forall key :: key in t.cache ==> Owned(s, t, key, t.cache[key]))
    && Uncached(t.acc.results)
  }

  lemma OwnedStays(s: Setup, t: State, step: Step, key: Digest, rec: Record)
    requires WellLeveled(s) && Inv(s, t) && Owned(s, t, key, rec) && Enabled(s, t, step)
    ensures Owned(s, Apply(s, t, step), key, rec)
  {
    var id, prior, fs :| OwnedBy(s, t, key, rec, id, prior, fs);
    HoldsOn(s, t, id, fs, step);
    StepKeepsInv(s, t, step);
    assert OwnedBy(s, Apply(s, t, step), key, rec, id, prior, fs);
  }

  /** So nothing can be served: a record's rule is decided, and a running one is not. */
  lemma NeverServed(s: Setup, t: State, id: string)
    requires WellLeveled(s) && JobsOk(s, t) && Cold(s, t) && id in t.running && id in s.rules
    ensures Served(s, t, id).None?
  {
    var key := KeyOf(s, t, id);
    assert id in t.queued + t.running;
    if key in t.cache {
      var other, prior, fs :| OwnedBy(s, t, key, t.cache[key], other, prior, fs);
      KeysNameRules(s.world, LookupOf(s, prior, other), LookupOf(s, t.prior, id));
      NamedById(s, other);
      NamedById(s, id);
    }
  }

  lemma StoredIsOwned(s: Setup, t: State, id: string, stored: bool, key: Digest)
    requires WellLeveled(s) && JobsOk(s, t) && id in t.running && id in s.rules && s.rules[id].id == id
    ensures var u := ExecuteJob(s, t, id, stored);
      key in u.cache ==> (key in t.cache && u.cache[key] == t.cache[key]) || Owned(s, u, key, u.cache[key])
  {
    match OutcomeOf(s, t.prior, id)
    case JobFailed =>
    case JobDone(fs) =>
      var u := ExecuteJob(s, t, id, stored);
      assert id in t.queued + t.running;
      if key in u.cache && !(key in t.cache && u.cache[key] == t.cache[key]) {
        assert OwnedBy(s, u, key, u.cache[key], id, t.prior, fs);
      }
  }

  lemma StepCold(s: Setup, t: State, step: Step)
    requires WellLeveled(s) && Inv(s, t) && Cold(s, t) && Enabled(s, t, step) && !step.Foreign?
    ensures Cold(s, Apply(s, t, step)) && !step.Hit?
  {
    if step.Hit? {
      NeverServed(s, t, step.id);
    } else {
      forall key | key in Apply(s, t, step).cache ensures Owned(s, Apply(s, t, step), key, Apply(s, t, step).cache[key]) {
        StepOwned(s, t, step, key);
      }
      StepUncached(s, t, step);
    }
  }

  lemma StepOwned(s: Setup, t: State, step: Step, key: Digest)
    requires WellLeveled(s) && Inv(s, t) && Enabled(s, t, step) && !step.Foreign? && key in Apply(s, t, step).cache
    requires key in t.cache ==> Owned(s, t, key, t.cache[key])
    ensures Owned(s, Apply(s, t, step), key, Apply(s, t, step).cache[key])
  {
    if step.Fresh? {
      NamedById(s, step.id);
      StoredIsOwned(s, t, step.id, step.stored, key);
    } else {
      OnlyFreshStores(s, t, step);
    }
    if key in t.cache && Apply(s, t, step).cache[key] == t.cache[key] {
      OwnedStays(s, t, step, key, t.cache[key]);
    }
  }

  ghost predicate Uncached(results: map<string, RuleResult>) {
    forall id :: id in results ==> !results[id].cached
  }

  lemma FreshUncached(s: Setup, t: State, id: string, stored: bool)
    requires id in s.rules && Uncached(t.acc.results)
    ensures Uncached(ExecuteJob(s, t, id, stored).acc.results)
  {
    match OutcomeOf(s, t.prior, id)
    case JobFailed => SettleUncached(t, id, PlainResult(s.rules[id], Failed));
    case JobDone(fs) => CompleteUncached(s, t, id, fs, CacheAfter(s, t, id, stored, fs));
  }

  lemma CompleteUncached(s: Setup, t: State, id: string, fs: seq<Finding>, cache: map<Digest, Record>)
    requires id in s.rules && Uncached(t.acc.results)
    ensures Uncached(Complete(s, t, id, false, fs).(cache := cache).acc.results)
  {
  }

  lemma GateUncached(t: State, r: RuleResult)
    requires Uncached(t.acc.results) && !r.cached
    ensures Uncached(Skip(t, r).acc.results)
  {
  }

  lemma SettleUncached(t: State, id: string, r: RuleResult)
    requires Uncached(t.acc.results) && !r.cached
    ensures Uncached(SettleAndSignal(t, id, r).acc.results)
  {
  }

  lemma ConcludeUncached(s: Setup, results: map<string, RuleResult>)
    requires Uncached(results)
    ensures Uncached(Placeholders(s) + results)
  {
  }

  lemma StepUncached(s: Setup, t: State, step: Step)
    requires Enabled(s, t, step) && !step.Hit? && Uncached(t.acc.results)
    ensures Uncached(Apply(s, t, step).acc.results)
  {
    if step.Fresh? {
      FreshUncached(s, t, step.id, step.stored);
    } else if step.Gate? {
      GateUncached(t, GateSkip(s.rules[Current(s, t)], FirstIncomplete(s.rules[Current(s, t)].dependencies, t.acc.results).value));
    } else if step.Interrupt? {
      SettleUncached(t, step.id, PlainResult(s.rules[step.id], Cancelled));
    } else if step.Conclude? {
      ConcludeUncached(s, t.acc.results);
    } else {
      ResultsStay(s, t, step);
    }
  }

  lemma ResultsStay(s: Setup, t: State, step: Step)
    requires Enabled(s, t, step) && !step.Hit? && !step.Fresh? && !step.Gate? && !step.Interrupt? && !step.Conclude?
    ensures Apply(s, t, step).acc.results == t.acc.results
  {
  }

  ghost predicate NoneForeign(steps: seq<Step>) {
    forall step :: step in steps ==> !step.Foreign?
  }

  lemma {:induction false} RunCold(s: Setup, t: State, steps: seq<Step>, u: State)
    requires WellLeveled(s) && Inv(s, t) && Cold(s, t) && Runs(s, t, steps, u) && NoneForeign(steps)
    ensures Inv(s, u) && Cold(s, u)
    decreases steps
  {
    if steps != [] {
      assert steps[0] in steps;
      StepKeepsInv(s, t, steps[0]);
      StepCold(s, t, steps[0]);
      RunCold(s, Apply(s, t, steps[0]), steps[1..], u);
    }
  }

  /** From an empty cache, cancelled or not: the cache holds what completed rules
      added, as it will be read back, and nothing of any other rule; and no result
      comes from the cache. */
  lemma OnlyCompletedStored(s: Setup, steps: seq<Step>, u: State)
    requires WellLeveled(s) && Runs(s, Init(s, map[]), steps, u) && NoneForeign(steps) && u.phase.Reported?
    ensures forall key :: key in u.cache ==> StoredByCompleted(s, u, u.cache[key])
    ensures forall id :: id in u.acc.results ==> !u.acc.results[id].cached
  {
    InitInv(s, map[]);
    RunCold(s, Init(s, map[]), steps, u);
    assert u.adding == map[];
    forall key | key in u.cache ensures StoredByCompleted(s, u, u.cache[key]) {
      var id, prior, fs :| OwnedBy(s, u, key, u.cache[key], id, prior, fs);
      assert RecordOf(s, u, id, u.cache[key]);
    }
  }

  ghost predicate RecordOf(s: Setup, u: State, id: string, rec: Record) {
    && id in s.rules && id in u.acc.results && u.acc.results[id].status == Completed
    && id in u.batches && AllWritable(u.batches[id])
    && rec == Record(RecordCompleted, "detect.rule", "rule:" + id, 4, RereadAll(u.batches[id]))
  }

  ghost predicate StoredByCompleted(s: Setup, u: State, rec: Record) {
    exists id :: RecordOf(s, u, id, rec)
  }

  // ----- how a rule ends in a calm run

  ghost predicate Done(results: map<string, RuleResult>, d: string) {
    d in results && results[d].status == Completed
  }

  /** deps[i] is the first that has not completed. */
  ghost predicate FirstUndone(deps: seq<string>, results: map<string, RuleResult>, i: nat) {
    i < |deps| && !Done(results, deps[i]) && forall j :: 0 <= j < i ==> Done(results, deps[j])
  }

  lemma {:induction false} BlockedIsFirst(deps: seq<string>, results: map<string, RuleResult>, i: nat)
    requires FirstUndone(deps, results, i)
    ensures FirstIncomplete(deps, results) == Some((deps[i], if deps[i] in results then results[deps[i]].status else Cancelled))
  {
    if i > 0 {
      assert Done(results, deps[0]);
      assert FirstUndone(deps[1..], results, i - 1) by {
        assert forall j :: 0 <= j < i - 1 ==> deps[1..][j] == deps[j + 1];
      }
      BlockedIsFirst(deps[1..], results, i - 1);
    }
  }

  ghost predicate SameAt(a: map<string, RuleResult>, b: map<string, RuleResult>, d: string) {
    if d in a then d in b && b[d] == a[d] else d !in b
  }

  lemma SameAtChain(a: map<string, RuleResult>, b: map<string, RuleResult>, c: map<string, RuleResult>, d: string)
    requires SameAt(a, b, d) && SameAt(b, c, d)
    ensures SameAt(a, c, d)
  {
  }

  /** The level leaves the rule's decision alone. */
  ghost predicate LeavesAlone(s: Setup, k: nat, d: string)
    requires k < |s.levels|
  {
    SameAt(After(s, k).results, After(s, k + 1).results, d)
  }

  lemma OneLevelOn(s: Setup, k: nat, d: string)
    requires WellLeveled(s) && k < |s.levels| && d !in s.levels[k]
    ensures LeavesAlone(s, k, d)
  {
    LevelKnown(s, k);
    NextDecision(s, After(s, k), s.levels[k], d);
  }

  lemma {:induction false} LeftAlone(s: Setup, k: nat, m: nat, d: string)
    requires k <= m <= |s.levels| && forall j :: k <= j < m ==> LeavesAlone(s, j, d)
    ensures SameAt(After(s, k).results, After(s, m).results, d)
    decreases m
  {
    if k < m {
      LeftAlone(s, k, m - 1, d);
      assert LeavesAlone(s, m - 1, d);
      SameAtChain(After(s, k).results, After(s, m - 1).results, After(s, m).results, d);
    }
  }

  /** What the reference decides of a rule that no later level holds. */
  lemma DecisionStands(s: Setup, k: nat, m: nat, d: string)
    requires WellLeveled(s) && k <= m <= |s.levels| && forall j :: k <= j < m ==> d !in s.levels[j]
    ensures SameAt(After(s, k).results, After(s, m).results, d)
  {
    forall j | k <= j < m ensures LeavesAlone(s, j, d) {
      OneLevelOn(s, j, d);
    }
    LeftAlone(s, k, m, d);
  }

  lemma NextDecision(s: Setup, b: Base, level: seq<string>, d: string)
    requires Known(s, level)
    ensures var next := NextBase(s, b, level).results;
      && (d !in level ==> (d in b.results <==> d in next) && (d in next ==> next[d] == b.results[d]))
      && (d in level ==> d in next && next[d] == ResultOf(s, b, d))
  {
    assert d in Elements(level) <==> d in level;
  }

  lemma DecidedInItsLevel(s: Setup, k: nat, id: string)
    requires WellLeveled(s) && k < |s.levels| && id in s.levels[k] && id in s.rules
    ensures id in After(s, |s.levels|).results && After(s, |s.levels|).results[id] == ResultOf(s, After(s, k), id)
  {
    LevelKnown(s, k);
    NextDecision(s, After(s, k), s.levels[k], id);
    DecisionStands(s, k + 1, |s.levels|, id);
  }

  /** The gate sees the dependencies as they are reported. */
  lemma GateSeesReport(s: Setup, k: nat, id: string, results: map<string, RuleResult>)
    requires WellLeveled(s) && k < |s.levels| && id in s.levels[k] && id in s.rules
    requires var final := After(s, |s.levels|).results;
      results.Keys == final.Keys && forall d :: d in final ==> Erased(results[d]) == final[d]
    ensures FirstIncomplete(s.rules[id].dependencies, After(s, k).results) == FirstIncomplete(s.rules[id].dependencies, results)
  {
    var deps := s.rules[id].dependencies;
    forall d | d in deps
      ensures (d in After(s, k).results <==> d in results)
      ensures d in results ==> After(s, k).results[d].status == results[d].status
    {
      DecisionStands(s, k, |s.levels|, d);
    }
    SameGate(deps, After(s, k).results, results);
  }

  /** What the detector of a rule returns in the state's level. */
  function Returns(s: Setup, t: State, id: string): Detection
    requires id in s.rules
  {
    s.world.detect(s.rules[id].(enabled := false), View(s.snapshot, Views(t.prior), s.config))
  }

  /** In a calm run from an empty cache, with the rule in the level of the state t
      passed on the way: it is skipped for its first dependency that has not
      completed; if all have, it failed exactly when its detector failed, returned
      too much or broke the contract, and else completed with what it returned. */
  ghost predicate EndsAs(s: Setup, t: State, id: string, u: State)
    requires id in s.rules
  {
    var r, results := s.rules[id], u.acc.results;
    var observed, d := s.world.observes(s.snapshot), Returns(s, t, id);
    && id in results
    && (forall i: nat :: FirstUndone(r.dependencies, results, i) ==>
          && results[id] == RuleResult(id, r.version, Skipped, DependencyIncomplete(r.dependencies[i],
               if r.dependencies[i] in results then results[r.dependencies[i]].status else Cancelled), false, 0)
          && id !in u.batches)
    && ((forall dep :: dep in r.dependencies ==> Done(results, dep)) ==>
          if Fails(s.world, r, observed, d) then results[id] == RuleResult(id, r.version, Failed, NoReason, false, 0) && id !in u.batches
          else
            && id in u.batches && Condenses(r, observed, d.findings, u.batches[id])
            && results[id] == RuleResult(id, r.version, Completed, NoReason, false, |u.batches[id]|))
  }

  lemma OneRun(s: Setup, before: seq<Step>, t: State, after: seq<Step>, u: State)
    requires WellLeveled(s) && Runs(s, Init(s, map[]), before, t) && Runs(s, t, after, u) && AllCalm(before) && AllCalm(after)
    requires u.phase.Reported?
    ensures t.level <= |s.levels| && t.prior == After(s, t.level).prior
    ensures Meets(s, After(s, |s.levels|), u) && forall id :: id in u.acc.results ==> !u.acc.results[id].cached
  {
    assert CacheAgrees(s, map[]);
    LevelSeesOnePrior(s, map[], before, t);
    RunsThen(s, Init(s, map[]), before, t, after, u);
    RunMeetsReference(s, map[], before + after, u);
    OnlyCompletedStored(s, before + after, u);
  }

  lemma DetectorDecides(s: Setup, before: seq<Step>, t: State, after: seq<Step>, u: State, id: string)
    requires WellLeveled(s) && Runs(s, Init(s, map[]), before, t) && Runs(s, t, after, u) && AllCalm(before) && AllCalm(after)
    requires u.phase.Reported? && t.level < |s.levels| && id in s.levels[t.level]
    ensures id in s.rules && EndsAs(s, t, id, u)
  {
    var k := t.level;
    OneRun(s, before, t, after, u);
    LevelsAreSelected(s, id);
    NamedById(s, id);
    DecidedInItsLevel(s, k, id);
    GateSeesReport(s, k, id, u.acc.results);
    FinalBatch(s, k, id);
    GateMeansCompleted(s.rules[id].dependencies, u.acc.results);
    var v := View(s.snapshot, Views(t.prior), s.config);
    FailsIff(s.world, s.rules[id], v);
    if Execute(s.world, s.rules[id], v).JobDone? {
      BatchCondenses(s.world, s.rules[id], v);
    }
    forall i: nat | FirstUndone(s.rules[id].dependencies, u.acc.results, i)
      ensures FirstIncomplete(s.rules[id].dependencies, u.acc.results).Some?
    {
      BlockedIsFirst(s.rules[id].dependencies, u.acc.results, i);
    }
    Ended(s, k, t, u, id);
  }

  lemma Ended(s: Setup, k: nat, t: State, u: State, id: string)
    requires k < |s.levels| && id in s.rules && s.rules[id].id == id && t.prior == After(s, k).prior
    requires id in u.acc.results && !u.acc.results[id].cached && Erased(u.acc.results[id]) == ResultOf(s, After(s, k), id)
    requires FirstIncomplete(s.rules[id].dependencies, After(s, k).results) == FirstIncomplete(s.rules[id].dependencies, u.acc.results)
    requires BatchIs(s, |s.levels|, id, BatchOf(s, After(s, k), id)) && u.batches == After(s, |s.levels|).batches
    requires FirstIncomplete(s.rules[id].dependencies, u.acc.results).None?
        <==> forall dep :: dep in s.rules[id].dependencies ==> Done(u.acc.results, dep)
    requires var out := OutcomeOf(s, t.prior, id); var observed := s.world.observes(s.snapshot);
      && (out.JobFailed? <==> Fails(s.world, s.rules[id], observed, Returns(s, t, id)))
      && (out.JobDone? ==> Returns(s, t, id).Returned? && Condenses(s.rules[id], observed, Returns(s, t, id).findings, out.findings))
    ensures EndsAs(s, t, id, u)
  {
    var deps := s.rules[id].dependencies;
    assert Erased(u.acc.results[id]) == u.acc.results[id];
    forall i: nat | FirstUndone(deps, u.acc.results, i)
      ensures FirstIncomplete(deps, u.acc.results)
        == Some((deps[i], if deps[i] in u.acc.results then u.acc.results[deps[i]].status else Cancelled))
    {
      BlockedIsFirst(deps, u.acc.results, i);
    }
  }

  // ----- what a level's rules may read

  /** f was added by a rule of an earlier level. */
  ghost predicate Earlier(s: Setup, t: State, f: Finding) {
    && f.ruleId in t.batches && f in t.batches[f.ruleId]
    && exists j :: 0 <= j < t.level && j < |s.levels| && f.ruleId in s.levels[j]
  }

  lemma {:induction false} BatchedEarlier(s: Setup, k: nat, id: string)
    requires k <= |s.levels| && id in After(s, k).batches
    ensures exists j :: 0 <= j < k && id in s.levels[j]
  {
    if k > 0 && id !in s.levels[k - 1] {
      NotBatchedHere(s, After(s, k - 1), s.levels[k - 1], id);
      BatchedEarlier(s, k - 1, id);
    }
  }

  lemma NotBatchedHere(s: Setup, b: Base, level: seq<string>, id: string)
    requires id in Decide(s, b, level).batches && id !in level
    ensures id in b.batches
  {
  }

  lemma ListedBatches(batches: map<string, seq<Finding>>, f: Finding)
    requires OwnBatches(batches)
    ensures f in AllFindings(batches) <==> f.ruleId in batches && f in batches[f.ruleId]
  {
    AllFindingsCounted(batches);
    assert f in AllFindings(batches) <==> multiset(AllFindings(batches))[f] > 0;
    assert multiset(AllFindings(batches))[f] == CountIn(batches, f);
  }

  /** The batches before the level are those of earlier levels. */
  lemma BatchesBefore(s: Setup, t: State, id: string)
    requires WellLeveled(s) && Tracks(s, t)
    ensures var base := After(s, t.level).batches;
      && (id in base <==> id in t.batches && exists j :: 0 <= j < t.level && j < |s.levels| && id in s.levels[j])
      && (id in base ==> id in t.batches && base[id] == t.batches[id])
  {
    var base := After(s, t.level).batches;
    if id in base {
      BatchedEarlier(s, t.level, id);
    }
    if j :| 0 <= j < t.level && j < |s.levels| && id in s.levels[j] {
      assert id !in LevelAt(s, t.level);
    }
  }

  lemma PriorListsAll(s: Setup, t: State, f: Finding)
    requires WellLeveled(s) && Tracks(s, t)
    ensures f in AllFindings(After(s, t.level).batches) <==> Earlier(s, t, f)
  {
    BatchesOwn(s, t.level);
    ListedBatches(After(s, t.level).batches, f);
    BatchesBefore(s, t, f.ruleId);
  }

  /** prior lists findings of the given ones in identity order, at most 4096, and
      leaves out only what ranks after all of 4096. */
  ghost predicate FirstByRank(json: Encoder, prior: seq<Finding>, all: iset<Finding>) {
    && Ascending(StringLess, KeysOf(FindingKey, prior)) && |prior| <= 4096
    && (forall f :: f in prior ==> f in all)
    && (forall f, g :: f in prior && g in all && g !in prior ==> NoLess(json, f, g))
    && (forall g :: g in all && g !in prior ==> |prior| == 4096)
  }

  ghost function EarlierFindings(s: Setup, t: State): iset<Finding> {
    iset f | Earlier(s, t, f)
  }

  /** The findings a level's rules may read: those of earlier levels, or the first
      4096 of them by rank when there are more. */
  lemma PriorMeans(s: Setup, steps: seq<Step>, t: State)
    requires WellLeveled(s) && Runs(s, Init(s, map[]), steps, t) && AllCalm(steps)
    ensures FirstByRank(s.world.json, t.prior, EarlierFindings(s, t))
  {
    ReachedCalm(s, steps, t);
    var all := AllFindings(After(s, t.level).batches);
    forall f ensures f in all <==> f in EarlierFindings(s, t) {
      PriorListsAll(s, t, f);
    }
    PriorIsRetained(s, t.level);
    PriorsAscend(s, t.level);
    RetainedOfAll(s.world.json, all, t.prior, EarlierFindings(s, t));
  }

  lemma ReachedCalm(s: Setup, steps: seq<Step>, t: State)
    requires WellLeveled(s) && Runs(s, Init(s, map[]), steps, t) && AllCalm(steps)
    ensures Tracks(s, t) && t.prior == After(s, t.level).prior
  {
    assert CacheAgrees(s, map[]);
    ReachedTracks(s, map[], steps, t);
  }

  lemma PriorsAscend(s: Setup, k: nat)
    requires WellLeveled(s) && k <= |s.levels|
    ensures Ascending(StringLess, KeysOf(FindingKey, After(s, k).prior))
  {
    PriorsOk(s, k);
  }

  lemma RetainedOfAll(json: Encoder, all: seq<Finding>, prior: seq<Finding>, given: iset<Finding>)
    requires prior == Sort(ByKey(FindingKey), WithFindings(json, EMPTY, all).findings)
    requires Ascending(StringLess, KeysOf(FindingKey, prior)) && forall f :: f in all <==> f in given
    ensures FirstByRank(json, prior, given)
  {
    var kept := WithFindings(json, EMPTY, all).findings;
    OneBatch(json, all);
    RetainedCount(json, [all]);
    SortContents(ByKey(FindingKey), kept);
    assert forall f :: f in prior <==> f in multiset(prior);
    assert forall f :: f in kept <==> f in multiset(kept);
    assert forall f :: f in all <==> f in multiset(all);
    forall f, g | f in prior && g in all && g !in prior ensures NoLess(json, f, g) {
      assert f in multiset(kept) && g in multiset(all) && g !in multiset(kept);
      RetainedRankFirst(json, [all], f, g);
    }
    forall g | g in all && g !in prior ensures |prior| == 4096 {
      Outside(kept, all, g);
    }
  }

  lemma OneBatch(json: Encoder, all: seq<Finding>)
    ensures AddAll(json, EMPTY, [all]) == WithFindings(json, EMPTY, all) && Everything([all]) == multiset(all)
  {
    assert [all][1..] == [];
    assert Everything([]) == multiset{};
  }

  lemma Outside(kept: seq<Finding>, all: seq<Finding>, g: Finding)
    requires multiset(kept) <= multiset(all) && g in all && g !in multiset(kept)
    ensures |kept| != |all|
  {
    assert |multiset(kept)| == |kept| && |multiset(all)| == |all|;
    if |kept| == |all| {
      SubmultisetSameSize(multiset(kept), multiset(all));
    }
  }

  // ----- what is reported

  /** The report of a calm run lists the findings its rules added, or the first 4096
      of them by rank, and says truncated exactly when it leaves one out. */
  lemma ReportMeans(s: Setup, steps: seq<Step>, u: State)
    requires WellLeveled(s) && Runs(s, Init(s, map[]), steps, u) && AllCalm(steps) && u.phase.Reported?
    ensures FirstByRank(s.world.json, Sort(ByKey(FindingKey), u.acc.findings), EarlierFindings(s, u))
    ensures u.acc.truncated <==> exists g :: g in EarlierFindings(s, u) && g !in u.acc.findings
  {
    assert CacheAgrees(s, map[]);
    ReachedTracks(s, map[], steps, u);
    FinalMeets(s, u);
    var base := After(s, |s.levels|);
    var all := AllFindings(base.batches);
    forall f ensures f in all <==> f in EarlierFindings(s, u) {
      PriorListsAll(s, u, f);
    }
    PriorIsRetained(s, |s.levels|);
    PriorsAscend(s, |s.levels|);
    RetainedOfAll(s.world.json, all, base.prior, EarlierFindings(s, u));
    BatchesOwn(s, |s.levels|);
    AllFindingsCounted(base.batches);
    CountedKeys(base.batches, multiset(all));
    TruncatedMeans(s.world.json, all);
    SameMembers(u.acc.findings, Retained(s.world.json, base.batches).findings);
  }

  lemma SameMembers(a: seq<Finding>, b: seq<Finding>)
    requires Sort(ByKey(FindingKey), a) == Sort(ByKey(FindingKey), b)
    ensures forall f :: f in a <==> f in b
  {
    SortContents(ByKey(FindingKey), a);
    SortContents(ByKey(FindingKey), b);
    assert forall f :: f in a <==> f in multiset(a);
    assert forall f :: f in b <==> f in multiset(b);
  }

  lemma TruncatedMeans(json: Encoder, all: seq<Finding>)
    requires OneKeyEach(multiset(all))
    ensures var acc := WithFindings(json, EMPTY, all);
      acc.truncated <==> exists g :: g in all && g !in acc.findings
  {
    var acc := WithFindings(json, EMPTY, all);
    OneBatch(json, all);
    RetainedCount(json, [all]);
    assert |multiset(all)| == |all|;
    if acc.truncated {
      assert multiset(acc.findings) != multiset(all) by {
        assert |multiset(acc.findings)| == |acc.findings|;
      }
      var g :| multiset(acc.findings)[g] != multiset(all)[g];
      assert g in multiset(all) && g !in multiset(acc.findings);
      assert g in all && g !in acc.findings;
    }
    forall g | g in all && g !in acc.findings ensures acc.truncated {
      assert g in multiset(all) && g !in multiset(acc.findings);
      Outside(acc.findings, all, g);
    }
  }
}
