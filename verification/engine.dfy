/** The level loop of one engine run as a transition system
    (internal/detect/engine.go, Run). */
module Engine {
  import opened Wrappers
  import opened Order
  import opened Merging
  import opened Findings
  import opened Retention
  import opened Registries
  import opened RuleViews
  import opened RuleKeys
  import opened RuleRecords
  import opened Reports
  import Schedule

  /** The inputs of one run. levels is the pruned schedule; limited says that the
      pool has a rate limit. */
  datatype Setup = Setup(world: World, rules: map<string, Rule>, kinds: set<string>, levels: seq<seq<string>>,
                         snapshot: SnapshotView, config: map<string, string>, limited: bool)

  // ----- selection

  /** missingRequiredKind. */
  function MissingKind(required: seq<string>, kinds: set<string>): Option<string> {
    if required == [] then None
    else if required[0] !in kinds then Some(required[0])
    else MissingKind(required[1..], kinds)
  }

  predicate Selected(r: Rule, kinds: set<string>) {
    r.enabled && MissingKind(r.kinds, kinds).None?
  }

  function SkippedResult(r: Rule, reason: SkipReason): RuleResult {
    RuleResult(r.id, r.version, Skipped, reason, false, 0)
  }

  function SelectionSkip(r: Rule, kinds: set<string>): RuleResult
    requires !Selected(r, kinds)
  {
    SkippedResult(r, if !r.enabled then Disabled else KindAbsent(MissingKind(r.kinds, kinds).value))
  }

  function InitialResults(rules: map<string, Rule>, kinds: set<string>): map<string, RuleResult> {
    map id | id in rules && !Selected(rules[id], kinds) :: SelectionSkip(rules[id], kinds)
  }

  /** pruneLevels: drop unselected rules, then emptied levels. */
  function KeepIds(level: seq<string>, keep: set<string>): seq<string> {
    if level == [] then []
    else (if level[0] in keep then [level[0]] else []) + KeepIds(level[1..], keep)
  }

  function PruneLevels(levels: seq<seq<string>>, keep: set<string>): seq<seq<string>> {
    if levels == [] then []
    else
      var kept := KeepIds(levels[0], keep);
      (if |kept| > 0 then [kept] else []) + PruneLevels(levels[1..], keep)
  }

  lemma DropOne<T>(s: seq<T>, k: nat)
    requires k < |s|
    ensures s[k..] == [s[k]] + s[k + 1..]
  {
  }

  method PruneLevelsLoop(levels: seq<seq<string>>, keep: set<string>) returns (out: seq<seq<string>>)
    ensures out == PruneLevels(levels, keep)
  {
    out := [];
    assert levels[0..] == levels;
    for k := 0 to |levels|
      invariant PrunedSoFar(levels, keep, k, out)
    {
      var kept := KeepLoop(levels[k], keep);
      PrunedNext(levels, keep, k, out);
      if |kept| > 0 {
        out := out + [kept];
      }
    }
    assert levels[|levels|..] == [] && out + [] == out;
  }

  ghost predicate PrunedSoFar(levels: seq<seq<string>>, keep: set<string>, k: nat, out: seq<seq<string>>) {
    k <= |levels| && out + PruneLevels(levels[k..], keep) == PruneLevels(levels, keep)
  }

  lemma PrunedNext(levels: seq<seq<string>>, keep: set<string>, k: nat, out: seq<seq<string>>)
    requires k < |levels| && PrunedSoFar(levels, keep, k, out)
    ensures var kept := KeepIds(levels[k], keep); PrunedSoFar(levels, keep, k + 1, if |kept| > 0 then out + [kept] else out)
  {
    PruneHead(levels, k, keep);
    AppendOne(out, KeepIds(levels[k], keep), PruneLevels(levels[k + 1..], keep));
  }

  lemma PruneHead(levels: seq<seq<string>>, k: nat, keep: set<string>)
    requires k < |levels|
    ensures PruneLevels(levels[k..], keep)
      == (if |KeepIds(levels[k], keep)| > 0 then [KeepIds(levels[k], keep)] else []) + PruneLevels(levels[k + 1..], keep)
  {
    DropOne(levels, k);
  }

  method KeepLoop(level: seq<string>, keep: set<string>) returns (kept: seq<string>)
    ensures kept == KeepIds(level, keep)
  {
    kept := [];
    for i := 0 to |level|
      invariant kept + KeepIds(level[i..], keep) == KeepIds(level, keep)
    {
      DropOne(level, i);
      if level[i] in keep {
        kept := kept + [level[i]];
      }
    }
  }

  /** What the loop relies on: the levels list the selected rules once each,
      and no rule depends on its own level or a later one. */
  ghost predicate WellLeveled(s: Setup) {
    && (forall id :: id in s.rules ==> s.rules[id].id == id)
    && (forall k, id :: 0 <= k < |s.levels| && id in s.levels[k] ==> id in s.rules && Selected(s.rules[id], s.kinds))
    && (forall id :: id in s.rules && Selected(s.rules[id], s.kinds) ==> exists k :: 0 <= k < |s.levels| && id in s.levels[k])
    && (forall k, m, id :: 0 <= k < m < |s.levels| && id in s.levels[k] ==> id !in s.levels[m])
    && (forall k :: 0 <= k < |s.levels| ==> Distinct(s.levels[k]))
    && (forall k, m, id, d :: 0 <= k <= m < |s.levels| && id in s.levels[k] && d in s.rules[id].dependencies ==> d !in s.levels[m])
  }

  // ----- states

  datatype Phase = Submitting | Waiting | Draining | Reported

  /** level and pos point at the next rule to submit. adding holds the jobs
      whose result is merged and whose findings are not yet added. submitted
      counts the level's jobs and signals those that reported back; lost holds
      its jobs that never will. taken, started, added and batches record history:
      the jobs that a worker took from the queue, those whose detector or cache
      lookup began, and the findings added so far, in all and by rule. */
  datatype State = State(
    level: nat, pos: nat, phase: Phase,
    acc: Acc, prior: seq<Finding>,
    queued: set<string>, running: set<string>, adding: map<string, seq<Finding>>,
    submitted: nat, signals: nat, lost: set<string>,
    cancelled: bool, cache: map<Digest, Record>,
    taken: set<string>, started: set<string>, added: multiset<Finding>, batches: map<string, seq<Finding>>)

  function Init(s: Setup, cache: map<Digest, Record>): State {
    State(0, 0, Submitting, Acc(InitialResults(s.rules, s.kinds), [], false), [], {}, {}, map[], 0, 0, {}, false, cache,
          {}, {}, multiset{}, map[])
  }

  /** incompleteDependency: the first dependency without a completed result. */
  function FirstIncomplete(deps: seq<string>, results: map<string, RuleResult>): Option<(string, Status)> {
    if deps == [] then None
    else if deps[0] !in results then Some((deps[0], Cancelled))
    else if results[deps[0]].status != Completed then Some((deps[0], results[deps[0]].status))
    else FirstIncomplete(deps[1..], results)
  }

  ghost predicate DepsCompleted(r: Rule, results: map<string, RuleResult>) {
    forall d :: d in r.dependencies ==> d in results && results[d].status == Completed
  }

  lemma {:induction false} GateMeansCompleted(deps: seq<string>, results: map<string, RuleResult>)
    ensures FirstIncomplete(deps, results).None? <==> forall d :: d in deps ==> d in results && results[d].status == Completed
  {
    if deps != [] {
      GateMeansCompleted(deps[1..], results);
    }
  }

  function Current(s: Setup, t: State): string
    requires t.level < |s.levels| && t.pos < |s.levels[t.level]|
  {
    s.levels[t.level][t.pos]
  }

  function LevelIds(s: Setup): set<string> {
    set k, id | 0 <= k < |s.levels| && id in s.levels[k] :: id
  }

  // The submitting loop, the pool's workers, the barrier, cancellation, losses of
  // cache entries and the final report interleave freely.

  /** The steps of a run. Gate to Conclude are the engine's own. Take to Drop are
      a worker's: Take gives a job its deadline, and Start runs it, with a start
      token if there is a rate limit. Fresh covers a cache miss of any cause, and
      whether its result is then stored is up to the filesystem; Publish adds a
      completed job's findings and signals the barrier. Interrupt is a job that
      begins or goes on with its context at an end. Late is a job whose deadline
      has passed when the worker checks it on taking the job; Expire one whose
      deadline passes while it waits for a start token. The pool ends either
      without running it, so it never signals. Foreign is another run that shares the
      cache and stores a record. */
  datatype Step =
    | Gate | Submit | Reject | EndSubmit | Barrier | Finish | Break | Conclude
    | Take(id: string) | Start(id: string) | Hit(id: string) | Fresh(id: string, stored: bool) | Publish(id: string)
    | Interrupt(id: string) | Late(id: string) | Expire(id: string) | Drop(id: string)
    | Cancel | Evict(key: Digest) | Foreign(key: Digest, rec: Record)

  /** Steps of a run that is never cancelled, whose pool accepts every job and
      runs it within its deadline, and whose cache is its own meanwhile. */
  predicate Calm(step: Step) {
    !step.Reject? && !step.Cancel? && !step.Late? && !step.Expire? && !step.Interrupt? && !step.Foreign?
  }

  ghost predicate AllCalm(steps: seq<Step>) {
    forall step :: step in steps ==> Calm(step)
  }

  /** What a rule's job is given. */
  function LookupOf(s: Setup, prior: seq<Finding>, id: string): Lookup
    requires id in s.rules
  {
    Lookup(s.rules[id], s.snapshot, prior, s.config)
  }

  ghost function KeyOf(s: Setup, t: State, id: string): Digest
    requires id in s.rules
  {
    KeyFor(s.world, LookupOf(s, t.prior, id))
  }

  ghost function OutcomeOf(s: Setup, prior: seq<Finding>, id: string): JobOutcome
    requires id in s.rules
  {
    Execute(s.world, s.rules[id], ViewOf(s.snapshot, prior, s.config))
  }

  /** lookupFindings: what the cache serves. */
  ghost function Served(s: Setup, t: State, id: string): Option<seq<Finding>>
    requires id in s.rules
  {
    var key := KeyOf(s, t, id);
    if key in t.cache then DecodeFor(s, id, t.cache[key]) else None
  }

  /** What a record under the rule's key would serve. */
  function DecodeFor(s: Setup, id: string, rec: Record): Option<seq<Finding>>
    requires id in s.rules
  {
    Decode(s.world, rec, s.rules[id], s.world.observes(s.snapshot))
  }

  ghost predicate AtRule(s: Setup, t: State) {
    t.phase.Submitting? && t.level < |s.levels| && t.pos < |s.levels[t.level]| && Current(s, t) in s.rules
  }

  ghost predicate Passes(s: Setup, t: State)
    requires AtRule(s, t)
  {
    FirstIncomplete(s.rules[Current(s, t)].dependencies, t.acc.results).None?
  }

  predicate Idle(t: State) {
    t.queued == {} && t.running == {} && t.adding == map[]
  }

  /** A worker took the job and has not run it yet. */
  predicate AtWorker(t: State, id: string) {
    id in t.queued && id in t.taken
  }

  ghost predicate Enabled(s: Setup, t: State, step: Step) {
    match step
    case Gate => AtRule(s, t) && !Passes(s, t)
    case Submit => AtRule(s, t) && Passes(s, t)
    case Reject => AtRule(s, t) && Passes(s, t)
    case EndSubmit => t.phase.Submitting? && t.level < |s.levels| && t.pos == |s.levels[t.level]|
    case Barrier => t.phase.Waiting? && t.signals == t.submitted && t.level < |s.levels|
    case Finish => t.phase.Submitting? && t.level == |s.levels|
    case Break => t.cancelled && (t.phase.Waiting? || (t.phase.Submitting? && t.pos == 0))
    case Conclude => t.phase.Draining? && Idle(t)
    case Take(id) => id in t.queued && id !in t.taken
    case Start(id) => AtWorker(t, id)
    case Hit(id) => id in t.running && id in s.rules && Served(s, t, id).Some?
    case Fresh(id, _) => id in t.running && id in s.rules
    case Publish(id) => id in t.adding
    case Interrupt(id) => (AtWorker(t, id) || id in t.running) && id in s.rules
    case Late(id) => AtWorker(t, id)
    case Expire(id) => s.limited && AtWorker(t, id)
    case Drop(id) => t.cancelled && id in t.queued
    case Cancel => true
    case Evict(_) => true
    case Foreign(_, _) => true
  }

  function CompletedResult(r: Rule, cached: bool, n: nat): RuleResult {
    RuleResult(r.id, r.version, Completed, NoReason, cached, n)
  }

  function PlainResult(r: Rule, status: Status): RuleResult {
    RuleResult(r.id, r.version, status, NoReason, false, 0)
  }

  function GateSkip(r: Rule, blocked: (string, Status)): RuleResult {
    SkippedResult(r, DependencyIncomplete(blocked.0, blocked.1))
  }

  /** A job merges its result and leaves the workers' hands. */
  function Settle(t: State, id: string, r: RuleResult): State {
    t.(acc := WithMerged(t.acc, r), queued := t.queued - {id}, running := t.running - {id})
  }

  function Complete(s: Setup, t: State, id: string, cached: bool, fs: seq<Finding>): State
    requires id in s.rules
  {
    Settle(t, id, CompletedResult(s.rules[id], cached, |fs|)).(adding := t.adding[id := fs])
  }

  /** A job that published nothing signals the barrier when it settles. */
  function SettleAndSignal(t: State, id: string, r: RuleResult): State {
    Settle(t, id, r).(signals := t.signals + 1)
  }

  function Skip(t: State, r: RuleResult): State {
    t.(acc := WithInstalled(t.acc, r), pos := t.pos + 1)
  }

  function Enqueue(t: State, id: string): State {
    t.(queued := t.queued + {id}, submitted := t.submitted + 1, pos := t.pos + 1)
  }

  function Begin(t: State, id: string): State {
    t.(queued := t.queued - {id}, running := t.running + {id}, started := t.started + {id})
  }

  function Lose(t: State, id: string): State {
    t.(queued := t.queued - {id}, lost := t.lost + {id})
  }

  function AddFindings(s: Setup, t: State, id: string): State
    requires id in t.adding
  {
    t.(acc := WithFindings(s.world.json, t.acc, t.adding[id]), adding := t.adding - {id}, signals := t.signals + 1,
       added := t.added + multiset(t.adding[id]), batches := t.batches[id := t.adding[id]])
  }

  function Placeholders(s: Setup): map<string, RuleResult> {
    map id | id in LevelIds(s) && id in s.rules :: PlainResult(s.rules[id], Cancelled)
  }

  ghost function ExecuteJob(s: Setup, t: State, id: string, stored: bool): State
    requires id in s.rules
  {
    match OutcomeOf(s, t.prior, id)
    case JobFailed => SettleAndSignal(t, id, PlainResult(s.rules[id], Failed))
    case JobDone(fs) => Complete(s, t, id, false, fs).(cache := CacheAfter(s, t, id, stored, fs))
  }

  /** storeFindings: findings that cannot be written are not stored. */
  ghost function CacheAfter(s: Setup, t: State, id: string, stored: bool, fs: seq<Finding>): map<Digest, Record>
    requires id in s.rules
  {
    match Encode(s.rules[id].id, fs)
    case Some(rec) => if stored then t.cache[KeyOf(s, t, id) := rec] else t.cache
    case None => t.cache
  }

  ghost function Apply(s: Setup, t: State, step: Step): State
    requires Enabled(s, t, step)
  {
    match step
    case Gate => Skip(t, GateSkip(s.rules[Current(s, t)], FirstIncomplete(s.rules[Current(s, t)].dependencies, t.acc.results).value))
    case Submit => Enqueue(t, Current(s, t))
    case Reject => t.(pos := t.pos + 1)
    case EndSubmit => t.(phase := Waiting)
    case Barrier =>
      t.(prior := Sort(ByKey(FindingKey), t.acc.findings), level := t.level + 1, pos := 0, phase := Submitting,
         submitted := 0, signals := 0, lost := {})
    case Finish => t.(phase := Draining)
    case Break => t.(phase := Draining)
    case Conclude => t.(acc := t.acc.(results := Placeholders(s) + t.acc.results), phase := Reported)
    case Take(id) => t.(taken := t.taken + {id})
    case Start(id) => Begin(t, id)
    case Hit(id) => Complete(s, t, id, true, Served(s, t, id).value)
    case Fresh(id, stored) => ExecuteJob(s, t, id, stored)
    case Publish(id) => AddFindings(s, t, id)
    case Interrupt(id) => SettleAndSignal(t, id, PlainResult(s.rules[id], Cancelled))
    case Late(id) => Lose(t, id)
    case Expire(id) => Lose(t, id)
    case Drop(id) => Lose(t, id)
    case Cancel => t.(cancelled := true)
    case Evict(key) => t.(cache := t.cache - {key})
    case Foreign(key, rec) => t.(cache := t.cache[key := rec])
  }

  ghost predicate Runs(s: Setup, t: State, steps: seq<Step>, u: State)
    decreases steps
  {
    if steps == [] then t == u else Enabled(s, t, steps[0]) && Runs(s, Apply(s, t, steps[0]), steps[1..], u)
  }

  // ----- what every step keeps

  /** The rules of the current level already passed by the submitting loop. */
  function Passed(s: Setup, level: nat, pos: nat): set<string> {
    if level < |s.levels| && pos <= |s.levels[level]| then Elements(s.levels[level][..pos]) else {}
  }

  /** id is at or after the submitting position. */
  ghost predicate Ahead(s: Setup, level: nat, pos: nat, id: string) {
    || (exists m :: level < m < |s.levels| && id in s.levels[m])
    || (level < |s.levels| && id in s.levels[level] && id !in Passed(s, level, pos))
  }

  ghost predicate InBounds(s: Setup, t: State) {
    && t.level <= |s.levels|
    && (t.level < |s.levels| ==> t.pos <= |s.levels[t.level]|)
    && (t.level == |s.levels| ==> t.pos == 0 && !t.phase.Waiting?)
    && (t.phase.Waiting? ==> t.pos == |s.levels[t.level]|)
    && (t.phase.Reported? ==> Idle(t))
    && ((t.phase.Draining? || t.phase.Reported?) && !t.cancelled ==> t.level == |s.levels|)
  }

  /** Every job submitted in the level has signalled, is under way or is lost. */
  ghost predicate Conserved(t: State) {
    t.submitted == t.signals + |t.queued| + |t.running| + |t.adding| + |t.lost|
  }

  ghost predicate LostOk(s: Setup, t: State) {
    t.lost <= Passed(s, t.level, t.pos) && t.lost !! t.queued + t.running && Conserved(t)
  }

  ghost predicate PendingOk(s: Setup, t: State) {
    t.queued + t.running <= Passed(s, t.level, t.pos) && t.queued !! t.running
  }

  /** Queued and running rules belong to the current level, have no result yet
      and had every dependency completed; so had every rule ever started. */
  ghost predicate JobsOk(s: Setup, t: State) {
    && PendingOk(s, t)
    && (forall id :: id in t.queued + t.running ==> id in s.rules && id !in t.acc.results)
    && (forall id :: id in t.queued + t.running + t.started ==> id in s.rules && DepsCompleted(s.rules[id], t.acc.results))
    && (forall id :: id in t.adding ==> id in t.acc.results && t.acc.results[id].status == Completed)
  }

  ghost predicate ResultsOk(s: Setup, results: map<string, RuleResult>) {
    && InitialResults(s.rules, s.kinds).Keys <= results.Keys <= s.rules.Keys
    && forall id :: id in results ==> results[id].ruleId == id
  }

  ghost predicate NoneAhead(s: Setup, level: nat, pos: nat, results: map<string, RuleResult>) {
    forall id :: Ahead(s, level, pos, id) ==> id !in results
  }

  ghost predicate Core(s: Setup, t: State) {
    && InBounds(s, t)
    && JobsOk(s, t)
    && ResultsOk(s, t.acc.results)
    && (!t.phase.Reported? ==> NoneAhead(s, t.level, t.pos, t.acc.results))
    && (t.phase.Reported? ==> t.acc.results.Keys == s.rules.Keys)
  }

  ghost predicate Inv(s: Setup, t: State) {
    Core(s, t) && LostOk(s, t)
  }

  /** Once a rule has a result, the result stands. */
  ghost predicate Grows(a: map<string, RuleResult>, b: map<string, RuleResult>) {
    a.Keys <= b.Keys && forall id :: id in a ==> b[id] == a[id]
  }

  lemma GrowsKeepsDeps(r: Rule, a: map<string, RuleResult>, b: map<string, RuleResult>)
    requires Grows(a, b) && DepsCompleted(r, a)
    ensures DepsCompleted(r, b)
  {
  }

  lemma InitCore(s: Setup, cache: map<Digest, Record>)
    requires WellLeveled(s)
    ensures Core(s, Init(s, cache))
  {
    var t := Init(s, cache);
    forall id | Ahead(s, t.level, t.pos, id) ensures id !in t.acc.results {
      LevelsAreSelected(s, id);
    }
  }

  lemma LevelsAreSelected(s: Setup, id: string)
    requires WellLeveled(s) && exists k :: 0 <= k < |s.levels| && id in s.levels[k]
    ensures id in s.rules && Selected(s.rules[id], s.kinds)
  {
  }

  lemma PassedNext(s: Setup, level: nat, pos: nat)
    requires WellLeveled(s) && level < |s.levels| && pos < |s.levels[level]|
    ensures var id := s.levels[level][pos];
      && Passed(s, level, pos + 1) == Passed(s, level, pos) + {id} && id !in Passed(s, level, pos)
      && Ahead(s, level, pos, id) && !Ahead(s, level, pos + 1, id)
  {
    var ids, id := s.levels[level], s.levels[level][pos];
    assert ids[..pos + 1] == ids[..pos] + [id];
    assert id !in Passed(s, level, pos) by {
      assert forall i :: 0 <= i < pos ==> ids[..pos][i] == ids[i] != id;
    }
    assert id in ids;
    assert forall m :: level < m < |s.levels| ==> id !in s.levels[m];
  }

  lemma AheadShrinks(s: Setup, level: nat, pos: nat, x: string)
    requires level < |s.levels| && pos < |s.levels[level]| && Ahead(s, level, pos + 1, x)
    ensures Ahead(s, level, pos, x)
  {
    var ids := s.levels[level];
    assert ids[..pos + 1] == ids[..pos] + [ids[pos]];
  }

  /** Passing a rule, with or without a result for it. */
  lemma NoneAheadNext(s: Setup, level: nat, pos: nat, results: map<string, RuleResult>, more: map<string, RuleResult>)
    requires WellLeveled(s) && level < |s.levels| && pos < |s.levels[level]| && NoneAhead(s, level, pos, results)
    requires more.Keys <= results.Keys + {s.levels[level][pos]}
    ensures NoneAhead(s, level, pos + 1, more)
  {
    PassedNext(s, level, pos);
    forall x | Ahead(s, level, pos + 1, x) ensures x !in more {
      AheadShrinks(s, level, pos, x);
    }
  }

  lemma PassedIsNotAhead(s: Setup, level: nat, pos: nat, id: string)
    requires WellLeveled(s) && id in Passed(s, level, pos)
    ensures !Ahead(s, level, pos, id)
  {
    var ids := s.levels[level][..pos];
    var i :| 0 <= i < |ids| && ids[i] == id;
    assert s.levels[level][i] == id;
  }

  /** Steps that keep the results and the position. */
  lemma QuietStep(s: Setup, t: State, u: State)
    requires Core(s, t) && u.acc.results == t.acc.results && u.level == t.level && u.pos == t.pos
    requires u.queued + u.running <= t.queued + t.running && u.queued !! u.running
    requires u.started <= t.started + t.queued && u.adding.Keys <= t.adding.Keys
    requires InBounds(s, u) && (u.phase.Reported? <==> t.phase.Reported?)
    ensures Core(s, u) && Grows(t.acc.results, u.acc.results)
  {
    JobsKept(s, t, u);
  }

  lemma SubmitStep(s: Setup, t: State, step: Step)
    requires WellLeveled(s) && Core(s, t) && Enabled(s, t, step)
    requires step.Submit? || step.Reject?
    ensures Core(s, Apply(s, t, step)) && Grows(t.acc.results, Apply(s, t, step).acc.results)
  {
    AtCurrent(s, t);
    GateMeansCompleted(s.rules[Current(s, t)].dependencies, t.acc.results);
    Submitted(s, t, Current(s, t), Apply(s, t, step));
  }

  /** The rule at the submitting position has no result and is passed next. */
  lemma AtCurrent(s: Setup, t: State)
    requires WellLeveled(s) && Core(s, t) && AtRule(s, t)
    ensures var id := Current(s, t);
      && Passed(s, t.level, t.pos + 1) == Passed(s, t.level, t.pos) + {id} && id !in Passed(s, t.level, t.pos)
      && id !in t.acc.results && NoneAhead(s, t.level, t.pos + 1, t.acc.results)
  {
    PassedNext(s, t.level, t.pos);
    NoneAheadNext(s, t.level, t.pos, t.acc.results, t.acc.results);
  }

  lemma Submitted(s: Setup, t: State, id: string, u: State)
    requires Core(s, t) && AtRule(s, t) && id == Current(s, t) && id !in t.acc.results && DepsCompleted(s.rules[id], t.acc.results)
    requires Passed(s, t.level, t.pos + 1) == Passed(s, t.level, t.pos) + {id} && id !in Passed(s, t.level, t.pos)
    requires NoneAhead(s, t.level, t.pos + 1, t.acc.results)
    requires u == t.(pos := t.pos + 1) || u == Enqueue(t, id)
    ensures Core(s, u)
  {
  }

  lemma GateStep(s: Setup, t: State, id: string, r: RuleResult)
    requires WellLeveled(s) && Core(s, t) && AtRule(s, t) && id == Current(s, t) && r.ruleId == id
    ensures Core(s, Skip(t, r)) && Grows(t.acc.results, Skip(t, r).acc.results)
  {
    AtCurrent(s, t);
    NoneAheadNext(s, t.level, t.pos, t.acc.results, t.acc.results[id := r]);
    Gated(s, t, id, Skip(t, r), r);
  }

  lemma CurrentNamed(s: Setup, t: State)
    requires WellLeveled(s) && AtRule(s, t)
    ensures s.rules[Current(s, t)].id == Current(s, t)
  {
  }

  lemma Gated(s: Setup, t: State, id: string, u: State, r: RuleResult)
    requires Core(s, t) && AtRule(s, t) && id == Current(s, t) && id !in t.acc.results && r.ruleId == id
    requires Passed(s, t.level, t.pos + 1) == Passed(s, t.level, t.pos) + {id} && id !in Passed(s, t.level, t.pos)
    requires u == t.(acc := t.acc.(results := t.acc.results[id := r]), pos := t.pos + 1)
    requires NoneAhead(s, t.level, t.pos + 1, u.acc.results)
    ensures Core(s, u) && Grows(t.acc.results, u.acc.results)
  {
    JobsKept(s, t, u);
  }

  /** More results leave the remaining jobs in order. */
  lemma JobsKept(s: Setup, t: State, u: State)
    requires JobsOk(s, t) && Grows(t.acc.results, u.acc.results)
    requires u.queued + u.running <= t.queued + t.running && u.queued !! u.running
    requires u.started <= t.started + t.queued && u.adding.Keys <= t.adding.Keys
    requires Passed(s, t.level, t.pos) <= Passed(s, u.level, u.pos)
    requires forall id :: id in u.queued + u.running ==> id !in u.acc.results
    ensures JobsOk(s, u)
  {
    forall id | id in u.queued + u.running + u.started ensures id in s.rules && DepsCompleted(s.rules[id], u.acc.results) {
      GrowsKeepsDeps(s.rules[id], t.acc.results, u.acc.results);
    }
  }

  /** A job's own result, in place of no result. */
  lemma SettleStep(s: Setup, t: State, id: string, r: RuleResult, signals: nat)
    requires WellLeveled(s) && Core(s, t) && id in t.queued + t.running && r.ruleId == id
    ensures var u := Settle(t, id, r).(signals := signals);
      Core(s, u) && Grows(t.acc.results, u.acc.results) && u.acc.results == t.acc.results[id := r]
  {
    var u := Settle(t, id, r).(signals := signals);
    PassedIsNotAhead(s, t.level, t.pos, id);
    JobsKept(s, t, u);
  }

  lemma CompleteStep(s: Setup, t: State, id: string, cached: bool, fs: seq<Finding>, cache: map<Digest, Record>)
    requires WellLeveled(s) && Core(s, t) && id in t.queued + t.running && id in s.rules
    ensures var u := Complete(s, t, id, cached, fs).(cache := cache);
      Core(s, u) && Grows(t.acc.results, u.acc.results)
  {
    SettleStep(s, t, id, CompletedResult(s.rules[id], cached, |fs|), t.signals);
  }

  lemma JobStep(s: Setup, t: State, step: Step)
    requires WellLeveled(s) && Core(s, t) && Enabled(s, t, step)
    requires step.Hit? || step.Fresh? || step.Interrupt?
    ensures Core(s, Apply(s, t, step)) && Grows(t.acc.results, Apply(s, t, step).acc.results)
  {
    match step
    case Hit(id) => CompleteStep(s, t, id, true, Served(s, t, id).value, t.cache);
    case Interrupt(id) => SettleStep(s, t, id, PlainResult(s.rules[id], Cancelled), t.signals + 1);
    case Fresh(id, stored) => ExecuteStep(s, t, id, stored);
  }

  lemma ExecuteStep(s: Setup, t: State, id: string, stored: bool)
    requires WellLeveled(s) && Core(s, t) && id in t.running && id in s.rules
    ensures var u := ExecuteJob(s, t, id, stored); Core(s, u) && Grows(t.acc.results, u.acc.results)
  {
    assert id in t.queued + t.running;
    match OutcomeOf(s, t.prior, id)
    case JobFailed => SettleStep(s, t, id, PlainResult(s.rules[id], Failed), t.signals + 1);
    case JobDone(fs) => CompleteStep(s, t, id, false, fs, CacheAfter(s, t, id, stored, fs));
  }

  lemma BarrierStep(s: Setup, t: State)
    requires WellLeveled(s) && Core(s, t) && Enabled(s, t, Barrier) && Idle(t)
    ensures Core(s, Apply(s, t, Barrier)) && Grows(t.acc.results, Apply(s, t, Barrier).acc.results)
  {
    forall id | Ahead(s, t.level + 1, 0, id) ensures Ahead(s, t.level, t.pos, id) {
    }
  }

  lemma ConcludeStep(s: Setup, t: State)
    requires WellLeveled(s) && Core(s, t) && Enabled(s, t, Conclude)
    ensures Core(s, Apply(s, t, Conclude)) && Grows(t.acc.results, Apply(s, t, Conclude).acc.results)
  {
    var u := Apply(s, t, Conclude);
    EveryRulePlaced(s, t.acc.results);
    assert u.acc.results == Placeholders(s) + t.acc.results;
    JobsKept(s, t, u);
  }

  lemma EveryRulePlaced(s: Setup, results: map<string, RuleResult>)
    requires WellLeveled(s) && ResultsOk(s, results)
    ensures ResultsOk(s, Placeholders(s) + results) && (Placeholders(s) + results).Keys == s.rules.Keys
  {
    forall id | id in s.rules ensures id in Placeholders(s) || id in results {
      RulePlaced(s, results, id);
    }
    PlaceholdersNamed(s);
    NamedUnion(Placeholders(s), results, s.rules.Keys);
  }

  lemma NamedUnion(p: map<string, RuleResult>, r: map<string, RuleResult>, keys: set<string>)
    requires p.Keys <= keys && r.Keys <= keys && keys <= p.Keys + r.Keys
    requires forall id :: id in p ==> p[id].ruleId == id
    requires forall id :: id in r ==> r[id].ruleId == id
    ensures (p + r).Keys == keys && forall id :: id in p + r ==> (p + r)[id].ruleId == id
  {
  }

  lemma PlaceholdersNamed(s: Setup)
    requires WellLeveled(s)
    ensures Placeholders(s).Keys <= s.rules.Keys
    ensures forall id :: id in Placeholders(s) ==> Placeholders(s)[id].ruleId == id
  {
  }

  lemma RulePlaced(s: Setup, results: map<string, RuleResult>, id: string)
    requires WellLeveled(s) && ResultsOk(s, results) && id in s.rules
    ensures id in Placeholders(s) || id in results
  {
    if Selected(s.rules[id], s.kinds) {
      var k :| 0 <= k < |s.levels| && id in s.levels[k];
      assert id in LevelIds(s);
    } else {
      assert id in InitialResults(s.rules, s.kinds);
    }
  }

  lemma WorkerQuiet(s: Setup, t: State, step: Step)
    requires Core(s, t) && Enabled(s, t, step) && QuietWork(step)
    ensures Core(s, Apply(s, t, step)) && Grows(t.acc.results, Apply(s, t, step).acc.results)
  {
    WorkerFields(s, t, step);
    QuietStep(s, t, Apply(s, t, step));
  }

  /** A worker's steps that settle no job, and what happens to the cache. */
  predicate QuietWork(step: Step) {
    step.Take? || step.Start? || step.Late? || step.Expire? || step.Drop? || step.Publish? || step.Evict? || step.Foreign?
  }

  /** What such a step leaves alone. */
  lemma WorkerFields(s: Setup, t: State, step: Step)
    requires InBounds(s, t) && t.queued !! t.running && Enabled(s, t, step) && QuietWork(step)
    ensures WorkDone(s, t, Apply(s, t, step))
  {
    match step
    case Start(id) => BeginFields(s, t, id);
    case Publish(id) => PublishFields(s, t, id);
    case Late(id) => LoseFields(s, t, id);
    case Expire(id) => LoseFields(s, t, id);
    case Drop(id) => LoseFields(s, t, id);
    case Take(_) =>
    case Evict(_) =>
    case Foreign(_, _) =>
  }

  ghost predicate WorkDone(s: Setup, t: State, u: State) {
    && u.acc.results == t.acc.results && u.level == t.level && u.pos == t.pos && u.phase == t.phase
    && u.queued + u.running <= t.queued + t.running && u.queued !! u.running
    && u.started <= t.started + t.queued && u.adding.Keys <= t.adding.Keys
    && InBounds(s, u)
  }

  lemma BeginFields(s: Setup, t: State, id: string)
    requires InBounds(s, t) && id in t.queued && t.queued !! t.running
    ensures WorkDone(s, t, Begin(t, id))
  {
  }

  lemma LoseFields(s: Setup, t: State, id: string)
    requires InBounds(s, t) && id in t.queued && t.queued !! t.running
    ensures WorkDone(s, t, Lose(t, id))
  {
  }

  lemma PublishFields(s: Setup, t: State, id: string)
    requires InBounds(s, t) && id in t.adding && t.queued !! t.running
    ensures WorkDone(s, t, AddFindings(s, t, id))
  {
  }

  lemma EngineQuiet(s: Setup, t: State, step: Step)
    requires Core(s, t) && Enabled(s, t, step) && (step.EndSubmit? || step.Finish? || step.Break? || step.Cancel?)
    ensures Core(s, Apply(s, t, step)) && Grows(t.acc.results, Apply(s, t, step).acc.results)
  {
    QuietStep(s, t, Apply(s, t, step));
  }

  lemma StepKeepsCore(s: Setup, t: State, step: Step)
    requires WellLeveled(s) && Core(s, t) && Enabled(s, t, step) && (step.Barrier? ==> Idle(t))
    ensures Core(s, Apply(s, t, step)) && Grows(t.acc.results, Apply(s, t, step).acc.results)
  {
    if step.Gate? {
      CurrentNamed(s, t);
      var r := s.rules[Current(s, t)];
      GateStep(s, t, Current(s, t), GateSkip(r, FirstIncomplete(r.dependencies, t.acc.results).value));
    } else if step.Submit? || step.Reject? {
      SubmitStep(s, t, step);
    } else if step.Hit? || step.Fresh? || step.Interrupt? {
      JobStep(s, t, step);
    } else if step.Barrier? {
      BarrierStep(s, t);
    } else if step.Conclude? {
      ConcludeStep(s, t);
    } else if QuietWork(step) {
      WorkerQuiet(s, t, step);
    } else {
      EngineQuiet(s, t, step);
    }
  }

  // ----- no signal is lost unnoticed

  lemma Removed<T>(s: set<T>, x: T)
    ensures |s - {x}| == if x in s then |s| - 1 else |s|
  {
    if x in s {
      assert s == (s - {x}) + {x};
    } else {
      assert s - {x} == s;
    }
  }

  lemma Added<T>(s: set<T>, x: T)
    ensures |s + {x}| == if x in s then |s| else |s| + 1
  {
    if x in s {
      assert s + {x} == s;
    }
  }

  lemma MapSizes<T>(m: map<string, T>, id: string, x: T)
    ensures |m[id := x]| == |m| + if id in m then 0 else 1
    ensures id in m ==> |m - {id}| == |m| - 1
  {
    Added(m.Keys, id);
    Removed(m.Keys, id);
    assert m[id := x].Keys == m.Keys + {id};
    assert (m - {id}).Keys == m.Keys - {id};
    assert |m| == |m.Keys| && |m[id := x]| == |m[id := x].Keys| && |m - {id}| == |(m - {id}).Keys|;
  }

  lemma SubmitConserves(s: Setup, t: State)
    requires WellLeveled(s) && Inv(s, t) && AtRule(s, t)
    ensures LostOk(s, Enqueue(t, Current(s, t)))
  {
    AtCurrent(s, t);
    SubmittedConserves(s, t, Current(s, t));
  }

  lemma SubmittedConserves(s: Setup, t: State, id: string)
    requires LostOk(s, t) && t.queued + t.running <= Passed(s, t.level, t.pos)
    requires Passed(s, t.level, t.pos + 1) == Passed(s, t.level, t.pos) + {id} && id !in Passed(s, t.level, t.pos)
    ensures LostOk(s, Enqueue(t, id))
  {
    assert id !in t.queued + t.running;
    Added(t.queued, id);
  }

  lemma PassConserves(s: Setup, t: State, u: State)
    requires WellLeveled(s) && Inv(s, t) && AtRule(s, t) && u.level == t.level && u.pos == t.pos + 1
    requires u.submitted == t.submitted && u.signals == t.signals && u.lost == t.lost
    requires u.queued == t.queued && u.running == t.running && u.adding == t.adding
    ensures LostOk(s, u)
  {
    AtCurrent(s, t);
  }

  lemma LoseConserves(s: Setup, t: State, id: string)
    requires LostOk(s, t) && PendingOk(s, t) && id in t.queued
    ensures LostOk(s, Lose(t, id))
  {
    Removed(t.queued, id);
    Added(t.lost, id);
    assert id in t.queued + t.running;
  }

  lemma SettleConserves(s: Setup, t: State, id: string, r: RuleResult)
    requires Inv(s, t) && id in t.queued + t.running
    ensures LostOk(s, SettleAndSignal(t, id, r))
  {
    Removed(t.queued, id);
    Removed(t.running, id);
  }

  lemma CompleteConserves(s: Setup, t: State, id: string, cached: bool, fs: seq<Finding>, cache: map<Digest, Record>)
    requires Inv(s, t) && id in t.queued + t.running && id in s.rules
    ensures LostOk(s, Complete(s, t, id, cached, fs).(cache := cache))
  {
    Removed(t.queued, id);
    Removed(t.running, id);
    assert id !in t.adding;
    MapSizes(t.adding, id, fs);
  }

  lemma JobConserves(s: Setup, t: State, step: Step)
    requires Inv(s, t) && Enabled(s, t, step) && (step.Hit? || step.Fresh? || step.Interrupt?)
    ensures LostOk(s, Apply(s, t, step))
  {
    match step
    case Hit(id) => CompleteConserves(s, t, id, true, Served(s, t, id).value, t.cache);
    case Interrupt(id) => SettleConserves(s, t, id, PlainResult(s.rules[id], Cancelled));
    case Fresh(id, stored) =>
      match OutcomeOf(s, t.prior, id)
      case JobFailed => SettleConserves(s, t, id, PlainResult(s.rules[id], Failed));
      case JobDone(fs) => CompleteConserves(s, t, id, false, fs, Apply(s, t, step).cache);
  }

  lemma StartConserves(s: Setup, t: State, id: string)
    requires LostOk(s, t) && id in t.queued && t.queued !! t.running
    ensures LostOk(s, Begin(t, id))
  {
    Removed(t.queued, id);
    Added(t.running, id);
    assert (t.queued - {id}) + (t.running + {id}) == t.queued + t.running;
  }

  lemma PublishConserves(s: Setup, t: State, id: string)
    requires LostOk(s, t) && id in t.adding
    ensures LostOk(s, AddFindings(s, t, id))
  {
    MapSizes(t.adding, id, t.adding[id]);
  }

  /** At the barrier every job has signalled, so none is under way or lost. */
  lemma BarrierIdle(s: Setup, t: State)
    requires Inv(s, t) && Enabled(s, t, Barrier)
    ensures Idle(t) && t.lost == {} && t.pos == |s.levels[t.level]|
  {
  }

  lemma NextLevelConserves(s: Setup, t: State, u: State)
    requires Inv(s, t) && Enabled(s, t, Barrier) && u == Apply(s, t, Barrier)
    ensures LostOk(s, u)
  {
    BarrierIdle(s, t);
    assert u.lost == {} && u.queued == {} && u.running == {} && u.adding == map[];
  }

  lemma GateConserves(s: Setup, t: State, step: Step)
    requires WellLeveled(s) && Inv(s, t) && Enabled(s, t, step) && (step.Gate? || step.Reject?)
    ensures LostOk(s, Apply(s, t, step))
  {
    var u := Apply(s, t, step);
    if step.Gate? {
      var r := GateSkip(s.rules[Current(s, t)], FirstIncomplete(s.rules[Current(s, t)].dependencies, t.acc.results).value);
      assert u == Skip(t, r);
    }
    PassConserves(s, t, u);
  }

  lemma BeginConserves(s: Setup, t: State, step: Step)
    requires LostOk(s, t) && PendingOk(s, t) && Enabled(s, t, step) && step.Start?
    ensures LostOk(s, Apply(s, t, step))
  {
    StartConserves(s, t, step.id);
  }

  /** Steps that end a job unrun. */
  predicate Loses(step: Step) {
    step.Late? || step.Expire? || step.Drop?
  }

  lemma EndConserves(s: Setup, t: State, step: Step)
    requires LostOk(s, t) && PendingOk(s, t) && Enabled(s, t, step) && Loses(step)
    ensures LostOk(s, Apply(s, t, step))
  {
    LoseConserves(s, t, step.id);
  }

  lemma OtherConserves(s: Setup, t: State, step: Step)
    requires LostOk(s, t) && Enabled(s, t, step)
    requires !step.Gate? && !step.Reject? && !step.Submit? && !step.Barrier? && !step.Start? && !step.Publish? && !Loses(step)
    requires !step.Hit? && !step.Fresh? && !step.Interrupt?
    ensures LostOk(s, Apply(s, t, step))
  {
    var u := Apply(s, t, step);
    assert u.submitted == t.submitted && u.signals == t.signals && u.lost == t.lost && u.level == t.level && u.pos == t.pos;
    assert u.queued == t.queued && u.running == t.running && u.adding == t.adding;
  }

  lemma StepConserves(s: Setup, t: State, step: Step)
    requires WellLeveled(s) && Inv(s, t) && Enabled(s, t, step)
    ensures LostOk(s, Apply(s, t, step))
  {
    if step.Gate? || step.Reject? {
      GateConserves(s, t, step);
    } else if step.Submit? {
      SubmitConserves(s, t);
    } else if step.Barrier? {
      NextLevelConserves(s, t, Apply(s, t, Barrier));
    } else if step.Hit? || step.Fresh? || step.Interrupt? {
      JobConserves(s, t, step);
    } else if step.Start? {
      BeginConserves(s, t, step);
    } else if step.Publish? {
      PublishConserves(s, t, step.id);
    } else if Loses(step) {
      EndConserves(s, t, step);
    } else {
      OtherConserves(s, t, step);
    }
  }

  /** Every step keeps the invariant, and a result once there stands. */
  lemma StepKeepsInv(s: Setup, t: State, step: Step)
    requires WellLeveled(s) && Inv(s, t) && Enabled(s, t, step)
    ensures Inv(s, Apply(s, t, step)) && Grows(t.acc.results, Apply(s, t, step).acc.results)
  {
    if step.Barrier? {
      BarrierIdle(s, t);
    }
    StepKeepsCore(s, t, step);
    StepConserves(s, t, step);
  }

  lemma InitInv(s: Setup, cache: map<Digest, Record>)
    requires WellLeveled(s)
    ensures Inv(s, Init(s, cache))
  {
    InitCore(s, cache);
  }

  // ----- whole runs

  lemma {:induction false} RunKeepsInv(s: Setup, t: State, steps: seq<Step>, u: State)
    requires WellLeveled(s) && Inv(s, t) && Runs(s, t, steps, u)
    ensures Inv(s, u) && Grows(t.acc.results, u.acc.results)
    decreases steps
  {
    if steps != [] {
      StepKeepsInv(s, t, steps[0]);
      RunKeepsInv(s, Apply(s, t, steps[0]), steps[1..], u);
    }
  }

  /** With cancellation possible at any step, a rule starts only when every
      dependency holds a completed result, and those results stand in every
      later state. */
  lemma StartsAfterDependencies(s: Setup, cache: map<Digest, Record>, before: seq<Step>, t: State, id: string,
                                after: seq<Step>, u: State)
    requires WellLeveled(s) && Runs(s, Init(s, cache), before, t)
    requires Enabled(s, t, Start(id)) && Runs(s, Apply(s, t, Start(id)), after, u)
    ensures id in s.rules && id !in t.acc.results
    ensures DepsCompleted(s.rules[id], t.acc.results) && DepsCompleted(s.rules[id], u.acc.results)
  {
    InitInv(s, cache);
    RunKeepsInv(s, Init(s, cache), before, t);
    StepKeepsInv(s, t, Start(id));
    RunKeepsInv(s, Apply(s, t, Start(id)), after, u);
    GrowsKeepsDeps(s.rules[id], t.acc.results, u.acc.results);
  }

  lemma ReachedInv(s: Setup, cache: map<Digest, Record>, steps: seq<Step>, u: State)
    requires WellLeveled(s) && Runs(s, Init(s, cache), steps, u)
    ensures Inv(s, u)
  {
    InitInv(s, cache);
    RunKeepsInv(s, Init(s, cache), steps, u);
  }

  lemma CountsAddUp(results: map<string, RuleResult>, rules: map<string, Rule>)
    requires results.Keys == rules.Keys
    ensures |rules| == |WithStatus(results, Completed)| + |WithStatus(results, Failed)|
                     + |WithStatus(results, Cancelled)| + |WithStatus(results, Skipped)|
  {
    StatusesPartition(results);
    assert |rules.Keys| == |rules| && |results.Keys| == |results|;
  }

  lemma ReportedTotals(s: Setup, u: State)
    requires Inv(s, u) && u.phase.Reported?
    ensures u.acc.results.Keys == s.rules.Keys
    ensures forall id :: id in s.rules ==> u.acc.results[id].ruleId == id
    ensures forall id :: id in u.started ==> id in s.rules && DepsCompleted(s.rules[id], u.acc.results)
  {
  }

  /** However the run ends, the report holds exactly one result per registered
      rule, filed under its id, so the four counts add up to the registry. */
  lemma ReportCoversRegistry(s: Setup, cache: map<Digest, Record>, steps: seq<Step>, u: State)
    requires WellLeveled(s) && Runs(s, Init(s, cache), steps, u) && u.phase.Reported?
    ensures u.acc.results.Keys == s.rules.Keys
    ensures forall id :: id in s.rules ==> u.acc.results[id].ruleId == id
    ensures |s.rules| == |WithStatus(u.acc.results, Completed)| + |WithStatus(u.acc.results, Failed)|
                       + |WithStatus(u.acc.results, Cancelled)| + |WithStatus(u.acc.results, Skipped)|
    ensures forall id :: id in u.started ==> id in s.rules && DepsCompleted(s.rules[id], u.acc.results)
  {
    ReachedInv(s, cache, steps, u);
    ReportedTotals(s, u);
    CountsAddUp(u.acc.results, s.rules);
  }
}
