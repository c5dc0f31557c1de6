/** The caches that earlier runs leave, and when they cannot be told from no cache
    (internal/detect/engine.go, lookupFindings, storeFindings). */
module CacheHistory {
  import opened Wrappers
  import opened Order
  import opened Merging
  import opened Identities
  import opened Findings
  import opened JsonText
  import opened FindingJson
  import opened Retention
  import opened Registries
  import opened RuleViews
  import opened RuleKeys
  import opened RuleRecords
  import opened Engine
  import opened Reference
  import opened Following
  import opened Equivalence
  import opened CacheVisibility

  // ----- earlier runs

  /** A run prepares its rules and its corpus. */
  ghost predicate Proper(w: World, s: Setup) {
    s.world == w && WellLeveled(s) && NormalSnapshot(s.snapshot)
  }

  /** A run that stopped after these steps, by itself or in a crash. */
  datatype PastRun = PastRun(setup: Setup, steps: seq<Step>)

  datatype Past = Nothing | Later(earlier: Past, last: PastRun)

  /** A job at work in some run after others. */
  datatype Moment = Moment(past: Past, before: map<Digest, Record>, setup: Setup, steps: seq<Step>, state: State, id: string)

  // Runs of any rules on any corpora follow one another, and at each step other runs
  // that share the cache may store what they could store on their own terms: n
  // bounds how deep such runs are nested.

  /** What other runs stored meanwhile, some run may store. */
  ghost predicate Shared(w: World, n: nat, steps: seq<Step>)
    decreases n, 0
  {
    forall step :: step in steps && step.Foreign? ==> n > 0 && StorableIn(w, n - 1, step.key, step.rec)
  }

  ghost predicate Leaves(w: World, n: nat, before: map<Digest, Record>, run: PastRun, after: map<Digest, Record>)
    decreases n, 1
  {
    && Proper(w, run.setup) && Shared(w, n, run.steps)
    && exists u :: Runs(run.setup, Init(run.setup, before), run.steps, u) && u.cache == after
  }

  /** The runs, one after another, leave the cache. */
  ghost predicate Left(w: World, n: nat, past: Past, cache: map<Digest, Record>)
    decreases n, 2, past
  {
    match past
    case Nothing => cache == map[]
    case Later(earlier, last) => exists before :: Left(w, n, earlier, before) && Leaves(w, n, before, last, cache)
  }

  ghost predicate Happens(w: World, n: nat, m: Moment)
    decreases n, 3
  {
    && Left(w, n, m.past, m.before) && Proper(w, m.setup) && Shared(w, n, m.steps)
    && Runs(m.setup, Init(m.setup, m.before), m.steps, m.state)
    && m.id in m.state.running && m.id in m.setup.rules
  }

  /** The job's execution may store the record under the key. */
  ghost predicate Writes(m: Moment, key: Digest, rec: Record) {
    && m.id in m.setup.rules && KeyOf(m.setup, m.state, m.id) == key
    && OutcomeOf(m.setup, m.state.prior, m.id).JobDone?
    && Encode(m.setup.rules[m.id].id, OutcomeOf(m.setup, m.state.prior, m.id).findings) == Some(rec)
  }

  ghost predicate StoredAt(w: World, n: nat, m: Moment, key: Digest, rec: Record)
    decreases n, 4
  {
    Happens(w, n, m) && Writes(m, key, rec)
  }

  ghost predicate StorableIn(w: World, n: nat, key: Digest, rec: Record)
    decreases n, 5
  {
    exists m :: StoredAt(w, n, m, key, rec)
  }

  /** Some execution in some run may store the record under the key. */
  ghost predicate Storable(w: World, key: Digest, rec: Record) {
    exists n: nat :: StorableIn(w, n, key, rec)
  }

  ghost predicate AllStorable(w: World, cache: map<Digest, Record>) {
    forall key :: key in cache ==> Storable(w, key, cache[key])
  }

  lemma OneMoreStep(s: Setup, t: State, steps: seq<Step>, u: State, step: Step)
    requires Runs(s, t, steps, u) && Enabled(s, u, step)
    ensures Runs(s, t, steps + [step], Apply(s, u, step))
  {
    assert [step][1..] == [];
    RunsThen(s, t, steps, u, [step], Apply(s, u, step));
  }

  lemma FreshStorable(w: World, n: nat, m: Moment, stored: bool)
    requires Happens(w, n, m) && AllStorable(w, m.state.cache)
    ensures AllStorable(w, ExecuteJob(m.setup, m.state, m.id, stored).cache)
  {
    var next := ExecuteJob(m.setup, m.state, m.id, stored).cache;
    var key := KeyOf(m.setup, m.state, m.id);
    FreshWrites(m.setup, m.state, m.id, stored);
    if next != m.state.cache {
      assert StoredAt(w, n, m, key, next[key]);
      assert StorableIn(w, n, key, next[key]);
    }
  }

  /** What an execution stores, if anything. */
  lemma FreshWrites(s: Setup, t: State, id: string, stored: bool)
    requires id in s.rules
    ensures var next := ExecuteJob(s, t, id, stored).cache; var out := OutcomeOf(s, t.prior, id);
      next == t.cache || (out.JobDone? && Encode(s.rules[id].id, out.findings).Some?
                          && next == t.cache[KeyOf(s, t, id) := Encode(s.rules[id].id, out.findings).value])
  {
    match OutcomeOf(s, t.prior, id)
    case JobFailed =>
    case JobDone(fs) =>
      assert ExecuteJob(s, t, id, stored).cache == CacheAfter(s, t, id, stored, fs);
  }

  /** The steps taken so far, of a run among others. */
  ghost predicate Underway(w: World, n: nat, past: Past, before: map<Digest, Record>, s: Setup, done: seq<Step>, t: State) {
    Left(w, n, past, before) && Proper(w, s) && Shared(w, n, done) && Runs(s, Init(s, before), done, t)
  }

  lemma SharedStep(w: World, n: nat, steps: seq<Step>)
    requires steps != [] && Shared(w, n, steps)
    ensures Shared(w, n, [steps[0]]) && Shared(w, n, steps[1..])
  {
    assert steps[0] in steps;
    forall step | step in steps[1..] && step.Foreign? ensures n > 0 && StorableIn(w, n - 1, step.key, step.rec) {
      assert step in steps;
    }
  }

  lemma SharedMore(w: World, n: nat, done: seq<Step>, step: Step)
    requires Shared(w, n, done) && Shared(w, n, [step])
    ensures Shared(w, n, done + [step])
  {
    assert step in [step];
  }

  lemma {:induction false} RunStorable(w: World, n: nat, past: Past, before: map<Digest, Record>, s: Setup,
                                       done: seq<Step>, t: State, steps: seq<Step>, u: State)
    requires Underway(w, n, past, before, s, done, t) && Runs(s, t, steps, u) && Shared(w, n, steps)
    requires AllStorable(w, t.cache)
    ensures AllStorable(w, u.cache)
    decreases steps
  {
    if steps != [] {
      SharedStep(w, n, steps);
      SharedMore(w, n, done, steps[0]);
      StepStorable(w, n, past, before, s, done, t, steps[0]);
      OneMoreStep(s, Init(s, before), done, t, steps[0]);
      RunStorable(w, n, past, before, s, done + [steps[0]], Apply(s, t, steps[0]), steps[1..], u);
    }
  }

  lemma MomentUnderway(w: World, n: nat, m: Moment)
    requires Underway(w, n, m.past, m.before, m.setup, m.steps, m.state) && m.id in m.state.running && m.id in m.setup.rules
    ensures Happens(w, n, m)
  {
  }

  lemma ExecutionStorable(w: World, n: nat, past: Past, before: map<Digest, Record>, s: Setup, done: seq<Step>, t: State, step: Step)
    requires Underway(w, n, past, before, s, done, t) && step.Fresh? && Enabled(s, t, step) && AllStorable(w, t.cache)
    ensures AllStorable(w, Apply(s, t, step).cache)
  {
    var m := Moment(past, before, s, done, t, step.id);
    MomentUnderway(w, n, m);
    FreshStorable(w, n, m, step.stored);
  }

  lemma StepStorable(w: World, n: nat, past: Past, before: map<Digest, Record>, s: Setup, done: seq<Step>, t: State, step: Step)
    requires Underway(w, n, past, before, s, done, t) && Enabled(s, t, step) && Shared(w, n, [step])
    requires AllStorable(w, t.cache)
    ensures AllStorable(w, Apply(s, t, step).cache)
  {
    if step.Fresh? {
      ExecutionStorable(w, n, past, before, s, done, t, step);
    } else if step.Foreign? {
      assert step in [step] && StorableIn(w, n - 1, step.key, step.rec);
    } else {
      OnlyFreshStores(s, t, step);
    }
  }

  lemma NoneShared(w: World, n: nat)
    ensures Shared(w, n, [])
  {
  }

  /** Every record in a cache that runs left was stored by an execution. */
  lemma {:induction false} LeftIsStorable(w: World, n: nat, past: Past, cache: map<Digest, Record>)
    requires Left(w, n, past, cache)
    ensures AllStorable(w, cache)
  {
    match past
    case Nothing =>
    case Later(earlier, last) =>
      var before :| Left(w, n, earlier, before) && Leaves(w, n, before, last, cache);
      LeftIsStorable(w, n, earlier, before);
      var u :| Runs(last.setup, Init(last.setup, before), last.steps, u) && u.cache == cache;
      NoneShared(w, n);
      RunStorable(w, n, earlier, before, last.setup, [], Init(last.setup, before), last.steps, u);
  }

  /** And every record an execution may store is in some cache that runs left. */
  lemma StorableIsLeft(w: World, key: Digest, rec: Record) returns (n: nat, past: Past, cache: map<Digest, Record>)
    requires Storable(w, key, rec)
    ensures Left(w, n, past, cache) && key in cache && cache[key] == rec
  {
    var m;
    n, m := StorableMoment(w, key, rec);
    past, cache := StoredIsLeft(w, n, m, key, rec);
  }

  lemma StorableMoment(w: World, key: Digest, rec: Record) returns (n: nat, m: Moment)
    requires Storable(w, key, rec)
    ensures StoredAt(w, n, m, key, rec)
  {
    var k: nat :| StorableIn(w, k, key, rec);
    n := k;
    m := MomentIn(w, k, key, rec);
  }

  lemma MomentIn(w: World, n: nat, key: Digest, rec: Record) returns (m: Moment)
    requires StorableIn(w, n, key, rec)
    ensures StoredAt(w, n, m, key, rec)
  {
    m :| StoredAt(w, n, m, key, rec);
  }

  lemma StoredIsLeft(w: World, n: nat, m: Moment, key: Digest, rec: Record) returns (past: Past, cache: map<Digest, Record>)
    requires StoredAt(w, n, m, key, rec)
    ensures Left(w, n, past, cache) && key in cache && cache[key] == rec
  {
    var step := Fresh(m.id, true);
    OneMoreStep(m.setup, Init(m.setup, m.before), m.steps, m.state, step);
    SharedMore(w, n, m.steps, step);
    var u := Apply(m.setup, m.state, step);
    StoresRecord(m.setup, m.state, m.id);
    cache := u.cache;
    past := Later(m.past, PastRun(m.setup, m.steps + [step]));
    assert Leaves(w, n, m.before, past.last, cache);
  }

  lemma StoresRecord(s: Setup, t: State, id: string)
    requires id in s.rules && OutcomeOf(s, t.prior, id).JobDone?
    requires Encode(s.rules[id].id, OutcomeOf(s, t.prior, id).findings).Some?
    ensures ExecuteJob(s, t, id, true).cache == t.cache[KeyOf(s, t, id) := Encode(s.rules[id].id, OutcomeOf(s, t.prior, id).findings).value]
  {
    var fs := OutcomeOf(s, t.prior, id).findings;
    assert ExecuteJob(s, t, id, true).cache == CacheAfter(s, t, id, true, fs);
  }

  // ----- when no cache shows

  /** Calm, but for what other runs store. */
  ghost predicate CalmAmongOthers(w: World, n: nat, steps: seq<Step>) {
    Shared(w, n, steps) && forall step :: step in steps ==> Calm(step) || step.Foreign?
  }

  /** Whatever runs came before, and whatever others store meanwhile, every calm run
      reports what the reference does. */
  ghost predicate Invisible(s: Setup) {
    forall n: nat, past, cache, steps, u :: Reports(s, n, past, cache, steps, u) ==> Meets(s, After(s, |s.levels|), u)
  }

  ghost predicate Reports(s: Setup, n: nat, past: Past, cache: map<Digest, Record>, steps: seq<Step>, u: State) {
    && Left(s.world, n, past, cache) && CalmAmongOthers(s.world, n, steps)
    && Runs(s, Init(s, cache), steps, u) && u.phase.Reported?
  }

  /** Whatever any run may store under the key of one of this run's lookups would
      serve what the rule finds here. */
  ghost predicate RecordsAgree(s: Setup) {
    forall k: nat, id, rec :: Looks(s, k, id) && Storable(s.world, KeyAt(s, k, id), rec) ==> RecordAgrees(s, k, id, rec)
  }

  lemma InvisibleIff(s: Setup)
    requires WellLeveled(s)
    ensures Invisible(s) <==> RecordsAgree(s)
  {
    if RecordsAgree(s) {
      forall n: nat, past, cache, steps, u | Reports(s, n, past, cache, steps, u)
        ensures Meets(s, After(s, |s.levels|), u)
      {
        LeftIsStorable(s.world, n, past, cache);
        StorableAgrees(s, cache);
        SharedIsUndisturbed(s, n, steps);
        RunMeetsReference(s, cache, steps, u);
      }
    } else {
      var k: nat, id, rec :| Looks(s, k, id) && Storable(s.world, KeyAt(s, k, id), rec) && !RecordAgrees(s, k, id, rec);
      DisagreeingShows(s, k, id, rec);
    }
  }

  lemma StorableAgrees(s: Setup, cache: map<Digest, Record>)
    requires RecordsAgree(s) && AllStorable(s.world, cache)
    ensures CacheAgrees(s, cache)
  {
  }

  lemma SharedIsUndisturbed(s: Setup, n: nat, steps: seq<Step>)
    requires RecordsAgree(s) && CalmAmongOthers(s.world, n, steps)
    ensures Undisturbed(s, steps)
  {
    forall step | step in steps && step.Foreign? ensures RecordFits(s, step.key, step.rec) {
      assert StorableIn(s.world, n - 1, step.key, step.rec);
    }
  }

  lemma DisagreeingShows(s: Setup, k: nat, id: string, rec: Record)
    requires WellLeveled(s) && Looks(s, k, id) && Storable(s.world, KeyAt(s, k, id), rec) && !RecordAgrees(s, k, id, rec)
    ensures !Invisible(s)
  {
    var n, past, cache := StorableIsLeft(s.world, KeyAt(s, k, id), rec);
    assert !AgreesAt(s, cache, k, id);
    ShowsIff(s, cache);
    var steps, u :| Runs(s, Init(s, cache), steps, u) && AllCalm(steps) && u.phase.Reported? && !Meets(s, After(s, |s.levels|), u);
    assert CalmAmongOthers(s.world, n, steps);
    assert Reports(s, n, past, cache, steps, u);
  }

  // ----- what a run may read is sorted

  lemma StepSorts(s: Setup, t: State, step: Step)
    requires Sorted(ByKey(FindingKey), t.prior) && Enabled(s, t, step)
    ensures Sorted(ByKey(FindingKey), Apply(s, t, step).prior)
  {
    if step.Barrier? {
      ByKeyWeak(FindingKey);
      SortSorted(ByKey(FindingKey), t.acc.findings);
    } else {
      PriorStays(s, t, step);
    }
  }

  lemma PriorStays(s: Setup, t: State, step: Step)
    requires Enabled(s, t, step) && !step.Barrier?
    ensures Apply(s, t, step).prior == t.prior
  {
    if step.Fresh? {
      match OutcomeOf(s, t.prior, step.id)
      case JobFailed =>
      case JobDone(_) =>
    }
  }

  lemma {:induction false} RunSorts(s: Setup, t: State, steps: seq<Step>, u: State)
    requires Sorted(ByKey(FindingKey), t.prior) && Runs(s, t, steps, u)
    ensures Sorted(ByKey(FindingKey), u.prior)
    decreases steps
  {
    if steps != [] {
      StepSorts(s, t, steps[0]);
      RunSorts(s, Apply(s, t, steps[0]), steps[1..], u);
    }
  }

  /** What a job was given at some moment. */
  function LookupThen(m: Moment): Lookup
    requires m.id in m.setup.rules
  {
    LookupOf(m.setup, m.state.prior, m.id)
  }

  lemma MomentNormalised(w: World, n: nat, m: Moment)
    requires Happens(w, n, m)
    ensures Normalised(LookupThen(m))
  {
    RunSorts(m.setup, Init(m.setup, m.before), m.steps, m.state);
  }

  // ----- what a record under a settled key is worth

  lemma SameShownSameOutcome(w: World, a: Lookup, b: Lookup)
    requires Shown(a) == Shown(b)
    ensures a.rule.id == b.rule.id
    ensures Execute(w, a.rule, ViewOf(a.snapshot, a.prior, a.config)) == Execute(w, b.rule, ViewOf(b.snapshot, b.prior, b.config))
  {
    assert MetaOf(a.rule) == Shown(a).0 == Shown(b).0 == MetaOf(b.rule);
    assert MetaOf(a.rule).id == a.rule.id && MetaOf(b.rule).id == b.rule.id;
    SameMetaSameOutcome(w, a.rule, b.rule, ViewOf(a.snapshot, a.prior, a.config));
  }

  /** A record stored where the detector was shown the same holds what the rule finds
      here, as JSON reads it back. */
  lemma SameShownSameRecord(s: Setup, k: nat, id: string, m: Moment, rec: Record)
    requires Proper(s.world, s) && Looks(s, k, id) && m.setup.world == s.world && Writes(m, KeyAt(s, k, id), rec)
    requires Shown(LookupThen(m)) == Shown(LookupAt(s, k, id))
    ensures var batch := BatchOf(s, After(s, k), id);
      && batch.Some? && Encode(s.rules[id].id, batch.value) == Some(rec)
      && (DecodeFor(s, id, rec).Some? ==> DecodeFor(s, id, rec) == Some(RereadAll(batch.value)))
  {
    SameShownSameOutcome(s.world, LookupThen(m), LookupAt(s, k, id));
    assert OutcomeOf(s, After(s, k).prior, id) == OutcomeOf(m.setup, m.state.prior, m.id);
  }

  /** A record under a settled key was stored where the detector was shown the same. */
  lemma SettledMoment(s: Setup, k: nat, id: string, rec: Record) returns (m: Moment)
    requires Looks(s, k, id) && SettledByKey(s.world, LookupAt(s, k, id)) && Storable(s.world, KeyAt(s, k, id), rec)
    ensures m.setup.world == s.world && Writes(m, KeyAt(s, k, id), rec) && Shown(LookupThen(m)) == Shown(LookupAt(s, k, id))
  {
    var n;
    n, m := StorableMoment(s.world, KeyAt(s, k, id), rec);
    MomentNormalised(s.world, n, m);
  }

  /** A hit under a settled key serves what executing the rule would produce, as JSON
      reads it back: the same findings exactly when their texts are valid UTF-8. */
  lemma HitIsFresh(s: Setup, k: nat, id: string, rec: Record)
    requires Proper(s.world, s) && Looks(s, k, id) && SettledByKey(s.world, LookupAt(s, k, id))
    requires Storable(s.world, KeyAt(s, k, id), rec) && DecodeFor(s, id, rec).Some?
    ensures var batch := BatchOf(s, After(s, k), id);
      && batch.Some? && DecodeFor(s, id, rec) == Some(RereadAll(batch.value))
      && (RecordAgrees(s, k, id, rec) <==> AllValidTexts(batch.value))
  {
    var m := SettledMoment(s, k, id, rec);
    SameShownSameRecord(s, k, id, m, rec);
    AllSurvive(BatchOf(s, After(s, k), id).value);
  }

  // ----- runs whose keys settle what they show

  /** A run's own job, of a run without a cache. */
  lemma OwnMoment(s: Setup, k: nat, id: string) returns (m: Moment)
    requires Proper(s.world, s) && Looks(s, k, id)
    ensures Happens(s.world, 0, m) && LookupThen(m) == LookupAt(s, k, id)
  {
    StartsBefore(s, map[], k, id);
    var steps, t := BringsToWorker(s, Init(s, map[]), k, id);
    assert Shared(s.world, 0, steps);
    RunningLevel(s, t, id);
    OneLevelOnly(s, k, t.level, id);
    m := Moment(Nothing, map[], s, steps, t, id);
  }

  /** The run's own record is storable. */
  lemma OwnIsStorable(s: Setup, k: nat, id: string)
    requires Proper(s.world, s) && Looks(s, k, id) && BatchOf(s, After(s, k), id).Some?
    requires Encode(s.rules[id].id, BatchOf(s, After(s, k), id).value).Some?
    ensures Storable(s.world, KeyAt(s, k, id), Encode(s.rules[id].id, BatchOf(s, After(s, k), id).value).value)
  {
    var m := OwnMoment(s, k, id);
    var rec := Encode(s.rules[id].id, BatchOf(s, After(s, k), id).value).value;
    assert StoredAt(s.world, 0, m, KeyAt(s, k, id), rec);
    assert StorableIn(s.world, 0, KeyAt(s, k, id), rec);
  }

  /** A rule that finds texts that are not valid UTF-8, and could be served them
      again, makes its cache show. */
  lemma InvalidRecordShows(s: Setup, k: nat, id: string)
    requires Proper(s.world, s) && Looks(s, k, id) && !ServesValidAt(s, k, id)
    ensures !Invisible(s)
  {
    var fs := BatchOf(s, After(s, k), id).value;
    OwnIsStorable(s, k, id);
    AllSurvive(fs);
    DisagreeingShows(s, k, id, Encode(s.rules[id].id, fs).value);
  }

  ghost predicate Settled(s: Setup) {
    forall k: nat, id :: Looks(s, k, id) ==> SettledByKey(s.world, LookupAt(s, k, id))
  }

  lemma BatchLooks(s: Setup, k: nat, id: string)
    requires k < |s.levels| && id in s.levels[k] && id in s.rules && BatchOf(s, After(s, k), id).Some?
    ensures Looks(s, k, id)
  {
  }

  /** If the run's keys settle what its detectors are shown, no cache shows if and
      only if whatever the run could be served again is valid UTF-8. */
  lemma SettledInvisibleIff(s: Setup)
    requires Proper(s.world, s) && Settled(s)
    ensures Invisible(s) <==> ServesValid(s)
  {
    InvisibleIff(s);
    if ServesValid(s) {
      forall k: nat, id, rec | Looks(s, k, id) && Storable(s.world, KeyAt(s, k, id), rec) ensures RecordAgrees(s, k, id, rec) {
        SettledAgrees(s, k, id, rec);
      }
    } else {
      var k, id :| 0 <= k < |s.levels| && id in s.levels[k] && id in s.rules && !ServesValidAt(s, k, id);
      BatchLooks(s, k, id);
      InvalidRecordShows(s, k, id);
    }
  }

  /** What the record was stored with, the rule finds here and could be served. */
  lemma StorableIsServable(s: Setup, k: nat, id: string, rec: Record)
    requires Proper(s.world, s) && Looks(s, k, id) && SettledByKey(s.world, LookupAt(s, k, id))
    requires Storable(s.world, KeyAt(s, k, id), rec) && DecodeFor(s, id, rec).Some?
    ensures BatchOf(s, After(s, k), id).Some? && Servable(s, id, BatchOf(s, After(s, k), id).value)
  {
    var m := SettledMoment(s, k, id, rec);
    SameShownSameRecord(s, k, id, m, rec);
  }

  lemma SettledAgrees(s: Setup, k: nat, id: string, rec: Record)
    requires Proper(s.world, s) && Settled(s) && ServesValid(s) && Looks(s, k, id) && Storable(s.world, KeyAt(s, k, id), rec)
    ensures RecordAgrees(s, k, id, rec)
  {
    if DecodeFor(s, id, rec).Some? {
      HitIsFresh(s, k, id, rec);
      StorableIsServable(s, k, id, rec);
      assert ServesValidAt(s, k, id);
    }
  }

  /** Every text of the run's rules, corpus, configuration and prior findings is valid
      UTF-8, but for identities and names held in place. */
  ghost predicate LoneRun(s: Setup) {
    && (forall id :: id in s.rules ==> LoneInputs(s.rules[id], s.snapshot, s.config))
    && forall k :: 0 <= k < |s.levels| ==> ValidPrior(After(s, k).prior)
  }

  /** So a run of such texts: no cache shows if and only if what it could be served
      again is valid UTF-8. */
  lemma LoneInvisibleIff(s: Setup)
    requires Proper(s.world, s) && Sound(s.world) && LoneRun(s)
    ensures Settled(s) && (Invisible(s) <==> ServesValid(s))
  {
    forall k: nat, id | Looks(s, k, id) ensures SettledByKey(s.world, LookupAt(s, k, id)) {
      LookupIsNormal(s, k, id);
      KeySettlesIff(s.world, LookupAt(s, k, id));
    }
    SettledInvisibleIff(s);
  }

  lemma LookupIsNormal(s: Setup, k: nat, id: string)
    requires Proper(s.world, s) && Looks(s, k, id)
    ensures Normalised(LookupAt(s, k, id)) && PriorOk(LookupAt(s, k, id).prior)
  {
    PriorsOk(s, k);
    AscendingSorted(KeysOf(FindingKey, After(s, k).prior));
    SortedByKeys(After(s, k).prior);
  }

  lemma SortedByKeys(p: seq<Finding>)
    requires Sorted(StringLess, KeysOf(FindingKey, p))
    ensures Sorted(ByKey(FindingKey), p)
  {
    var ks := KeysOf(FindingKey, p);
    forall i, j | 0 <= i < j < |p| ensures !ByKey(FindingKey)(p[j], p[i]) {
      assert !StringLess(ks[j], ks[i]);
    }
  }

  // ----- detectors that return valid texts

  /** What any rule completes with is valid UTF-8. */
  ghost predicate ValidDetectors(w: World) {
    forall r, v :: Execute(w, r, v).JobDone? ==> AllValidTexts(Execute(w, r, v).findings)
  }

  lemma BatchValid(s: Setup, b: Base, id: string)
    requires ValidDetectors(s.world) && id in s.rules && BatchOf(s, b, id).Some?
    ensures AllValidTexts(BatchOf(s, b, id).value)
  {
    assert Execute(s.world, s.rules[id], ViewOf(s.snapshot, b.prior, s.config)).JobDone?;
  }

  ghost predicate BatchesAreValid(batches: map<string, seq<Finding>>) {
    forall id :: id in batches ==> AllValidTexts(batches[id])
  }

  lemma NextValid(s: Setup, b: Base, level: seq<string>)
    requires ValidDetectors(s.world) && BatchesAreValid(b.batches)
    ensures BatchesAreValid(Decide(s, b, level).batches)
  {
    forall id | id in LevelBatches(s, b, level) ensures AllValidTexts(LevelBatches(s, b, level)[id]) {
      BatchValid(s, b, id);
    }
  }

  lemma AfterNext(s: Setup, k: nat)
    requires 0 < k <= |s.levels|
    ensures After(s, k) == Decide(s, After(s, k - 1), s.levels[k - 1])
  {
  }

  lemma {:induction false} BatchesValid(s: Setup, k: nat)
    requires ValidDetectors(s.world) && k <= |s.levels|
    ensures BatchesAreValid(After(s, k).batches)
  {
    if k > 0 {
      BatchesValid(s, k - 1);
      NextValid(s, After(s, k - 1), s.levels[k - 1]);
      AfterNext(s, k);
    } else {
      assert After(s, 0).batches == map[];
    }
  }

  lemma PriorValid(s: Setup, k: nat)
    requires WellLeveled(s) && ValidDetectors(s.world) && k <= |s.levels|
    ensures ValidPrior(After(s, k).prior)
  {
    var prior := After(s, k).prior;
    BatchesValid(s, k);
    forall i | 0 <= i < |prior| ensures ValidMetadata(prior[i].metadata) {
      PriorIsBatched(s, k, prior[i]);
      assert ValidTexts(prior[i]);
    }
  }

  /** What the next level may read, its rule added. */
  lemma PriorIsBatched(s: Setup, k: nat, f: Finding)
    requires WellLeveled(s) && k <= |s.levels| && f in After(s, k).prior
    ensures f.ruleId in After(s, k).batches && f in After(s, k).batches[f.ruleId]
  {
    var json, batches := s.world.json, After(s, k).batches;
    var all, kept := AllFindings(batches), Retained(json, batches).findings;
    BatchesOwn(s, k);
    PriorIsRetained(s, k);
    AllFindingsCounted(batches);
    NothingAdded(json);
    AddKeepsTop(json, EMPTY, multiset{}, all);
    SortContents(ByKey(FindingKey), kept);
    assert f in multiset(After(s, k).prior) && f in multiset(kept);
    assert multiset(kept) <= multiset{} + multiset(all);
    assert f in multiset(all) && CountIn(batches, f) > 0;
  }

  /** If no detector returns invalid UTF-8, prior findings need no more: rules, corpus
      and configuration that a key settles are enough. */
  lemma ValidDetectorsSuffice(s: Setup)
    requires Proper(s.world, s) && Sound(s.world) && ValidDetectors(s.world)
    requires forall id :: id in s.rules ==> LoneInputs(s.rules[id], s.snapshot, s.config)
    ensures Invisible(s)
  {
    forall k | 0 <= k < |s.levels| ensures ValidPrior(After(s, k).prior) {
      PriorValid(s, k);
    }
    AllServeValid(s);
    LoneInvisibleIff(s);
  }

  lemma AllServeValid(s: Setup)
    requires ValidDetectors(s.world)
    ensures ServesValid(s)
  {
    forall k, id | 0 <= k < |s.levels| && id in s.levels[k] && id in s.rules ensures ServesValidAt(s, k, id) {
      if BatchOf(s, After(s, k), id).Some? {
        BatchValid(s, After(s, k), id);
      }
    }
  }

  /** Valid rules, corpus and configuration, and detectors that return valid texts: no
      cache shows. */
  lemma ValidTextsSuffice(s: Setup)
    requires Proper(s.world, s) && Sound(s.world) && ValidDetectors(s.world)
    requires forall id :: id in s.rules ==> ValidRule(s.rules[id])
    requires ValidListing(s.snapshot.edges) && forall i :: 0 <= i < |s.snapshot.domains| ==> ValidListing(s.snapshot.domains[i])
    requires forall k :: k in s.config ==> ValidUtf8(k) && ValidUtf8(s.config[k])
    ensures Invisible(s)
  {
    ValidIsLone(s.snapshot.edges);
    forall i | 0 <= i < |s.snapshot.domains| ensures Lone(s.snapshot.domains[i]) {
      ValidIsLone(s.snapshot.domains[i]);
    }
    ValidConfigIsLone(s.config);
    ValidDetectorsSuffice(s);
  }

  lemma ValidConfigIsLone(config: map<string, string>)
    requires forall k :: k in config ==> ValidUtf8(k) && ValidUtf8(config[k])
    ensures Lone(Entries(config))
  {
    var l, ks := Entries(config), InOrder(config.Keys);
    forall i | 0 <= i < |l| ensures ValidUtf8(l[i].id) && ValidFields(l[i]) {
      assert ks[i] in Elements(ks) && l[i] == EntryOf(config)(ks[i]);
    }
    ValidIsLone(l);
  }
}
