/** Warm equals cold, in any interleaving (internal/detect/engine.go, Run): from any
    cache that agrees on its lookups, a calm run reports what the reference
    computes. */
module Equivalence {
  import opened Wrappers
  import opened Order
  import opened Merging
  import opened Findings
  import opened FindingJson
  import opened Retention
  import opened Registries
  import opened RuleViews
  import opened RuleKeys
  import opened RuleRecords
  import opened Reports
  import opened Engine
  import opened Reference
  import opened Following

  // ----- whole runs

  /** Nothing is left to fill in at the end. */
  lemma NoPlaceholders(s: Setup, t: State)
    requires WellLeveled(s) && t.level == |s.levels| && Follows(s, After(s, t.level), t)
    ensures Placeholders(s) + t.acc.results == t.acc.results
  {
    EveryRuleDecided(s);
    PlaceholdersNamed(s);
    Overridden(Placeholders(s), t.acc.results);
  }

  lemma EveryRuleDecided(s: Setup)
    requires WellLeveled(s)
    ensures s.rules.Keys <= After(s, |s.levels|).results.Keys
  {
    forall id | id in s.rules ensures id in After(s, |s.levels|).results {
      AllDecided(s, id);
    }
  }

  lemma Overridden(a: map<string, RuleResult>, b: map<string, RuleResult>)
    requires a.Keys <= b.Keys
    ensures a + b == b
  {
  }

  lemma PhaseFollows(s: Setup, b: Base, t: State, u: State)
    requires Follows(s, b, t) && u == t.(phase := u.phase)
    requires u.phase.Draining? || u.phase.Reported? ==> t.level == |s.levels|
    ensures Follows(s, b, u)
  {
  }

  lemma ConcludeTracks(s: Setup, t: State)
    requires WellLeveled(s) && Tracks(s, t) && Enabled(s, t, Conclude)
    ensures Tracks(s, Apply(s, t, Conclude))
  {
    NoPlaceholders(s, t);
    assert Apply(s, t, Conclude) == t.(phase := Reported);
    PhaseFollows(s, After(s, t.level), t, t.(phase := Reported));
  }

  lemma NamedById(s: Setup, id: string)
    requires WellLeveled(s) && id in s.rules
    ensures s.rules[id].id == id
  {
  }

  lemma HitTracks(s: Setup, t: State, id: string)
    requires WellLeveled(s) && Inv(s, t) && Tracks(s, t) && id in t.running && id in s.rules && Served(s, t, id).Some?
    requires HitAgrees(s, t, id)
    ensures Tracks(s, Complete(s, t, id, true, Served(s, t, id).value))
  {
    NamedById(s, id);
    HitFollows(s, After(s, t.level), t, id);
    CompleteKeeps(s, t, id, true, Served(s, t, id).value);
  }

  /** What a hit would serve is what the rule finds in its level. */
  ghost predicate HitAgrees(s: Setup, t: State, id: string) {
    t.level < |s.levels| && id in s.rules && BatchOf(s, After(s, t.level), id) == Served(s, t, id)
  }

  lemma CompleteKeeps(s: Setup, t: State, id: string, cached: bool, fs: seq<Finding>)
    requires id in s.rules
    ensures Complete(s, t, id, cached, fs).level == t.level
  {
  }

  /** A running rule belongs to the level and is looked up there. */
  lemma RunningLevel(s: Setup, t: State, id: string)
    requires JobsOk(s, t) && Tracks(s, t) && id in t.running
    ensures Looks(s, t.level, id) && id !in t.acc.results
    ensures t.prior == After(s, t.level).prior && KeyOf(s, t, id) == KeyAt(s, t.level, id)
  {
    RunningRule(s, After(s, t.level), t, id);
  }

  lemma FreshTracks(s: Setup, t: State, id: string, stored: bool)
    requires WellLeveled(s) && Inv(s, t) && Tracks(s, t) && id in t.running && id in s.rules
    ensures Tracks(s, ExecuteJob(s, t, id, stored))
  {
    NamedById(s, id);
    FreshFollows(s, After(s, t.level), t, id, stored);
    FreshKeeps(s, t, id, stored);
  }

  lemma FreshKeeps(s: Setup, t: State, id: string, stored: bool)
    requires id in s.rules
    ensures var u := ExecuteJob(s, t, id, stored);
      && u.level == t.level && u.batches == t.batches && u.added == t.added
      && u.acc.findings == t.acc.findings && u.acc.truncated == t.acc.truncated
  {
    match OutcomeOf(s, t.prior, id)
    case JobFailed =>
    case JobDone(_) =>
  }

  lemma SubmittingTracks(s: Setup, t: State, step: Step)
    requires WellLeveled(s) && Inv(s, t) && Tracks(s, t) && Enabled(s, t, step) && (step.Gate? || step.Submit?)
    ensures Tracks(s, Apply(s, t, step))
  {
    if step.Gate? {
      GateFollows(s, After(s, t.level), t);
    } else {
      SubmitFollows(s, After(s, t.level), t);
    }
  }

  lemma QuietTracks(s: Setup, t: State, step: Step)
    requires WellLeveled(s) && Tracks(s, t) && Enabled(s, t, step)
    requires step.EndSubmit? || step.Finish? || step.Take? || step.Start?
    ensures Tracks(s, Apply(s, t, step))
  {
    var b := After(s, t.level);
    match step
    case EndSubmit => PhaseFollows(s, b, t, Apply(s, t, step));
    case Finish => PhaseFollows(s, b, t, Apply(s, t, step));
    case Take(id) => TakeFollows(s, b, t, id);
    case Start(id) => StartFollows(s, b, t, id);
  }

  lemma CacheTracks(s: Setup, t: State, step: Step)
    requires Tracks(s, t) && (step.Evict? || step.Foreign?) && Enabled(s, t, step)
    ensures Tracks(s, Apply(s, t, step))
  {
    var u := Apply(s, t, step);
    assert u == t.(cache := u.cache);
    CacheFollows(s, After(s, t.level), t, u.cache);
  }

  lemma BarrierTracks(s: Setup, t: State)
    requires WellLeveled(s) && Inv(s, t) && Tracks(s, t) && FindingsAgree(s, t)
    requires Enabled(s, t, Barrier)
    ensures Tracks(s, Apply(s, t, Barrier))
  {
    BarrierIdle(s, t);
    BarrierMeets(s, t);
    BarrierFollows(s, After(s, t.level + 1), t, Apply(s, t, Barrier));
  }

  lemma PublishTracks(s: Setup, t: State, id: string)
    requires WellLeveled(s) && Inv(s, t) && Tracks(s, t) && FindingsAgree(s, t) && id in t.adding
    ensures Tracks(s, AddFindings(s, t, id)) && FindingsAgree(s, AddFindings(s, t, id))
  {
    assert id in t.acc.results;
    NamedById(s, id);
    PublishFollows(s, After(s, t.level), t, id);
    PublishedFindings(s, After(s, t.level), t, id);
  }

  /** Every calm step keeps the run on the reference, a hit if it serves what the
      rule finds; so does whatever other runs store. */
  lemma StepTracks(s: Setup, t: State, step: Step)
    requires WellLeveled(s) && Inv(s, t) && Tracks(s, t) && FindingsAgree(s, t)
    requires Enabled(s, t, step) && (Calm(step) || step.Foreign?) && (step.Hit? ==> HitAgrees(s, t, step.id))
    ensures Tracks(s, Apply(s, t, step))
  {
    if step.Gate? || step.Submit? {
      SubmittingTracks(s, t, step);
    } else if step.Hit? {
      HitTracks(s, t, step.id);
    } else if step.Fresh? {
      FreshTracks(s, t, step.id, step.stored);
    } else if step.Publish? {
      PublishTracks(s, t, step.id);
    } else if step.Barrier? {
      BarrierTracks(s, t);
    } else if step.Conclude? {
      ConcludeTracks(s, t);
    } else if step.Evict? || step.Foreign? {
      CacheTracks(s, t, step);
    } else {
      QuietTracks(s, t, step);
    }
  }

  lemma OnlyPublishAdds(s: Setup, t: State, step: Step)
    requires Enabled(s, t, step) && !step.Publish?
    ensures var u := Apply(s, t, step);
      && u.batches == t.batches && u.added == t.added
      && u.acc.findings == t.acc.findings && u.acc.truncated == t.acc.truncated
  {
    if step.Fresh? {
      FreshKeeps(s, t, step.id, step.stored);
    } else if step.Gate? {
      GateAddsNone(s, t);
    } else if step.Hit? || step.Interrupt? {
      SettlingAddsNone(s, t, step);
    } else {
      OtherAddsNone(s, t, step);
    }
  }

  lemma SettlingAddsNone(s: Setup, t: State, step: Step)
    requires Enabled(s, t, step) && (step.Hit? || step.Interrupt?)
    ensures var u := Apply(s, t, step);
      && u.batches == t.batches && u.added == t.added
      && u.acc.findings == t.acc.findings && u.acc.truncated == t.acc.truncated
  {
  }

  lemma OtherAddsNone(s: Setup, t: State, step: Step)
    requires Enabled(s, t, step) && !step.Publish? && !step.Fresh? && !step.Gate? && !step.Hit? && !step.Interrupt?
    ensures var u := Apply(s, t, step);
      && u.batches == t.batches && u.added == t.added
      && u.acc.findings == t.acc.findings && u.acc.truncated == t.acc.truncated
  {
  }

  lemma GateAddsNone(s: Setup, t: State)
    requires Enabled(s, t, Gate)
    ensures var u := Apply(s, t, Gate);
      && u.batches == t.batches && u.added == t.added
      && u.acc.findings == t.acc.findings && u.acc.truncated == t.acc.truncated
  {
  }

  lemma StepFindings(s: Setup, t: State, step: Step)
    requires WellLeveled(s) && Inv(s, t) && Tracks(s, t) && FindingsAgree(s, t)
    requires Enabled(s, t, step)
    ensures FindingsAgree(s, Apply(s, t, step))
  {
    if step.Publish? {
      PublishTracks(s, t, step.id);
    } else {
      OnlyPublishAdds(s, t, step);
      FindingsKept(s, t, Apply(s, t, step));
    }
  }

  /** The run stands where the reference does. */
  ghost predicate OnTrack(s: Setup, t: State) {
    Inv(s, t) && Tracks(s, t) && FindingsAgree(s, t)
  }

  /** All that one calm step keeps. */
  lemma CalmStep(s: Setup, t: State, step: Step)
    requires WellLeveled(s) && OnTrack(s, t)
    requires Enabled(s, t, step) && (Calm(step) || step.Foreign?) && (step.Hit? ==> HitAgrees(s, t, step.id))
    ensures OnTrack(s, Apply(s, t, step))
  {
    StepKeepsInv(s, t, step);
    StepTracks(s, t, step);
    StepFindings(s, t, step);
  }

  // ----- what is still to be served

  /** The cache agrees on every rule not decided yet. */
  ghost predicate StillAgrees(s: Setup, t: State) {
    forall k: nat, id: string :: id !in t.acc.results ==> AgreesAt(s, t.cache, k, id)
  }

  lemma HitIsFound(s: Setup, t: State, id: string)
    requires JobsOk(s, t) && Tracks(s, t) && StillAgrees(s, t) && id in t.running && id in s.rules && Served(s, t, id).Some?
    ensures HitAgrees(s, t, id)
  {
    RunningLevel(s, t, id);
    assert AgreesAt(s, t.cache, t.level, id);
  }

  /** A rule's record is stored under no other rule's key. */
  lemma StoreAgrees(s: Setup, t: State, id: string, rec: Record, k: nat, other: string)
    requires WellLeveled(s) && id in s.rules && other != id && AgreesAt(s, t.cache, k, other)
    ensures AgreesAt(s, t.cache[KeyOf(s, t, id) := rec], k, other)
  {
    if Looks(s, k, other) && KeyAt(s, k, other) == KeyOf(s, t, id) {
      KeysNameRules(s.world, LookupAt(s, k, other), LookupOf(s, t.prior, id));
      NamedById(s, id);
      NamedById(s, other);
    }
  }

  lemma FreshStillAgrees(s: Setup, t: State, id: string, stored: bool)
    requires WellLeveled(s) && StillAgrees(s, t) && id in s.rules
    ensures StillAgrees(s, ExecuteJob(s, t, id, stored))
  {
    var u := ExecuteJob(s, t, id, stored);
    NamedById(s, id);
    FreshDecides(s, t, id, stored);
    FreshStores(s, t, id, stored);
    forall k: nat, other: string | other !in u.acc.results ensures AgreesAt(s, u.cache, k, other) {
      assert AgreesAt(s, t.cache, k, other);
      if u.cache != t.cache {
        StoreAgrees(s, t, id, u.cache[KeyOf(s, t, id)], k, other);
      }
    }
  }

  /** An execution decides its rule and stores its record, if any. */
  lemma FreshDecides(s: Setup, t: State, id: string, stored: bool)
    requires id in s.rules && s.rules[id].id == id
    ensures t.acc.results.Keys + {id} <= ExecuteJob(s, t, id, stored).acc.results.Keys
  {
    match OutcomeOf(s, t.prior, id)
    case JobFailed =>
    case JobDone(_) =>
  }

  lemma FreshStores(s: Setup, t: State, id: string, stored: bool)
    requires id in s.rules
    ensures Stores(ExecuteJob(s, t, id, stored).cache, t.cache, KeyOf(s, t, id))
  {
    match OutcomeOf(s, t.prior, id)
    case JobFailed =>
    case JobDone(fs) =>
      CacheStores(s, t, id, stored, fs);
      assert ExecuteJob(s, t, id, stored).cache == CacheAfter(s, t, id, stored, fs);
  }

  /** The caches differ by one record at most. */
  ghost predicate Stores(after: map<Digest, Record>, before: map<Digest, Record>, key: Digest) {
    after == before || (key in after && after == before[key := after[key]])
  }

  lemma CacheStores(s: Setup, t: State, id: string, stored: bool, fs: seq<Finding>)
    requires id in s.rules
    ensures Stores(CacheAfter(s, t, id, stored, fs), t.cache, KeyOf(s, t, id))
  {
  }

  lemma OnlyFreshStores(s: Setup, t: State, step: Step)
    requires Enabled(s, t, step) && !step.Fresh? && !step.Foreign?
    ensures var next := Apply(s, t, step).cache; next.Keys <= t.cache.Keys && forall key :: key in next ==> next[key] == t.cache[key]
  {
  }

  /** Wherever the run would look the record up, it would serve what the rule
      finds. */
  ghost predicate RecordFits(s: Setup, key: Digest, rec: Record) {
    forall k: nat, id :: Looks(s, k, id) && KeyAt(s, k, id) == key ==> RecordAgrees(s, k, id, rec)
  }

  lemma ForeignStillAgrees(s: Setup, t: State, key: Digest, rec: Record)
    requires StillAgrees(s, t) && RecordFits(s, key, rec)
    ensures StillAgrees(s, t.(cache := t.cache[key := rec]))
  {
    var next := t.cache[key := rec];
    forall k: nat, id: string | id !in t.acc.results ensures AgreesAt(s, next, k, id) {
      assert AgreesAt(s, t.cache, k, id);
    }
  }

  /** A calm run, but for other runs that store fitting records meanwhile. */
  ghost predicate Undisturbed(s: Setup, steps: seq<Step>) {
    forall step :: step in steps ==> Calm(step) || (step.Foreign? && RecordFits(s, step.key, step.rec))
  }

  lemma StepStillAgrees(s: Setup, t: State, step: Step)
    requires WellLeveled(s) && Inv(s, t) && StillAgrees(s, t) && Enabled(s, t, step)
    requires step.Foreign? ==> RecordFits(s, step.key, step.rec)
    ensures StillAgrees(s, Apply(s, t, step))
  {
    if step.Fresh? {
      ExecutionStillAgrees(s, t, step);
    } else if step.Foreign? {
      SharedStillAgrees(s, t, step);
    } else {
      OwnStillAgrees(s, t, step);
    }
  }

  lemma ExecutionStillAgrees(s: Setup, t: State, step: Step)
    requires WellLeveled(s) && StillAgrees(s, t) && step.Fresh? && Enabled(s, t, step)
    ensures StillAgrees(s, Apply(s, t, step))
  {
    FreshStillAgrees(s, t, step.id, step.stored);
  }

  lemma SharedStillAgrees(s: Setup, t: State, step: Step)
    requires StillAgrees(s, t) && step.Foreign? && Enabled(s, t, step) && RecordFits(s, step.key, step.rec)
    ensures StillAgrees(s, Apply(s, t, step))
  {
    ForeignStillAgrees(s, t, step.key, step.rec);
  }

  lemma OwnStillAgrees(s: Setup, t: State, step: Step)
    requires WellLeveled(s) && Inv(s, t) && StillAgrees(s, t) && Enabled(s, t, step) && !step.Fresh? && !step.Foreign?
    ensures StillAgrees(s, Apply(s, t, step))
  {
    StepKeepsInv(s, t, step);
    OnlyFreshStores(s, t, step);
    FewerAgrees(s, t, Apply(s, t, step));
  }

  lemma FewerAgrees(s: Setup, t: State, u: State)
    requires StillAgrees(s, t) && t.acc.results.Keys <= u.acc.results.Keys
    requires u.cache.Keys <= t.cache.Keys && forall key :: key in u.cache ==> u.cache[key] == t.cache[key]
    ensures StillAgrees(s, u)
  {
    forall k: nat, id: string | id !in u.acc.results ensures AgreesAt(s, u.cache, k, id) {
      assert AgreesAt(s, t.cache, k, id);
    }
  }

  lemma {:induction false} RunTracks(s: Setup, t: State, steps: seq<Step>, u: State)
    requires WellLeveled(s) && OnTrack(s, t) && StillAgrees(s, t) && Runs(s, t, steps, u) && Undisturbed(s, steps)
    ensures OnTrack(s, u) && StillAgrees(s, u)
    decreases steps
  {
    if steps != [] {
      assert steps[0] in steps;
      ServedStep(s, t, steps[0]);
      StepStillAgrees(s, t, steps[0]);
      RunTracks(s, Apply(s, t, steps[0]), steps[1..], u);
    }
  }

  lemma ServedStep(s: Setup, t: State, step: Step)
    requires WellLeveled(s) && OnTrack(s, t) && StillAgrees(s, t) && Enabled(s, t, step) && (Calm(step) || step.Foreign?)
    ensures OnTrack(s, Apply(s, t, step))
  {
    if step.Hit? {
      HitIsFound(s, t, step.id);
    }
    CalmStep(s, t, step);
  }

  lemma FinalResults(s: Setup, b: Base, u: State)
    requires Follows(s, b, u) && u.phase.Reported?
    ensures u.batches == b.batches && u.acc.results.Keys == b.results.Keys
    ensures forall id :: id in b.results ==> Erased(u.acc.results[id]) == b.results[id]
  {
    assert LevelAt(s, u.level) == [];
  }

  lemma FinalMeets(s: Setup, u: State)
    requires WellLeveled(s) && Tracks(s, u) && FindingsAgree(s, u) && u.phase.Reported?
    ensures u.level == |s.levels| && Meets(s, After(s, |s.levels|), u)
  {
    FinalResults(s, After(s, |s.levels|), u);
    RetainedAlike(s.world.json, u.batches, u.added, u.acc);
    PriorIsRetained(s, |s.levels|);
  }

  lemma NothingInOrder(ids: seq<string>)
    requires Elements(ids) == {} && Ascending(StringLess, ids)
    ensures ids == []
  {
    StringOrder();
    AscendingSize(StringLess, ids);
  }

  lemma PriorIsRetained(s: Setup, k: nat)
    requires WellLeveled(s) && k <= |s.levels|
    ensures After(s, k).prior == PriorAfter(s.world.json, After(s, k).batches)
  {
    if k == 0 {
      NothingInOrder(InOrder({}));
      assert After(s, k).batches.Keys == {};
    }
  }

  // ----- the main results

  lemma StartsOnTrack(s: Setup, cache: map<Digest, Record>)
    requires WellLeveled(s)
    ensures OnTrack(s, Init(s, cache))
  {
    InitInv(s, cache);
    FollowsInit(s, cache);
    FindingsInit(s, cache);
  }

  lemma ReachedTracks(s: Setup, cache: map<Digest, Record>, steps: seq<Step>, u: State)
    requires WellLeveled(s) && CacheAgrees(s, cache) && Runs(s, Init(s, cache), steps, u) && Undisturbed(s, steps)
    ensures OnTrack(s, u)
  {
    StartsOnTrack(s, cache);
    RunTracks(s, Init(s, cache), steps, u);
  }

  /** The cache is invisible and so is the scheduling: from any cache that agrees on
      the run's lookups, and however its jobs interleave, a calm run reports the
      results (but for the cached flags), findings and truncation of the
      reference, also if other runs store fitting records meanwhile. */
  lemma RunMeetsReference(s: Setup, cache: map<Digest, Record>, steps: seq<Step>, u: State)
    requires WellLeveled(s) && CacheAgrees(s, cache)
    requires Runs(s, Init(s, cache), steps, u) && Undisturbed(s, steps) && u.phase.Reported?
    ensures Meets(s, After(s, |s.levels|), u)
  {
    ReachedTracks(s, cache, steps, u);
    FinalMeets(s, u);
  }

  lemma SameStatuses(a: map<string, RuleResult>, b: map<string, RuleResult>, st: Status)
    requires a.Keys == b.Keys && forall id :: id in a ==> a[id].status == b[id].status
    ensures WithStatus(a, st) == WithStatus(b, st)
  {
  }

  /** What two reports of one setup share: everything but the cached flags. */
  ghost predicate SameReport(a: Acc, b: Acc) {
    && a.results.Keys == b.results.Keys
    && (forall id :: id in a.results ==> Erased(a.results[id]) == Erased(b.results[id]))
    && Sort(ByKey(FindingKey), a.findings) == Sort(ByKey(FindingKey), b.findings)
    && a.truncated == b.truncated
    && OutcomeFor(a.results, a.truncated) == OutcomeFor(b.results, b.truncated)
  }

  lemma MeetingReports(s: Setup, b: Base, u: State, v: State)
    requires Meets(s, b, u) && Meets(s, b, v)
    ensures SameReport(u.acc, v.acc)
  {
    forall id | id in u.acc.results ensures Erased(u.acc.results[id]) == Erased(v.acc.results[id]) {
      assert id in b.results;
    }
    forall st: Status ensures WithStatus(u.acc.results, st) == WithStatus(v.acc.results, st) {
      forall id | id in u.acc.results ensures u.acc.results[id].status == v.acc.results[id].status {
        assert Erased(u.acc.results[id]).status == Erased(v.acc.results[id]).status;
      }
      SameStatuses(u.acc.results, v.acc.results, st);
    }
  }

  /** Warm equals cold, and one interleaving equals another: a run without a
      cache is one that starts from the empty cache and never hits. */
  lemma WarmEqualsCold(s: Setup, cold: seq<Step>, u: State, cache: map<Digest, Record>, warm: seq<Step>, v: State)
    requires WellLeveled(s) && CacheAgrees(s, cache)
    requires Runs(s, Init(s, map[]), cold, u) && AllCalm(cold) && u.phase.Reported?
    requires Runs(s, Init(s, cache), warm, v) && Undisturbed(s, warm) && v.phase.Reported?
    ensures SameReport(u.acc, v.acc)
  {
    RunMeetsReference(s, map[], cold, u);
    RunMeetsReference(s, cache, warm, v);
    MeetingReports(s, After(s, |s.levels|), u, v);
  }

  /** Nor does the prior view of any level depend on the run. */
  lemma LevelSeesOnePrior(s: Setup, cache: map<Digest, Record>, steps: seq<Step>, t: State)
    requires WellLeveled(s) && CacheAgrees(s, cache) && Runs(s, Init(s, cache), steps, t) && Undisturbed(s, steps)
    ensures t.level <= |s.levels| && t.prior == After(s, t.level).prior
  {
    ReachedTracks(s, cache, steps, t);
  }
}
