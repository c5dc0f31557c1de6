/** How a calm run follows the reference (internal/detect/engine.go, Run).

    Every step of the engine and its workers keeps results, batches and jobs in
    agreement with what the reference has decided before the level and what it
    expects of the level; at the barrier the agreement moves on to the next
    level. */
module Following {
  import opened Wrappers
  import opened Order
  import opened Merging
  import opened Findings
  import opened FindingJson
  import opened Retention
  import opened Registries
  import opened RuleViews
  import opened RuleKeys
  import opened RuleRecords
  import opened Engine
  import opened Reference

  // ----- a calm run follows the reference

  /** Whether a result was cached is all that may differ. */
  function Erased(r: RuleResult): RuleResult {
    r.(cached := false)
  }

  ghost predicate ResultsAgree(s: Setup, b: Base, level: seq<string>, results: map<string, RuleResult>) {
    && Known(s, level)
    && b.results.Keys <= results.Keys
    && (forall id :: id in b.results ==> Erased(results[id]) == b.results[id])
    && (forall id :: id in results && id !in b.results ==> id in level && Erased(results[id]) == ResultOf(s, b, id))
  }

  /** Who adds what in a level: decided are the rules with a result, want what
      each of them adds if anything, adding what is still to be added. */
  ghost predicate Accounted(want: string -> Option<seq<Finding>>, base: map<string, seq<Finding>>, level: seq<string>,
                            decided: set<string>, batches: map<string, seq<Finding>>, adding: map<string, seq<Finding>>) {
    && batches.Keys <= decided && adding.Keys <= decided
    && (forall id :: id in level ==> id !in base)
    && (forall id :: id in base ==> id in batches && batches[id] == base[id])
    && (forall id :: id in batches && id !in base ==> id in level && want(id) == Some(batches[id]))
    && (forall id :: id in adding ==> id in level && id !in batches && want(id) == Some(adding[id]))
    && (forall id :: id in level && id in decided && id !in adding && want(id).Some? ==> id in batches)
  }

  ghost predicate BatchesAgree(s: Setup, b: Base, level: seq<string>, decided: set<string>,
                               batches: map<string, seq<Finding>>, adding: map<string, seq<Finding>>) {
    Known(s, level) && Accounted(Wants(s, b), b.batches, level, decided, batches, adding)
  }

  /** Rules under way passed their gate; a passed rule is under way or done. */
  ghost predicate JobsAgree(s: Setup, b: Base, level: seq<string>, passed: set<string>, pending: set<string>, decided: set<string>) {
    && Known(s, level)
    && (forall id :: id in pending ==> id in level && FirstIncomplete(s.rules[id].dependencies, b.results).None?)
    && passed <= decided + pending
  }

  ghost predicate FindingsAgree(s: Setup, t: State) {
    OwnBatches(t.batches) && Counted(t.batches, t.added) && Retains(s.world.json, t.acc, t.added)
  }

  function LevelAt(s: Setup, k: nat): seq<string> {
    if k < |s.levels| then s.levels[k] else []
  }

  ghost predicate Follows(s: Setup, b: Base, t: State) {
    && !t.cancelled
    && (t.phase.Draining? || t.phase.Reported? ==> t.level == |s.levels|)
    && t.prior == b.prior && PriorOk(b.prior)
    && ResultsAgree(s, b, LevelAt(s, t.level), t.acc.results)
    && BatchesAgree(s, b, LevelAt(s, t.level), t.acc.results.Keys, t.batches, t.adding)
    && JobsAgree(s, b, LevelAt(s, t.level), Passed(s, t.level, t.pos), t.queued + t.running, t.acc.results.Keys)
  }

  /** The run follows the reference in its current level. */
  ghost predicate Tracks(s: Setup, t: State) {
    t.level <= |s.levels| && Follows(s, After(s, t.level), t)
  }

  lemma {:induction false} SameGate(deps: seq<string>, x: map<string, RuleResult>, y: map<string, RuleResult>)
    requires forall d :: d in deps ==> (d in x <==> d in y) && (d in x ==> x[d].status == y[d].status)
    ensures FirstIncomplete(deps, x) == FirstIncomplete(deps, y)
  {
    if deps != [] {
      SameGate(deps[1..], x, y);
    }
  }

  /** No dependency is decided in the rule's own level. */
  lemma GateSeesBase(s: Setup, b: Base, level: seq<string>, results: map<string, RuleResult>, id: string)
    requires ResultsAgree(s, b, level, results) && id in s.rules
    requires forall d :: d in s.rules[id].dependencies ==> d !in level
    ensures FirstIncomplete(s.rules[id].dependencies, results) == FirstIncomplete(s.rules[id].dependencies, b.results)
  {
    var deps := s.rules[id].dependencies;
    forall d | d in deps ensures (d in results <==> d in b.results) && (d in results ==> results[d].status == b.results[d].status) {
      if d in b.results {
        assert Erased(results[d]) == b.results[d];
      }
    }
    SameGate(deps, results, b.results);
  }

  lemma OwnLevelIndependent(s: Setup, k: nat, id: string)
    requires WellLeveled(s) && k < |s.levels| && id in s.levels[k]
    ensures id in s.rules && s.rules[id].id == id && forall d :: d in s.rules[id].dependencies ==> d !in s.levels[k]
  {
  }

  lemma ResultDecided(s: Setup, b: Base, level: seq<string>, results: map<string, RuleResult>, id: string, r: RuleResult)
    requires ResultsAgree(s, b, level, results) && id in level && id !in results
    requires Erased(r) == ResultOf(s, b, id)
    ensures ResultsAgree(s, b, level, results[id := r])
  {
  }

  lemma FollowsInit(s: Setup, cache: map<Digest, Record>)
    requires WellLeveled(s)
    ensures Follows(s, After(s, 0), Init(s, cache))
  {
    var t, b := Init(s, cache), After(s, 0);
    LevelAtKnown(s, 0);
    assert Passed(s, 0, 0) == {};
  }

  lemma FindingsInit(s: Setup, cache: map<Digest, Record>)
    ensures FindingsAgree(s, Init(s, cache))
  {
    NothingAdded(s.world.json);
  }

  /** Steps that add no findings. */
  lemma FindingsKept(s: Setup, t: State, u: State)
    requires FindingsAgree(s, t) && u.batches == t.batches && u.added == t.added
    requires u.acc.findings == t.acc.findings && u.acc.truncated == t.acc.truncated
    ensures FindingsAgree(s, u)
  {
  }

  lemma LevelAtKnown(s: Setup, k: nat)
    requires WellLeveled(s)
    ensures Known(s, LevelAt(s, k))
  {
  }

  lemma AccountedWithout(want: string -> Option<seq<Finding>>, base: map<string, seq<Finding>>, level: seq<string>,
                         decided: set<string>, batches: map<string, seq<Finding>>, adding: map<string, seq<Finding>>, id: string)
    requires Accounted(want, base, level, decided, batches, adding) && want(id).None?
    ensures Accounted(want, base, level, decided + {id}, batches, adding)
  {
  }

  lemma AccountedWith(want: string -> Option<seq<Finding>>, base: map<string, seq<Finding>>, level: seq<string>,
                      decided: set<string>, batches: map<string, seq<Finding>>, adding: map<string, seq<Finding>>,
                      id: string, fs: seq<Finding>)
    requires Accounted(want, base, level, decided, batches, adding)
    requires id in level && id !in decided && want(id) == Some(fs)
    ensures Accounted(want, base, level, decided + {id}, batches, adding[id := fs])
  {
  }

  lemma AccountedPublished(want: string -> Option<seq<Finding>>, base: map<string, seq<Finding>>, level: seq<string>,
                           decided: set<string>, batches: map<string, seq<Finding>>, adding: map<string, seq<Finding>>, id: string)
    requires Accounted(want, base, level, decided, batches, adding) && id in adding
    ensures Accounted(want, base, level, decided, batches[id := adding[id]], adding - {id})
  {
  }

  lemma BatchesWithout(s: Setup, b: Base, level: seq<string>, decided: set<string>,
                       batches: map<string, seq<Finding>>, adding: map<string, seq<Finding>>, id: string)
    requires BatchesAgree(s, b, level, decided, batches, adding) && id in s.rules && BatchOf(s, b, id).None?
    ensures BatchesAgree(s, b, level, decided + {id}, batches, adding)
  {
    AccountedWithout(Wants(s, b), b.batches, level, decided, batches, adding, id);
  }

  lemma BatchesWith(s: Setup, b: Base, level: seq<string>, decided: set<string>,
                    batches: map<string, seq<Finding>>, adding: map<string, seq<Finding>>, id: string, fs: seq<Finding>)
    requires BatchesAgree(s, b, level, decided, batches, adding)
    requires id in level && id !in decided && BatchOf(s, b, id) == Some(fs)
    ensures BatchesAgree(s, b, level, decided + {id}, batches, adding[id := fs])
  {
    AccountedWith(Wants(s, b), b.batches, level, decided, batches, adding, id, fs);
  }

  lemma BatchesPublished(s: Setup, b: Base, level: seq<string>, decided: set<string>,
                         batches: map<string, seq<Finding>>, adding: map<string, seq<Finding>>, id: string)
    requires BatchesAgree(s, b, level, decided, batches, adding) && id in adding
    ensures BatchesAgree(s, b, level, decided, batches[id := adding[id]], adding - {id})
  {
    AccountedPublished(Wants(s, b), b.batches, level, decided, batches, adding, id);
  }

  /** One more rule decided, and no other change. */
  lemma DecidedFollows(s: Setup, b: Base, t: State, u: State, id: string, r: RuleResult)
    requires Follows(s, b, t) && id in LevelAt(s, t.level) && id !in t.acc.results && Erased(r) == ResultOf(s, b, id)
    requires u.acc == t.acc.(results := t.acc.results[id := r])
    requires u.level == t.level && u.phase == t.phase && u.prior == t.prior && !u.cancelled
    requires u.batches == t.batches && u.added == t.added
    requires BatchesAgree(s, b, LevelAt(s, t.level), t.acc.results.Keys + {id}, u.batches, u.adding)
    requires JobsAgree(s, b, LevelAt(s, t.level), Passed(s, u.level, u.pos), u.queued + u.running, t.acc.results.Keys + {id})
    ensures Follows(s, b, u)
  {
    assert u.acc.results.Keys == t.acc.results.Keys + {id};
    ResultDecided(s, b, LevelAt(s, t.level), t.acc.results, id, r);
  }

  // ----- submitting

  /** At the gate, the rule belongs to the level, is undecided, and its
      dependencies stand as the reference has them. */
  lemma AtGate(s: Setup, b: Base, t: State, id: string)
    requires WellLeveled(s) && Core(s, t) && Follows(s, b, t) && AtRule(s, t) && id == Current(s, t)
    ensures id in LevelAt(s, t.level) && id in s.rules && s.rules[id].id == id && id !in t.acc.results
    ensures FirstIncomplete(s.rules[id].dependencies, t.acc.results) == FirstIncomplete(s.rules[id].dependencies, b.results)
    ensures Passed(s, t.level, t.pos + 1) == Passed(s, t.level, t.pos) + {id}
  {
    OwnLevelIndependent(s, t.level, id);
    GateSeesBase(s, b, s.levels[t.level], t.acc.results, id);
    AtCurrent(s, t);
  }

  lemma GateFollows(s: Setup, b: Base, t: State)
    requires WellLeveled(s) && Core(s, t) && Follows(s, b, t) && AtRule(s, t) && !Passes(s, t)
    ensures Follows(s, b, Apply(s, t, Gate))
  {
    var id := Current(s, t);
    AtGate(s, b, t, id);
    var r := GateSkip(s.rules[id], FirstIncomplete(s.rules[id].dependencies, b.results).value);
    GatedFollows(s, b, t, id, Skip(t, r));
  }

  lemma GatedFollows(s: Setup, b: Base, t: State, id: string, u: State)
    requires Follows(s, b, t) && id in LevelAt(s, t.level) && id in s.rules && s.rules[id].id == id && id !in t.acc.results
    requires FirstIncomplete(s.rules[id].dependencies, b.results).Some?
    requires Passed(s, t.level, t.pos + 1) == Passed(s, t.level, t.pos) + {id}
    requires var r := GateSkip(s.rules[id], FirstIncomplete(s.rules[id].dependencies, b.results).value);
      u == Skip(t, r)
    ensures Follows(s, b, u)
  {
    var r := GateSkip(s.rules[id], FirstIncomplete(s.rules[id].dependencies, b.results).value);
    BatchesWithout(s, b, LevelAt(s, t.level), t.acc.results.Keys, t.batches, t.adding, id);
    DecidedFollows(s, b, t, u, id, r);
  }

  lemma SubmitFollows(s: Setup, b: Base, t: State)
    requires WellLeveled(s) && Core(s, t) && Follows(s, b, t) && AtRule(s, t) && Passes(s, t)
    ensures Follows(s, b, Enqueue(t, Current(s, t)))
  {
    AtGate(s, b, t, Current(s, t));
    SubmittedFollows(s, b, t, Current(s, t));
  }

  lemma SubmittedFollows(s: Setup, b: Base, t: State, id: string)
    requires Follows(s, b, t) && id in LevelAt(s, t.level) && id in s.rules
    requires FirstIncomplete(s.rules[id].dependencies, b.results).None?
    requires Passed(s, t.level, t.pos + 1) == Passed(s, t.level, t.pos) + {id}
    ensures Follows(s, b, Enqueue(t, id))
  {
    var u := Enqueue(t, id);
    assert u.queued + u.running == t.queued + t.running + {id};
    JobsMoved(s, b, t, u);
  }

  /** Rules moved between submission and workers, and no other change. */
  lemma JobsMoved(s: Setup, b: Base, t: State, u: State)
    requires Follows(s, b, t)
    requires u.acc == t.acc && u.level == t.level && u.phase == t.phase && u.prior == t.prior && u.cancelled == t.cancelled
    requires u.batches == t.batches && u.adding == t.adding && u.cache == t.cache
    requires JobsAgree(s, b, LevelAt(s, t.level), Passed(s, u.level, u.pos), u.queued + u.running, t.acc.results.Keys)
    ensures Follows(s, b, u)
  {
  }

  // ----- jobs

  /** A running rule belongs to the level and is undecided. */
  lemma RunningRule(s: Setup, b: Base, t: State, id: string)
    requires JobsOk(s, t) && Follows(s, b, t) && id in t.running
    ensures id in LevelAt(s, t.level) && id in s.rules && id !in t.acc.results
    ensures FirstIncomplete(s.rules[id].dependencies, b.results).None?
  {
    assert id in t.queued + t.running;
  }

  lemma PendingLess(t: State, id: string)
    requires t.queued !! t.running && id in t.running
    ensures (t.queued - {id}) + (t.running - {id}) == t.queued + t.running - {id}
  {
  }

  lemma FailureFollows(s: Setup, b: Base, t: State, id: string)
    requires JobsOk(s, t) && Follows(s, b, t) && id in t.running && id in s.rules && s.rules[id].id == id
    requires OutcomeOf(s, b.prior, id).JobFailed?
    ensures Follows(s, b, SettleAndSignal(t, id, PlainResult(s.rules[id], Failed)))
  {
    var r := PlainResult(s.rules[id], Failed);
    RunningRule(s, b, t, id);
    PendingLess(t, id);
    BatchesWithout(s, b, LevelAt(s, t.level), t.acc.results.Keys, t.batches, t.adding, id);
    DecidedFollows(s, b, t, SettleAndSignal(t, id, r), id, r);
  }

  lemma CompletionFollows(s: Setup, b: Base, t: State, id: string, cached: bool, fs: seq<Finding>, cache: map<Digest, Record>)
    requires JobsOk(s, t) && Follows(s, b, t) && id in t.running && id in s.rules && s.rules[id].id == id
    requires OutcomeOf(s, b.prior, id) == JobDone(fs)
    ensures Follows(s, b, Complete(s, t, id, cached, fs).(cache := cache))
  {
    var r := CompletedResult(s.rules[id], cached, |fs|);
    RunningRule(s, b, t, id);
    PendingLess(t, id);
    BatchesWith(s, b, LevelAt(s, t.level), t.acc.results.Keys, t.batches, t.adding, id, fs);
    DecidedFollows(s, b, t, Complete(s, t, id, cached, fs).(cache := cache), id, r);
  }

  /** What a running rule finds is what the reference expects of it. */
  lemma RunningBatch(s: Setup, b: Base, t: State, id: string)
    requires JobsOk(s, t) && Follows(s, b, t) && id in t.running && id in s.rules
    ensures t.prior == b.prior && PriorOk(b.prior)
    ensures var out := OutcomeOf(s, t.prior, id);
      BatchOf(s, b, id) == if out.JobDone? then Some(out.findings) else None
  {
    RunningRule(s, b, t, id);
  }

  /** A cache hit that serves what the rule finds, or a fresh execution stored or
      not, decides the rule as the reference does. */
  lemma HitFollows(s: Setup, b: Base, t: State, id: string)
    requires JobsOk(s, t) && Follows(s, b, t) && id in t.running && id in s.rules && s.rules[id].id == id
    requires Served(s, t, id).Some? && BatchOf(s, b, id) == Served(s, t, id)
    ensures Follows(s, b, Complete(s, t, id, true, Served(s, t, id).value))
  {
    RunningBatch(s, b, t, id);
    CompletionFollows(s, b, t, id, true, Served(s, t, id).value, t.cache);
  }

  lemma FreshFollows(s: Setup, b: Base, t: State, id: string, stored: bool)
    requires JobsOk(s, t) && Follows(s, b, t) && id in t.running && id in s.rules && s.rules[id].id == id
    ensures Follows(s, b, ExecuteJob(s, t, id, stored))
  {
    match OutcomeOf(s, t.prior, id)
    case JobFailed => FailureFollows(s, b, t, id);
    case JobDone(fs) =>
      CompletionFollows(s, b, t, id, false, fs, CacheAfter(s, t, id, stored, fs));
  }

  lemma AddedCounted(batches: map<string, seq<Finding>>, added: multiset<Finding>, id: string, fs: seq<Finding>)
    requires OwnBatches(batches) && Counted(batches, added) && id !in batches && IsBatch(fs, id)
    ensures OwnBatches(batches[id := fs]) && Counted(batches[id := fs], added + multiset(fs))
  {
    var next, all := batches[id := fs], added + multiset(fs);
    forall f ensures all[f] == CountIn(next, f) {
      assert added[f] == CountIn(batches, f);
      if f.ruleId != id {
        OwnCount(fs, id, f);
      }
    }
  }

  lemma PublishedFindings(s: Setup, b: Base, t: State, id: string)
    requires Follows(s, b, t) && id in t.adding && id in s.rules && s.rules[id].id == id
    requires FindingsAgree(s, t)
    ensures FindingsAgree(s, AddFindings(s, t, id))
  {
    var fs := t.adding[id];
    assert Wants(s, b)(id) == Some(fs);
    ExecuteBatch(s.world, s.rules[id], ViewOf(s.snapshot, b.prior, s.config));
    AddedCounted(t.batches, t.added, id, fs);
    AddKeepsTop(s.world.json, t.acc, t.added, fs);
  }

  /** Batches and findings moved on together, and no other change. */
  lemma BatchesMoved(s: Setup, b: Base, t: State, u: State)
    requires Follows(s, b, t)
    requires u.acc.results == t.acc.results && u.level == t.level && u.pos == t.pos && u.phase == t.phase
    requires u.queued == t.queued && u.running == t.running && u.prior == t.prior && u.cancelled == t.cancelled && u.cache == t.cache
    requires BatchesAgree(s, b, LevelAt(s, t.level), t.acc.results.Keys, u.batches, u.adding)
    ensures Follows(s, b, u)
  {
  }

  lemma PublishFollows(s: Setup, b: Base, t: State, id: string)
    requires Follows(s, b, t) && id in t.adding && id in s.rules && s.rules[id].id == id
    ensures Follows(s, b, AddFindings(s, t, id))
  {
    BatchesPublished(s, b, LevelAt(s, t.level), t.acc.results.Keys, t.batches, t.adding, id);
    PublishedFields(s, t, id);
    BatchesMoved(s, b, t, AddFindings(s, t, id));
  }

  lemma PublishedFields(s: Setup, t: State, id: string)
    requires id in t.adding
    ensures var u := AddFindings(s, t, id);
      && u.acc.results == t.acc.results && u.level == t.level && u.pos == t.pos && u.phase == t.phase
      && u.queued == t.queued && u.running == t.running && u.prior == t.prior && u.cancelled == t.cancelled && u.cache == t.cache
      && u.batches == t.batches[id := t.adding[id]] && u.adding == t.adding - {id}
  {
  }

  lemma CacheFollows(s: Setup, b: Base, t: State, cache: map<Digest, Record>)
    requires Follows(s, b, t)
    ensures Follows(s, b, t.(cache := cache))
  {
  }

  lemma TakeFollows(s: Setup, b: Base, t: State, id: string)
    requires Follows(s, b, t) && id in t.queued && id !in t.taken
    ensures Follows(s, b, Apply(s, t, Take(id)))
  {
  }

  lemma StartFollows(s: Setup, b: Base, t: State, id: string)
    requires Follows(s, b, t) && AtWorker(t, id)
    ensures Follows(s, b, Apply(s, t, Start(id)))
  {
    assert (t.queued - {id}) + (t.running + {id}) == t.queued + t.running;
    JobsMoved(s, b, t, Apply(s, t, Start(id)));
  }

  // ----- the barrier

  lemma {:induction false} BatchedAreDecided(s: Setup, k: nat)
    requires k <= |s.levels|
    ensures After(s, k).batches.Keys <= After(s, k).results.Keys
  {
    if k > 0 {
      BatchedAreDecided(s, k - 1);
      if Known(s, s.levels[k - 1]) {
        NextBatched(s, After(s, k - 1), s.levels[k - 1]);
      }
    }
  }

  lemma NextBatched(s: Setup, b: Base, level: seq<string>)
    requires Known(s, level) && b.batches.Keys <= b.results.Keys
    ensures NextBase(s, b, level).batches.Keys <= NextBase(s, b, level).results.Keys
  {
    assert LevelBatches(s, b, level).Keys <= LevelResults(s, b, level).Keys;
  }

  lemma LevelDecided(s: Setup, b: Base, t: State)
    requires Follows(s, b, t) && t.level < |s.levels| && t.pos == |s.levels[t.level]| && Idle(t)
    ensures Elements(s.levels[t.level]) <= t.acc.results.Keys
  {
    assert s.levels[t.level][..t.pos] == s.levels[t.level];
    assert t.queued + t.running == {};
  }

  /** Once the level is decided, the results are the next base's. */
  lemma DecidedResults(s: Setup, b: Base, level: seq<string>, results: map<string, RuleResult>)
    requires ResultsAgree(s, b, level, results) && Elements(level) <= results.Keys
    requires forall id :: id in level ==> id !in b.results
    ensures var next := b.results + LevelResults(s, b, level);
      results.Keys == next.Keys && forall id :: id in next ==> Erased(results[id]) == next[id]
  {
    var next := b.results + LevelResults(s, b, level);
    forall id ensures id in results <==> id in next {
      assert id in Elements(level) <==> id in level;
    }
  }

  lemma LevelBatched(s: Setup, b: Base, level: seq<string>, decided: set<string>, batches: map<string, seq<Finding>>)
    requires BatchesAgree(s, b, level, decided, batches, map[]) && Elements(level) <= decided
    ensures batches == b.batches + LevelBatches(s, b, level)
  {
    AccountedFor(Wants(s, b), b.batches, level, decided, batches);
  }

  lemma AccountedFor(want: string -> Option<seq<Finding>>, base: map<string, seq<Finding>>, level: seq<string>,
                     decided: set<string>, batches: map<string, seq<Finding>>)
    requires Accounted(want, base, level, decided, batches, map[]) && Elements(level) <= decided
    ensures batches == base + Wanted(want, level)
  {
    var next := base + Wanted(want, level);
    forall id ensures id in batches <==> id in next {
      assert id in Elements(level) <==> id in level;
    }
    forall id | id in batches ensures batches[id] == next[id] {
    }
  }

  /** A new level starts with nothing of its own decided. */
  lemma LevelStarts(s: Setup, b: Base, level: seq<string>, results: map<string, RuleResult>, batches: map<string, seq<Finding>>)
    requires Known(s, level) && results.Keys == b.results.Keys && batches == b.batches && batches.Keys <= results.Keys
    requires forall id :: id in b.results ==> Erased(results[id]) == b.results[id]
    requires forall id :: id in level ==> id !in b.results
    ensures ResultsAgree(s, b, level, results)
    ensures BatchesAgree(s, b, level, results.Keys, batches, map[])
    ensures JobsAgree(s, b, level, {}, {}, results.Keys)
  {
  }

  lemma NextLevelUndecided(s: Setup, k: nat)
    requires WellLeveled(s) && k <= |s.levels|
    ensures forall id :: id in LevelAt(s, k) ==> id !in After(s, k).results
  {
    forall id | id in LevelAt(s, k) ensures id !in After(s, k).results {
      LaterUndecided(s, k, k, id);
    }
  }

  /** The run stands where the reference stands after a level. */
  ghost predicate Meets(s: Setup, next: Base, t: State) {
    && t.batches == next.batches && t.acc.results.Keys == next.results.Keys
    && (forall id :: id in next.results ==> Erased(t.acc.results[id]) == next.results[id])
    && Sort(ByKey(FindingKey), t.acc.findings) == next.prior && PriorOk(next.prior)
    && t.acc.truncated == Retained(s.world.json, next.batches).truncated
  }

  lemma BarrierMeets(s: Setup, t: State)
    requires WellLeveled(s) && Inv(s, t) && t.level < |s.levels| && Follows(s, After(s, t.level), t)
    requires FindingsAgree(s, t) && Enabled(s, t, Barrier)
    ensures Meets(s, After(s, t.level + 1), t)
  {
    var b, level := After(s, t.level), s.levels[t.level];
    BarrierIdle(s, t);
    LevelKnown(s, t.level);
    LevelDecided(s, b, t);
    NextLevelUndecided(s, t.level);
    DecidedResults(s, b, level, t.acc.results);
    LevelBatched(s, b, level, t.acc.results.Keys, t.batches);
    RetainedAlike(s.world.json, t.batches, t.added, t.acc);
  }

  lemma BarrierFollows(s: Setup, next: Base, t: State, u: State)
    requires WellLeveled(s) && t.level < |s.levels| && next == After(s, t.level + 1)
    requires !t.cancelled && Meets(s, next, t)
    requires Enabled(s, t, Barrier) && Idle(t) && u == Apply(s, t, Barrier)
    ensures Tracks(s, u)
  {
    NextLevelState(s, t);
    NextLevelStarts(s, next, u);
    LevelChanged(s, next, u);
  }

  lemma NextLevelStarts(s: Setup, next: Base, u: State)
    requires WellLeveled(s) && u.level <= |s.levels| && next == After(s, u.level)
    requires u.acc.results.Keys == next.results.Keys && u.batches == next.batches
    requires forall id :: id in next.results ==> Erased(u.acc.results[id]) == next.results[id]
    ensures ResultsAgree(s, next, LevelAt(s, u.level), u.acc.results)
    ensures BatchesAgree(s, next, LevelAt(s, u.level), u.acc.results.Keys, u.batches, map[])
    ensures JobsAgree(s, next, LevelAt(s, u.level), {}, {}, u.acc.results.Keys)
  {
    LevelAtKnown(s, u.level);
    NextLevelUndecided(s, u.level);
    BatchedAreDecided(s, u.level);
    LevelStarts(s, next, LevelAt(s, u.level), u.acc.results, u.batches);
  }

  lemma LevelChanged(s: Setup, next: Base, u: State)
    requires WellLeveled(s) && u.level <= |s.levels| && next == After(s, u.level)
    requires u.phase.Submitting? && !u.cancelled
    requires u.prior == next.prior && PriorOk(next.prior) && u.queued + u.running == {} && u.adding == map[]
    requires Passed(s, u.level, u.pos) == {}
    requires ResultsAgree(s, next, LevelAt(s, u.level), u.acc.results)
    requires BatchesAgree(s, next, LevelAt(s, u.level), u.acc.results.Keys, u.batches, map[])
    requires JobsAgree(s, next, LevelAt(s, u.level), {}, {}, u.acc.results.Keys)
    ensures Tracks(s, u)
  {
  }

  lemma NextLevelState(s: Setup, t: State)
    requires Enabled(s, t, Barrier) && Idle(t)
    ensures var u := Apply(s, t, Barrier);
      && Passed(s, u.level, u.pos) == {} && u.queued + u.running == {} && u.adding == map[]
      && u.prior == Sort(ByKey(FindingKey), t.acc.findings) && u.level == t.level + 1 && u.phase.Submitting?
      && u.acc == t.acc && u.batches == t.batches && u.added == t.added && u.cancelled == t.cancelled && u.cache == t.cache
  {
  }
}
