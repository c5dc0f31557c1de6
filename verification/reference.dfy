/** A simple engine, the meaning of a run (internal/detect/engine.go, Run).

    It goes level by level, with neither cache nor pool, and applies the run cap
    once, to everything found so far listed in rule order. */
module Reference {
  import opened Wrappers
  import opened Text
  import opened Order
  import opened Identities
  import opened Merging
  import opened Findings
  import opened FindingJson
  import opened Retention
  import opened Registries
  import opened RuleViews
  import opened RuleKeys
  import opened RuleRecords
  import opened Reports
  import opened Engine

  // ----- the reference

  /** Everything decided before a level: results, each completed rule's
      findings, and the findings the level's rules may read. */
  datatype Base = Base(results: map<string, RuleResult>, batches: map<string, seq<Finding>>, prior: seq<Finding>)

  ghost function ResultOf(s: Setup, b: Base, id: string): RuleResult
    requires id in s.rules
  {
    var r := s.rules[id];
    match FirstIncomplete(r.dependencies, b.results)
    case Some(blocked) => GateSkip(r, blocked)
    case None =>
      match OutcomeOf(s, b.prior, id)
      case JobFailed => PlainResult(r, Failed)
      case JobDone(fs) => CompletedResult(r, false, |fs|)
  }

  ghost function BatchOf(s: Setup, b: Base, id: string): Option<seq<Finding>>
    requires id in s.rules
  {
    if FirstIncomplete(s.rules[id].dependencies, b.results).Some? then None
    else
      match OutcomeOf(s, b.prior, id)
      case JobFailed => None
      case JobDone(fs) => Some(fs)
  }

  /** All findings, rule by rule in rule order. */
  function Listing(ids: seq<string>, batches: map<string, seq<Finding>>): seq<Finding> {
    if ids == [] then []
    else (if ids[0] in batches then batches[ids[0]] else []) + Listing(ids[1..], batches)
  }

  ghost function AllFindings(batches: map<string, seq<Finding>>): seq<Finding> {
    Listing(InOrder(batches.Keys), batches)
  }

  /** What survives the run cap, and whether anything was cut. */
  ghost function Retained(json: Encoder, batches: map<string, seq<Finding>>): Acc {
    WithFindings(json, EMPTY, AllFindings(batches))
  }

  ghost function PriorAfter(json: Encoder, batches: map<string, seq<Finding>>): seq<Finding> {
    Sort(ByKey(FindingKey), Retained(json, batches).findings)
  }

  ghost predicate Known(s: Setup, level: seq<string>) {
    forall id :: id in level ==> id in s.rules
  }

  ghost function LevelResults(s: Setup, b: Base, level: seq<string>): (m: map<string, RuleResult>)
    requires Known(s, level)
    ensures m.Keys == Elements(level)
  {
    map id | id in level :: ResultOf(s, b, id)
  }

  /** What each rule of the level is expected to add, if anything. */
  ghost function Wants(s: Setup, b: Base): string -> Option<seq<Finding>> {
    (id: string) => if id in s.rules then BatchOf(s, b, id) else None
  }

  ghost function Wanted(want: string -> Option<seq<Finding>>, level: seq<string>): map<string, seq<Finding>> {
    map id | id in level && want(id).Some? :: want(id).value
  }

  ghost function LevelBatches(s: Setup, b: Base, level: seq<string>): map<string, seq<Finding>> {
    Wanted(Wants(s, b), level)
  }

  ghost function NextBase(s: Setup, b: Base, level: seq<string>): Base
    requires Known(s, level)
  {
    var batches := b.batches + LevelBatches(s, b, level);
    Base(b.results + LevelResults(s, b, level), batches, PriorAfter(s.world.json, batches))
  }

  lemma LevelKnown(s: Setup, k: nat)
    requires WellLeveled(s) && k < |s.levels|
    ensures Known(s, s.levels[k])
  {
  }

  /** The state after the first k levels. */
  ghost function After(s: Setup, k: nat): Base
    requires k <= |s.levels|
  {
    if k == 0 then Base(InitialResults(s.rules, s.kinds), map[], [])
    else Decide(s, After(s, k - 1), s.levels[k - 1])
  }

  /** The levels of a well-leveled run hold registered rules only. */
  ghost function Decide(s: Setup, b: Base, level: seq<string>): Base {
    if Known(s, level) then NextBase(s, b, level) else b
  }

  // ----- what the cache may serve

  /** The run looks the rule up in its level. */
  ghost predicate Looks(s: Setup, k: nat, id: string) {
    && k < |s.levels| && id in s.levels[k] && id in s.rules
    && FirstIncomplete(s.rules[id].dependencies, After(s, k).results).None?
  }

  ghost function LookupAt(s: Setup, k: nat, id: string): Lookup
    requires k <= |s.levels| && id in s.rules
  {
    LookupOf(s, After(s, k).prior, id)
  }

  ghost function KeyAt(s: Setup, k: nat, id: string): Digest
    requires k <= |s.levels| && id in s.rules
  {
    KeyFor(s.world, LookupAt(s, k, id))
  }

  /** What the record would serve, if anything, is what the rule finds. */
  ghost predicate RecordAgrees(s: Setup, k: nat, id: string, rec: Record)
    requires k <= |s.levels| && id in s.rules
  {
    DecodeFor(s, id, rec).Some? ==> BatchOf(s, After(s, k), id) == DecodeFor(s, id, rec)
  }

  ghost predicate AgreesAt(s: Setup, cache: map<Digest, Record>, k: nat, id: string) {
    Looks(s, k, id) && KeyAt(s, k, id) in cache ==> RecordAgrees(s, k, id, cache[KeyAt(s, k, id)])
  }

  /** So is whatever the cache serves to a lookup of the run. */
  ghost predicate CacheAgrees(s: Setup, cache: map<Digest, Record>) {
    forall k: nat, id: string :: AgreesAt(s, cache, k, id)
  }

  /** fs can be stored as the findings of the rule, and served again. */
  ghost predicate Servable(s: Setup, id: string, fs: seq<Finding>)
    requires id in s.rules
  {
    && Encode(s.rules[id].id, fs).Some?
    && DecodeFor(s, id, Encode(s.rules[id].id, fs).value).Some?
  }

  ghost predicate ServesValidAt(s: Setup, k: nat, id: string)
    requires k < |s.levels| && id in s.rules
  {
    var batch := BatchOf(s, After(s, k), id);
    batch.Some? && Servable(s, id, batch.value) ==> AllValidTexts(batch.value)
  }

  /** Whatever a rule finds that could be served again is valid UTF-8. */
  ghost predicate ServesValid(s: Setup) {
    forall k, id :: 0 <= k < |s.levels| && id in s.levels[k] && id in s.rules ==> ServesValidAt(s, k, id)
  }

  // ----- what each rule adds is its own

  ghost predicate OwnBatches(batches: map<string, seq<Finding>>) {
    forall id :: id in batches ==> IsBatch(batches[id], id)
  }

  /** m counts exactly the batches. */
  ghost predicate Counted(batches: map<string, seq<Finding>>, m: multiset<Finding>) {
    forall f :: m[f] == CountIn(batches, f)
  }

  ghost function CountIn(batches: map<string, seq<Finding>>, f: Finding): nat {
    if f.ruleId in batches then multiset(batches[f.ruleId])[f] else 0
  }

  lemma OwnCount(fs: seq<Finding>, id: string, f: Finding)
    requires IsBatch(fs, id) && f.ruleId != id
    ensures multiset(fs)[f] == 0
  {
    assert f !in fs;
  }

  lemma {:induction false} ListingCounts(ids: seq<string>, batches: map<string, seq<Finding>>, f: Finding)
    requires Distinct(ids) && OwnBatches(batches)
    ensures multiset(Listing(ids, batches))[f] == if f.ruleId in ids then CountIn(batches, f) else 0
  {
    if ids != [] {
      assert Distinct(ids[1..]);
      ListingCounts(ids[1..], batches, f);
      assert ids == [ids[0]] + ids[1..] && ids[0] !in ids[1..];
      if ids[0] in batches && f.ruleId != ids[0] {
        OwnCount(batches[ids[0]], ids[0], f);
      }
    }
  }

  lemma AllFindingsCounted(batches: map<string, seq<Finding>>)
    requires OwnBatches(batches)
    ensures Counted(batches, multiset(AllFindings(batches)))
  {
    var ids := InOrder(batches.Keys);
    AscendingNames(ids);
    forall f ensures multiset(AllFindings(batches))[f] == CountIn(batches, f) {
      ListingCounts(ids, batches, f);
      assert f.ruleId in ids <==> f.ruleId in Elements(ids);
    }
  }

  lemma AscendingNames(ids: seq<string>)
    requires Ascending(StringLess, ids)
    ensures Distinct(ids)
  {
    forall i, j | 0 <= i < j < |ids| ensures ids[i] != ids[j] {
      assert StringLess(ids[i], ids[j]);
      StringLessIrreflexive(ids[i]);
    }
  }

  lemma CountedOnce(batches: map<string, seq<Finding>>, a: multiset<Finding>, b: multiset<Finding>)
    requires Counted(batches, a) && Counted(batches, b)
    ensures a == b
  {
    forall f ensures a[f] == b[f] {
      assert a[f] == CountIn(batches, f);
      assert b[f] == CountIn(batches, f);
    }
  }

  // ----- one finding per identity

  lemma SameKeySameRule(f: Finding, g: Finding)
    requires f.Key() == g.Key()
    ensures f.ruleId == g.ruleId
  {
    PercentFree(f.ruleId, '@');
    PercentFree(g.ruleId, '@');
    CutFree(PercentEncode(f.ruleId), "@", PercentEncode(f.subject.ToString()));
    CutFree(PercentEncode(g.ruleId), "@", PercentEncode(g.subject.ToString()));
    PercentInjective(f.ruleId, g.ruleId);
  }

  lemma BatchDistinct(fs: seq<Finding>, id: string)
    requires IsBatch(fs, id)
    ensures Distinct(KeysOf(FindingKey, fs)) && Distinct(fs)
  {
    var ks := KeysOf(FindingKey, fs);
    AscendingNames(ks);
    forall i, j | 0 <= i < j < |fs| ensures fs[i] != fs[j] {
      assert ks[i] != ks[j];
    }
  }

  lemma BatchKeys(fs: seq<Finding>, id: string, f: Finding, g: Finding)
    requires IsBatch(fs, id)
    ensures multiset(fs)[f] <= 1
    ensures f in fs && g in fs && f.Key() == g.Key() ==> f == g
  {
    BatchDistinct(fs, id);
    DistinctCounts(fs);
    if f in fs && g in fs && f.Key() == g.Key() {
      SameKeySameFinding(fs, f, g);
    }
  }

  lemma SameKeySameFinding(fs: seq<Finding>, f: Finding, g: Finding)
    requires Distinct(KeysOf(FindingKey, fs)) && f in fs && g in fs && f.Key() == g.Key()
    ensures f == g
  {
    var i :| 0 <= i < |fs| && fs[i] == f;
    var j :| 0 <= j < |fs| && fs[j] == g;
    assert KeysOf(FindingKey, fs)[i] == KeysOf(FindingKey, fs)[j];
  }

  lemma CountedKeys(batches: map<string, seq<Finding>>, m: multiset<Finding>)
    requires OwnBatches(batches) && Counted(batches, m)
    ensures OneKeyEach(m)
  {
    forall f ensures m[f] <= 1 {
      assert m[f] == CountIn(batches, f);
      if f.ruleId in batches {
        BatchKeys(batches[f.ruleId], f.ruleId, f, f);
      }
    }
    forall f, g | f in m && g in m && f.Key() == g.Key() ensures f == g {
      assert m[f] == CountIn(batches, f) && m[g] == CountIn(batches, g);
      SameKeySameRule(f, g);
      BatchKeys(batches[f.ruleId], f.ruleId, f, g);
    }
  }

  lemma DistinctKeysOf(fs: seq<Finding>)
    requires OneKeyEach(multiset(fs))
    ensures Distinct(KeysOf(FindingKey, fs))
  {
    DistinctCounts(fs);
    var ks := KeysOf(FindingKey, fs);
    forall i, j | 0 <= i < j < |fs| ensures ks[i] != ks[j] {
      assert fs[i] in multiset(fs) && fs[j] in multiset(fs);
      assert fs[i] != fs[j];
    }
  }

  lemma FewerKeys(m: multiset<Finding>, n: multiset<Finding>)
    requires m <= n && OneKeyEach(n)
    ensures OneKeyEach(m)
  {
  }

  /** Sorting by identity forgets the order of arrival. */
  lemma SortedAlike(a: seq<Finding>, b: seq<Finding>)
    requires multiset(a) == multiset(b) && OneKeyEach(multiset(a))
    ensures Sort(ByKey(FindingKey), a) == Sort(ByKey(FindingKey), b)
    ensures PriorOk(Sort(ByKey(FindingKey), a))
  {
    DistinctKeysOf(a);
    DistinctKeysOf(b);
    SortByDistinctKeys(FindingKey, a);
    SortByDistinctKeys(FindingKey, b);
    SortContents(ByKey(FindingKey), a);
    SortContents(ByKey(FindingKey), b);
    KeyedUnique(FindingKey, Sort(ByKey(FindingKey), a), Sort(ByKey(FindingKey), b));
  }

  /** Whatever was added one batch at a time, in any order, retains what the
      reference retains of the whole. */
  lemma RetainedAlike(json: Encoder, batches: map<string, seq<Finding>>, added: multiset<Finding>, acc: Acc)
    requires OwnBatches(batches) && Counted(batches, added) && Retains(json, acc, added)
    ensures Sort(ByKey(FindingKey), acc.findings) == PriorAfter(json, batches)
    ensures acc.truncated == Retained(json, batches).truncated
    ensures PriorOk(PriorAfter(json, batches))
  {
    var all := AllFindings(batches);
    AllFindingsCounted(batches);
    CountedOnce(batches, added, multiset(all));
    NothingAdded(json);
    AddKeepsTop(json, EMPTY, multiset{}, all);
    assert multiset{} + multiset(all) == multiset(all);
    CountedKeys(batches, added);
    OneKeyNoTies(json, added);
    TopUnique(ByRank(json), MAX_FINDINGS_PER_RUN, added, multiset(acc.findings), multiset(Retained(json, batches).findings));
    FewerKeys(multiset(acc.findings), added);
    SortedAlike(acc.findings, Retained(json, batches).findings);
  }

  // ----- the reference is well-formed

  lemma {:induction false} LaterUndecided(s: Setup, k: nat, m: nat, id: string)
    requires WellLeveled(s) && k <= m < |s.levels| && id in s.levels[m]
    ensures id !in After(s, k).results
  {
    if k > 0 {
      LaterUndecided(s, k - 1, m, id);
      NotInEarlier(s, k - 1, m, id);
      StaysUndecided(s, After(s, k - 1), s.levels[k - 1], id);
    } else {
      LevelsAreSelected(s, id);
    }
  }

  lemma NotInEarlier(s: Setup, k: nat, m: nat, id: string)
    requires WellLeveled(s) && k < m < |s.levels| && id in s.levels[m]
    ensures id !in s.levels[k]
  {
  }

  lemma StaysUndecided(s: Setup, b: Base, level: seq<string>, id: string)
    requires id !in b.results && id !in level
    ensures id !in Decide(s, b, level).results
  {
  }

  lemma NextDecides(s: Setup, b: Base, level: seq<string>)
    requires Known(s, level)
    ensures b.results.Keys <= NextBase(s, b, level).results.Keys
    ensures Elements(level) <= NextBase(s, b, level).results.Keys
  {
  }

  lemma LevelDecides(s: Setup, k: nat)
    requires 0 < k <= |s.levels|
    ensures After(s, k - 1).results.Keys <= After(s, k).results.Keys
    ensures Known(s, s.levels[k - 1]) ==> Elements(s.levels[k - 1]) <= After(s, k).results.Keys
  {
    if Known(s, s.levels[k - 1]) {
      NextDecides(s, After(s, k - 1), s.levels[k - 1]);
    }
  }

  lemma {:induction false} DecidedStay(s: Setup, k: nat, m: nat)
    requires k <= m <= |s.levels|
    ensures After(s, k).results.Keys <= After(s, m).results.Keys
    decreases m
  {
    if k < m {
      LevelDecides(s, m);
      DecidedStay(s, k, m - 1);
    }
  }

  lemma {:induction false} AllDecided(s: Setup, id: string)
    requires WellLeveled(s) && id in s.rules
    ensures id in After(s, |s.levels|).results
  {
    if Selected(s.rules[id], s.kinds) {
      var m :| 0 <= m < |s.levels| && id in s.levels[m];
      LevelKnown(s, m);
      DecidedInLevel(s, m, id);
    } else {
      DecidedAtOnce(s, id);
    }
  }

  lemma {:induction false} DecidedInLevel(s: Setup, m: nat, id: string)
    requires m < |s.levels| && id in s.levels[m] && Known(s, s.levels[m])
    ensures id in After(s, |s.levels|).results
  {
    LevelDecides(s, m + 1);
    DecidedFrom(s, m + 1, s.levels[m], id);
  }

  lemma {:induction false} DecidedFrom(s: Setup, k: nat, level: seq<string>, id: string)
    requires k <= |s.levels| && id in level && Elements(level) <= After(s, k).results.Keys
    ensures id in After(s, |s.levels|).results
  {
    assert id in Elements(level);
    DecidedStay(s, k, |s.levels|);
  }

  lemma {:induction false} DecidedAtOnce(s: Setup, id: string)
    requires id in s.rules && !Selected(s.rules[id], s.kinds)
    ensures id in After(s, |s.levels|).results
  {
    assert id in After(s, 0).results;
    DecidedStay(s, 0, |s.levels|);
  }
}
