/** The result accumulator of one engine run: per-rule results and the findings
    retained under the run cap (internal/detect/engine.go, finding.go). */
module Retention {
  import opened Order
  import opened Merging
  import opened Findings
  import opened FindingJson

  const MAX_FINDINGS_PER_RUN := 4096

  datatype Status = Completed | Failed | Cancelled | Skipped

  datatype SkipReason = NoReason | Disabled | KindAbsent(kind: string) | DependencyIncomplete(rule: string, status: Status)

  datatype RuleResult = RuleResult(ruleId: string, version: string, status: Status, reason: SkipReason, cached: bool, findings: nat)

  /** completed > failed > cancelled > skipped. */
  function StatusRank(s: Status): nat {
    match s
    case Completed => 3
    case Failed => 2
    case Cancelled => 1
    case Skipped => 0
  }

  predicate Better(a: RuleResult, b: RuleResult) {
    StatusRank(a.status) > StatusRank(b.status)
  }

  // ----- finding rank

  /** findingRankLess, comparison by comparison. */
  predicate FindingRankLess(json: Encoder, a: Finding, b: Finding) {
    if a.confidence != b.confidence then a.confidence > b.confidence
    else if a.category != b.category then StringLess(a.category, b.category)
    else if a.priority != b.priority then StringLess(a.priority, b.priority)
    else if a.ruleId != b.ruleId then StringLess(a.ruleId, b.ruleId)
    else if a.subject.ToString() != b.subject.ToString() then StringLess(a.subject.ToString(), b.subject.ToString())
    else StringLess(json(a), json(b))
  }

  function ByRank(json: Encoder): (Finding, Finding) -> bool {
    (a, b) => FindingRankLess(json, a, b)
  }

  function RankOf(json: Encoder, f: Finding): Rank {
    Rank(f.confidence, [f.category, f.priority, f.ruleId, f.subject.ToString(), json(f)])
  }

  lemma FieldsLessHead(a: string, x: seq<string>, b: string, y: seq<string>)
    ensures FieldsLess([a] + x, [b] + y) <==> StringLess(a, b) || (a == b && FieldsLess(x, y))
  {
    assert ([a] + x)[1..] == x && ([b] + y)[1..] == y;
  }

  lemma RankLessIsFindingRankLess(json: Encoder, a: Finding, b: Finding)
    ensures RankLess(RankOf(json, a), RankOf(json, b)) <==> FindingRankLess(json, a, b)
  {
    var sa, sb := a.subject.ToString(), b.subject.ToString();
    FieldsLessHead(json(a), [], json(b), []);
    FieldsLessHead(sa, [json(a)], sb, [json(b)]);
    FieldsLessHead(a.ruleId, [sa, json(a)], b.ruleId, [sb, json(b)]);
    FieldsLessHead(a.priority, [a.ruleId, sa, json(a)], b.priority, [b.ruleId, sb, json(b)]);
    FieldsLessHead(a.category, [a.priority, a.ruleId, sa, json(a)], b.category, [b.priority, b.ruleId, sb, json(b)]);
    assert RankOf(json, a).labels == [a.category] + [a.priority, a.ruleId, sa, json(a)];
    assert RankOf(json, b).labels == [b.category] + [b.priority, b.ruleId, sb, json(b)];
    assert [a.priority, a.ruleId, sa, json(a)] == [a.priority] + [a.ruleId, sa, json(a)];
    assert [b.priority, b.ruleId, sb, json(b)] == [b.priority] + [b.ruleId, sb, json(b)];
    assert [a.ruleId, sa, json(a)] == [a.ruleId] + [sa, json(a)];
    assert [b.ruleId, sb, json(b)] == [b.ruleId] + [sb, json(b)];
    assert [sa, json(a)] == [sa] + [json(a)] && [sb, json(b)] == [sb] + [json(b)];
    assert [json(a)] == [json(a)] + [] && [json(b)] == [json(b)] + [];
    StringLessIrreflexive(a.category);
    StringLessIrreflexive(a.priority);
    StringLessIrreflexive(a.ruleId);
    StringLessIrreflexive(sa);
  }

  lemma RankIsWeak(json: Encoder)
    ensures StrictWeak(ByRank(json))
    ensures forall a, b :: Tied(ByRank(json), a, b) <==> RankOf(json, a) == RankOf(json, b)
  {
    RankOrder();
    TotalIsWeak(RankLess);
    var less := ByRank(json);
    forall a, b ensures less(a, b) <==> RankLess(RankOf(json, a), RankOf(json, b)) {
      RankLessIsFindingRankLess(json, a, b);
    }
  }

  /** The fields compared before the JSON form. */
  predicate SameFields(a: Finding, b: Finding) {
    && a.confidence == b.confidence && a.category == b.category && a.priority == b.priority
    && a.ruleId == b.ruleId && a.subject.ToString() == b.subject.ToString()
  }

  lemma SameRank(json: Encoder, a: Finding, b: Finding)
    ensures RankOf(json, a) == RankOf(json, b) <==> SameFields(a, b) && json(a) == json(b)
  {
    var x, y := RankOf(json, a).labels, RankOf(json, b).labels;
    assert x[0] == a.category && x[1] == a.priority && x[2] == a.ruleId && x[3] == a.subject.ToString() && x[4] == json(a);
    assert y[0] == b.category && y[1] == b.priority && y[2] == b.ruleId && y[3] == b.subject.ToString() && y[4] == json(b);
  }

  /** One of two findings ranks before the other, and only one, exactly when a
      compared field or what JSON tells about them differs. */
  lemma FindingRankIsTotal(json: Encoder, a: Finding, b: Finding)
    requires Marshals(json)
    ensures FindingRankLess(json, a, b) || FindingRankLess(json, b, a) <==> !(SameFields(a, b) && Image(a) == Image(b))
    ensures !(FindingRankLess(json, a, b) && FindingRankLess(json, b, a))
  {
    RankLessIsFindingRankLess(json, a, b);
    RankLessIsFindingRankLess(json, b, a);
    SameRank(json, a, b);
    RanksCompare(RankOf(json, a), RankOf(json, b));
  }

  lemma RanksCompare(x: Rank, y: Rank)
    ensures RankLess(x, y) || RankLess(y, x) <==> x != y
    ensures !(RankLess(x, y) && RankLess(y, x))
  {
    RankOrder();
  }

  lemma ValidFindingsRank(json: Encoder, a: Finding, b: Finding)
    requires Marshals(json) && a != b && Writable(a) && Writable(b) && ValidTexts(a) && ValidTexts(b)
    ensures FindingRankLess(json, a, b) || FindingRankLess(json, b, a)
  {
    if WrittenFinding(a) == WrittenFinding(b) {
      FindingTold(a, b);
    }
    FindingRankIsTotal(json, a, b);
  }

  /** findingRankLess calls itself total on distinct findings: two that differ in
      one byte that is not UTF-8 tie. */
  lemma InvalidTextsTie(json: Encoder, f: Finding)
    requires Marshals(json)
    ensures var a, b := f.(metadata := map["k" := [0xFE as char]]), f.(metadata := map["k" := [0xFF as char]]);
      a != b && !FindingRankLess(json, a, b) && !FindingRankLess(json, b, a)
  {
    var a, b := f.(metadata := map["k" := [0xFE as char]]), f.(metadata := map["k" := [0xFF as char]]);
    InvalidBytesBlur();
    assert a.metadata["k"] != b.metadata["k"];
    assert WrittenMetadata(a.metadata) == WrittenMetadata(b.metadata);
    FindingRankIsTotal(json, a, b);
  }

  // ----- one finding per identity

  /** No two different findings share an identity. */
  ghost predicate OneKeyEach(m: multiset<Finding>) {
    && (forall f :: m[f] <= 1)
    && forall f, g :: f in m && g in m && f.Key() == g.Key() ==> f == g
  }

  lemma OneKeyNoTies(json: Encoder, m: multiset<Finding>)
    requires OneKeyEach(m)
    ensures NoTies(ByRank(json), m)
  {
    RankIsWeak(json);
    forall x, y | x in m && y in m && Tied(ByRank(json), x, y) ensures x == y {
      SameRank(json, x, y);
      assert x.Key() == y.Key();
    }
  }

  // ----- the accumulator as a value

  datatype Acc = Acc(results: map<string, RuleResult>, findings: seq<Finding>, truncated: bool)

  const EMPTY := Acc(map[], [], false)

  function WithInstalled(acc: Acc, r: RuleResult): Acc {
    if r.ruleId in acc.results then acc else acc.(results := acc.results[r.ruleId := r])
  }

  function WithMerged(acc: Acc, r: RuleResult): Acc {
    if r.ruleId in acc.results && Better(acc.results[r.ruleId], r) then acc
    else acc.(results := acc.results[r.ruleId := r])
  }

  function WithFindings(json: Encoder, acc: Acc, fs: seq<Finding>): Acc {
    if fs == [] then acc
    else if |acc.findings| + |fs| <= MAX_FINDINGS_PER_RUN then acc.(findings := acc.findings + fs)
    else acc.(findings := Top(json, acc.findings + fs), truncated := true)
  }

  function Top(json: Encoder, fs: seq<Finding>): seq<Finding>
    requires |fs| >= MAX_FINDINGS_PER_RUN
  {
    SortContents(ByRank(json), fs);
    Sort(ByRank(json), fs)[..MAX_FINDINGS_PER_RUN]
  }

  /** resultAccumulator; every method runs under its mutex. */
  class ResultAccumulator {
    const json: Encoder
    var results: map<string, RuleResult>
    var findings: seq<Finding>
    var truncated: bool

    ghost function Contents(): Acc
      reads this
    {
      Acc(results, findings, truncated)
    }

    constructor (json: Encoder)
      ensures Contents() == EMPTY && this.json == json
    {
      this.json := json;
      results, findings, truncated := map[], [], false;
    }

    method Install(r: RuleResult)
      modifies this
      ensures Contents() == WithInstalled(old(Contents()), r)
    {
      if r.ruleId !in results {
        results := results[r.ruleId := r];
      }
    }

    method Merge(r: RuleResult)
      modifies this
      ensures Contents() == WithMerged(old(Contents()), r)
    {
      if r.ruleId in results && Better(results[r.ruleId], r) {
        return;
      }
      results := results[r.ruleId := r];
    }

    method AddFindings(fs: seq<Finding>)
      modifies this
      ensures Contents() == WithFindings(json, old(Contents()), fs)
    {
      if |fs| == 0 {
        return;
      }
      if |findings| + |fs| <= MAX_FINDINGS_PER_RUN {
        findings := findings + fs;
        return;
      }
      var combined := findings + fs;
      SortContents(ByRank(json), combined);
      combined := Sort(ByRank(json), combined);
      findings := combined[..MAX_FINDINGS_PER_RUN];
      truncated := true;
    }

    /** The results in rule order and the findings in identity order. */
    method Snapshot() returns (rs: seq<RuleResult>, fs: seq<Finding>, cut: bool)
      requires forall id :: id in results ==> results[id].ruleId == id
      ensures IsResultListing(results, rs)
      ensures fs == Sort(ByKey(FindingKey), findings) && cut == truncated
    {
      var ids := ListKeys(results.Keys);
      ghost var listed := ids;
      StringOrder();
      SortDistinct(StringLess, ids);
      ids := Sort(StringLess, ids);
      rs := [];
      for i := 0 to |ids|
        invariant KeysOf(ResultKey, rs) == ids[..i]
        invariant forall r :: r in rs ==> r.ruleId in results && results[r.ruleId] == r
      {
        assert ids[i] in Elements(ids);
        rs := rs + [results[ids[i]]];
      }
      assert ids[..|ids|] == ids;
      fs := Sort(ByKey(FindingKey), findings);
      cut := truncated;
    }
  }

  function ResultKey(r: RuleResult): string { r.ruleId }

  /** rs lists the map once per rule, in rule order. */
  ghost predicate IsResultListing(results: map<string, RuleResult>, rs: seq<RuleResult>) {
    && Ascending(StringLess, KeysOf(ResultKey, rs))
    && Elements(KeysOf(ResultKey, rs)) == results.Keys
    && forall r :: r in rs ==> r.ruleId in results && results[r.ruleId] == r
  }

  // ----- streaming top-K

  /** acc retains the first 4096 by rank of everything added, and says whether
      anything was cut. */
  ghost predicate Retains(json: Encoder, acc: Acc, all: multiset<Finding>) {
    && IsTop(ByRank(json), MAX_FINDINGS_PER_RUN, all, multiset(acc.findings))
    && (acc.truncated <==> |all| > MAX_FINDINGS_PER_RUN)
  }

  lemma NothingAdded(json: Encoder)
    ensures Retains(json, EMPTY, multiset{})
  {
  }

  lemma AddKeepsTop(json: Encoder, acc: Acc, all: multiset<Finding>, fs: seq<Finding>)
    requires Retains(json, acc, all)
    ensures Retains(json, WithFindings(json, acc, fs), all + multiset(fs))
  {
    var less := ByRank(json);
    RankIsWeak(json);
    var combined := acc.findings + fs;
    assert multiset(combined) == multiset(acc.findings) + multiset(fs);
    assert |multiset(acc.findings)| == |acc.findings| && |multiset(fs)| == |fs|;
    if fs == [] {
      assert all + multiset(fs) == all;
    } else if |combined| <= MAX_FINDINGS_PER_RUN {
      assert |all| < MAX_FINDINGS_PER_RUN;
      SubmultisetSameSize(multiset(acc.findings), all);
    } else {
      SortContents(less, combined);
      SortSorted(less, combined);
      SortedPrefixIsTop(less, MAX_FINDINGS_PER_RUN, Sort(less, combined));
      TopStep(less, MAX_FINDINGS_PER_RUN, all, multiset(acc.findings), multiset(fs), multiset(Top(json, combined)));
      assert |all + multiset(fs)| == |all| + |fs|;
    }
  }

  function AddAll(json: Encoder, acc: Acc, batches: seq<seq<Finding>>): Acc
    decreases batches
  {
    if batches == [] then acc else AddAll(json, WithFindings(json, acc, batches[0]), batches[1..])
  }

  function Everything(batches: seq<seq<Finding>>): multiset<Finding> {
    if batches == [] then multiset{} else multiset(batches[0]) + Everything(batches[1..])
  }

  /** After any sequence of batches. */
  lemma {:induction false} StreamingTop(json: Encoder, acc: Acc, all: multiset<Finding>, batches: seq<seq<Finding>>)
    requires Retains(json, acc, all)
    ensures Retains(json, AddAll(json, acc, batches), all + Everything(batches))
    decreases batches
  {
    if batches != [] {
      AddKeepsTop(json, acc, all, batches[0]);
      StreamingTop(json, WithFindings(json, acc, batches[0]), all + multiset(batches[0]), batches[1..]);
      assert all + Everything(batches) == all + multiset(batches[0]) + Everything(batches[1..]);
    } else {
      assert all + Everything(batches) == all;
    }
  }

  /** f is no less confident than g; at equal confidence its category is no greater,
      and so on through priority, rule, subject and JSON text. */
  ghost predicate NoLess(json: Encoder, f: Finding, g: Finding) {
    && f.confidence >= g.confidence
    && (f.confidence == g.confidence ==> f.category == g.category || StringLess(f.category, g.category))
    && (f.confidence == g.confidence && f.category == g.category ==> f.priority == g.priority || StringLess(f.priority, g.priority))
    && ((f.confidence == g.confidence && f.category == g.category && f.priority == g.priority)
          ==> f.ruleId == g.ruleId || StringLess(f.ruleId, g.ruleId))
    && ((f.confidence == g.confidence && f.category == g.category && f.priority == g.priority && f.ruleId == g.ruleId)
          ==> f.subject.ToString() == g.subject.ToString() || StringLess(f.subject.ToString(), g.subject.ToString()))
    && (SameFields(f, g) ==> json(f) == json(g) || StringLess(json(f), json(g)))
  }

  /** What was retained comes before whatever was cut. */
  lemma RetainedRankFirst(json: Encoder, batches: seq<seq<Finding>>, f: Finding, g: Finding)
    requires f in AddAll(json, EMPTY, batches).findings
    requires g in Everything(batches) - multiset(AddAll(json, EMPTY, batches).findings)
    ensures NoLess(json, f, g)
  {
    AllRetained(json, batches);
    assert f in multiset(AddAll(json, EMPTY, batches).findings);
    assert !ByRank(json)(g, f);
    StringOrder();
  }

  /** Every finding is retained up to 4096, and 4096 of them above. */
  lemma RetainedCount(json: Encoder, batches: seq<seq<Finding>>)
    ensures var acc, all := AddAll(json, EMPTY, batches), Everything(batches);
      && multiset(acc.findings) <= all && |acc.findings| == (if |all| <= 4096 then |all| else 4096)
      && (acc.truncated <==> |all| > 4096)
  {
    AllRetained(json, batches);
    assert |multiset(AddAll(json, EMPTY, batches).findings)| == |AddAll(json, EMPTY, batches).findings|;
  }

  /** The retained set never depends on the order in which rules complete: a run
      adds one finding per identity, so no two of them tie. */
  lemma BatchOrderIrrelevant(json: Encoder, a: seq<seq<Finding>>, b: seq<seq<Finding>>)
    requires Everything(a) == Everything(b) && OneKeyEach(Everything(a))
    ensures var x, y := AddAll(json, EMPTY, a), AddAll(json, EMPTY, b);
      multiset(x.findings) == multiset(y.findings) && x.truncated == y.truncated
  {
    AllRetained(json, a);
    AllRetained(json, b);
    OneKeyNoTies(json, Everything(a));
    TopUnique(ByRank(json), MAX_FINDINGS_PER_RUN, Everything(a),
      multiset(AddAll(json, EMPTY, a).findings), multiset(AddAll(json, EMPTY, b).findings));
  }

  ghost function Listed(m: multiset<Finding>): (s: seq<Finding>)
    ensures multiset(s) == m
  {
    if m == multiset{} then []
    else
      var f :| f in m;
      assert m == m - multiset{f} + multiset{f};
      Listed(m - multiset{f}) + [f]
  }

  /** Whatever order and grouping the findings come in, the same are retained. */
  ghost predicate OrderIrrelevant(json: Encoder, all: multiset<Finding>) {
    forall a, b :: Everything(a) == all && Everything(b) == all
      ==> multiset(AddAll(json, EMPTY, a).findings) == multiset(AddAll(json, EMPTY, b).findings)
  }

  /** Of findings at large, what is retained depends on the order exactly when two
      that tie fall on both sides of the cut. */
  lemma CutDecides(json: Encoder, all: multiset<Finding>)
    ensures OrderIrrelevant(json, all) <==> !TieAtCut(ByRank(json), MAX_FINDINGS_PER_RUN, all)
  {
    forall a, b | Everything(a) == all && Everything(b) == all
        && multiset(AddAll(json, EMPTY, a).findings) != multiset(AddAll(json, EMPTY, b).findings)
      ensures TieAtCut(ByRank(json), MAX_FINDINGS_PER_RUN, all)
    {
      AllRetained(json, a);
      AllRetained(json, b);
      DifferentTops(ByRank(json), MAX_FINDINGS_PER_RUN, all,
        multiset(AddAll(json, EMPTY, a).findings), multiset(AddAll(json, EMPTY, b).findings));
    }
    if TieAtCut(ByRank(json), MAX_FINDINGS_PER_RUN, all) {
      var a, b := TwoOrders(json, all);
    }
  }

  lemma AllRetained(json: Encoder, a: seq<seq<Finding>>)
    ensures Retains(json, AddAll(json, EMPTY, a), Everything(a))
  {
    NothingAdded(json);
    StreamingTop(json, EMPTY, multiset{}, a);
    assert multiset{} + Everything(a) == Everything(a);
  }

  /** Two orders, one finding at a time, that retain different ones. */
  lemma TwoOrders(json: Encoder, all: multiset<Finding>) returns (a: seq<seq<Finding>>, b: seq<seq<Finding>>)
    requires TieAtCut(ByRank(json), MAX_FINDINGS_PER_RUN, all)
    ensures Everything(a) == all && Everything(b) == all
    ensures multiset(AddAll(json, EMPTY, a).findings) != multiset(AddAll(json, EMPTY, b).findings)
    ensures forall i :: 0 <= i < |a| ==> |a[i]| == 1
    ensures forall i :: 0 <= i < |b| ==> |b[i]| == 1
  {
    var less := ByRank(json);
    RankIsWeak(json);
    var kept, f, g :| IsTop(less, MAX_FINDINGS_PER_RUN, all, kept) && f in kept && g in all - kept && f != g && Tied(less, f, g);
    SwapTied(less, MAX_FINDINGS_PER_RUN, all, kept, f, g);
    SmallerPart(kept, all, g);
    a := OrderFor(json, all, kept);
    b := OrderFor(json, all, kept - multiset{f} + multiset{g});
  }

  lemma SmallerPart(kept: multiset<Finding>, all: multiset<Finding>, g: Finding)
    requires kept <= all && g in all - kept
    ensures |kept| < |all|
  {
    assert all == kept + (all - kept);
  }

  /** An order in which the given top is retained. */
  lemma OrderFor(json: Encoder, all: multiset<Finding>, kept: multiset<Finding>) returns (a: seq<seq<Finding>>)
    requires IsTop(ByRank(json), MAX_FINDINGS_PER_RUN, all, kept)
    ensures Everything(a) == all && multiset(AddAll(json, EMPTY, a).findings) == kept
    ensures forall i :: 0 <= i < |a| ==> |a[i]| == 1
  {
    var s := TopFirst(json, all, kept);
    a := Singles(s);
    SinglesContents(s);
    SinglesRetain(json, s, |s|);
    assert s[..|s|] == s;
    assert |multiset(s)| == |s|;
    assert Min(|s|, MAX_FINDINGS_PER_RUN) == |kept|;
  }

  /** All of them in rank order, the given top first. */
  lemma TopFirst(json: Encoder, all: multiset<Finding>, kept: multiset<Finding>) returns (s: seq<Finding>)
    requires IsTop(ByRank(json), MAX_FINDINGS_PER_RUN, all, kept)
    ensures multiset(s) == all && Sorted(ByRank(json), s) && |kept| <= |s| && multiset(s[..|kept|]) == kept
  {
    var less := ByRank(json);
    RankIsWeak(json);
    var x, y := Listed(kept), Listed(all - kept);
    SortContents(less, x);
    SortContents(less, y);
    SortSorted(less, x);
    SortSorted(less, y);
    var p, q := Sort(less, x), Sort(less, y);
    s := p + q;
    assert |multiset(p)| == |p| && s[..|p|] == p;
    assert kept + (all - kept) == all;
    JoinedSorted(less, p, q);
  }

  lemma JoinedSorted(less: (Finding, Finding) -> bool, p: seq<Finding>, q: seq<Finding>)
    requires Sorted(less, p) && Sorted(less, q) && forall x, y :: x in multiset(p) && y in multiset(q) ==> !less(y, x)
    ensures Sorted(less, p + q)
  {
    var s := p + q;
    forall i, j | 0 <= i < j < |s| ensures !less(s[j], s[i]) {
      if i < |p| <= j {
        assert s[i] == p[i] && s[j] == q[j - |p|];
        assert p[i] in multiset(p) && q[j - |p|] in multiset(q);
      }
    }
  }

  function Singles(s: seq<Finding>): seq<seq<Finding>> {
    seq(|s|, i requires 0 <= i < |s| => [s[i]])
  }

  lemma {:induction false} SinglesContents(s: seq<Finding>)
    ensures Everything(Singles(s)) == multiset(s)
  {
    if s != [] {
      assert Singles(s)[1..] == Singles(s[1..]);
      SinglesContents(s[1..]);
      assert s == [s[0]] + s[1..];
    }
  }

  lemma {:induction false} AddLast(json: Encoder, acc: Acc, batches: seq<seq<Finding>>, fs: seq<Finding>)
    ensures AddAll(json, acc, batches + [fs]) == WithFindings(json, AddAll(json, acc, batches), fs)
    decreases batches
  {
    if batches == [] {
      assert [fs][1..] == [];
    } else {
      assert (batches + [fs])[1..] == batches[1..] + [fs];
      AddLast(json, WithFindings(json, acc, batches[0]), batches[1..], fs);
    }
  }

  /** Findings in rank order: what comes after the cap changes nothing. */
  lemma {:induction false} SinglesRetain(json: Encoder, s: seq<Finding>, n: nat)
    requires Sorted(ByRank(json), s) && n <= |s|
    ensures AddAll(json, EMPTY, Singles(s[..n])) == Acc(map[], s[..Min(n, MAX_FINDINGS_PER_RUN)], n > MAX_FINDINGS_PER_RUN)
  {
    if n > 0 {
      SinglesRetain(json, s, n - 1);
      assert Singles(s[..n]) == Singles(s[..n - 1]) + [[s[n - 1]]];
      AddLast(json, EMPTY, Singles(s[..n - 1]), [s[n - 1]]);
      NextSingle(json, s, n - 1);
    }
  }

  lemma NextSingle(json: Encoder, s: seq<Finding>, n: nat)
    requires Sorted(ByRank(json), s) && n < |s|
    ensures WithFindings(json, Acc(map[], s[..Min(n, MAX_FINDINGS_PER_RUN)], n > MAX_FINDINGS_PER_RUN), [s[n]])
      == Acc(map[], s[..Min(n + 1, MAX_FINDINGS_PER_RUN)], n + 1 > MAX_FINDINGS_PER_RUN)
  {
    var k := Min(n, MAX_FINDINGS_PER_RUN);
    var all := s[..k] + [s[n]];
    if n < MAX_FINDINGS_PER_RUN {
      assert all == s[..n + 1];
    } else {
      assert Sorted(ByRank(json), all);
      SortedFixed(ByRank(json), all);
      assert all[..k] == s[..k];
    }
  }

  // ----- results in any order

  function MergedAll(acc: Acc, rs: seq<RuleResult>): Acc
    decreases rs
  {
    if rs == [] then acc else MergedAll(WithMerged(acc, rs[0]), rs[1..])
  }

  /** r is one of the results held before or merged. */
  ghost predicate Candidate(results: map<string, RuleResult>, rs: seq<RuleResult>, id: string, r: RuleResult) {
    (id in results && results[id] == r) || (r in rs && r.ruleId == id)
  }

  /** After any sequence of merges each rule holds one of the results it was
      given, and none of those beats it. */
  lemma {:induction false} HeldIsBest(acc: Acc, rs: seq<RuleResult>, id: string)
    ensures var held := MergedAll(acc, rs).results;
      && (id in held ==> Candidate(acc.results, rs, id, held[id]))
      && (forall r :: Candidate(acc.results, rs, id, r) ==> id in held && !Better(r, held[id]))
    decreases rs
  {
    if rs != [] {
      var next := WithMerged(acc, rs[0]);
      HeldIsBest(next, rs[1..], id);
      assert rs == [rs[0]] + rs[1..];
      forall r | Candidate(next.results, rs[1..], id, r) ensures Candidate(acc.results, rs, id, r) {
      }
      forall r | Candidate(acc.results, rs, id, r)
        ensures exists x :: Candidate(next.results, rs[1..], id, x) && StatusRank(r.status) <= StatusRank(x.status)
      {
        if !Candidate(next.results, rs[1..], id, r) {
          assert id in next.results && Candidate(next.results, rs[1..], id, next.results[id]);
        }
      }
    }
  }

  ghost predicate SomeGiven(results: map<string, RuleResult>, rs: seq<RuleResult>, id: string, status: Status) {
    exists r :: Candidate(results, rs, id, r) && r.status == status
  }

  /** A completed result wins over a failed one, that over a cancelled one, and a
      skipped rule is one that was given nothing else. */
  lemma HeldStatus(acc: Acc, rs: seq<RuleResult>, id: string)
    requires id in MergedAll(acc, rs).results
    ensures var held := MergedAll(acc, rs).results[id].status;
      && (held.Completed? <==> SomeGiven(acc.results, rs, id, Completed))
      && (held.Failed? <==> SomeGiven(acc.results, rs, id, Failed) && !SomeGiven(acc.results, rs, id, Completed))
      && (held.Cancelled? <==> (SomeGiven(acc.results, rs, id, Cancelled)
            && !SomeGiven(acc.results, rs, id, Failed) && !SomeGiven(acc.results, rs, id, Completed)))
  {
    HeldIsBest(acc, rs, id);
    assert SomeGiven(acc.results, rs, id, MergedAll(acc, rs).results[id].status);
  }

  /** r is a result of greatest rank for its rule. */
  ghost predicate Best(rs: seq<RuleResult>, r: RuleResult) {
    r in rs && forall x :: x in rs && x.ruleId == r.ruleId ==> !Better(x, r)
  }

  /** No rule has two different results of its greatest rank. */
  ghost predicate Settled(rs: seq<RuleResult>) {
    forall x, y :: Best(rs, x) && Best(rs, y) && x.ruleId == y.ruleId ==> x == y
  }

  lemma {:induction false} MergedLast(acc: Acc, rs: seq<RuleResult>, r: RuleResult)
    ensures MergedAll(acc, rs + [r]) == WithMerged(MergedAll(acc, rs), r)
    decreases rs
  {
    if rs == [] {
      assert rs + [r] == [r] && [r][1..] == [];
    } else {
      assert (rs + [r])[0] == rs[0] && (rs + [r])[1..] == rs[1..] + [r];
      MergedLast(WithMerged(acc, rs[0]), rs[1..], r);
    }
  }

  /** A best result that comes last is the one held. */
  lemma LastBestHeld(rs: seq<RuleResult>, i: nat)
    requires i < |rs| && Best(rs, rs[i])
    ensures var p := rs[..i] + rs[i + 1..] + [rs[i]];
      && multiset(p) == multiset(rs)
      && rs[i].ruleId in MergedAll(EMPTY, p).results && MergedAll(EMPTY, p).results[rs[i].ruleId] == rs[i]
  {
    var before, r := rs[..i] + rs[i + 1..], rs[i];
    Without(rs, i);
    MergedLast(EMPTY, before, r);
    HeldIsBest(EMPTY, before, r.ruleId);
    var held := MergedAll(EMPTY, before).results;
    if r.ruleId in held {
      assert held[r.ruleId] in before && before + [r] == before + [r];
      assert held[r.ruleId] in multiset(rs);
    }
  }

  lemma SameBest(p: seq<RuleResult>, rs: seq<RuleResult>)
    requires multiset(p) == multiset(rs)
    ensures forall r :: r in p <==> r in rs
  {
    assert forall r :: r in p <==> r in multiset(p);
    assert forall r :: r in rs <==> r in multiset(rs);
  }

  lemma HeldBest(rs: seq<RuleResult>, p: seq<RuleResult>, id: string)
    requires multiset(p) == multiset(rs)
    ensures var held := MergedAll(EMPTY, p).results;
      && (id in held <==> exists r :: r in rs && r.ruleId == id)
      && (id in held ==> Best(rs, held[id]) && held[id].ruleId == id)
  {
    SameBest(p, rs);
    HeldIsBest(EMPTY, p, id);
    forall r | r in rs && r.ruleId == id ensures Candidate(EMPTY.results, p, id, r) {
    }
  }

  lemma {:induction false} MergesKeepFindings(acc: Acc, rs: seq<RuleResult>)
    ensures MergedAll(acc, rs).findings == acc.findings && MergedAll(acc, rs).truncated == acc.truncated
    decreases rs
  {
    if rs != [] {
      MergesKeepFindings(WithMerged(acc, rs[0]), rs[1..]);
    }
  }

  lemma SettledAlike(rs: seq<RuleResult>, p: seq<RuleResult>)
    requires Settled(rs) && multiset(p) == multiset(rs)
    ensures MergedAll(EMPTY, p) == MergedAll(EMPTY, rs)
  {
    var a, b := MergedAll(EMPTY, p), MergedAll(EMPTY, rs);
    MergesKeepFindings(EMPTY, p);
    MergesKeepFindings(EMPTY, rs);
    forall id ensures (id in a.results <==> id in b.results) && (id in a.results ==> a.results[id] == b.results[id]) {
      HeldBest(rs, p, id);
      HeldBest(rs, rs, id);
    }
    assert a.results == b.results;
  }

  /** Both orders hold a result of one status for the rule. */
  ghost predicate SameStatus(p: seq<RuleResult>, rs: seq<RuleResult>, id: string)
    requires id in MergedAll(EMPTY, rs).results
  {
    id in MergedAll(EMPTY, p).results && MergedAll(EMPTY, p).results[id].status == MergedAll(EMPTY, rs).results[id].status
  }

  /** Whatever the order, one status is held; the whole result is the same in
      every order exactly when no rule has two different results of its greatest
      rank, although betterResult promises that the winner never depends on it. */
  lemma MergeOrderIrrelevant(rs: seq<RuleResult>)
    ensures forall p, id :: multiset(p) == multiset(rs) && id in MergedAll(EMPTY, rs).results ==> SameStatus(p, rs, id)
    ensures (forall p :: multiset(p) == multiset(rs) ==> MergedAll(EMPTY, p) == MergedAll(EMPTY, rs)) <==> Settled(rs)
  {
    forall p, id | multiset(p) == multiset(rs) && id in MergedAll(EMPTY, rs).results
      ensures SameStatus(p, rs, id)
    {
      HeldBest(rs, p, id);
      HeldBest(rs, rs, id);
    }
    if Settled(rs) {
      forall p | multiset(p) == multiset(rs) ensures MergedAll(EMPTY, p) == MergedAll(EMPTY, rs) {
        SettledAlike(rs, p);
      }
    }
    if !Settled(rs) {
      var p := OtherOrder(rs);
    }
  }

  lemma OtherOrder(rs: seq<RuleResult>) returns (p: seq<RuleResult>)
    requires !Settled(rs)
    ensures multiset(p) == multiset(rs) && MergedAll(EMPTY, p) != MergedAll(EMPTY, rs)
  {
    var x, y :| Best(rs, x) && Best(rs, y) && x.ruleId == y.ruleId && x != y;
    var i :| 0 <= i < |rs| && rs[i] == x;
    var j :| 0 <= j < |rs| && rs[j] == y;
    LastBestHeld(rs, i);
    LastBestHeld(rs, j);
    p := rs[..i] + rs[i + 1..] + [rs[i]];
    if MergedAll(EMPTY, p) == MergedAll(EMPTY, rs) {
      p := rs[..j] + rs[j + 1..] + [rs[j]];
    }
  }
}
