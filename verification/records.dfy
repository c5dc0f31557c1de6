/** What a rule computes, and its cache records (internal/detect/finding.go,
    record.go, engine.go). */
module RuleRecords {
  import opened Wrappers
  import opened Order
  import opened Merging
  import opened Identities
  import opened Findings
  import opened FindingJson
  import opened Retention
  import opened Registries
  import opened RuleViews
  import opened RuleKeys

  const SCHEMA_VERSION := 4
  const MAX_FINDINGS_PER_RULE := 256

  // ----- executing one rule

  const PRIORITIES: set<string> := {"info", "low", "medium", "high", "critical"}
  const STATUSES: set<string> := {"open", "dismissed"}

  /** validateFinding. */
  predicate ValidFinding(w: World, f: Finding, r: Rule, observed: set<Identity>) {
    && w.canonical(f)
    && f.ruleId == r.id && f.ruleName == r.name && f.category == r.category
    && f.priority in PRIORITIES && f.status in STATUSES
    && f.subject in observed
    && (forall i :: 0 <= i < |f.related| ==> f.related[i] in observed)
    && (forall i :: 0 <= i < |f.evidence| ==> f.evidence[i].source.IsZero() || f.evidence[i].source in observed)
    && ("rule_version" in f.metadata ==> f.metadata["rule_version"] == r.version)
  }

  function IndexOf(out: seq<Finding>, key: string): (i: nat)
    ensures i <= |out|
    ensures i < |out| ==> out[i].Key() == key
    ensures forall j :: 0 <= j < i ==> out[j].Key() != key
  {
    if out == [] || out[0].Key() == key then 0 else 1 + IndexOf(out[1..], key)
  }

  /** One round of mergeFindings. */
  ghost function MergeInto(out: seq<Finding>, f: Finding): seq<Finding> {
    var i := IndexOf(out, f.Key());
    if i < |out| then out[i := Merge(out[i], f).value] else out + [f]
  }

  ghost function MergeList(out: seq<Finding>, list: seq<Finding>): seq<Finding>
    decreases list
  {
    if list == [] then out else MergeList(MergeInto(out, list[0]), list[1..])
  }

  /** One finding per identity, each by the executing rule. */
  ghost predicate OneEach(out: seq<Finding>, ruleId: string) {
    Distinct(KeysOf(FindingKey, out)) && forall f :: f in out ==> f.ruleId == ruleId
  }

  lemma {:induction false} MergeListOneEach(out: seq<Finding>, list: seq<Finding>, ruleId: string)
    requires OneEach(out, ruleId) && forall f :: f in list ==> f.ruleId == ruleId
    ensures OneEach(MergeList(out, list), ruleId)
    decreases list
  {
    if list != [] {
      MergeIntoOneEach(out, list[0], ruleId);
      MergeListOneEach(MergeInto(out, list[0]), list[1..], ruleId);
    }
  }

  lemma MergeKeepsKey(a: Finding, b: Finding)
    requires a.Key() == b.Key()
    ensures Merge(a, b).Ok? && Merge(a, b).value.Key() == a.Key() && Merge(a, b).value.ruleId == a.ruleId
  {
  }

  lemma MergeIntoOneEach(out: seq<Finding>, f: Finding, ruleId: string)
    requires OneEach(out, ruleId) && f.ruleId == ruleId
    ensures OneEach(MergeInto(out, f), ruleId)
  {
    var i := IndexOf(out, f.Key());
    var ks := KeysOf(FindingKey, out);
    if i < |out| {
      MergeKeepsKey(out[i], f);
      assert KeysOf(FindingKey, MergeInto(out, f)) == ks;
      assert out[i] in out;
    } else {
      assert KeysOf(FindingKey, MergeInto(out, f)) == ks + [f.Key()];
    }
  }

  /** mergeFindings: the loop with its index map. */
  method MergeFindingList(list: seq<Finding>) returns (out: seq<Finding>)
    requires Labelled(list)
    ensures out == MergeList([], list)
  {
    var index: map<string, nat> := map[];
    out := [];
    for n := 0 to |list|
      invariant MergeList(out, list[n..]) == MergeList([], list)
      invariant Labelled(out) && Indexed(index, out)
    {
      assert list[n] in list && list[n..][1..] == list[n + 1..];
      index, out := MergeOne(index, out, list[n]);
    }
  }

  method MergeOne(index: map<string, nat>, out: seq<Finding>, f: Finding) returns (index': map<string, nat>, out': seq<Finding>)
    requires Labelled(out) && Labelled([f]) && Indexed(index, out)
    ensures out' == MergeInto(out, f) && Labelled(out') && Indexed(index', out')
  {
    var key := f.Key();
    assert f in [f];
    assert IndexedAt(index, out, key);
    if key in index {
      var i := index[key];
      assert out[i] in out;
      var merged := MergeFindings(out[i], f);
      RelatedStayLabelled(out[i], f);
      ReplaceIndexed(index, out, i, merged.value);
      index', out' := index, out[i := merged.value];
    } else {
      AppendIndexed(index, out, f);
      index', out' := index[key := |out|], out + [f];
    }
  }

  ghost predicate Labelled(out: seq<Finding>) {
    forall f, id :: f in out && id in f.related ==> IsLabel(id.kind)
  }

  /** index holds the position of each identity in out. */
  ghost predicate Indexed(index: map<string, nat>, out: seq<Finding>) {
    forall k :: IndexedAt(index, out, k)
  }

  ghost predicate IndexedAt(index: map<string, nat>, out: seq<Finding>, k: string) {
    if k in index then index[k] < |out| && index[k] == IndexOf(out, k) else IndexOf(out, k) == |out|
  }

  lemma ReplaceIndexed(index: map<string, nat>, out: seq<Finding>, i: nat, f: Finding)
    requires Indexed(index, out) && i < |out| && f.Key() == out[i].Key()
    ensures Indexed(index, out[i := f])
  {
    var next := out[i := f];
    forall k ensures IndexedAt(index, next, k) {
      assert IndexedAt(index, out, k);
      SameIndex(out, i, f, k);
    }
  }

  lemma {:induction false} SameIndex(out: seq<Finding>, i: nat, f: Finding, k: string)
    requires i < |out| && f.Key() == out[i].Key()
    ensures IndexOf(out[i := f], k) == IndexOf(out, k)
  {
    if i == 0 {
      assert out[i := f][1..] == out[1..];
    } else {
      assert out[i := f][1..] == out[1..][i - 1 := f];
      SameIndex(out[1..], i - 1, f, k);
    }
  }

  lemma AppendIndexed(index: map<string, nat>, out: seq<Finding>, f: Finding)
    requires Indexed(index, out) && f.Key() !in index
    ensures IndexOf(out, f.Key()) == |out|
    ensures Indexed(index[f.Key() := |out|], out + [f])
  {
    var key := f.Key();
    var next, longer := index[key := |out|], out + [f];
    forall k ensures IndexedAt(next, longer, k) {
      assert IndexedAt(index, out, k);
      AppendIndex(out, f, k);
    }
    assert IndexedAt(index, out, key);
  }

  lemma {:induction false} AppendIndex(out: seq<Finding>, f: Finding, k: string)
    ensures IndexOf(out + [f], k)
      == (if IndexOf(out, k) < |out| then IndexOf(out, k) else if k == f.Key() then |out| else |out| + 1)
  {
    if out == [] {
      assert (out + [f])[1..] == [];
    } else {
      assert (out + [f])[1..] == out[1..] + [f];
      AppendIndex(out[1..], f, k);
    }
  }

  /** Merging never invents a related asset. */
  lemma RelatedStayLabelled(a: Finding, b: Finding)
    requires a.Key() == b.Key() && forall id :: id in a.related + b.related ==> IsLabel(id.kind)
    ensures forall id :: id in Merge(a, b).value.related ==> IsLabel(id.kind)
  {
    var s := Sort(ByKey(IdentityKey), a.related + b.related);
    SortContents(ByKey(IdentityKey), a.related + b.related);
    DedupeMembers([], s);
    forall id | id in Merge(a, b).value.related ensures IsLabel(id.kind) {
      assert id in s;
      assert id in multiset(a.related + b.related);
    }
  }

  lemma {:induction false} DedupeMembers(out: seq<Identity>, s: seq<Identity>)
    ensures forall id :: id in DedupeAll(IdentityKey, First, out, s) ==> id in out || id in s
    decreases s
  {
    if s != [] {
      DedupeMembers(DedupeStep(IdentityKey, First, out, s[0]), s[1..]);
    }
  }

  datatype JobOutcome = JobFailed | JobDone(findings: seq<Finding>)

  /** executeRule without the cache: run, bound, validate, merge, sort. */
  ghost function Execute(w: World, r: Rule, v: View): JobOutcome {
    match w.detect(MetaOf(r), v)
    case Failing => JobFailed
    case Returned(fs) =>
      if |fs| > MAX_FINDINGS_PER_RULE then JobFailed
      else if exists i :: 0 <= i < |fs| && !ValidFinding(w, fs[i], r, w.observes(v.snapshot)) then JobFailed
      else JobDone(Sort(ByKey(FindingKey), MergeList([], fs)))
  }

  /** What a rule adds to the run is sorted by identity, one finding each, all
      its own. */
  ghost predicate IsBatch(fs: seq<Finding>, ruleId: string) {
    Ascending(StringLess, KeysOf(FindingKey, fs)) && forall f :: f in fs ==> f.ruleId == ruleId
  }

  lemma ExecuteBatch(w: World, r: Rule, v: View)
    ensures Execute(w, r, v).JobDone? ==> IsBatch(Execute(w, r, v).findings, r.id)
  {
    if Execute(w, r, v).JobDone? {
      var fs := w.detect(MetaOf(r), v).findings;
      forall f | f in fs ensures f.ruleId == r.id {
        var i :| 0 <= i < |fs| && fs[i] == f;
        assert ValidFinding(w, fs[i], r, w.observes(v.snapshot));
      }
      assert KeysOf(FindingKey, []) == [];
      MergeListOneEach([], fs, r.id);
      var merged := MergeList([], fs);
      SortByDistinctKeys(FindingKey, merged);
      SortContents(ByKey(FindingKey), merged);
      forall f | f in Sort(ByKey(FindingKey), merged) ensures f.ruleId == r.id {
        assert f in multiset(merged);
      }
    }
  }

  // ----- cache records

  datatype RecordStatus = RecordCompleted | RecordOther

  datatype Record = Record(status: RecordStatus, operation: string, target: string, version: int, findings: seq<Finding>)

  /** encodeStoredFindings, as the cache will read it back; None when a time
      cannot be written. */
  function Encode(ruleId: string, findings: seq<Finding>): Option<Record> {
    if AllWritable(findings) then Some(Record(RecordCompleted, OPERATION, "rule:" + ruleId, SCHEMA_VERSION, RereadAll(findings)))
    else None
  }

  /** decodeStoredFindings: strict re-validation, None for a rejected record. */
  function Decode(w: World, rec: Record, r: Rule, observed: set<Identity>): Option<seq<Finding>> {
    if rec.status != RecordCompleted then None
    else if rec.operation != OPERATION || rec.target != "rule:" + r.id then None
    else if rec.version != SCHEMA_VERSION then None
    else if |rec.findings| > MAX_FINDINGS_PER_RULE then None
    else if exists i :: 0 <= i < |rec.findings| && !ValidFinding(w, rec.findings[i], r, observed) then None
    else Some(rec.findings)
  }

  lemma SameMetaSameOutcome(w: World, r1: Rule, r2: Rule, v: View)
    requires MetaOf(r1) == MetaOf(r2)
    ensures Execute(w, r1, v) == Execute(w, r2, v)
  {
    assert r1.id == r2.id && r1.name == r2.name && r1.category == r2.category && r1.version == r2.version;
    match w.detect(MetaOf(r1), v)
    case Failing =>
    case Returned(fs) =>
      forall i | 0 <= i < |fs|
        ensures ValidFinding(w, fs[i], r1, w.observes(v.snapshot)) <==> ValidFinding(w, fs[i], r2, w.observes(v.snapshot))
      {
      }
  }
}
