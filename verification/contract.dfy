/** The output contract of rules (internal/detect/finding.go, record.go,
    engine.go): what a detector may return, what becomes of it, and what the cache
    serves again. */
module RuleContracts {
  import opened Wrappers
  import opened Order
  import opened Merging
  import opened Identities
  import opened Findings
  import opened FindingJson
  import opened Retention
  import opened Registries
  import opened RuleViews
  import opened RuleKeys
  import opened RuleRecords

  // ----- the contract, clause by clause

  /** A finding of the rule's own, about observed assets only. */
  ghost predicate Obeys(r: Rule, observed: set<Identity>, f: Finding) {
    && f.ruleId == r.id && f.ruleName == r.name && f.category == r.category
    && (f.priority == "info" || f.priority == "low" || f.priority == "medium" || f.priority == "high" || f.priority == "critical")
    && (f.status == "open" || f.status == "dismissed")
    && f.subject in observed
    && (forall id :: id in f.related ==> id in observed)
    && (forall e :: e in f.evidence ==> Sourced(observed, e))
    && ("rule_version" in f.metadata ==> f.metadata["rule_version"] == r.version)
  }

  ghost predicate Sourced(observed: set<Identity>, e: Evidence) {
    e.source in observed || e.source.IsZero()
  }

  ghost predicate Breaks(w: World, r: Rule, observed: set<Identity>, f: Finding) {
    !w.canonical(f) || !Obeys(r, observed, f)
  }

  /** The detector fails, returns more than 256 findings, or one that breaks the
      contract. */
  ghost predicate Fails(w: World, r: Rule, observed: set<Identity>, d: Detection) {
    d.Failing? || |d.findings| > 256 || exists f :: f in d.findings && Breaks(w, r, observed, f)
  }

  lemma BreaksIff(w: World, r: Rule, observed: set<Identity>, f: Finding)
    ensures ValidFinding(w, f, r, observed) <==> !Breaks(w, r, observed, f)
  {
    if Obeys(r, observed, f) {
      forall i | 0 <= i < |f.related| ensures f.related[i] in observed {
        assert f.related[i] in f.related;
      }
      forall i | 0 <= i < |f.evidence| ensures Sourced(observed, f.evidence[i]) {
        assert f.evidence[i] in f.evidence;
      }
    }
    if ValidFinding(w, f, r, observed) {
      forall e | e in f.evidence ensures Sourced(observed, e) {
        var i :| 0 <= i < |f.evidence| && f.evidence[i] == e;
      }
    }
  }

  /** When executing fails. */
  lemma FailsIff(w: World, r: Rule, v: View)
    ensures Execute(w, r, v).JobFailed? <==> Fails(w, r, w.observes(v.snapshot), w.detect(r.(enabled := false), v))
  {
    var observed, d := w.observes(v.snapshot), w.detect(r.(enabled := false), v);
    if d.Returned? {
      forall i | 0 <= i < |d.findings|
        ensures ValidFinding(w, d.findings[i], r, observed) <==> !Breaks(w, r, observed, d.findings[i])
      {
        BreaksIff(w, r, observed, d.findings[i]);
      }
      if f :| f in d.findings && Breaks(w, r, observed, f) {
        var i :| 0 <= i < |d.findings| && d.findings[i] == f;
      }
    }
  }

  // ----- merging keeps the contract

  lemma {:induction false} SourcesStay(observed: set<Identity>, out: seq<Evidence>, s: seq<Evidence>)
    requires (forall e :: e in out ==> Sourced(observed, e)) && forall e :: e in s ==> Sourced(observed, e)
    ensures forall e :: e in DedupeAll(EvidenceKey, CombineEvidence, out, s) ==> Sourced(observed, e)
    decreases s
  {
    if s != [] {
      var next := DedupeStep(EvidenceKey, CombineEvidence, out, s[0]);
      forall e | e in next ensures Sourced(observed, e) {
        var n := |out|;
        if n > 0 {
          assert Sourced(observed, out[n - 1]);
        }
        assert Sourced(observed, s[0]);
      }
      SourcesStay(observed, next, s[1..]);
    }
  }

  lemma EvidenceSourced(observed: set<Identity>, list: seq<Evidence>)
    requires forall e :: e in list ==> Sourced(observed, e)
    ensures forall e :: e in Capped(MAX_EVIDENCE, Dedupe(EvidenceKey, CombineEvidence, list)) ==> Sourced(observed, e)
  {
    var s := Sort(ByKey(EvidenceKey), list);
    SortContents(ByKey(EvidenceKey), list);
    forall e | e in s ensures Sourced(observed, e) {
      assert e in multiset(list);
    }
    SourcesStay(observed, [], s);
  }

  lemma RelatedObserved(observed: set<Identity>, list: seq<Identity>)
    requires forall id :: id in list ==> id in observed
    ensures forall id :: id in Capped(MAX_RELATED, Dedupe(IdentityKey, First, list)) ==> id in observed
  {
    var s := Sort(ByKey(IdentityKey), list);
    SortContents(ByKey(IdentityKey), list);
    DedupeMembers([], s);
    forall id | id in s ensures id in observed {
      assert id in multiset(list);
    }
  }

  lemma MergeObeys(r: Rule, observed: set<Identity>, a: Finding, b: Finding)
    requires a.Key() == b.Key() && Obeys(r, observed, a) && Obeys(r, observed, b)
    ensures Merge(a, b).Ok? && Obeys(r, observed, Merge(a, b).value)
  {
    EvidenceSourced(observed, a.evidence + b.evidence);
    RelatedObserved(observed, a.related + b.related);
    assert MergedMetadata(a.metadata, b.metadata, MetadataOf(a.metadata, b.metadata));
  }

  lemma MergeIntoObeys(r: Rule, observed: set<Identity>, out: seq<Finding>, f: Finding)
    requires (forall g :: g in out ==> Obeys(r, observed, g)) && Obeys(r, observed, f)
    ensures forall g :: g in MergeInto(out, f) ==> Obeys(r, observed, g)
  {
    var i := IndexOf(out, f.Key());
    if i < |out| {
      assert out[i] in out;
      MergeObeys(r, observed, out[i], f);
    }
  }

  lemma {:induction false} MergeListObeys(r: Rule, observed: set<Identity>, out: seq<Finding>, list: seq<Finding>)
    requires (forall g :: g in out ==> Obeys(r, observed, g)) && forall g :: g in list ==> Obeys(r, observed, g)
    ensures forall g :: g in MergeList(out, list) ==> Obeys(r, observed, g)
    decreases list
  {
    if list != [] {
      MergeIntoObeys(r, observed, out, list[0]);
      MergeListObeys(r, observed, MergeInto(out, list[0]), list[1..]);
    }
  }

  // ----- merging loses and invents no identity

  lemma MergeIntoKeys(out: seq<Finding>, f: Finding)
    ensures KeySet(FindingKey, MergeInto(out, f)) == KeySet(FindingKey, out) + {f.Key()}
    ensures |MergeInto(out, f)| <= |out| + 1
  {
    var i, ks := IndexOf(out, f.Key()), KeysOf(FindingKey, out);
    if i < |out| {
      MergeKeepsKey(out[i], f);
      assert KeysOf(FindingKey, MergeInto(out, f)) == ks;
      assert ks[i] == f.Key();
    } else {
      assert KeysOf(FindingKey, MergeInto(out, f)) == ks + [f.Key()];
    }
  }

  lemma FirstKey(list: seq<Finding>)
    requires list != []
    ensures KeySet(FindingKey, list) == {list[0].Key()} + KeySet(FindingKey, list[1..])
  {
    assert KeysOf(FindingKey, list) == [list[0].Key()] + KeysOf(FindingKey, list[1..]);
    ElementsCons(list[0].Key(), KeysOf(FindingKey, list[1..]));
  }

  lemma {:induction false} MergeListKeys(out: seq<Finding>, list: seq<Finding>)
    ensures KeySet(FindingKey, MergeList(out, list)) == KeySet(FindingKey, out) + KeySet(FindingKey, list)
    ensures |MergeList(out, list)| <= |out| + |list|
    decreases list
  {
    if list != [] {
      MergeIntoKeys(out, list[0]);
      MergeListKeys(MergeInto(out, list[0]), list[1..]);
      FirstKey(list);
    }
  }

  /** Findings of different identities are only put side by side. */
  lemma {:induction false} NothingToMerge(out: seq<Finding>, list: seq<Finding>)
    requires Distinct(KeysOf(FindingKey, out + list))
    ensures MergeList(out, list) == out + list
    decreases list
  {
    if list == [] {
      assert out + list == out;
    } else {
      var ks := KeysOf(FindingKey, out + list);
      forall i | 0 <= i < |out| ensures out[i].Key() != list[0].Key() {
        assert ks[i] == out[i].Key() && ks[|out|] == list[0].Key();
      }
      assert (out + [list[0]]) + list[1..] == out + list;
      NothingToMerge(out + [list[0]], list[1..]);
    }
  }

  /** Some finding has the identity k. */
  ghost predicate Finds(fs: seq<Finding>, k: string) {
    exists f :: f in fs && f.Key() == k
  }

  /** What a rule adds when its detector returned fs. */
  ghost predicate Condenses(r: Rule, observed: set<Identity>, fs: seq<Finding>, batch: seq<Finding>) {
    && Ascending(StringLess, KeysOf(FindingKey, batch))
    && (forall k :: Finds(batch, k) <==> Finds(fs, k))
    && (forall f :: f in batch ==> Obeys(r, observed, f))
    && (Distinct(KeysOf(FindingKey, fs)) ==> multiset(batch) == multiset(fs))
  }

  lemma KeySetMeans(fs: seq<Finding>, k: string)
    ensures k in KeySet(FindingKey, fs) <==> Finds(fs, k)
  {
    var ks := KeysOf(FindingKey, fs);
    if k in KeySet(FindingKey, fs) {
      var i :| 0 <= i < |ks| && ks[i] == k;
      assert fs[i] in fs && fs[i].Key() == k;
    }
    if f :| f in fs && f.Key() == k {
      var i :| 0 <= i < |fs| && fs[i] == f;
      assert ks[i] == k;
    }
  }

  /** The batch has the detector's identities, each once and in order; it obeys the
      contract, and where no identity came twice it is what the detector returned. */
  lemma BatchCondenses(w: World, r: Rule, v: View)
    requires Execute(w, r, v).JobDone?
    ensures var d := w.detect(r.(enabled := false), v);
      d.Returned? && Condenses(r, w.observes(v.snapshot), d.findings, Execute(w, r, v).findings)
  {
    var observed, fs := w.observes(v.snapshot), w.detect(MetaOf(r), v).findings;
    FailsIff(w, r, v);
    ExecuteBatch(w, r, v);
    forall f | f in fs ensures Obeys(r, observed, f) {
      assert !Breaks(w, r, observed, f);
    }
    SortedCondenses(r, observed, fs, Execute(w, r, v).findings);
  }

  lemma SortedCondenses(r: Rule, observed: set<Identity>, fs: seq<Finding>, batch: seq<Finding>)
    requires batch == Sort(ByKey(FindingKey), MergeList([], fs)) && forall f :: f in fs ==> Obeys(r, observed, f)
    requires Ascending(StringLess, KeysOf(FindingKey, batch))
    ensures Condenses(r, observed, fs, batch)
  {
    var merged := MergeList([], fs);
    MergeListObeys(r, observed, [], fs);
    SortContents(ByKey(FindingKey), merged);
    forall f | f in batch ensures Obeys(r, observed, f) {
      assert f in multiset(merged);
    }
    forall k ensures Finds(batch, k) <==> Finds(fs, k) {
      SameKeys(fs, batch, k);
    }
    if Distinct(KeysOf(FindingKey, fs)) {
      assert [] + fs == fs;
      NothingToMerge([], fs);
    }
  }

  lemma SameKeys(fs: seq<Finding>, batch: seq<Finding>, k: string)
    requires multiset(batch) == multiset(MergeList([], fs))
    ensures Finds(batch, k) <==> Finds(fs, k)
  {
    var merged := MergeList([], fs);
    MergeListKeys([], fs);
    assert KeysOf(FindingKey, []) == [];
    KeySetMeans(fs, k);
    KeySetMeans(merged, k);
    assert forall f :: f in batch <==> f in multiset(merged);
    assert forall f :: f in merged <==> f in multiset(merged);
  }

  // ----- what is served again

  /** What a record under the rule's key serves: a completed record of this operation,
      rule and format, within bounds, none of whose findings breaks the contract. */
  lemma DecodeMeans(w: World, rec: Record, r: Rule, observed: set<Identity>)
    ensures Decode(w, rec, r, observed).Some? <==>
      (&& rec.status.RecordCompleted? && rec.operation == "detect.rule" && rec.target == "rule:" + r.id
       && rec.version == 4 && |rec.findings| <= 256
       && forall f :: f in rec.findings ==> !Breaks(w, r, observed, f))
    ensures Decode(w, rec, r, observed).Some? ==> Decode(w, rec, r, observed).value == rec.findings
  {
    forall i | 0 <= i < |rec.findings|
      ensures ValidFinding(w, rec.findings[i], r, observed) <==> !Breaks(w, r, observed, rec.findings[i])
    {
      BreaksIff(w, r, observed, rec.findings[i]);
    }
    if f :| f in rec.findings && Breaks(w, r, observed, f) {
      var i :| 0 <= i < |rec.findings| && rec.findings[i] == f;
    }
  }

  /** What an execution found is served again if it could be written and, as JSON
      reads it back, breaks no clause; and then just so. */
  lemma StoredIsServed(w: World, r: Rule, v: View, rec: Record)
    requires Execute(w, r, v).JobDone? && Encode(r.id, Execute(w, r, v).findings) == Some(rec)
    ensures var observed, fs := w.observes(v.snapshot), Execute(w, r, v).findings;
      && AllWritable(fs) && rec.findings == RereadAll(fs)
      && (Decode(w, rec, r, observed).Some? <==> forall f :: f in RereadAll(fs) ==> !Breaks(w, r, observed, f))
  {
    var fs := w.detect(MetaOf(r), v).findings;
    MergeListKeys([], fs);
    SortContents(ByKey(FindingKey), MergeList([], fs));
    FailsIff(w, r, v);
    DecodeMeans(w, rec, r, w.observes(v.snapshot));
  }
}
