/** Detection findings and how observations of one finding merge
    (internal/asset/finding.go, evidence.go). */
module Findings {
  import opened Wrappers
  import opened Order
  import opened Merging
  import opened Identities

  const MAX_EVIDENCE := 16
  const MAX_RELATED := 32
  const MAX_RELATIONSHIPS := 32
  const MAX_METADATA := 16

  datatype Evidence = Evidence(mode: Bytes, indicator: Bytes, value: Bytes, source: Identity, prov: Provenance) {
    function Key(): string {
      EvidenceIdentityValue(mode, indicator, value, source)
    }
  }

  datatype Finding = Finding(
    ruleId: Bytes, ruleName: string, category: string, subject: Identity, confidence: Float64,
    evidence: seq<Evidence>, related: seq<Identity>, relationships: seq<Relationship>,
    priority: string, status: string, created: int, updated: int,
    metadata: map<string, string>, truncated: bool)
  {
    /** The identity value that deduplicates findings. */
    function Key(): string {
      FindingIdentityValue(ruleId, subject)
    }
  }

  datatype Mismatch = Mismatch(a: string, b: string)

  // ----- the three lists

  function EvidenceKey(e: Evidence): string { e.Key() }

  function FindingKey(f: Finding): string { f.Key() }

  function IdentityKey(i: Identity): string { i.ToString() }

  function EdgeKey(r: Relationship): string { r.ID() }

  /** MergeEvidence: the identity fields agree, so only provenance merges. */
  function MergeEvidence(a: Evidence, b: Evidence): Result<Evidence, Mismatch> {
    if a.Key() != b.Key() then Err(Mismatch(a.Key(), b.Key()))
    else Ok(a.(prov := EarliestProv(a.prov, b.prov)))
  }

  function CombineEvidence(a: Evidence, b: Evidence): Evidence {
    a.(prov := EarliestProv(a.prov, b.prov))
  }

  function First<T>(a: T, b: T): T { a }

  /** dedupeEvidence. */
  method DedupeEvidence(list: seq<Evidence>) returns (out: seq<Evidence>)
    ensures out == Dedupe(EvidenceKey, CombineEvidence, list)
  {
    var sorted := Sort(ByKey(EvidenceKey), list);
    out := [];
    for i := 0 to |sorted|
      invariant DedupeAll(EvidenceKey, CombineEvidence, out, sorted[i..]) == Dedupe(EvidenceKey, CombineEvidence, list)
    {
      assert sorted[i..][1..] == sorted[i + 1..];
      var n := |out|;
      if n > 0 {
        var merged := MergeEvidence(out[n - 1], sorted[i]);
        if merged.Ok? {
          out := out[..n - 1] + [merged.value];
          continue;
        }
      }
      out := out + [sorted[i]];
    }
  }

  /** dedupeFindingIdentities; for valid kinds equal strings are equal
      identities. */
  method DedupeIdentities(list: seq<Identity>) returns (out: seq<Identity>)
    requires forall id :: id in list ==> IsLabel(id.kind)
    ensures out == Dedupe(IdentityKey, First, list)
  {
    if |list| == 0 {
      return [];
    }
    var sorted := Sort(ByKey(IdentityKey), list);
    SortContents(ByKey(IdentityKey), list);
    out := [];
    for i := 0 to |sorted|
      invariant DedupeAll(IdentityKey, First, out, sorted[i..]) == Dedupe(IdentityKey, First, list)
      invariant forall id :: id in out ==> IsLabel(id.kind)
    {
      assert sorted[i..][1..] == sorted[i + 1..];
      assert sorted[i] in multiset(list);
      out := TakeIdentity(out, sorted[i]);
    }
  }

  method TakeIdentity(out: seq<Identity>, x: Identity) returns (next: seq<Identity>)
    requires IsLabel(x.kind) && forall id :: id in out ==> IsLabel(id.kind)
    ensures next == DedupeStep(IdentityKey, First, out, x)
    ensures forall id :: id in next ==> IsLabel(id.kind)
  {
    var n := |out|;
    if n > 0 {
      IdentityStringInjective(out[n - 1], x);
      SameLast(out);
      if out[n - 1] == x {
        return out;
      }
    }
    return out + [x];
  }

  lemma SameLast<T>(s: seq<T>)
    requires s != []
    ensures s[..|s| - 1] + [s[|s| - 1]] == s
  {
  }

  method DedupeRelationships(list: seq<Relationship>) returns (out: seq<Relationship>)
    ensures out == Dedupe(EdgeKey, First, list)
  {
    if |list| == 0 {
      return [];
    }
    var sorted := Sort(ByKey(EdgeKey), list);
    out := [];
    for i := 0 to |sorted|
      invariant DedupeAll(EdgeKey, First, out, sorted[i..]) == Dedupe(EdgeKey, First, list)
    {
      assert sorted[i..][1..] == sorted[i + 1..];
      out := TakeRelationship(out, sorted[i]);
    }
  }

  method TakeRelationship(out: seq<Relationship>, x: Relationship) returns (next: seq<Relationship>)
    ensures next == DedupeStep(EdgeKey, First, out, x)
  {
    var n := |out|;
    if n > 0 && out[n - 1].ID() == x.ID() {
      SameLast(out);
      return out;
    }
    return out + [x];
  }

  // ----- metadata

  /** The uncut union: b's value stands unless it is empty and a has one. */
  function MetadataValue(a: map<string, string>, b: map<string, string>, k: string): string
    requires k in a || k in b
  {
    if k in a && (k !in b || b[k] == "") then a[k] else b[k]
  }

  function MetadataUnion(a: map<string, string>, b: map<string, string>): (m: map<string, string>)
    ensures m.Keys == a.Keys + b.Keys
  {
    map k | k in a.Keys + b.Keys :: MetadataValue(a, b, k)
  }

  /** merged is what mergeFindingMetadata returns: the union, cut to its
      lexicographically largest keys (its comment says the largest are dropped;
      the loop deletes the smallest). */
  ghost predicate MergedMetadata(a: map<string, string>, b: map<string, string>, merged: map<string, string>) {
    && IsFirst(StringGreater, MAX_METADATA, a.Keys + b.Keys, merged.Keys)
    && forall k :: k in merged ==> merged[k] == MetadataValue(a, b, k)
  }

  method MergeMetadata(a: map<string, string>, b: map<string, string>) returns (out: map<string, string>, cut: bool)
    ensures MergedMetadata(a, b, out)
    ensures cut <==> |a.Keys + b.Keys| > MAX_METADATA
  {
    if |a| == 0 && |b| == 0 {
      assert a.Keys == {} && b.Keys == {};
      return map[], false;
    }
    out := Overlay(a, b);
    assert |out| == |out.Keys|;
    cut := false;
    if |out| > MAX_METADATA {
      out := DropSmallest(out);
      cut := true;
    } else {
      assert IsFirst(StringGreater, MAX_METADATA, a.Keys + b.Keys, out.Keys);
    }
  }

  /** Copy b, then let a fill what is missing or empty. */
  method Overlay(a: map<string, string>, b: map<string, string>) returns (out: map<string, string>)
    ensures out == MetadataUnion(a, b)
  {
    out := b;
    var rest := a.Keys;
    while rest != {}
      invariant rest <= a.Keys
      invariant out.Keys == b.Keys + (a.Keys - rest)
      invariant forall k :: k in out ==> out[k] == if k in rest then b[k] else MetadataValue(a, b, k)
      decreases rest
    {
      var k :| k in rest;
      if k !in out || out[k] == "" {
        out := out[k := a[k]];
      }
      rest := rest - {k};
    }
  }

  method ListKeys(S: set<string>) returns (keys: seq<string>)
    ensures Distinct(keys) && Elements(keys) == S
  {
    keys := [];
    var rest := S;
    while rest != {}
      invariant rest <= S && Elements(keys) == S - rest
      invariant Distinct(keys)
      decreases rest
    {
      var k :| k in rest;
      assert k !in Elements(keys);
      ElementsCons(k, keys);
      keys := keys + [k];
      rest := rest - {k};
    }
  }

  /** The key listing, its sort, and the delete loop. */
  method DropSmallest(m: map<string, string>) returns (out: map<string, string>)
    requires |m| > MAX_METADATA
    ensures IsFirst(StringGreater, MAX_METADATA, m.Keys, out.Keys)
    ensures forall k :: k in out ==> out[k] == m[k]
  {
    var keys := ListKeys(m.Keys);
    StringOrder();
    SortDistinct(StringLess, keys);
    keys := Sort(StringLess, keys);
    AscendingSize(StringLess, keys);
    assert |m| == |m.Keys|;
    var n := |keys| - MAX_METADATA;
    out := DeleteKeys(m, keys[..n]);
    SuffixIsLargest(keys, n);
  }

  method DeleteKeys(m: map<string, string>, keys: seq<string>) returns (out: map<string, string>)
    ensures out.Keys == m.Keys - Elements(keys)
    ensures forall k :: k in out ==> out[k] == m[k]
  {
    out := m;
    for i := 0 to |keys|
      invariant out.Keys == m.Keys - Elements(keys[..i])
      invariant forall k :: k in out ==> out[k] == m[k]
    {
      assert keys[..i + 1] == keys[..i] + [keys[i]];
      ElementsCons(keys[i], keys[..i]);
      out := map k | k in out && k != keys[i] :: out[k];
    }
    assert keys[..|keys|] == keys;
  }

  lemma SuffixIsLargest(keys: seq<string>, n: nat)
    requires Ascending(StringLess, keys) && n <= |keys|
    ensures IsFirst(StringGreater, |keys| - n, Elements(keys), Elements(keys[n..]))
    ensures Elements(keys[n..]) == Elements(keys) - Elements(keys[..n])
  {
    assert keys == keys[..n] + keys[n..];
    SuffixSize(keys, n);
    forall x, y | x in Elements(keys[..n]) && y in Elements(keys[n..]) ensures StringLess(x, y) && x != y {
      SuffixAbove(keys, n, x, y);
    }
  }

  lemma SuffixAbove(keys: seq<string>, n: nat, x: string, y: string)
    requires Ascending(StringLess, keys) && n <= |keys| && x in keys[..n] && y in keys[n..]
    ensures StringLess(x, y) && x != y
  {
    var i :| 0 <= i < n && keys[..n][i] == x;
    var j :| 0 <= j < |keys| - n && keys[n..][j] == y;
    assert StringLess(keys[i], keys[n + j]);
    StringLessIrreflexive(x);
  }

  lemma SuffixSize(keys: seq<string>, n: nat)
    requires Ascending(StringLess, keys) && n <= |keys|
    ensures |Elements(keys)| == |keys| && |Elements(keys[n..])| == |keys| - n
  {
    StringOrder();
    AscendingSize(StringLess, keys);
    AscendingSize(StringLess, keys[n..]);
  }

  /** The metadata merge as a value (its result is unique). */
  ghost function MetadataOf(a: map<string, string>, b: map<string, string>): (m: map<string, string>)
    ensures MergedMetadata(a, b, m)
  {
    MetadataExists(a, b);
    var m :| MergedMetadata(a, b, m);
    m
  }

  lemma MetadataExists(a: map<string, string>, b: map<string, string>)
    ensures exists m :: MergedMetadata(a, b, m)
  {
    ReverseStringOrder();
    var kept := FirstExists(StringGreater, MAX_METADATA, a.Keys + b.Keys);
    var m := map k | k in kept :: MetadataValue(a, b, k);
    assert m.Keys == kept;
    assert MergedMetadata(a, b, m);
  }

  lemma MetadataUnique(a: map<string, string>, b: map<string, string>, m: map<string, string>)
    requires MergedMetadata(a, b, m)
    ensures m == MetadataOf(a, b)
  {
    ReverseStringOrder();
    FirstUnique(StringGreater, MAX_METADATA, a.Keys + b.Keys, m.Keys, MetadataOf(a, b).Keys);
  }

  /** Fewer keys than the cap come after k in the union. */
  ghost predicate FewAfter(a: map<string, string>, b: map<string, string>, k: string) {
    |Before(StringGreater, a.Keys + b.Keys, k)| < MAX_METADATA
  }

  lemma KeyKept(a: map<string, string>, b: map<string, string>, k: string)
    requires k in a || k in b
    ensures k in MetadataOf(a, b) <==> FewAfter(a, b, k)
  {
    ReverseStringOrder();
    FirstMeansFew(StringGreater, MAX_METADATA, a.Keys + b.Keys, MetadataOf(a, b).Keys, k);
  }

  /** The two observations say different things under a key that is kept. */
  ghost predicate Contradict(a: map<string, string>, b: map<string, string>, k: string) {
    k in a && k in b && FewAfter(a, b, k) && a[k] != b[k] && a[k] != "" && b[k] != ""
  }

  /** The merged metadata is the same in both argument orders, and keeps the
      receiver's non-empty values as its comment says, exactly when the two
      contradict each other under no kept key. */
  lemma MetadataCommutes(a: map<string, string>, b: map<string, string>)
    ensures MetadataOf(a, b) == MetadataOf(b, a) <==> forall k :: !Contradict(a, b, k)
    ensures (forall k :: k in a && a[k] != "" && k in MetadataOf(a, b) ==> MetadataOf(a, b)[k] == a[k])
       <==> forall k :: !Contradict(a, b, k)
  {
    ReverseStringOrder();
    assert a.Keys + b.Keys == b.Keys + a.Keys;
    var x, y := MetadataOf(a, b), MetadataOf(b, a);
    FirstUnique(StringGreater, MAX_METADATA, a.Keys + b.Keys, x.Keys, y.Keys);
    forall k | k in x ensures x[k] == MetadataValue(a, b, k) && y[k] == MetadataValue(b, a, k)
      && (x[k] == y[k] <==> !Contradict(a, b, k))
    {
      KeyKept(a, b, k);
    }
    forall k | Contradict(a, b, k) ensures k in x && x[k] != y[k] && x[k] != a[k] {
      KeyKept(a, b, k);
    }
  }

  /** The cut keeps the smallest keys, as its comment says, exactly when there is
      nothing to cut. */
  lemma CutKeepsSmallest(a: map<string, string>, b: map<string, string>)
    ensures IsFirst(StringLess, MAX_METADATA, a.Keys + b.Keys, MetadataOf(a, b).Keys)
       <==> |a.Keys + b.Keys| <= MAX_METADATA
  {
    var S, kept := a.Keys + b.Keys, MetadataOf(a, b).Keys;
    if |S| <= MAX_METADATA {
      SubsetSameSize(kept, S);
    } else if IsFirst(StringLess, MAX_METADATA, S, kept) {
      NotBothEnds(S, kept);
    }
  }

  /** The smallest keys of too many are not the largest. */
  lemma NotBothEnds(S: set<string>, kept: set<string>)
    requires |S| > MAX_METADATA && IsFirst(StringLess, MAX_METADATA, S, kept)
    ensures !IsFirst(StringGreater, MAX_METADATA, S, kept)
  {
    assert kept != S && kept != {};
    var x :| x in kept;
    var y :| y in S && y !in kept;
    FirstBeforeCut(StringLess, MAX_METADATA, S, kept, x, y);
    if IsFirst(StringGreater, MAX_METADATA, S, kept) {
      FirstBeforeCut(StringGreater, MAX_METADATA, S, kept, x, y);
      StringLessTransitive(x, y, x);
      StringLessIrreflexive(x);
    }
  }

  /** Two observations that annotate one key differently: the second argument's
      value wins, so the order of arguments shows. */
  lemma MetadataOrderMatters()
    ensures MetadataOf(map["k" := "x"], map["k" := "y"]) != MetadataOf(map["k" := "y"], map["k" := "x"])
  {
    var a, b := map["k" := "x"], map["k" := "y"];
    assert a.Keys + b.Keys == {"k"};
    SubsetSameSize(MetadataOf(a, b).Keys, {"k"});
    assert "k" in MetadataOf(a, b).Keys;
    MetadataCommutes(a, b);
  }

  // ----- merging two observations

  /** Who labels the finding: highest confidence, then smallest labels. */
  function LabelRank(f: Finding): Rank {
    Rank(f.confidence, [f.ruleName, f.category, f.priority, f.status])
  }

  /** MergeFindings. */
  ghost function Merge(a: Finding, b: Finding): Result<Finding, Mismatch> {
    if a.Key() != b.Key() then Err(Mismatch(a.Key(), b.Key()))
    else
      var labels := if RankLess(LabelRank(b), LabelRank(a)) then b else a;
      var evidence := Dedupe(EvidenceKey, CombineEvidence, a.evidence + b.evidence);
      var related := Dedupe(IdentityKey, First, a.related + b.related);
      var relationships := Dedupe(EdgeKey, First, a.relationships + b.relationships);
      Ok(a.(
        ruleName := labels.ruleName, category := labels.category,
        priority := labels.priority, status := labels.status, confidence := labels.confidence,
        created := Min(a.created, b.created), updated := Max(a.updated, b.updated),
        evidence := Capped(MAX_EVIDENCE, evidence),
        related := Capped(MAX_RELATED, related),
        relationships := Capped(MAX_RELATIONSHIPS, relationships),
        metadata := MetadataOf(a.metadata, b.metadata),
        truncated := a.truncated || b.truncated || |a.metadata.Keys + b.metadata.Keys| > MAX_METADATA
          || |evidence| > MAX_EVIDENCE || |related| > MAX_RELATED || |relationships| > MAX_RELATIONSHIPS))
  }

  /** The branches of MergeFindings in the source's order. */
  method MergeFindings(a: Finding, b: Finding) returns (r: Result<Finding, Mismatch>)
    requires forall id :: id in a.related + b.related ==> IsLabel(id.kind)
    ensures r == Merge(a, b)
  {
    if a.Key() != b.Key() {
      return Err(Mismatch(a.Key(), b.Key()));
    }
    var m := MergeScalars(a, b);
    var evidence, evidenceCut := MergeEvidenceLists(a.evidence, b.evidence);
    var related, relatedCut := MergeRelatedLists(a.related, b.related);
    var relationships, relationshipsCut := MergeRelationshipLists(a.relationships, b.relationships);
    var metadata, metadataCut := MergeMetadata(a.metadata, b.metadata);
    MetadataUnique(a.metadata, b.metadata, metadata);
    var truncated := a.truncated || b.truncated || metadataCut || evidenceCut || relatedCut || relationshipsCut;
    m := m.(evidence := evidence, related := related, relationships := relationships);
    return Ok(m.(metadata := metadata, truncated := truncated));
  }

  method MergeScalars(a: Finding, b: Finding) returns (m: Finding)
    ensures var labels := if RankLess(LabelRank(b), LabelRank(a)) then b else a;
      m == a.(ruleName := labels.ruleName, category := labels.category,
              priority := labels.priority, status := labels.status, confidence := labels.confidence,
              created := Min(a.created, b.created), updated := Max(a.updated, b.updated))
  {
    m := MergeLabels(a, b);
    if b.created < a.created {
      m := m.(created := b.created);
    }
    if b.updated > a.updated {
      m := m.(updated := b.updated);
    }
  }

  method MergeEvidenceLists(a: seq<Evidence>, b: seq<Evidence>) returns (out: seq<Evidence>, cut: bool)
    ensures out == Capped(MAX_EVIDENCE, Dedupe(EvidenceKey, CombineEvidence, a + b))
    ensures cut <==> |Dedupe(EvidenceKey, CombineEvidence, a + b)| > MAX_EVIDENCE
  {
    out := DedupeEvidence(a + b);
    cut := |out| > MAX_EVIDENCE;
    if cut {
      out := out[..MAX_EVIDENCE];
    }
  }

  method MergeRelatedLists(a: seq<Identity>, b: seq<Identity>) returns (out: seq<Identity>, cut: bool)
    requires forall id :: id in a + b ==> IsLabel(id.kind)
    ensures out == Capped(MAX_RELATED, Dedupe(IdentityKey, First, a + b))
    ensures cut <==> |Dedupe(IdentityKey, First, a + b)| > MAX_RELATED
  {
    out := DedupeIdentities(a + b);
    cut := |out| > MAX_RELATED;
    if cut {
      out := out[..MAX_RELATED];
    }
  }

  method MergeRelationshipLists(a: seq<Relationship>, b: seq<Relationship>) returns (out: seq<Relationship>, cut: bool)
    ensures out == Capped(MAX_RELATIONSHIPS, Dedupe(EdgeKey, First, a + b))
    ensures cut <==> |Dedupe(EdgeKey, First, a + b)| > MAX_RELATIONSHIPS
  {
    out := DedupeRelationships(a + b);
    cut := |out| > MAX_RELATIONSHIPS;
    if cut {
      out := out[..MAX_RELATIONSHIPS];
    }
  }

  /** The label choice, its nested comparison written out. */
  method MergeLabels(a: Finding, b: Finding) returns (m: Finding)
    ensures var labels := if RankLess(LabelRank(b), LabelRank(a)) then b else a;
      m == a.(ruleName := labels.ruleName, category := labels.category,
              priority := labels.priority, status := labels.status, confidence := labels.confidence)
  {
    m := a;
    FieldsLessFour([b.ruleName, b.category, b.priority, b.status], [a.ruleName, a.category, a.priority, a.status]);
    if b.confidence > a.confidence {
      m := m.(ruleName := b.ruleName, category := b.category, priority := b.priority, status := b.status,
              confidence := b.confidence);
    } else if b.confidence == a.confidence &&
              (StringLess(b.ruleName, a.ruleName) || (b.ruleName == a.ruleName &&
                (StringLess(b.category, a.category) || (b.category == a.category &&
                  (StringLess(b.priority, a.priority) || (b.priority == a.priority && StringLess(b.status, a.status)))))))
    {
      m := m.(ruleName := b.ruleName, category := b.category, priority := b.priority, status := b.status);
    }
  }

  lemma FieldsLessFour(x: seq<string>, y: seq<string>)
    requires |x| == |y| == 4
    ensures FieldsLess(x, y) <==>
      StringLess(x[0], y[0]) || (x[0] == y[0] &&
        (StringLess(x[1], y[1]) || (x[1] == y[1] &&
          (StringLess(x[2], y[2]) || (x[2] == y[2] && StringLess(x[3], y[3]))))))
  {
    assert FieldsLess(x[1..], y[1..]) <==>
      StringLess(x[1], y[1]) || (x[1] == y[1] && FieldsLess(x[1..][1..], y[1..][1..]));
    assert FieldsLess(x[1..][1..], y[1..][1..]) <==>
      StringLess(x[2], y[2]) || (x[2] == y[2] && FieldsLess(x[1..][1..][1..], y[1..][1..][1..]));
    assert FieldsLess(x[1..][1..][1..], y[1..][1..][1..]) <==> StringLess(x[3], y[3]);
  }

  // ----- folding many observations

  /** The four capped unions: evidence, related assets, relationships and
      metadata keys. */
  datatype Union = EvidenceUnion | RelatedUnion | EdgeUnion | MetadataUnionKeys

  function Cap(u: Union): nat {
    match u
    case EvidenceUnion => MAX_EVIDENCE
    case RelatedUnion => MAX_RELATED
    case EdgeUnion => MAX_RELATIONSHIPS
    case MetadataUnionKeys => MAX_METADATA
  }

  /** Lists keep their smallest keys, metadata its largest. */
  function Less(u: Union): (string, string) -> bool {
    if u.MetadataUnionKeys? then StringGreater else StringLess
  }

  ghost function Keys(u: Union): Finding -> set<string> {
    match u
    case EvidenceUnion => (f: Finding) => KeySet(EvidenceKey, f.evidence)
    case RelatedUnion => (f: Finding) => KeySet(IdentityKey, f.related)
    case EdgeUnion => (f: Finding) => KeySet(EdgeKey, f.relationships)
    case MetadataUnionKeys => (f: Finding) => f.metadata.Keys
  }

  lemma LessTotal(u: Union)
    ensures StrictTotal(Less(u))
  {
    StringOrder();
    ReverseStringOrder();
  }

  /** The key lists of a merged finding ascend strictly. */
  ghost predicate ListsSorted(f: Finding) {
    && Ascending(StringLess, KeysOf(EvidenceKey, f.evidence))
    && Ascending(StringLess, KeysOf(IdentityKey, f.related))
    && Ascending(StringLess, KeysOf(EdgeKey, f.relationships))
  }

  lemma MergeUnion(u: Union, a: Finding, b: Finding)
    requires a.Key() == b.Key()
    ensures IsFirst(Less(u), Cap(u), Keys(u)(a) + Keys(u)(b), Keys(u)(Merge(a, b).value))
  {
    match u
    case EvidenceUnion => CappedMerge(EvidenceKey, CombineEvidence, MAX_EVIDENCE, a.evidence, b.evidence);
    case RelatedUnion => CappedMerge(IdentityKey, First, MAX_RELATED, a.related, b.related);
    case EdgeUnion => CappedMerge(EdgeKey, First, MAX_RELATIONSHIPS, a.relationships, b.relationships);
    case MetadataUnionKeys =>
  }

  lemma MergeSorted(a: Finding, b: Finding)
    requires a.Key() == b.Key()
    ensures ListsSorted(Merge(a, b).value)
  {
    CappedMerge(EvidenceKey, CombineEvidence, MAX_EVIDENCE, a.evidence, b.evidence);
    CappedMerge(IdentityKey, First, MAX_RELATED, a.related, b.related);
    CappedMerge(EdgeKey, First, MAX_RELATIONSHIPS, a.relationships, b.relationships);
  }

  /** The size of one union before its cut, as MergeFindings measures it. */
  function UncutSize(u: Union, a: Finding, b: Finding): nat {
    match u
    case EvidenceUnion => |Dedupe(EvidenceKey, CombineEvidence, a.evidence + b.evidence)|
    case RelatedUnion => |Dedupe(IdentityKey, First, a.related + b.related)|
    case EdgeUnion => |Dedupe(EdgeKey, First, a.relationships + b.relationships)|
    case MetadataUnionKeys => |a.metadata.Keys + b.metadata.Keys|
  }

  lemma UncutSizeIsUnion(u: Union, a: Finding, b: Finding)
    ensures UncutSize(u, a, b) > Cap(u) <==> |Keys(u)(a) + Keys(u)(b)| > Cap(u)
  {
    match u
    case EvidenceUnion => CappedMerge(EvidenceKey, CombineEvidence, MAX_EVIDENCE, a.evidence, b.evidence);
    case RelatedUnion => CappedMerge(IdentityKey, First, MAX_RELATED, a.related, b.related);
    case EdgeUnion => CappedMerge(EdgeKey, First, MAX_RELATIONSHIPS, a.relationships, b.relationships);
    case MetadataUnionKeys =>
  }

  lemma MergeFlag(a: Finding, b: Finding)
    requires a.Key() == b.Key()
    ensures Merge(a, b).value.truncated
       <==> a.truncated || b.truncated || exists u: Union :: |Keys(u)(a) + Keys(u)(b)| > Cap(u)
  {
    var m := Merge(a, b).value;
    assert m.truncated == (a.truncated || b.truncated
      || UncutSize(MetadataUnionKeys, a, b) > Cap(MetadataUnionKeys) || UncutSize(EvidenceUnion, a, b) > Cap(EvidenceUnion)
      || UncutSize(RelatedUnion, a, b) > Cap(RelatedUnion) || UncutSize(EdgeUnion, a, b) > Cap(EdgeUnion));
    SomeUnion(a, b);
    forall u: Union ensures UncutSize(u, a, b) > Cap(u) <==> |Keys(u)(a) + Keys(u)(b)| > Cap(u) {
      UncutSizeIsUnion(u, a, b);
    }
  }

  lemma SomeUnion(a: Finding, b: Finding)
    ensures (exists u: Union :: UncutSize(u, a, b) > Cap(u)) <==>
      UncutSize(EvidenceUnion, a, b) > Cap(EvidenceUnion) || UncutSize(RelatedUnion, a, b) > Cap(RelatedUnion)
      || UncutSize(EdgeUnion, a, b) > Cap(EdgeUnion) || UncutSize(MetadataUnionKeys, a, b) > Cap(MetadataUnionKeys)
  {
    if u: Union :| UncutSize(u, a, b) > Cap(u) {
      assert u.EvidenceUnion? || u.RelatedUnion? || u.EdgeUnion? || u.MetadataUnionKeys?;
    }
  }

  lemma MergeUnions(a: Finding, b: Finding)
    requires a.Key() == b.Key()
    ensures var m := Merge(a, b).value;
      && ListsSorted(m) && m.Key() == a.Key()
      && (forall u: Union :: IsFirst(Less(u), Cap(u), Keys(u)(a) + Keys(u)(b), Keys(u)(m)))
      && (m.truncated <==> a.truncated || b.truncated || exists u: Union :: |Keys(u)(a) + Keys(u)(b)| > Cap(u))
  {
    MergeSorted(a, b);
    MergeFlag(a, b);
    forall u: Union ensures IsFirst(Less(u), Cap(u), Keys(u)(a) + Keys(u)(b), Keys(u)(Merge(a, b).value)) {
      MergeUnion(u, a, b);
    }
  }

  ghost function Fold(t: Tree<Finding>): Result<Finding, Mismatch> {
    match t
    case Leaf(x) => Ok(x)
    case Node(l, r) =>
      match (Fold(l), Fold(r))
      case (Ok(a), Ok(b)) => Merge(a, b)
      case (Err(e), _) => Err(e)
      case (_, Err(e)) => Err(e)
  }

  ghost predicate OneFinding(t: Tree<Finding>, key: string) {
    forall x :: x in Leaves(t) ==> x.Key() == key
  }

  ghost predicate SomeFlag(t: Tree<Finding>) {
    exists x :: x in Leaves(t) && x.truncated
  }

  ghost predicate SomeOverflow(t: Tree<Finding>) {
    exists u: Union :: |AllKeys(Keys(u), t)| > Cap(u)
  }

  ghost predicate OwnOverflow(f: Finding) {
    exists u: Union :: |Keys(u)(f)| > Cap(u)
  }

  /** Labels and confidence of f are the first any leaf offers by rank. */
  ghost predicate BestLabel(t: Tree<Finding>, f: Finding) {
    && (exists x :: x in Leaves(t) && LabelRank(x) == LabelRank(f))
    && (forall x :: x in Leaves(t) ==> !RankLess(LabelRank(x), LabelRank(f)))
  }

  /** Its times are the earliest creation and the latest update. */
  ghost predicate BestTimes(t: Tree<Finding>, f: Finding) {
    && (exists x :: x in Leaves(t) && x.created == f.created)
    && (forall x :: x in Leaves(t) ==> f.created <= x.created)
    && (exists x :: x in Leaves(t) && x.updated == f.updated)
    && (forall x :: x in Leaves(t) ==> x.updated <= f.updated)
  }

  ghost predicate BestOf(t: Tree<Finding>, f: Finding) {
    BestLabel(t, f) && BestTimes(t, f)
  }

  /** f is as good as the leaves of t in every later merge. */
  ghost predicate Represents(t: Tree<Finding>, f: Finding) {
    && (forall u: Union :: Agrees(Less(u), Cap(u), AllKeys(Keys(u), t), Keys(u)(f)))
    && (f.truncated || OwnOverflow(f) <==> SomeFlag(t) || SomeOverflow(t))
  }

  lemma MergeBest(l: Tree<Finding>, r: Tree<Finding>, a: Finding, b: Finding)
    requires BestOf(l, a) && BestOf(r, b) && a.Key() == b.Key()
    ensures BestOf(Node(l, r), Merge(a, b).value)
  {
    MergeBestLabel(l, r, a, b);
    MergeBestTimes(l, r, a, b);
  }

  lemma MergeBestLabel(l: Tree<Finding>, r: Tree<Finding>, a: Finding, b: Finding)
    requires BestLabel(l, a) && BestLabel(r, b) && a.Key() == b.Key()
    ensures BestLabel(Node(l, r), Merge(a, b).value)
  {
    var t, m := Node(l, r), Merge(a, b).value;
    RankOrder();
    assert forall x :: x in Leaves(t) <==> x in Leaves(l) || x in Leaves(r);
    assert LabelRank(m) == if RankLess(LabelRank(b), LabelRank(a)) then LabelRank(b) else LabelRank(a);
  }

  lemma MergeBestTimes(l: Tree<Finding>, r: Tree<Finding>, a: Finding, b: Finding)
    requires BestTimes(l, a) && BestTimes(r, b) && a.Key() == b.Key()
    ensures BestTimes(Node(l, r), Merge(a, b).value)
  {
    assert forall x :: x in Leaves(Node(l, r)) <==> x in Leaves(l) || x in Leaves(r);
  }

  lemma MergeRepresents(l: Tree<Finding>, r: Tree<Finding>, a: Finding, b: Finding)
    requires Represents(l, a) && Represents(r, b) && a.Key() == b.Key()
    ensures var t, m := Node(l, r), Merge(a, b).value;
      && Represents(t, m)
      && (forall u: Union :: IsFirst(Less(u), Cap(u), AllKeys(Keys(u), t), Keys(u)(m)))
      && (m.truncated <==> SomeFlag(t) || SomeOverflow(t))
  {
    var t, m := Node(l, r), Merge(a, b).value;
    MergeUnions(a, b);
    forall u: Union
      ensures IsFirst(Less(u), Cap(u), AllKeys(Keys(u), t), Keys(u)(m))
      ensures |Keys(u)(m)| <= Cap(u) && Agrees(Less(u), Cap(u), AllKeys(Keys(u), t), Keys(u)(m))
      ensures Joint(u, l, r, a, b)
    {
      UnionStep(u, l, r, a, b, Keys(u)(m));
    }
    FlagStep(l, r, a, b, m);
  }

  /** How the overflow of one union relates to the overflows below it. */
  ghost predicate Joint(u: Union, l: Tree<Finding>, r: Tree<Finding>, a: Finding, b: Finding) {
    var A, B, A', B', k := AllKeys(Keys(u), l), AllKeys(Keys(u), r), Keys(u)(a), Keys(u)(b), Cap(u);
    && (|A| > k || |B| > k ==> |A + B| > k)
    && (|A'| > k || |B'| > k ==> |A' + B'| > k)
    && (|A + B| > k ==> |A| > k || |B| > k || |A' + B'| > k)
    && (|A' + B'| > k ==> |A'| > k || |B'| > k || |A + B| > k)
  }

  lemma UnionStep(u: Union, l: Tree<Finding>, r: Tree<Finding>, a: Finding, b: Finding, out: set<string>)
    requires Agrees(Less(u), Cap(u), AllKeys(Keys(u), l), Keys(u)(a))
    requires Agrees(Less(u), Cap(u), AllKeys(Keys(u), r), Keys(u)(b))
    requires IsFirst(Less(u), Cap(u), Keys(u)(a) + Keys(u)(b), out)
    ensures IsFirst(Less(u), Cap(u), AllKeys(Keys(u), Node(l, r)), out)
    ensures |out| <= Cap(u) && Agrees(Less(u), Cap(u), AllKeys(Keys(u), Node(l, r)), out)
    ensures Joint(u, l, r, a, b)
  {
    LessTotal(u);
    AgreeingUnion(Less(u), Cap(u), AllKeys(Keys(u), l), AllKeys(Keys(u), r), Keys(u)(a), Keys(u)(b), out);
    FirstIsFixed(Less(u), Cap(u), AllKeys(Keys(u), Node(l, r)), out);
  }

  lemma FlagStep(l: Tree<Finding>, r: Tree<Finding>, a: Finding, b: Finding, m: Finding)
    requires a.truncated || OwnOverflow(a) <==> SomeFlag(l) || SomeOverflow(l)
    requires b.truncated || OwnOverflow(b) <==> SomeFlag(r) || SomeOverflow(r)
    requires forall u: Union :: Joint(u, l, r, a, b)
    requires m.truncated <==> a.truncated || b.truncated || exists u: Union :: |Keys(u)(a) + Keys(u)(b)| > Cap(u)
    ensures m.truncated <==> SomeFlag(Node(l, r)) || SomeOverflow(Node(l, r))
  {
    var t := Node(l, r);
    assert forall x :: x in Leaves(t) <==> x in Leaves(l) || x in Leaves(r);
    if m.truncated {
      if u: Union :| |Keys(u)(a) + Keys(u)(b)| > Cap(u) {
        assert Joint(u, l, r, a, b);
        assert |AllKeys(Keys(u), t)| > Cap(u) || OwnOverflow(a) || OwnOverflow(b);
      }
      if u: Union :| |AllKeys(Keys(u), l)| > Cap(u) || |AllKeys(Keys(u), r)| > Cap(u) {
        assert Joint(u, l, r, a, b);
        assert |AllKeys(Keys(u), t)| > Cap(u);
      }
    }
    if u: Union :| |AllKeys(Keys(u), t)| > Cap(u) {
      assert Joint(u, l, r, a, b);
    }
    if u: Union :| |Keys(u)(a)| > Cap(u) || |Keys(u)(b)| > Cap(u) {
      assert Joint(u, l, r, a, b);
    }
  }

  /** Over any order and grouping of two or more observations of one finding:
      every union keeps exactly the keys a single merge of everything would
      keep, the flag is set exactly when an input carried it or a union of all
      observations exceeds its cap, and labels, confidence and times are the
      best observed. */
  lemma {:induction false} FoldKeepsFirst(t: Tree<Finding>, key: string)
    requires OneFinding(t, key)
    ensures Fold(t).Ok? && Fold(t).value.Key() == key
    ensures Represents(t, Fold(t).value) && BestOf(t, Fold(t).value)
    ensures t.Node? ==> var f := Fold(t).value;
      && ListsSorted(f)
      && (forall u: Union :: IsFirst(Less(u), Cap(u), AllKeys(Keys(u), t), Keys(u)(f)))
      && (f.truncated <==> SomeFlag(t) || SomeOverflow(t))
  {
    match t
    case Leaf(x) =>
      LeafRepresents(x);
    case Node(l, r) =>
      assert forall x :: x in Leaves(t) <==> x in Leaves(l) || x in Leaves(r);
      FoldKeepsFirst(l, key);
      FoldKeepsFirst(r, key);
      MergeUnions(Fold(l).value, Fold(r).value);
      MergeRepresents(l, r, Fold(l).value, Fold(r).value);
      MergeBest(l, r, Fold(l).value, Fold(r).value);
  }

  lemma LeafRepresents(x: Finding)
    ensures Represents(Leaf(x), x) && BestOf(Leaf(x), x)
  {
    var t := Leaf(x);
    assert Leaves(t) == [x] && x in Leaves(t);
    RankOrder();
    forall u: Union ensures Agrees(Less(u), Cap(u), AllKeys(Keys(u), t), Keys(u)(x)) {
      LessTotal(u);
      AgreesRefl(Less(u), Cap(u), Keys(u)(x));
    }
    assert SomeOverflow(t) <==> OwnOverflow(x);
  }

  /** What a fold reports apart from provenance and metadata values. */
  ghost predicate SameReport(f: Finding, g: Finding) {
    && LabelRank(f) == LabelRank(g) && f.created == g.created && f.updated == g.updated
    && KeysOf(EvidenceKey, f.evidence) == KeysOf(EvidenceKey, g.evidence)
    && KeysOf(IdentityKey, f.related) == KeysOf(IdentityKey, g.related)
    && KeysOf(EdgeKey, f.relationships) == KeysOf(EdgeKey, g.relationships)
    && f.metadata.Keys == g.metadata.Keys
    && f.truncated == g.truncated
  }

  lemma FoldOrderIndependent(t: Tree<Finding>, s: Tree<Finding>, key: string)
    requires t.Node? && s.Node? && OneFinding(t, key)
    requires Elements(Leaves(t)) == Elements(Leaves(s))
    ensures Fold(t).Ok? && Fold(s).Ok? && SameReport(Fold(t).value, Fold(s).value)
  {
    SameFinding(t, s, key);
    FoldKeepsFirst(t, key);
    FoldKeepsFirst(s, key);
    var f, g := Fold(t).value, Fold(s).value;
    SameLabel(t, s, f, g);
    SameTimes(t, s, f, g);
    forall u: Union ensures Keys(u)(f) == Keys(u)(g) && AllKeys(Keys(u), t) == AllKeys(Keys(u), s) {
      SameUnion(t, s, f, g, u);
    }
    SameFlag(t, s);
    SameListings(f, g);
  }

  lemma SameFinding(t: Tree<Finding>, s: Tree<Finding>, key: string)
    requires OneFinding(t, key) && Elements(Leaves(t)) == Elements(Leaves(s))
    ensures OneFinding(s, key)
  {
    forall x | x in Leaves(s) ensures x.Key() == key {
      assert x in Elements(Leaves(t));
    }
  }

  lemma SameFlag(t: Tree<Finding>, s: Tree<Finding>)
    requires Elements(Leaves(t)) == Elements(Leaves(s))
    ensures SomeFlag(t) <==> SomeFlag(s)
  {
    assert forall x :: x in Leaves(t) <==> x in Elements(Leaves(t));
    assert forall x :: x in Leaves(s) <==> x in Elements(Leaves(s));
  }

  lemma SameUnion(t: Tree<Finding>, s: Tree<Finding>, f: Finding, g: Finding, u: Union)
    requires Elements(Leaves(t)) == Elements(Leaves(s))
    requires IsFirst(Less(u), Cap(u), AllKeys(Keys(u), t), Keys(u)(f)) && IsFirst(Less(u), Cap(u), AllKeys(Keys(u), s), Keys(u)(g))
    ensures Keys(u)(f) == Keys(u)(g) && AllKeys(Keys(u), t) == AllKeys(Keys(u), s)
  {
    LessTotal(u);
    SameLeavesSameKeys(Keys(u), t, s);
    FirstUnique(Less(u), Cap(u), AllKeys(Keys(u), t), Keys(u)(f), Keys(u)(g));
  }

  /** Lists with ascending keys and the same key sets have the same keys. */
  lemma SameListings(f: Finding, g: Finding)
    requires forall u: Union :: Keys(u)(f) == Keys(u)(g)
    requires Ascending(StringLess, KeysOf(EvidenceKey, f.evidence)) && Ascending(StringLess, KeysOf(EvidenceKey, g.evidence))
    requires Ascending(StringLess, KeysOf(IdentityKey, f.related)) && Ascending(StringLess, KeysOf(IdentityKey, g.related))
    requires Ascending(StringLess, KeysOf(EdgeKey, f.relationships)) && Ascending(StringLess, KeysOf(EdgeKey, g.relationships))
    ensures KeysOf(EvidenceKey, f.evidence) == KeysOf(EvidenceKey, g.evidence)
    ensures KeysOf(IdentityKey, f.related) == KeysOf(IdentityKey, g.related)
    ensures KeysOf(EdgeKey, f.relationships) == KeysOf(EdgeKey, g.relationships)
    ensures f.metadata.Keys == g.metadata.Keys
  {
    assert Keys(EvidenceUnion)(f) == Keys(EvidenceUnion)(g);
    assert Keys(RelatedUnion)(f) == Keys(RelatedUnion)(g);
    assert Keys(EdgeUnion)(f) == Keys(EdgeUnion)(g);
    assert Keys(MetadataUnionKeys)(f) == Keys(MetadataUnionKeys)(g);
    StringOrder();
    AscendingUnique(StringLess, KeysOf(EvidenceKey, f.evidence), KeysOf(EvidenceKey, g.evidence));
    AscendingUnique(StringLess, KeysOf(IdentityKey, f.related), KeysOf(IdentityKey, g.related));
    AscendingUnique(StringLess, KeysOf(EdgeKey, f.relationships), KeysOf(EdgeKey, g.relationships));
  }

  lemma SameLabel(t: Tree<Finding>, s: Tree<Finding>, f: Finding, g: Finding)
    requires BestLabel(t, f) && BestLabel(s, g) && Elements(Leaves(t)) == Elements(Leaves(s))
    ensures LabelRank(f) == LabelRank(g)
  {
    assert forall x :: x in Leaves(t) <==> x in Elements(Leaves(t));
    assert forall x :: x in Leaves(s) <==> x in Elements(Leaves(s));
    RankOrder();
  }

  lemma SameTimes(t: Tree<Finding>, s: Tree<Finding>, f: Finding, g: Finding)
    requires BestTimes(t, f) && BestTimes(s, g) && Elements(Leaves(t)) == Elements(Leaves(s))
    ensures f.created == g.created && f.updated == g.updated
  {
    assert forall x :: x in Leaves(t) <==> x in Elements(Leaves(t));
    assert forall x :: x in Leaves(s) <==> x in Elements(Leaves(s));
  }

  // ----- field by field

  /** m is labelled as f is. */
  ghost predicate LabelledAs(m: Finding, f: Finding) {
    && m.ruleName == f.ruleName && m.category == f.category && m.priority == f.priority && m.status == f.status
    && m.confidence == f.confidence
  }

  /** f is more confident, or as confident and smaller in the first of rule name,
      category, priority and status in which the two differ. */
  ghost predicate LabelsFirst(f: Finding, g: Finding) {
    || f.confidence > g.confidence
    || (f.confidence == g.confidence && StringLess(f.ruleName, g.ruleName))
    || (f.confidence == g.confidence && f.ruleName == g.ruleName && StringLess(f.category, g.category))
    || (f.confidence == g.confidence && f.ruleName == g.ruleName && f.category == g.category && StringLess(f.priority, g.priority))
    || (f.confidence == g.confidence && f.ruleName == g.ruleName && f.category == g.category && f.priority == g.priority
        && StringLess(f.status, g.status))
  }

  lemma LabelsFirstIff(f: Finding, g: Finding)
    ensures LabelsFirst(f, g) <==> RankLess(LabelRank(f), LabelRank(g))
  {
    FieldsLessFour([f.ruleName, f.category, f.priority, f.status], [g.ruleName, g.category, g.priority, g.status]);
  }

  lemma SameLabels(m: Finding, f: Finding)
    requires LabelRank(m) == LabelRank(f)
    ensures LabelledAs(m, f)
  {
    var x, y := LabelRank(m).labels, LabelRank(f).labels;
    assert x[0] == m.ruleName && x[1] == m.category && x[2] == m.priority && x[3] == m.status;
    assert y[0] == f.ruleName && y[1] == f.category && y[2] == f.priority && y[3] == f.status;
  }

  /** However observations are merged, one of the most confident labels the finding,
      the one with the smallest labels; none of them is more confident than it. */
  lemma FoldLabels(t: Tree<Finding>, key: string)
    requires OneFinding(t, key)
    ensures Fold(t).Ok? && exists x :: x in Leaves(t) && LabelledAs(Fold(t).value, x)
    ensures forall x :: x in Leaves(t) ==> x.confidence <= Fold(t).value.confidence && !LabelsFirst(x, Fold(t).value)
  {
    FoldKeepsFirst(t, key);
    var m := Fold(t).value;
    var x :| x in Leaves(t) && LabelRank(x) == LabelRank(m);
    SameLabels(m, x);
    forall y | y in Leaves(t) ensures !LabelsFirst(y, m) {
      LabelsFirstIff(y, m);
    }
  }

  function EvidenceProv(e: Evidence): Provenance { e.prov }

  /** Each merged evidence record carries the earliest provenance of its identity. */
  lemma EvidenceEarliest(a: Finding, b: Finding, e: Evidence)
    requires a.Key() == b.Key() && e in Merge(a, b).value.evidence
    ensures EarliestOfKey(EvidenceKey, EvidenceProv, a.evidence + b.evidence, e)
  {
    DedupeEarliest(EvidenceKey, CombineEvidence, EvidenceProv, a.evidence + b.evidence);
  }
}
