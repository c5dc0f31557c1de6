/** The laws the engine's model asks of JSON can be met: an encoding of findings and
    of prior views that meets them, and a world that has them. */
module Encoders {
  import opened Wrappers
  import opened Text
  import opened Order
  import opened Merging
  import opened Identities
  import opened Findings
  import opened FindingJson
  import opened Registries
  import opened RuleViews

  // ----- lists of strings

  /** Each string with its length in front. */
  function Net(list: seq<string>): string {
    if list == [] then "" else Decimal(|list[0]|) + ":" + (list[0] + Net(list[1..]))
  }

  lemma DigitsFree(s: string)
    requires AllDigits(s)
    ensures Free(s, ':')
  {
  }

  lemma {:induction false} NetInjective(a: seq<string>, b: seq<string>)
    requires Net(a) == Net(b)
    ensures a == b
    decreases |a|
  {
    if a != [] && b != [] {
      NetHead(a);
      NetHead(b);
      var n := |a[0]|;
      var x, y := a[0] + Net(a[1..]), b[0] + Net(b[1..]);
      assert x == y && n == |b[0]|;
      assert x[..n] == a[0] && y[..n] == b[0];
      assert x[n..] == Net(a[1..]) && y[n..] == Net(b[1..]);
      NetInjective(a[1..], b[1..]);
      assert a == [a[0]] + a[1..] && b == [b[0]] + b[1..];
    }
  }

  /** The first string's length is what stands before the first colon. */
  lemma NetHead(a: seq<string>)
    requires a != []
    ensures Cut(Net(a), ":") == Some((Decimal(|a[0]|), a[0] + Net(a[1..])))
    ensures Value(Decimal(|a[0]|)) == |a[0]|
  {
    DigitsFree(Decimal(|a[0]|));
    ValueDecimal(|a[0]|);
    Associative(Decimal(|a[0]|), ":", a[0] + Net(a[1..]));
    CutFree(Decimal(|a[0]|), ":", a[0] + Net(a[1..]));
  }

  lemma {:induction false} MapInjective<T(!new)>(f: T -> string, a: seq<T>, b: seq<T>)
    requires Injective(f) && Net(Map(f, a)) == Net(Map(f, b))
    ensures a == b
  {
    NetInjective(Map(f, a), Map(f, b));
    assert |a| == |b|;
    forall i | 0 <= i < |a| ensures a[i] == b[i] {
      assert Map(f, a)[i] == Map(f, b)[i];
    }
  }

  // ----- the parts of a finding

  function IntText(n: int): string {
    if n < 0 then "-" + Decimal(-n) else Decimal(n)
  }

  lemma IntInjective()
    ensures Injective(IntText)
  {
    forall m, n | IntText(m) == IntText(n) ensures m == n {
      ValueDecimal(if m < 0 then -m else m);
      ValueDecimal(if n < 0 then -n else n);
      if m < 0 {
        assert IntText(m)[0] == '-' && IntText(m)[1..] == Decimal(-m);
      }
      if n < 0 {
        assert IntText(n)[0] == '-' && IntText(n)[1..] == Decimal(-n);
      }
    }
  }

  function IdentityText(i: Identity): string { Net([i.kind, i.value]) }

  lemma IdentityInjective()
    ensures Injective(IdentityText)
  {
    forall a, b | IdentityText(a) == IdentityText(b) ensures a == b {
      var x, y := [a.kind, a.value], [b.kind, b.value];
      NetInjective(x, y);
      assert x[0] == y[0] && x[1] == y[1];
    }
  }

  function EdgeText(r: Relationship): string { Net([IdentityText(r.from), r.kind, IdentityText(r.to)]) }

  lemma EdgeInjective()
    ensures Injective(EdgeText)
  {
    IdentityInjective();
    forall a, b | EdgeText(a) == EdgeText(b) ensures a == b {
      var x, y := [IdentityText(a.from), a.kind, IdentityText(a.to)], [IdentityText(b.from), b.kind, IdentityText(b.to)];
      NetInjective(x, y);
      assert x[0] == y[0] && x[1] == y[1] && x[2] == y[2];
    }
  }

  function ProvenanceText(p: Provenance): string {
    Net([p.source, IntText(p.discoveredAt), p.reference, IntText(p.confidence)])
  }

  lemma ProvenanceInjective()
    ensures Injective(ProvenanceText)
  {
    IntInjective();
    forall a, b | ProvenanceText(a) == ProvenanceText(b) ensures a == b {
      var x := [a.source, IntText(a.discoveredAt), a.reference, IntText(a.confidence)];
      var y := [b.source, IntText(b.discoveredAt), b.reference, IntText(b.confidence)];
      NetInjective(x, y);
      assert x[0] == y[0] && x[1] == y[1] && x[2] == y[2] && x[3] == y[3];
    }
  }

  function EvidenceText(e: Evidence): string {
    Net([e.mode, e.indicator, e.value, IdentityText(e.source), ProvenanceText(e.prov)])
  }

  lemma EvidenceInjective()
    ensures Injective(EvidenceText)
  {
    IdentityInjective();
    ProvenanceInjective();
    forall a, b | EvidenceText(a) == EvidenceText(b) ensures a == b {
      var x := [a.mode, a.indicator, a.value, IdentityText(a.source), ProvenanceText(a.prov)];
      var y := [b.mode, b.indicator, b.value, IdentityText(b.source), ProvenanceText(b.prov)];
      NetInjective(x, y);
      assert x[0] == y[0] && x[1] == y[1] && x[2] == y[2] && x[3] == y[3] && x[4] == y[4];
    }
  }

  ghost function Entry(m: map<string, string>): string -> string {
    (k: string) => Net([k, if k in m then m[k] else ""])
  }

  /** The entries of a map in the order of their keys. */
  ghost function MetadataText(m: map<string, string>): string {
    Net(Map(Entry(m), InOrder(m.Keys)))
  }

  lemma SameMetadata(a: map<string, string>, b: map<string, string>)
    requires MetadataText(a) == MetadataText(b)
    ensures a == b
  {
    var ks, js := InOrder(a.Keys), InOrder(b.Keys);
    var x, y := Map(Entry(a), ks), Map(Entry(b), js);
    NetInjective(x, y);
    forall i | 0 <= i < |ks| ensures ks[i] == js[i] && ks[i] in a && js[i] in b && a[ks[i]] == b[js[i]] {
      assert ks[i] in Elements(ks) && js[i] in Elements(js);
      assert x[i] == Entry(a)(ks[i]) && y[i] == Entry(b)(js[i]);
      SameEntry(a, b, ks[i], js[i]);
    }
    SameMaps(a, b, ks, js);
  }

  lemma SameEntry(a: map<string, string>, b: map<string, string>, k: string, j: string)
    requires k in a && j in b && Entry(a)(k) == Entry(b)(j)
    ensures k == j && a[k] == b[j]
  {
    var p, q := [k, a[k]], [j, b[j]];
    NetInjective(p, q);
    assert p[0] == q[0] && p[1] == q[1];
  }

  lemma SameMaps(a: map<string, string>, b: map<string, string>, ks: seq<string>, js: seq<string>)
    requires Elements(ks) == a.Keys && Elements(js) == b.Keys && |ks| == |js|
    requires forall i :: 0 <= i < |ks| ==> ks[i] == js[i] && ks[i] in a && js[i] in b && a[ks[i]] == b[js[i]]
    ensures a == b
  {
    assert ks == js;
    forall k | k in a || k in b ensures k in a && k in b && a[k] == b[k] {
      assert k in Elements(ks);
      var i :| 0 <= i < |ks| && ks[i] == k;
    }
  }

  // ----- findings

  ghost function Labels(f: Finding): seq<string> {
    [f.ruleId, f.ruleName, f.category, f.priority, f.status, if f.truncated then "t" else ""]
  }

  ghost function Numbers(f: Finding): seq<string> {
    [IntText(f.confidence), IntText(f.created), IntText(f.updated)]
  }

  ghost function Parts(f: Finding): seq<string> {
    [IdentityText(f.subject), Net(Map(EvidenceText, f.evidence)), Net(Map(IdentityText, f.related)),
     Net(Map(EdgeText, f.relationships)), MetadataText(f.metadata)]
  }

  ghost function FindingText(f: Finding): string {
    Net([Net(Labels(f)), Net(Numbers(f)), Net(Parts(f))])
  }

  lemma SameLabels(a: Finding, b: Finding)
    requires Labels(a) == Labels(b)
    ensures a.ruleId == b.ruleId && a.ruleName == b.ruleName && a.category == b.category
    ensures a.priority == b.priority && a.status == b.status && a.truncated == b.truncated
  {
    var x, y := Labels(a), Labels(b);
    assert x[0] == y[0] && x[1] == y[1] && x[2] == y[2] && x[3] == y[3] && x[4] == y[4] && x[5] == y[5];
  }

  lemma SameNumbers(a: Finding, b: Finding)
    requires Numbers(a) == Numbers(b)
    ensures a.confidence == b.confidence && a.created == b.created && a.updated == b.updated
  {
    var x, y := Numbers(a), Numbers(b);
    IntInjective();
    assert x[0] == y[0] && x[1] == y[1] && x[2] == y[2];
  }

  lemma SameParts(a: Finding, b: Finding)
    requires Parts(a) == Parts(b)
    ensures a.subject == b.subject && a.evidence == b.evidence && a.related == b.related
    ensures a.relationships == b.relationships && a.metadata == b.metadata
  {
    var x, y := Parts(a), Parts(b);
    assert x[0] == y[0] && x[1] == y[1] && x[2] == y[2] && x[3] == y[3] && x[4] == y[4];
    IdentityInjective();
    EvidenceInjective();
    EdgeInjective();
    MapInjective(EvidenceText, a.evidence, b.evidence);
    MapInjective(IdentityText, a.related, b.related);
    MapInjective(EdgeText, a.relationships, b.relationships);
    SameMetadata(a.metadata, b.metadata);
  }

  lemma FindingInjective(a: Finding, b: Finding)
    requires FindingText(a) == FindingText(b)
    ensures a == b
  {
    var x, y := [Net(Labels(a)), Net(Numbers(a)), Net(Parts(a))], [Net(Labels(b)), Net(Numbers(b)), Net(Parts(b))];
    NetInjective(x, y);
    assert x[0] == y[0] && x[1] == y[1] && x[2] == y[2];
    NetInjective(Labels(a), Labels(b));
    NetInjective(Numbers(a), Numbers(b));
    NetInjective(Parts(a), Parts(b));
    SameLabels(a, b);
    SameNumbers(a, b);
    SameParts(a, b);
  }

  ghost function FindingForm(f: Finding): string {
    match Image(f)
    case Some(g) => FindingText(g)
    case None => ""
  }

  ghost function ViewForm(v: PriorView): string {
    Net([v.key, IntText(v.confidence), MetadataText(v.metadata)])
  }

  lemma ViewFormInjective()
    ensures Injective(ViewForm)
  {
    IntInjective();
    forall a, b | ViewForm(a) == ViewForm(b) ensures a == b {
      var x, y := [a.key, IntText(a.confidence), MetadataText(a.metadata)], [b.key, IntText(b.confidence), MetadataText(b.metadata)];
      NetInjective(x, y);
      assert x[0] == y[0] && x[1] == y[1] && x[2] == y[2];
      SameMetadata(a.metadata, b.metadata);
    }
  }

  lemma FindingTextNotEmpty(f: Finding)
    ensures FindingText(f) != ""
  {
  }

  lemma FindingFormMarshals()
    ensures Marshals((f: Finding) => FindingForm(f))
  {
    forall a, b ensures FindingForm(a) == FindingForm(b) <==> Image(a) == Image(b) {
      match (Image(a), Image(b))
      case (Some(x), Some(y)) =>
        if FindingText(x) == FindingText(y) {
          FindingInjective(x, y);
        }
      case (Some(x), None) => FindingTextNotEmpty(x);
      case (None, Some(y)) => FindingTextNotEmpty(y);
      case (None, None) =>
    }
  }

  /** Whatever the detectors, the form check and the identities observed are, there
      are JSON forms that obey the laws. */
  lemma SoundWorldExists(canonical: Finding -> bool, observes: SnapshotView -> set<Identity>, detect: (Rule, View) -> Detection)
      returns (w: World)
    ensures Sound(w) && Marshals(w.json) && w.canonical == canonical && w.observes == observes && w.detect == detect
  {
    w := World((f: Finding) => FindingForm(f), (v: PriorView) => ViewForm(v), canonical, observes, detect);
    FindingFormMarshals();
    ViewFormInjective();
  }
}
