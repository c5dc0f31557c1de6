/** The key a rule's result is filed under, and what it settles
    (internal/detect/record.go; internal/cache/key.go). */
module RuleKeys {
  import opened Order
  import opened Merging
  import opened Identities
  import opened Findings
  import opened JsonText
  import opened FindingJson
  import opened Registries
  import opened RuleViews

  const OPERATION := "detect.rule"

  // ----- what digests and keys cover

  // SHA-256 and the JSON of the digested forms are free constructors: two
  // digests are equal only when the digested forms are. The texts in a form are
  // those JSON writes.

  datatype Digest = Sha256(form: Form)

  type Pair = (string, Part)

  /** The serialised forms that are digested. */
  datatype Form =
    | EdgeForm(ids: seq<string>)
    | PriorForm(forms: seq<string>)
    | CombinedForm(graph: Digest, prior: Digest)
    | SnapshotForm(view: SnapshotView, graph: Digest)
    | RuleForm(meta: Rule)
    | KeyForm(op: string, target: string, parts: seq<Pair>)

  datatype Part = Text(text: string) | Hash(digest: Digest)

  /** Names, descriptions and authors are the only texts of a rule that are not
      held to a vocabulary. */
  function WrittenRule(r: Rule): Rule {
    MetaOf(r).(name := Written(r.name), description := Written(r.description), author := Written(r.author))
  }

  function WrittenEntry(e: Entry): Entry {
    Entry(Written(e.id), Map(Written, e.fields))
  }

  function WrittenListing(l: Listing): Listing {
    Map(WrittenEntry, l)
  }

  function WrittenSnapshot(v: SnapshotView): SnapshotView {
    SnapshotView(WrittenListing(v.edges), Map(WrittenListing, v.domains))
  }

  function WrittenView(v: PriorView): PriorView {
    v.(metadata := WrittenMetadata(v.metadata))
  }

  /** fingerprintGraph. */
  function GraphHash(snapshot: SnapshotView): Digest {
    Sha256(EdgeForm(Map(Written, Sort(StringLess, KeysOf(EntryId, snapshot.edges)))))
  }

  /** fingerprintSnapshot. */
  function SnapshotFingerprint(snapshot: SnapshotView): Digest {
    Sha256(SnapshotForm(WrittenSnapshot(snapshot), GraphHash(snapshot)))
  }

  /** fingerprintPriorFindings: the sorted forms, so arrival order is gone. */
  function PriorFingerprint(w: World, prior: seq<Finding>): Digest {
    Sha256(PriorForm(Sort(StringLess, KeysOf(w.priorJson, Map(WrittenView, Views(prior))))))
  }

  /** graphDigest. */
  function GraphDigest(w: World, graph: Digest, prior: seq<Finding>): Digest {
    if prior == [] then graph else Sha256(CombinedForm(graph, PriorFingerprint(w, prior)))
  }

  /** The configuration as a list, in the order of its names. */
  ghost function Entries(config: map<string, string>): Listing {
    Map(EntryOf(config), InOrder(config.Keys))
  }

  function EntryOf(config: map<string, string>): string -> Entry {
    (k: string) => Entry(k, [if k in config then config[k] else ""])
  }

  function CfgKey(k: string): string { "cfg:" + k }

  function CfgPair(e: Entry): Pair {
    (CfgKey(e.id), Text(if e.fields == [] then "" else e.fields[0]))
  }

  /** The configuration's parts of a key. */
  ghost function CfgPairs(config: map<string, string>): seq<Pair> {
    Map(CfgPair, WrittenListing(Entries(config)))
  }

  /** The other parts; their names come after every "cfg:" name. */
  function FixedPairs(r: Rule, snapshotFP: Digest, graphDigest: Digest): seq<Pair> {
    [("graph_digest", Hash(graphDigest)), ("inputs", Hash(snapshotFP)), ("rule", Hash(Sha256(RuleForm(WrittenRule(r))))),
     ("schema", Text("4")), ("version", Text(r.version))]
  }

  /** ruleKey. */
  ghost function RuleKey(r: Rule, snapshotFP: Digest, graphDigest: Digest, config: map<string, string>): Digest {
    Sha256(KeyForm(OPERATION, "rule:" + r.id, CfgPairs(config) + FixedPairs(r, snapshotFP, graphDigest)))
  }

  ghost function KeyFor(w: World, l: Lookup): Digest {
    RuleKey(l.rule, SnapshotFingerprint(l.snapshot), GraphDigest(w, GraphHash(l.snapshot), l.prior), l.config)
  }

  lemma CfgOrder(a: string, b: string)
    ensures StringLess(CfgKey(a), CfgKey(b)) <==> StringLess(a, b)
    ensures StringLess(CfgKey(a), "graph_digest")
  {
    var x, y := CfgKey(a), CfgKey(b);
    assert x[1..] == "fg:" + a && y[1..] == "fg:" + b;
    assert x[1..][1..] == "g:" + a && y[1..][1..] == "g:" + b;
    assert x[1..][1..][1..] == ":" + a && y[1..][1..][1..] == ":" + b;
    assert x[1..][1..][1..][1..] == a && y[1..][1..][1..][1..] == b;
  }

  const FIXED_NAMES := ["graph_digest", "inputs", "rule", "schema", "version"]

  /** The parts are listed in the order in which the key sorts them. */
  lemma PairsInOrder(config: map<string, string>)
    ensures Ascending(StringLess, Map(CfgKey, InOrder(config.Keys)) + FIXED_NAMES)
  {
    StringOrder();
    var ks := InOrder(config.Keys);
    var names := Map(CfgKey, ks);
    assert forall i, j :: 0 <= i < j < 5 ==> StringLess(FIXED_NAMES[i], FIXED_NAMES[j]);
    forall i, j | 0 <= i < j < |names| + 5 ensures StringLess((names + FIXED_NAMES)[i], (names + FIXED_NAMES)[j]) {
      if i < |names| {
        CfgOrder(ks[i], if j < |names| then ks[j] else "");
        assert j == |names| || j < |names| || StringLess(FIXED_NAMES[0], FIXED_NAMES[j - |names|]);
      }
    }
  }

  lemma {:induction false} PairsIff(a: map<string, string>, b: map<string, string>)
    ensures CfgPairs(a) == CfgPairs(b) <==> WrittenListing(Entries(a)) == WrittenListing(Entries(b))
  {
    var x, y := WrittenListing(Entries(a)), WrittenListing(Entries(b));
    if CfgPairs(a) == CfgPairs(b) {
      assert |x| == |CfgPairs(a)| == |CfgPairs(b)| == |y|;
      forall i | 0 <= i < |x| ensures x[i] == y[i] {
        assert CfgPairs(a)[i] == CfgPair(x[i]) && CfgPairs(b)[i] == CfgPair(y[i]);
        assert |x[i].fields| == 1 && |y[i].fields| == 1;
        PairTells(x[i], y[i]);
      }
    }
  }

  lemma PairTells(x: Entry, y: Entry)
    requires |x.fields| == 1 && |y.fields| == 1 && CfgPair(x) == CfgPair(y)
    ensures x == y
  {
    assert CfgKey(x.id)[4..] == x.id && CfgKey(y.id)[4..] == y.id;
    assert x.fields == [x.fields[0]] && y.fields == [y.fields[0]];
  }

  /** What a key tells of the rule, the fingerprints and the configuration, and
      nothing else. */
  lemma RuleKeyIff(r1: Rule, s1: Digest, g1: Digest, c1: map<string, string>,
                   r2: Rule, s2: Digest, g2: Digest, c2: map<string, string>)
    ensures RuleKey(r1, s1, g1, c1) == RuleKey(r2, s2, g2, c2)
       <==> WrittenRule(r1) == WrittenRule(r2) && s1 == s2 && g1 == g2 && CfgPairs(c1) == CfgPairs(c2)
  {
    var f1, f2 := FixedPairs(r1, s1, g1), FixedPairs(r2, s2, g2);
    var p1, p2 := CfgPairs(c1) + f1, CfgPairs(c2) + f2;
    if p1 == p2 {
      var n := |CfgPairs(c1)|;
      assert |p1| == n + 5 && |p2| == |CfgPairs(c2)| + 5;
      assert p1[..n] == CfgPairs(c1) && p2[..n] == CfgPairs(c2);
      assert p1[n..] == f1 && p2[n..] == f2;
      assert f1[0] == f2[0] && f1[1] == f2[1] && f1[2] == f2[2];
    }
    if WrittenRule(r1) == WrittenRule(r2) {
      assert r1.id == WrittenRule(r1).id && r1.version == WrittenRule(r1).version;
      assert r2.id == WrittenRule(r2).id && r2.version == WrittenRule(r2).version;
    }
  }

  /** Rules of different identities never share a key. */
  lemma KeysNameRules(w: World, a: Lookup, b: Lookup)
    requires KeyFor(w, a) == KeyFor(w, b)
    ensures a.rule.id == b.rule.id
  {
    RuleKeyIff(a.rule, SnapshotFingerprint(a.snapshot), GraphDigest(w, GraphHash(a.snapshot), a.prior), a.config,
               b.rule, SnapshotFingerprint(b.snapshot), GraphDigest(w, GraphHash(b.snapshot), b.prior), b.config);
    assert WrittenRule(a.rule).id == a.rule.id && WrittenRule(b.rule).id == b.rule.id;
  }

  /** The prior findings a level sees: identities strictly ascending. */
  ghost predicate PriorOk(prior: seq<Finding>) {
    Ascending(StringLess, KeysOf(FindingKey, prior))
  }

  function ViewKey(v: PriorView): string { v.key }

  lemma ViewKeys(p: seq<Finding>)
    ensures KeysOf(ViewKey, Map(WrittenView, Views(p))) == KeysOf(FindingKey, p)
  {
  }

  lemma AscendingCounts(s: seq<string>)
    requires Ascending(StringLess, s)
    ensures Distinct(s)
  {
    StringOrder();
  }

  /** The digest of prior findings tells their views, as JSON writes them. */
  lemma PriorDigestIff(w: World, p1: seq<Finding>, p2: seq<Finding>)
    requires Sound(w) && PriorOk(p1) && Sorted(ByKey(FindingKey), p2)
    ensures PriorFingerprint(w, p1) == PriorFingerprint(w, p2) <==> Map(WrittenView, Views(p1)) == Map(WrittenView, Views(p2))
  {
    var v1, v2 := Map(WrittenView, Views(p1)), Map(WrittenView, Views(p2));
    StringOrder();
    SortCanonical(StringLess, KeysOf(w.priorJson, v1), KeysOf(w.priorJson, v2));
    if PriorFingerprint(w, p1) == PriorFingerprint(w, p2) {
      InjectiveKeys(w.priorJson, v1, v2);
      ViewKeys(p1);
      ViewKeys(p2);
      SameKeysDistinct(v1, v2);
      KeysOfSorted(FindingKey, p2);
      AscendingDistinct(StringLess, KeysOf(ViewKey, v2));
      KeyedUnique(ViewKey, v1, v2);
    }
  }

  lemma SameKeysDistinct(v1: seq<PriorView>, v2: seq<PriorView>)
    requires multiset(v1) == multiset(v2) && Ascending(StringLess, KeysOf(ViewKey, v1))
    ensures Distinct(KeysOf(ViewKey, v2))
  {
    KeysOfPermutation(ViewKey, v1, v2);
    AscendingCounts(KeysOf(ViewKey, v1));
    DistinctCounts(KeysOf(ViewKey, v1));
    DistinctCounts(KeysOf(ViewKey, v2));
  }

  lemma GraphDigestSplits(w: World, g1: Digest, p1: seq<Finding>, g2: Digest, p2: seq<Finding>)
    requires g1.form.EdgeForm? && g2.form.EdgeForm?
    ensures GraphDigest(w, g1, p1) == GraphDigest(w, g2, p2)
       <==> g1 == g2 && (p1 == [] <==> p2 == []) && (p1 == [] || PriorFingerprint(w, p1) == PriorFingerprint(w, p2))
  {
  }

  /** The graph's digest tells nothing the corpus's does not. */
  lemma SameEdgesSameHash(v1: SnapshotView, v2: SnapshotView)
    requires NormalSnapshot(v1) && NormalSnapshot(v2) && WrittenListing(v1.edges) == WrittenListing(v2.edges)
    ensures GraphHash(v1) == GraphHash(v2)
  {
    NormalStays(v1.edges);
    NormalStays(v2.edges);
    WrittenIds(v1.edges);
    WrittenIds(v2.edges);
  }

  lemma NormalStays(l: Listing)
    requires Normal(l)
    ensures Sort(StringLess, KeysOf(EntryId, l)) == KeysOf(EntryId, l)
  {
    AscendingSorted(KeysOf(EntryId, l));
    SortedFixed(StringLess, KeysOf(EntryId, l));
  }

  lemma NotBoth(a: string, b: string)
    ensures !(StringLess(a, b) && StringLess(b, a))
  {
    if StringLess(a, b) && StringLess(b, a) {
      StringLessTransitive(a, b, a);
      StringLessIrreflexive(a);
    }
  }

  lemma AscendingSorted(s: seq<string>)
    requires Ascending(StringLess, s)
    ensures Sorted(StringLess, s)
  {
    forall i, j | 0 <= i < j < |s| ensures !StringLess(s[j], s[i]) {
      NotBoth(s[i], s[j]);
    }
  }

  lemma WrittenIds(l: Listing)
    ensures Map(Written, KeysOf(EntryId, l)) == KeysOf(EntryId, WrittenListing(l))
  {
  }

  /** What JSON writes of all that a lookup is given. */
  ghost predicate WrittenAlike(a: Lookup, b: Lookup) {
    && WrittenRule(a.rule) == WrittenRule(b.rule)
    && WrittenSnapshot(a.snapshot) == WrittenSnapshot(b.snapshot)
    && Map(WrittenView, Views(a.prior)) == Map(WrittenView, Views(b.prior))
    && WrittenListing(Entries(a.config)) == WrittenListing(Entries(b.config))
  }

  /** Exactly what two lookups under one key have in common: what JSON writes of
      the rule, the corpus, the configuration and the prior judgments. */
  lemma SameKeyIff(w: World, a: Lookup, b: Lookup)
    requires Sound(w) && Normalised(a) && PriorOk(a.prior) && Normalised(b)
    ensures KeyFor(w, a) == KeyFor(w, b) <==> WrittenAlike(a, b)
  {
    var g1, g2 := GraphHash(a.snapshot), GraphHash(b.snapshot);
    RuleKeyIff(a.rule, SnapshotFingerprint(a.snapshot), GraphDigest(w, g1, a.prior), a.config,
               b.rule, SnapshotFingerprint(b.snapshot), GraphDigest(w, g2, b.prior), b.config);
    PairsIff(a.config, b.config);
    PriorDigestIff(w, a.prior, b.prior);
    GraphDigestSplits(w, g1, a.prior, g2, b.prior);
    assert |Map(WrittenView, Views(a.prior))| == |a.prior| && |Map(WrittenView, Views(b.prior))| == |b.prior|;
    assert Map(WrittenView, Views([])) == [];
    if WrittenSnapshot(a.snapshot) == WrittenSnapshot(b.snapshot) {
      assert WrittenListing(a.snapshot.edges) == WrittenSnapshot(a.snapshot).edges;
      SameEdgesSameHash(a.snapshot, b.snapshot);
    }
  }

  // ----- lists that nothing else is written like

  /** t may take the place of the i-th identity and keep the order. */
  predicate Fits(l: Listing, i: nat, t: string)
    requires i < |l|
  {
    (i > 0 ==> StringLess(l[i - 1].id, t)) && (i + 1 < |l| ==> StringLess(t, l[i + 1].id))
  }

  predicate ValidFields(e: Entry) {
    forall j :: 0 <= j < |e.fields| ==> ValidUtf8(e.fields[j])
  }

  /** Every field is valid UTF-8, and no identity can give way, in its place, to another
      that is written alike. */
  ghost predicate Lone(l: Listing) {
    && (forall i :: 0 <= i < |l| ==> ValidFields(l[i]))
    && forall i, t :: 0 <= i < |l| && Fits(l, i, t) && Written(t) == Written(l[i].id) ==> t == l[i].id
  }

  /** Every text is valid UTF-8. */
  predicate ValidListing(l: Listing) {
    forall i :: 0 <= i < |l| ==> ValidUtf8(l[i].id) && ValidFields(l[i])
  }

  lemma ValidIsLone(l: Listing)
    requires ValidListing(l)
    ensures Lone(l)
  {
    forall i, t | 0 <= i < |l| && Fits(l, i, t) && Written(t) == Written(l[i].id) ensures t == l[i].id {
      ValidTold(l[i].id, t);
    }
  }

  lemma ValidFieldsSame(x: Entry, y: Entry)
    requires ValidFields(x) && WrittenEntry(x) == WrittenEntry(y)
    ensures x.fields == y.fields
  {
    var f, g := x.fields, y.fields;
    assert Map(Written, f) == WrittenEntry(x).fields && Map(Written, g) == WrittenEntry(y).fields;
    assert |f| == |g|;
    forall j | 0 <= j < |f| ensures f[j] == g[j] {
      assert Map(Written, f)[j] == Written(f[j]) && Map(Written, g)[j] == Written(g[j]);
      AloneIffValid(f[j]);
    }
  }

  /** The first identity of m that is smaller than l's fits in its place; so does
      the last that is greater. */
  lemma SmallerFits(l: Listing, m: Listing, i: nat)
    requires Normal(l) && Normal(m) && |l| == |m| && i < |l| && StringLess(m[i].id, l[i].id)
    requires forall j :: 0 <= j < i ==> !StringLess(m[j].id, l[j].id)
    ensures Fits(l, i, m[i].id)
  {
    StringOrder();
    var x, y := KeysOf(EntryId, l), KeysOf(EntryId, m);
    if i > 0 {
      assert StringLess(y[i - 1], y[i]) && !StringLess(y[i - 1], x[i - 1]);
    }
    if i + 1 < |l| {
      assert StringLess(x[i], x[i + 1]);
    }
  }

  lemma GreaterFits(l: Listing, m: Listing, i: nat)
    requires Normal(l) && Normal(m) && |l| == |m| && i < |l| && StringLess(l[i].id, m[i].id)
    requires forall j :: i < j < |l| ==> !StringLess(l[j].id, m[j].id)
    ensures Fits(l, i, m[i].id)
  {
    StringOrder();
    var x, y := KeysOf(EntryId, l), KeysOf(EntryId, m);
    if i > 0 {
      assert StringLess(x[i - 1], x[i]);
    }
    if i + 1 < |l| {
      assert StringLess(y[i], y[i + 1]) && !StringLess(x[i + 1], y[i + 1]);
    }
  }

  lemma {:induction false} FirstSmaller(l: Listing, m: Listing, n: nat) returns (i: nat)
    requires |l| == |m| && n < |l| && StringLess(m[n].id, l[n].id)
    ensures i <= n && StringLess(m[i].id, l[i].id) && forall j :: 0 <= j < i ==> !StringLess(m[j].id, l[j].id)
  {
    if k :| 0 <= k < n && StringLess(m[k].id, l[k].id) {
      i := FirstSmaller(l, m, k);
    } else {
      i := n;
    }
  }

  lemma {:induction false} LastGreater(l: Listing, m: Listing, n: nat) returns (i: nat)
    requires |l| == |m| && n < |l| && StringLess(l[n].id, m[n].id)
    ensures n <= i < |l| && StringLess(l[i].id, m[i].id) && forall j :: i < j < |l| ==> !StringLess(l[j].id, m[j].id)
    decreases |l| - n
  {
    if k :| n < k < |l| && StringLess(l[k].id, m[k].id) {
      i := LastGreater(l, m, k);
    } else {
      i := n;
    }
  }

  lemma LoneIds(l: Listing, m: Listing, i: nat)
    requires Normal(l) && Normal(m) && Lone(l) && WrittenListing(l) == WrittenListing(m) && |l| == |m| && i < |l|
    ensures l[i].id == m[i].id
  {
    StringOrder();
    if StringLess(m[i].id, l[i].id) {
      var j := FirstSmaller(l, m, i);
      SmallerFits(l, m, j);
      SameIdText(l, m, j);
    } else if StringLess(l[i].id, m[i].id) {
      var j := LastGreater(l, m, i);
      GreaterFits(l, m, j);
      SameIdText(l, m, j);
    }
  }

  lemma SameIdText(l: Listing, m: Listing, i: nat)
    requires WrittenListing(l) == WrittenListing(m) && i < |l| && i < |m|
    ensures WrittenEntry(l[i]) == WrittenEntry(m[i]) && Written(l[i].id) == Written(m[i].id)
  {
    assert WrittenListing(l)[i] == WrittenEntry(l[i]) && WrittenListing(m)[i] == WrittenEntry(m[i]);
  }

  /** A lone list is the only normalised one written as it is. */
  lemma LoneSame(l: Listing, m: Listing)
    requires Normal(l) && Normal(m) && Lone(l) && WrittenListing(l) == WrittenListing(m)
    ensures l == m
  {
    assert |WrittenListing(l)| == |l| && |WrittenListing(m)| == |m|;
    forall i | 0 <= i < |l| ensures l[i] == m[i] {
      LoneIds(l, m, i);
      SameIdText(l, m, i);
      ValidFieldsSame(l[i], m[i]);
    }
  }

  /** Of any other list there is a second one. */
  lemma SecondListing(l: Listing) returns (m: Listing)
    requires Normal(l) && !Lone(l)
    ensures Normal(m) && WrittenListing(m) == WrittenListing(l) && m != l
  {
    if i :| 0 <= i < |l| && !ValidFields(l[i]) {
      var j :| 0 <= j < |l[i].fields| && !ValidUtf8(l[i].fields[j]);
      OtherIsAlike(l[i].fields[j]);
      var e := l[i].(fields := l[i].fields[j := Other(l[i].fields[j])]);
      assert Map(Written, e.fields) == Map(Written, l[i].fields) && e.fields[j] != l[i].fields[j];
      m := Replaced(l, i, e);
    } else {
      var i, t :| 0 <= i < |l| && Fits(l, i, t) && Written(t) == Written(l[i].id) && t != l[i].id;
      m := Replaced(l, i, l[i].(id := t));
    }
  }

  lemma Replaced(l: Listing, i: nat, e: Entry) returns (m: Listing)
    requires Normal(l) && i < |l| && WrittenEntry(e) == WrittenEntry(l[i]) && e != l[i]
    requires e.id == l[i].id || Fits(l, i, e.id)
    ensures m == l[i := e] && Normal(m) && WrittenListing(m) == WrittenListing(l) && m != l
  {
    m := l[i := e];
    if e.id == l[i].id {
      assert KeysOf(EntryId, m) == KeysOf(EntryId, l);
    } else {
      FittingIsNormal(l, i, e);
    }
    assert m[i] == e;
  }

  lemma FittingIsNormal(l: Listing, i: nat, e: Entry)
    requires Normal(l) && i < |l| && Fits(l, i, e.id)
    ensures Normal(l[i := e])
  {
    StringOrder();
    var x, y := KeysOf(EntryId, l), KeysOf(EntryId, l[i := e]);
    assert y == x[i := e.id];
    forall j, k | 0 <= j < k < |y| ensures StringLess(y[j], y[k]) {
      assert StringLess(x[j], x[k]);
      if k == i {
        assert j == i - 1 || StringLess(x[j], x[i - 1]);
      } else if j == i {
        assert k == i + 1 || StringLess(x[i + 1], x[k]);
      }
    }
  }

  // ----- configurations as lists

  lemma EntriesAreNormal(config: map<string, string>)
    ensures Normal(Entries(config)) && forall i :: 0 <= i < |Entries(config)| ==> |Entries(config)[i].fields| == 1
  {
    assert KeysOf(EntryId, Entries(config)) == InOrder(config.Keys);
  }

  lemma EntriesInjective(a: map<string, string>, b: map<string, string>)
    requires Entries(a) == Entries(b)
    ensures a == b
  {
    var ks, js := InOrder(a.Keys), InOrder(b.Keys);
    assert |Entries(a)| == |ks| && |Entries(b)| == |js|;
    forall i | 0 <= i < |ks| ensures ks[i] == js[i] && ks[i] in a && js[i] in b && a[ks[i]] == b[js[i]] {
      assert ks[i] in Elements(ks) && js[i] in Elements(js);
      assert Entries(a)[i] == EntryOf(a)(ks[i]) && Entries(b)[i] == EntryOf(b)(js[i]);
      assert EntryOf(a)(ks[i]).fields[0] == EntryOf(b)(js[i]).fields[0];
    }
    assert ks == js;
    forall k | k in a || k in b ensures k in a && k in b && a[k] == b[k] {
      assert k in Elements(ks);
    }
  }

  /** Every normalised list of single values is a configuration's. */
  lemma ConfigOf(l: Listing) returns (config: map<string, string>)
    requires Normal(l) && forall i :: 0 <= i < |l| ==> |l[i].fields| == 1
    ensures Entries(config) == l
  {
    var ids := KeysOf(EntryId, l);
    config := map k | k in Elements(ids) :: ValueAt(l, k);
    StringOrder();
    AscendingUnique(StringLess, ids, InOrder(config.Keys));
    forall i | 0 <= i < |l| ensures Entries(config)[i] == l[i] {
      assert ids[i] in Elements(ids);
      OnePlace(l, i);
      assert l[i].fields == [l[i].fields[0]];
    }
  }

  ghost function ValueAt(l: Listing, k: string): string
    requires k in KeysOf(EntryId, l) && forall i :: 0 <= i < |l| ==> |l[i].fields| == 1
  {
    var i :| 0 <= i < |l| && KeysOf(EntryId, l)[i] == k;
    l[i].fields[0]
  }

  lemma OnePlace(l: Listing, i: nat)
    requires Normal(l) && i < |l| && forall i :: 0 <= i < |l| ==> |l[i].fields| == 1
    ensures ValueAt(l, l[i].id) == l[i].fields[0]
  {
    var ids := KeysOf(EntryId, l);
    AscendingCounts(ids);
    assert ids[i] == l[i].id;
  }

  // ----- what a key settles

  predicate ValidRule(r: Rule) {
    ValidUtf8(r.name) && ValidUtf8(r.description) && ValidUtf8(r.author)
  }

  ghost predicate LoneSnapshot(v: SnapshotView) {
    Lone(v.edges) && forall i :: 0 <= i < |v.domains| ==> Lone(v.domains[i])
  }

  /** The metadata later rules may read is valid UTF-8. */
  predicate ValidPrior(prior: seq<Finding>) {
    forall i :: 0 <= i < |prior| ==> ValidMetadata(prior[i].metadata)
  }

  /** What is not a finding's. */
  ghost predicate LoneInputs(r: Rule, v: SnapshotView, config: map<string, string>) {
    ValidRule(r) && LoneSnapshot(v) && Lone(Entries(config))
  }

  ghost predicate LoneTexts(l: Lookup) {
    LoneInputs(l.rule, l.snapshot, l.config) && ValidPrior(l.prior)
  }

  /** Every lookup under the key shows the detector the same. */
  ghost predicate SettledByKey(w: World, a: Lookup) {
    forall b :: Normalised(b) && KeyFor(w, b) == KeyFor(w, a) ==> Shown(b) == Shown(a)
  }

  lemma ValidRuleSame(r: Rule, q: Rule)
    requires ValidRule(r) && WrittenRule(r) == WrittenRule(q)
    ensures MetaOf(r) == MetaOf(q)
  {
    var x, y := WrittenRule(r), WrittenRule(q);
    AloneIffValid(r.name);
    AloneIffValid(r.description);
    AloneIffValid(r.author);
    assert x.name == Written(r.name) && y.name == Written(q.name);
    assert x.description == Written(r.description) && y.description == Written(q.description);
    assert x.author == Written(r.author) && y.author == Written(q.author);
    assert MetaOf(r) == x.(name := r.name, description := r.description, author := r.author);
    assert MetaOf(q) == y.(name := q.name, description := q.description, author := q.author);
  }

  lemma LoneSnapshotSame(v: SnapshotView, u: SnapshotView)
    requires NormalSnapshot(v) && NormalSnapshot(u) && LoneSnapshot(v) && WrittenSnapshot(v) == WrittenSnapshot(u)
    ensures v == u
  {
    assert WrittenListing(v.edges) == WrittenSnapshot(v).edges && WrittenListing(u.edges) == WrittenSnapshot(u).edges;
    LoneSame(v.edges, u.edges);
    var x, y := WrittenSnapshot(v).domains, WrittenSnapshot(u).domains;
    assert |x| == |v.domains| && |y| == |u.domains|;
    forall i | 0 <= i < |v.domains| ensures v.domains[i] == u.domains[i] {
      assert x[i] == WrittenListing(v.domains[i]) && y[i] == WrittenListing(u.domains[i]);
      LoneSame(v.domains[i], u.domains[i]);
    }
  }

  lemma ValidPriorSame(p: seq<Finding>, q: seq<Finding>)
    requires ValidPrior(p) && Map(WrittenView, Views(p)) == Map(WrittenView, Views(q))
    ensures Views(p) == Views(q)
  {
    var x, y := Map(WrittenView, Views(p)), Map(WrittenView, Views(q));
    assert |x| == |p| && |y| == |q|;
    forall i | 0 <= i < |p| ensures Views(p)[i] == Views(q)[i] {
      assert x[i] == WrittenView(Views(p)[i]) && y[i] == WrittenView(Views(q)[i]);
      assert x[i].metadata == WrittenMetadata(p[i].metadata) && y[i].metadata == WrittenMetadata(q[i].metadata);
      MetadataTold(p[i].metadata, q[i].metadata);
    }
  }

  lemma LoneConfigSame(a: map<string, string>, b: map<string, string>)
    requires Lone(Entries(a)) && WrittenListing(Entries(a)) == WrittenListing(Entries(b))
    ensures a == b
  {
    EntriesAreNormal(a);
    EntriesAreNormal(b);
    LoneSame(Entries(a), Entries(b));
    EntriesInjective(a, b);
  }

  lemma LoneIsSettled(w: World, a: Lookup, b: Lookup)
    requires Sound(w) && Normalised(a) && PriorOk(a.prior) && LoneTexts(a) && Normalised(b) && KeyFor(w, b) == KeyFor(w, a)
    ensures Shown(b) == Shown(a)
  {
    SameKeyIff(w, a, b);
    ValidRuleSame(a.rule, b.rule);
    LoneSnapshotSame(a.snapshot, b.snapshot);
    ValidPriorSame(a.prior, b.prior);
    LoneConfigSame(a.config, b.config);
  }

  // A second lookup under the same key, of any that is not lone.

  lemma SecondRule(w: World, a: Lookup) returns (b: Lookup)
    requires Normalised(a) && !ValidRule(a.rule)
    ensures Normalised(b) && KeyFor(w, b) == KeyFor(w, a) && Shown(b) != Shown(a)
  {
    var r := a.rule;
    if !ValidUtf8(r.name) {
      OtherIsAlike(r.name);
      r := r.(name := Other(r.name));
      assert r.name != a.rule.name;
    } else if !ValidUtf8(r.description) {
      OtherIsAlike(r.description);
      r := r.(description := Other(r.description));
      assert r.description != a.rule.description;
    } else {
      OtherIsAlike(r.author);
      r := r.(author := Other(r.author));
      assert r.author != a.rule.author;
    }
    b := a.(rule := r);
    assert MetaOf(r).name == r.name && MetaOf(r).description == r.description && MetaOf(r).author == r.author;
    assert WrittenRule(r) == WrittenRule(a.rule);
  }

  lemma SecondSnapshot(v: SnapshotView) returns (u: SnapshotView)
    requires NormalSnapshot(v) && !LoneSnapshot(v)
    ensures NormalSnapshot(u) && WrittenSnapshot(u) == WrittenSnapshot(v) && u != v
  {
    if !Lone(v.edges) {
      var m := SecondListing(v.edges);
      u := v.(edges := m);
    } else {
      var i :| 0 <= i < |v.domains| && !Lone(v.domains[i]);
      var m := SecondListing(v.domains[i]);
      u := v.(domains := v.domains[i := m]);
      assert Map(WrittenListing, u.domains) == Map(WrittenListing, v.domains);
      assert u.domains[i] != v.domains[i];
    }
  }

  lemma SecondMetadata(m: map<string, string>) returns (n: map<string, string>)
    requires !ValidMetadata(m)
    ensures WrittenMetadata(n) == WrittenMetadata(m) && n != m
  {
    var k :| k in m && !ValidUtf8(m[k]);
    OtherIsAlike(m[k]);
    n := m[k := Other(m[k])];
    assert n[k] != m[k];
  }

  lemma SecondPrior(p: seq<Finding>) returns (q: seq<Finding>)
    requires !ValidPrior(p)
    ensures KeysOf(FindingKey, q) == KeysOf(FindingKey, p)
    ensures Map(WrittenView, Views(q)) == Map(WrittenView, Views(p)) && Views(q) != Views(p)
  {
    var i :| 0 <= i < |p| && !ValidMetadata(p[i].metadata);
    var n := SecondMetadata(p[i].metadata);
    q := p[i := p[i].(metadata := n)];
    OnePriorChanged(p, i, p[i].(metadata := n));
  }

  lemma OnePriorChanged(p: seq<Finding>, i: nat, f: Finding)
    requires i < |p| && f == p[i].(metadata := f.metadata)
    requires WrittenMetadata(f.metadata) == WrittenMetadata(p[i].metadata) && f.metadata != p[i].metadata
    ensures var q := p[i := f];
      && KeysOf(FindingKey, q) == KeysOf(FindingKey, p)
      && Map(WrittenView, Views(q)) == Map(WrittenView, Views(p)) && Views(q) != Views(p)
  {
    var v, u := ViewOfFinding(f), ViewOfFinding(p[i]);
    assert f.Key() == p[i].Key() && WrittenView(v) == WrittenView(u) && v.metadata != u.metadata;
    assert Views(p[i := f]) == Views(p)[i := v];
  }

  lemma SameKeysSorted(p: seq<Finding>, q: seq<Finding>)
    requires Sorted(ByKey(FindingKey), p) && KeysOf(FindingKey, q) == KeysOf(FindingKey, p)
    ensures Sorted(ByKey(FindingKey), q)
  {
    var x, y := KeysOf(FindingKey, p), KeysOf(FindingKey, q);
    assert |x| == |p| && |y| == |q|;
    forall i, j | 0 <= i < j < |q| ensures !ByKey(FindingKey)(q[j], q[i]) {
      assert x[i] == y[i] && x[j] == y[j];
      assert !ByKey(FindingKey)(p[j], p[i]);
    }
  }

  lemma SecondLookup(w: World, a: Lookup) returns (b: Lookup)
    requires Sound(w) && Normalised(a) && PriorOk(a.prior) && !LoneTexts(a)
    ensures Normalised(b) && KeyFor(w, b) == KeyFor(w, a) && Shown(b) != Shown(a)
  {
    if !ValidRule(a.rule) {
      b := SecondRule(w, a);
    } else if !LoneSnapshot(a.snapshot) {
      var u := SecondSnapshot(a.snapshot);
      b := a.(snapshot := u);
      SameKeyIff(w, a, b);
    } else if !ValidPrior(a.prior) {
      var q := SecondPrior(a.prior);
      SameKeysSorted(a.prior, q);
      b := a.(prior := q);
      SameKeyIff(w, a, b);
    } else {
      EntriesAreNormal(a.config);
      var m := SecondListing(Entries(a.config));
      SingleValues(Entries(a.config), m);
      var c := ConfigOf(m);
      b := a.(config := c);
      SameKeyIff(w, a, b);
    }
  }

  lemma SingleValues(l: Listing, m: Listing)
    requires WrittenListing(m) == WrittenListing(l) && forall i :: 0 <= i < |l| ==> |l[i].fields| == 1
    ensures forall i :: 0 <= i < |m| ==> |m[i].fields| == 1
  {
    assert |WrittenListing(m)| == |m| && |WrittenListing(l)| == |l|;
    forall i | 0 <= i < |m| ensures |m[i].fields| == 1 {
      SameIdText(l, m, i);
      assert |WrittenEntry(m[i]).fields| == |m[i].fields| && |WrittenEntry(l[i]).fields| == |l[i].fields|;
    }
  }

  /** A key settles what the detector is shown exactly when every text is valid UTF-8,
      but for an identity or a configuration name that its neighbours hold in place. */
  lemma KeySettlesIff(w: World, a: Lookup)
    requires Sound(w) && Normalised(a) && PriorOk(a.prior)
    ensures SettledByKey(w, a) <==> LoneTexts(a)
  {
    if LoneTexts(a) {
      forall b | Normalised(b) && KeyFor(w, b) == KeyFor(w, a) ensures Shown(b) == Shown(a) {
        LoneIsSettled(w, a, b);
      }
    } else {
      var b := SecondLookup(w, a);
    }
  }

  // ----- names held in place

  /** U+FFFF, a byte that is not UTF-8, and U+10000, in their order. */
  const CROWD: Listing := [Entry([0xEF as char, 0xBF as char, 0xBF as char], []), Entry([0xF0 as char], []),
                           Entry([0xF0 as char, 0x90 as char, 0x80 as char, 0x80 as char], [])]

  /** No other byte stands between its neighbours, so a key tells this one. */
  lemma CrowdIsLone()
    ensures Normal(CROWD) && Lone(CROWD) && !ValidUtf8(CROWD[1].id)
  {
    CrowdIsNormal();
    CrowdTexts();
    forall i, t | 0 <= i < |CROWD| && Fits(CROWD, i, t) && Written(t) == Written(CROWD[i].id) ensures t == CROWD[i].id {
      if i == 1 {
        EscapeIsByte(t, CROWD[1].id);
        assert t[1..] == "" && CROWD[0].id[0] <= t[0] <= CROWD[2].id[0];
      } else {
        ValidTold(CROWD[i].id, t);
      }
    }
  }

  lemma CrowdIsNormal()
    ensures Normal(CROWD)
  {
    var ids := KeysOf(EntryId, CROWD);
    assert ids[0][0] < ids[1][0] && ids[1][0] == ids[2][0] && ids[1][1..] == "" && ids[2][1..] != "";
  }

  lemma CrowdTexts()
    ensures ValidUtf8(CROWD[0].id) && ValidUtf8(CROWD[2].id) && !ValidUtf8(CROWD[1].id) && Written(CROWD[1].id) == ESCAPE
  {
    var a, b, c := CROWD[0].id, CROWD[1].id, CROWD[2].id;
    assert RuneSize(a) == 3 && a[3..] == "";
    assert RuneSize(c) == 4 && c[4..] == "";
    assert RuneSize(b) == 0 && b[1..] == "";
  }
}
