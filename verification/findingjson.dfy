/** Findings on their way through encoding/json (internal/detect/finding.go,
    marshalFindingJSON; record.go): what is written, and what is read back. */
module FindingJson {
  import opened Wrappers
  import opened Text
  import opened Order
  import opened Merging
  import opened Identities
  import opened Findings
  import opened JsonText

  // ----- what is read back

  // Rule IDs, names, categories, priorities, statuses and metadata keys are
  // checked to be printable ASCII and evidence values to be valid UTF-8. Identity
  // values, metadata values and provenance texts are not checked.

  lemma {:induction false} RereadBytes(s: Bytes)
    ensures IsBytes(Reread(s))
    decreases |s|
  {
    if s != "" {
      var n := RuneSize(s);
      RereadBytes(s[if n == 0 then 1 else n..]);
    }
  }

  lemma {:induction false} WrittenBytes(s: Bytes)
    ensures IsBytes(Written(s))
    decreases |s|
  {
    if s != "" {
      WrittenBytes(s[Step(s)..]);
    }
  }

  function RereadIdentity(i: Identity): Identity {
    RereadBytes(i.value);
    Identity(i.kind, Reread(i.value))
  }

  function RereadProvenance(p: Provenance): Provenance {
    p.(source := Reread(p.source), reference := Reread(p.reference))
  }

  function RereadEvidence(e: Evidence): Evidence {
    e.(source := RereadIdentity(e.source), prov := RereadProvenance(e.prov))
  }

  function RereadEdge(r: Relationship): Relationship {
    Relationship(RereadIdentity(r.from), r.kind, RereadIdentity(r.to))
  }

  function RereadMetadata(m: map<string, string>): (r: map<string, string>)
    ensures r.Keys == m.Keys
  {
    map k | k in m :: Reread(m[k])
  }

  function RereadFinding(f: Finding): Finding {
    f.(subject := RereadIdentity(f.subject), evidence := Map(RereadEvidence, f.evidence),
       related := Map(RereadIdentity, f.related), relationships := Map(RereadEdge, f.relationships),
       metadata := RereadMetadata(f.metadata))
  }

  function RereadAll(fs: seq<Finding>): seq<Finding> {
    Map(RereadFinding, fs)
  }

  // ----- what survives

  predicate ValidIdentity(i: Identity) { ValidUtf8(i.value) }

  predicate ValidProvenance(p: Provenance) { ValidUtf8(p.source) && ValidUtf8(p.reference) }

  predicate ValidMetadata(m: map<string, string>) {
    forall k :: k in m ==> ValidUtf8(m[k])
  }

  /** Every unchecked text of the finding is valid UTF-8. */
  predicate ValidTexts(f: Finding) {
    && ValidIdentity(f.subject) && ValidMetadata(f.metadata)
    && (forall i :: 0 <= i < |f.evidence| ==> ValidIdentity(f.evidence[i].source) && ValidProvenance(f.evidence[i].prov))
    && (forall i :: 0 <= i < |f.related| ==> ValidIdentity(f.related[i]))
    && (forall i :: 0 <= i < |f.relationships| ==> ValidIdentity(f.relationships[i].from) && ValidIdentity(f.relationships[i].to))
  }

  predicate AllValidTexts(fs: seq<Finding>) {
    forall i :: 0 <= i < |fs| ==> ValidTexts(fs[i])
  }

  lemma IdentitySurvives(i: Identity)
    ensures RereadIdentity(i) == i <==> ValidIdentity(i)
  {
    SurvivesIffValid(i.value);
  }

  lemma EvidenceSurvives(e: Evidence)
    ensures RereadEvidence(e) == e <==> ValidIdentity(e.source) && ValidProvenance(e.prov)
  {
    IdentitySurvives(e.source);
    SurvivesIffValid(e.prov.source);
    SurvivesIffValid(e.prov.reference);
  }

  lemma EdgeSurvives(r: Relationship)
    ensures RereadEdge(r) == r <==> ValidIdentity(r.from) && ValidIdentity(r.to)
  {
    IdentitySurvives(r.from);
    IdentitySurvives(r.to);
  }

  lemma MetadataSurvives(m: map<string, string>)
    ensures RereadMetadata(m) == m <==> ValidMetadata(m)
  {
    forall k | k in m ensures Reread(m[k]) == m[k] <==> ValidUtf8(m[k]) {
      SurvivesIffValid(m[k]);
    }
    if RereadMetadata(m) == m {
      assert forall k :: k in m ==> RereadMetadata(m)[k] == Reread(m[k]);
    }
  }

  lemma ListSurvives<T>(reread: T -> T, s: seq<T>)
    ensures Map(reread, s) == s <==> forall i :: 0 <= i < |s| ==> reread(s[i]) == s[i]
  {
    if Map(reread, s) == s {
      assert forall i :: 0 <= i < |s| ==> Map(reread, s)[i] == reread(s[i]);
    }
  }

  /** A finding is read back as it was written exactly when its texts are valid
      UTF-8. */
  lemma FindingSurvives(f: Finding)
    ensures RereadFinding(f) == f <==> ValidTexts(f)
  {
    IdentitySurvives(f.subject);
    MetadataSurvives(f.metadata);
    forall i | 0 <= i < |f.evidence| ensures RereadEvidence(f.evidence[i]) == f.evidence[i]
      <==> ValidIdentity(f.evidence[i].source) && ValidProvenance(f.evidence[i].prov) { EvidenceSurvives(f.evidence[i]); }
    forall i | 0 <= i < |f.related| ensures RereadIdentity(f.related[i]) == f.related[i] <==> ValidIdentity(f.related[i]) {
      IdentitySurvives(f.related[i]);
    }
    forall i | 0 <= i < |f.relationships| ensures RereadEdge(f.relationships[i]) == f.relationships[i]
      <==> ValidIdentity(f.relationships[i].from) && ValidIdentity(f.relationships[i].to) { EdgeSurvives(f.relationships[i]); }
    ListSurvives(RereadEvidence, f.evidence);
    ListSurvives(RereadIdentity, f.related);
    ListSurvives(RereadEdge, f.relationships);
    var g := RereadFinding(f);
    assert g == f.(subject := g.subject, evidence := g.evidence, related := g.related, relationships := g.relationships,
                   metadata := g.metadata);
    if g == f {
      assert g.subject == f.subject && g.evidence == f.evidence && g.related == f.related;
      assert g.relationships == f.relationships && g.metadata == f.metadata;
    }
  }

  lemma AllSurvive(fs: seq<Finding>)
    ensures RereadAll(fs) == fs <==> AllValidTexts(fs)
  {
    forall i | 0 <= i < |fs| ensures RereadFinding(fs[i]) == fs[i] <==> ValidTexts(fs[i]) {
      FindingSurvives(fs[i]);
    }
    ListSurvives(RereadFinding, fs);
  }

  // ----- what is written of the unchecked texts

  function WrittenIdentity(i: Identity): Identity {
    WrittenBytes(i.value);
    Identity(i.kind, Written(i.value))
  }

  function WrittenProvenance(p: Provenance): Provenance {
    p.(source := Written(p.source), reference := Written(p.reference))
  }

  function WrittenEvidence(e: Evidence): Evidence {
    e.(source := WrittenIdentity(e.source), prov := WrittenProvenance(e.prov))
  }

  function WrittenEdge(r: Relationship): Relationship {
    Relationship(WrittenIdentity(r.from), r.kind, WrittenIdentity(r.to))
  }

  function WrittenMetadata(m: map<string, string>): (r: map<string, string>)
    ensures r.Keys == m.Keys
  {
    map k | k in m :: Written(m[k])
  }

  function WrittenFinding(f: Finding): Finding {
    f.(subject := WrittenIdentity(f.subject), evidence := Map(WrittenEvidence, f.evidence),
       related := Map(WrittenIdentity, f.related), relationships := Map(WrittenEdge, f.relationships),
       metadata := WrittenMetadata(f.metadata))
  }

  // What is written of a valid text is written of no other.

  lemma IdentityTold(a: Identity, b: Identity)
    requires ValidIdentity(a) && WrittenIdentity(a) == WrittenIdentity(b)
    ensures a == b
  {
    assert Written(a.value) == WrittenIdentity(a).value && Written(b.value) == WrittenIdentity(b).value;
    ValidTold(a.value, b.value);
  }

  lemma EvidenceTold(a: Evidence, b: Evidence)
    requires ValidIdentity(a.source) && ValidProvenance(a.prov) && WrittenEvidence(a) == WrittenEvidence(b)
    ensures a == b
  {
    var x, y := WrittenEvidence(a), WrittenEvidence(b);
    assert x.source == WrittenIdentity(a.source) && y.source == WrittenIdentity(b.source);
    assert x.prov == WrittenProvenance(a.prov) && y.prov == WrittenProvenance(b.prov);
    IdentityTold(a.source, b.source);
    assert x.prov.source == Written(a.prov.source) && y.prov.source == Written(b.prov.source);
    assert x.prov.reference == Written(a.prov.reference) && y.prov.reference == Written(b.prov.reference);
    ValidTold(a.prov.source, b.prov.source);
    ValidTold(a.prov.reference, b.prov.reference);
    assert a == x.(source := a.source, prov := x.prov.(source := a.prov.source, reference := a.prov.reference));
    assert b == y.(source := b.source, prov := y.prov.(source := b.prov.source, reference := b.prov.reference));
  }

  lemma EdgeTold(a: Relationship, b: Relationship)
    requires ValidIdentity(a.from) && ValidIdentity(a.to) && WrittenEdge(a) == WrittenEdge(b)
    ensures a == b
  {
    var x, y := WrittenEdge(a), WrittenEdge(b);
    assert x.from == WrittenIdentity(a.from) && y.from == WrittenIdentity(b.from) && x.kind == a.kind && y.kind == b.kind;
    assert x.to == WrittenIdentity(a.to) && y.to == WrittenIdentity(b.to);
    IdentityTold(a.from, b.from);
    IdentityTold(a.to, b.to);
  }

  lemma MetadataTold(m: map<string, string>, n: map<string, string>)
    requires ValidMetadata(m) && WrittenMetadata(m) == WrittenMetadata(n)
    ensures m == n
  {
    assert m.Keys == WrittenMetadata(m).Keys && n.Keys == WrittenMetadata(n).Keys;
    forall k | k in m ensures m[k] == n[k] {
      assert WrittenMetadata(m)[k] == Written(m[k]) && WrittenMetadata(n)[k] == Written(n[k]);
      ValidTold(m[k], n[k]);
    }
  }

  ghost predicate Told<T(!new)>(written: T -> T, x: T) {
    forall y :: written(y) == written(x) ==> y == x
  }

  lemma ListTold<T(!new)>(written: T -> T, s: seq<T>, t: seq<T>)
    requires Map(written, s) == Map(written, t) && forall i :: 0 <= i < |s| ==> Told(written, s[i])
    ensures s == t
  {
    assert |Map(written, s)| == |s| && |Map(written, t)| == |t|;
    forall i | 0 <= i < |s| ensures s[i] == t[i] {
      assert Map(written, s)[i] == written(s[i]) && Map(written, t)[i] == written(t[i]);
      assert Told(written, s[i]);
    }
  }

  /** A finding of valid texts is told from every other. */
  lemma FindingTold(a: Finding, b: Finding)
    requires ValidTexts(a) && WrittenFinding(a) == WrittenFinding(b)
    ensures a == b
  {
    var x, y := WrittenFinding(a), WrittenFinding(b);
    assert x.subject == WrittenIdentity(a.subject) && y.subject == WrittenIdentity(b.subject);
    assert x.metadata == WrittenMetadata(a.metadata) && y.metadata == WrittenMetadata(b.metadata);
    IdentityTold(a.subject, b.subject);
    MetadataTold(a.metadata, b.metadata);
    ListsTold(a, b);
    assert a == x.(subject := a.subject, evidence := a.evidence, related := a.related, relationships := a.relationships,
                   metadata := a.metadata);
    assert b == y.(subject := b.subject, evidence := b.evidence, related := b.related, relationships := b.relationships,
                   metadata := b.metadata);
  }

  lemma ListsTold(a: Finding, b: Finding)
    requires ValidTexts(a) && WrittenFinding(a) == WrittenFinding(b)
    ensures a.evidence == b.evidence && a.related == b.related && a.relationships == b.relationships
  {
    var x, y := WrittenFinding(a), WrittenFinding(b);
    assert x.evidence == Map(WrittenEvidence, a.evidence) && y.evidence == Map(WrittenEvidence, b.evidence);
    assert x.related == Map(WrittenIdentity, a.related) && y.related == Map(WrittenIdentity, b.related);
    assert x.relationships == Map(WrittenEdge, a.relationships) && y.relationships == Map(WrittenEdge, b.relationships);
    forall i | 0 <= i < |a.evidence| ensures Told(WrittenEvidence, a.evidence[i]) {
      forall e | WrittenEvidence(e) == WrittenEvidence(a.evidence[i]) ensures e == a.evidence[i] {
        EvidenceTold(a.evidence[i], e);
      }
    }
    forall i | 0 <= i < |a.related| ensures Told(WrittenIdentity, a.related[i]) {
      forall j | WrittenIdentity(j) == WrittenIdentity(a.related[i]) ensures j == a.related[i] {
        IdentityTold(a.related[i], j);
      }
    }
    forall i | 0 <= i < |a.relationships| ensures Told(WrittenEdge, a.relationships[i]) {
      forall r | WrittenEdge(r) == WrittenEdge(a.relationships[i]) ensures r == a.relationships[i] {
        EdgeTold(a.relationships[i], r);
      }
    }
    ListTold(WrittenEvidence, a.evidence, b.evidence);
    ListTold(WrittenIdentity, a.related, b.related);
    ListTold(WrittenEdge, a.relationships, b.relationships);
  }

  // ----- what is written at all

  const DAY := 86400 * 1000000000
  const YEAR_0 := -366 * DAY
  const YEAR_10000 := 3652059 * DAY

  /** A time is written only when its year has four digits; times count
      nanoseconds from the first day of year 1. */
  predicate WritableTime(t: int) { YEAR_0 <= t < YEAR_10000 }

  predicate Writable(f: Finding) {
    && WritableTime(f.created) && WritableTime(f.updated)
    && forall i :: 0 <= i < |f.evidence| ==> WritableTime(f.evidence[i].prov.discoveredAt)
  }

  predicate AllWritable(fs: seq<Finding>) {
    forall i :: 0 <= i < |fs| ==> Writable(fs[i])
  }

  /** What the JSON form of a finding tells about it. */
  function Image(f: Finding): Option<Finding> {
    if Writable(f) then Some(WrittenFinding(f)) else None
  }

  /** The canonical JSON form of a finding, "" when it cannot be written. */
  type Encoder = Finding -> string

  /** The law of encoding/json: two findings share a form exactly when it tells
      the same about them. */
  ghost predicate Marshals(json: Encoder) {
    forall a, b :: json(a) == json(b) <==> Image(a) == Image(b)
  }

  /** Two values of one byte that are not UTF-8 are told apart by nothing JSON
      writes. */
  lemma InvalidBytesBlur()
    ensures var x, y := [0xFE as char], [0xFF as char]; x != y && Written(x) == Written(y) == ESCAPE
  {
    var x, y := [0xFE as char], [0xFF as char];
    assert RuneSize(x) == 0 && x[1..] == "" && RuneSize(y) == 0 && y[1..] == "";
    assert x[0] != y[0];
  }
}
