/** Merging observations of one TLS certificate
    (internal/asset/tls_certificate.go). */
module Certificates {
  import opened Wrappers
  import opened Order
  import opened Merging

  const MAX_DNS_NAMES := 32

  /** Zero stands for Go's zero time in notBefore, notAfter and the provenance. */
  datatype Certificate = Certificate(
    fingerprint: string,
    subject: string, issuer: string, serial: string,
    signatureAlgorithm: string, publicKeyAlgorithm: string, publicKeyBits: int,
    notBefore: int, notAfter: int, selfSigned: bool,
    dnsNames: seq<string>, dnsNamesTruncated: bool,
    chainDepth: int, prov: Provenance)

  datatype Mismatch = Mismatch(a: string, b: string)

  /** tlsObservedEarlier: b's observation predates a's. */
  predicate ObservedEarlier(a: Certificate, b: Certificate) {
    a.prov.discoveredAt != 0 && b.prov.discoveredAt != 0 && b.prov.discoveredAt < a.prov.discoveredAt
  }

  /** preferTLSCertificateString, -Int and -Time: unset loses to set, and of
      two different set values the earlier observation's wins. */
  function Prefer<T(==)>(a: Certificate, b: Certificate, unset: T, av: T, bv: T): T {
    if av == unset then bv
    else if bv == unset then av
    else if av == bv then av
    else if ObservedEarlier(a, b) then bv
    else av
  }

  /** preferTLSCertificateSelfSigned: false is an observation too. */
  function PreferSelfSigned(a: Certificate, b: Certificate): bool {
    if a.selfSigned == b.selfSigned then a.selfSigned
    else if ObservedEarlier(a, b) then b.selfSigned
    else a.selfSigned
  }

  function UnionNames(a: seq<string>, b: seq<string>): seq<string> {
    Squeeze(Sort(StringLess, a + b))
  }

  /** mergeTLSCertificateDNSNames: a seen-map, its sorted listing, the cut. */
  method MergeNames(a: seq<string>, b: seq<string>) returns (names: seq<string>, cut: bool)
    ensures names == Capped(MAX_DNS_NAMES, UnionNames(a, b))
    ensures cut == (|UnionNames(a, b)| > MAX_DNS_NAMES)
  {
    var seen: set<string> := {};
    for i := 0 to |a|
      invariant seen == Elements(a[..i])
    {
      ElementsSnoc(a, i);
      seen := seen + {a[i]};
    }
    for i := 0 to |b|
      invariant seen == Elements(a) + Elements(b[..i])
    {
      ElementsSnoc(b, i);
      seen := seen + {b[i]};
    }
    assert a[..|a|] == a && b[..|b|] == b;
    names := [];
    var rest := seen;
    while rest != {}
      invariant rest <= seen && Elements(names) == seen - rest
      invariant Distinct(names)
      decreases rest
    {
      var n :| n in rest;
      assert n !in Elements(names);
      ElementsCons(n, names);
      names := names + [n];
      rest := rest - {n};
    }
    SortedListing(a, b, names);
    names := Sort(StringLess, names);
    cut := false;
    if |names| > MAX_DNS_NAMES {
      names := names[..MAX_DNS_NAMES];
      cut := true;
    }
    if |names| == 0 {
      return [], false;
    }
  }

  lemma ElementsSnoc(s: seq<string>, i: nat)
    requires i < |s|
    ensures Elements(s[..i + 1]) == Elements(s[..i]) + {s[i]}
  {
    assert s[..i + 1] == s[..i] + [s[i]];
  }

  lemma SortedListing(a: seq<string>, b: seq<string>, names: seq<string>)
    requires Distinct(names) && Elements(names) == Elements(a) + Elements(b)
    ensures Sort(StringLess, names) == UnionNames(a, b)
  {
    StringOrder();
    SortDistinct(StringLess, names);
    NamesOfUnion(a, b);
    AscendingUnique(StringLess, Sort(StringLess, names), UnionNames(a, b));
  }

  lemma NamesOfUnion(a: seq<string>, b: seq<string>)
    ensures Ascending(StringLess, UnionNames(a, b))
    ensures Elements(UnionNames(a, b)) == Elements(a) + Elements(b)
  {
    StringOrder();
    SqueezedSort(StringLess, a + b);
    assert Elements(a + b) == Elements(a) + Elements(b);
  }

  /** MergeTLSCertificates. */
  function Merge(a: Certificate, b: Certificate): Result<Certificate, Mismatch> {
    if a.fingerprint != b.fingerprint then Err(Mismatch(a.fingerprint, b.fingerprint))
    else
      var names := UnionNames(a.dnsNames, b.dnsNames);
      Ok(a.(
        subject := Prefer(a, b, "", a.subject, b.subject),
        issuer := Prefer(a, b, "", a.issuer, b.issuer),
        serial := Prefer(a, b, "", a.serial, b.serial),
        signatureAlgorithm := Prefer(a, b, "", a.signatureAlgorithm, b.signatureAlgorithm),
        publicKeyAlgorithm := Prefer(a, b, "", a.publicKeyAlgorithm, b.publicKeyAlgorithm),
        publicKeyBits := Prefer(a, b, 0, a.publicKeyBits, b.publicKeyBits),
        notBefore := Prefer(a, b, 0, a.notBefore, b.notBefore),
        notAfter := Prefer(a, b, 0, a.notAfter, b.notAfter),
        selfSigned := PreferSelfSigned(a, b),
        dnsNames := Capped(MAX_DNS_NAMES, names),
        dnsNamesTruncated := a.dnsNamesTruncated || b.dnsNamesTruncated || |names| > MAX_DNS_NAMES,
        chainDepth := Max(a.chainDepth, b.chainDepth),
        prov := EarliestProv(a.prov, b.prov)))
  }

  /** m is what two observations of a field merge to: unset when both are, one of
      them otherwise, and of two different set ones the dated earlier. */
  ghost predicate Chosen<T>(a: Certificate, b: Certificate, unset: T, av: T, bv: T, m: T) {
    && (m == av || m == bv) && (m == unset <==> av == unset && bv == unset)
    && (av != unset && bv != unset ==>
          m == if a.prov.discoveredAt != 0 && b.prov.discoveredAt != 0 && b.prov.discoveredAt < a.prov.discoveredAt then bv else av)
  }

  /** Each field of the merge, from its own two observations. */
  lemma MergedFields(a: Certificate, b: Certificate)
    requires a.fingerprint == b.fingerprint
    ensures Merge(a, b).Ok?
    ensures var m := Merge(a, b).value;
      && Chosen(a, b, "", a.subject, b.subject, m.subject) && Chosen(a, b, "", a.issuer, b.issuer, m.issuer)
      && Chosen(a, b, "", a.serial, b.serial, m.serial)
      && Chosen(a, b, "", a.signatureAlgorithm, b.signatureAlgorithm, m.signatureAlgorithm)
      && Chosen(a, b, "", a.publicKeyAlgorithm, b.publicKeyAlgorithm, m.publicKeyAlgorithm)
      && Chosen(a, b, 0, a.publicKeyBits, b.publicKeyBits, m.publicKeyBits)
      && Chosen(a, b, 0, a.notBefore, b.notBefore, m.notBefore) && Chosen(a, b, 0, a.notAfter, b.notAfter, m.notAfter)
      && m.fingerprint == a.fingerprint
      && m.chainDepth >= a.chainDepth && m.chainDepth >= b.chainDepth && (m.chainDepth == a.chainDepth || m.chainDepth == b.chainDepth)
      && (m.prov == a.prov || m.prov == b.prov)
      && (m.prov.discoveredAt == 0 <==> a.prov.discoveredAt == 0 && b.prov.discoveredAt == 0)
      && (a.prov.discoveredAt != 0 ==> m.prov.discoveredAt <= a.prov.discoveredAt)
      && (b.prov.discoveredAt != 0 ==> m.prov.discoveredAt <= b.prov.discoveredAt)
  {
  }

  /** Without a date on both, or at one time, the first observation decides whether
      the certificate is self-signed; else the earlier does. */
  lemma MergedSelfSigned(a: Certificate, b: Certificate)
    requires a.fingerprint == b.fingerprint
    ensures var earlier := if a.prov.discoveredAt != 0 && b.prov.discoveredAt != 0 && b.prov.discoveredAt < a.prov.discoveredAt then b else a;
      Merge(a, b).value.selfSigned == earlier.selfSigned
  {
  }

  // ----- when argument order does not matter

  /** The two observation times settle which observation came first. */
  predicate Ordered(a: Certificate, b: Certificate) {
    a.prov.discoveredAt != 0 && b.prov.discoveredAt != 0 && a.prov.discoveredAt != b.prov.discoveredAt
  }

  predicate Agree<T(==)>(unset: T, av: T, bv: T) {
    av == unset || bv == unset || av == bv
  }

  /** No observed field of the two observations contradicts the other. */
  predicate Compatible(a: Certificate, b: Certificate) {
    && Agree("", a.subject, b.subject) && Agree("", a.issuer, b.issuer) && Agree("", a.serial, b.serial)
    && Agree("", a.signatureAlgorithm, b.signatureAlgorithm)
    && Agree("", a.publicKeyAlgorithm, b.publicKeyAlgorithm)
    && Agree(0, a.publicKeyBits, b.publicKeyBits)
    && Agree(0, a.notBefore, b.notBefore) && Agree(0, a.notAfter, b.notAfter)
    && a.selfSigned == b.selfSigned
  }

  lemma PreferCommutes<T>(a: Certificate, b: Certificate, unset: T, av: T, bv: T)
    ensures Prefer(a, b, unset, av, bv) == Prefer(b, a, unset, bv, av) <==> Agree(unset, av, bv) || Ordered(a, b)
  {
  }

  lemma UnionNamesCommute(a: seq<string>, b: seq<string>)
    ensures UnionNames(a, b) == UnionNames(b, a)
  {
    NamesOfUnion(a, b);
    NamesOfUnion(b, a);
    StringOrder();
    AscendingUnique(StringLess, UnionNames(a, b), UnionNames(b, a));
  }

  /** Exactly when merging in either order gives the same certificate. */
  lemma MergeCommutes(a: Certificate, b: Certificate)
    requires a.fingerprint == b.fingerprint
    ensures Merge(a, b) == Merge(b, a) <==>
      && (Ordered(a, b) || Compatible(a, b))
      && (a.prov == b.prov || a.prov.discoveredAt != b.prov.discoveredAt)
  {
    UnionNamesCommute(a.dnsNames, b.dnsNames);
    EarliestProvCommutes(a.prov, b.prov);
    PreferCommutes(a, b, "", a.subject, b.subject);
    PreferCommutes(a, b, "", a.issuer, b.issuer);
    PreferCommutes(a, b, "", a.serial, b.serial);
    PreferCommutes(a, b, "", a.signatureAlgorithm, b.signatureAlgorithm);
    PreferCommutes(a, b, "", a.publicKeyAlgorithm, b.publicKeyAlgorithm);
    PreferCommutes(a, b, 0, a.publicKeyBits, b.publicKeyBits);
    PreferCommutes(a, b, 0, a.notBefore, b.notBefore);
    PreferCommutes(a, b, 0, a.notAfter, b.notAfter);
    var x, y := Merge(a, b).value, Merge(b, a).value;
    assert x.subject == Prefer(a, b, "", a.subject, b.subject) && y.subject == Prefer(b, a, "", b.subject, a.subject);
    if Merge(a, b) == Merge(b, a) {
      assert x == y;
    }
  }

  function Observation(subject: string, at: int): Certificate {
    Certificate("f", subject, "", "", "", "", 0, 0, 0, false, [], false, 1, Provenance("tls", at, "", 0))
  }

  /** Different observation times alone do not make the merge symmetric: a zero
      time never compares. */
  lemma ZeroTimeBreaksSymmetry()
    ensures var a, b := Observation("x", 0), Observation("y", 1);
      a.prov.discoveredAt != b.prov.discoveredAt && Merge(a, b) != Merge(b, a)
  {
    var a, b := Observation("x", 0), Observation("y", 1);
    MergeCommutes(a, b);
  }

  // ----- when grouping does not matter

  /** u is known to be earlier than t. */
  predicate Sooner(t: int, u: int) { t != 0 && u != 0 && u < t }

  /** The time of a merged observation. */
  function Early(t: int, u: int): int {
    if t == 0 then u else if u == 0 then t else Min(t, u)
  }

  /** Of three set values, observed at t, u and v, another is kept when the last two
      observations are merged first: an undated one lends its place to what it is
      merged with. */
  predicate SetRegroups<T(==)>(av: T, bv: T, cv: T, t: int, u: int, v: int) {
    (t == 0 && Sooner(u, v) && av != cv) || (u == 0 && Sooner(t, v) && bv != cv)
  }

  /** The same of values that may be unset: an observation that lacks the field lends
      its time to what it is merged with. */
  predicate Regroups<T(==)>(unset: T, av: T, bv: T, cv: T, t: int, u: int, v: int) {
    if av == unset then bv != unset && cv != unset && bv != cv && Sooner(Early(t, u), v) != Sooner(u, v)
    else if bv == unset then cv != unset && av != cv && Sooner(Early(t, u), v) != Sooner(t, Early(u, v))
    else if cv == unset then av != bv && Sooner(t, u) != Sooner(t, Early(u, v))
    else SetRegroups(av, bv, cv, t, u, v)
  }

  function At(c: Certificate): int { c.prov.discoveredAt }

  /** One field, however the two merges before it came by their other fields. */
  lemma PreferAssociatesIff<T>(a: Certificate, b: Certificate, c: Certificate, ab: Certificate, bc: Certificate,
                               unset: T, av: T, bv: T, cv: T)
    requires At(ab) == Early(At(a), At(b)) && At(bc) == Early(At(b), At(c))
    ensures Prefer(ab, c, unset, Prefer(a, b, unset, av, bv), cv) == Prefer(a, bc, unset, av, Prefer(b, c, unset, bv, cv))
       <==> !Regroups(unset, av, bv, cv, At(a), At(b), At(c))
  {
  }

  lemma SelfSignedAssociatesIff(a: Certificate, b: Certificate, c: Certificate, ab: Certificate, bc: Certificate)
    requires At(ab) == Early(At(a), At(b)) && ab.selfSigned == PreferSelfSigned(a, b)
    requires At(bc) == Early(At(b), At(c)) && bc.selfSigned == PreferSelfSigned(b, c)
    ensures PreferSelfSigned(ab, c) == PreferSelfSigned(a, bc)
       <==> !SetRegroups(a.selfSigned, b.selfSigned, c.selfSigned, At(a), At(b), At(c))
  {
  }

  lemma EarliestProvAssociates(a: Provenance, b: Provenance, c: Provenance)
    ensures EarliestProv(EarliestProv(a, b), c) == EarliestProv(a, EarliestProv(b, c))
    ensures EarliestProv(a, b).discoveredAt == Early(a.discoveredAt, b.discoveredAt)
  {
  }

  /** Some field shows how three observations were grouped. */
  predicate GroupingShows(a: Certificate, b: Certificate, c: Certificate) {
    var t, u, v := At(a), At(b), At(c);
    || Regroups("", a.subject, b.subject, c.subject, t, u, v)
    || Regroups("", a.issuer, b.issuer, c.issuer, t, u, v)
    || Regroups("", a.serial, b.serial, c.serial, t, u, v)
    || Regroups("", a.signatureAlgorithm, b.signatureAlgorithm, c.signatureAlgorithm, t, u, v)
    || Regroups("", a.publicKeyAlgorithm, b.publicKeyAlgorithm, c.publicKeyAlgorithm, t, u, v)
    || Regroups(0, a.publicKeyBits, b.publicKeyBits, c.publicKeyBits, t, u, v)
    || Regroups(0, a.notBefore, b.notBefore, c.notBefore, t, u, v)
    || Regroups(0, a.notAfter, b.notAfter, c.notAfter, t, u, v)
    || SetRegroups(a.selfSigned, b.selfSigned, c.selfSigned, t, u, v)
  }

  /** The fields a merge chooses between. */
  predicate SameFields(x: Certificate, y: Certificate) {
    && x.subject == y.subject && x.issuer == y.issuer && x.serial == y.serial
    && x.signatureAlgorithm == y.signatureAlgorithm && x.publicKeyAlgorithm == y.publicKeyAlgorithm
    && x.publicKeyBits == y.publicKeyBits && x.notBefore == y.notBefore && x.notAfter == y.notAfter
    && x.selfSigned == y.selfSigned
  }

  lemma FieldsAssociateIff(a: Certificate, b: Certificate, c: Certificate, ab: Certificate, bc: Certificate)
    requires a.fingerprint == b.fingerprint == c.fingerprint && Merge(a, b) == Ok(ab) && Merge(b, c) == Ok(bc)
    ensures SameFields(Merge(ab, c).value, Merge(a, bc).value) <==> !GroupingShows(a, b, c)
  {
    EarliestProvAssociates(a.prov, b.prov, c.prov);
    EarliestProvAssociates(b.prov, c.prov, a.prov);
    PreferAssociatesIff(a, b, c, ab, bc, "", a.subject, b.subject, c.subject);
    PreferAssociatesIff(a, b, c, ab, bc, "", a.issuer, b.issuer, c.issuer);
    PreferAssociatesIff(a, b, c, ab, bc, "", a.serial, b.serial, c.serial);
    PreferAssociatesIff(a, b, c, ab, bc, "", a.signatureAlgorithm, b.signatureAlgorithm, c.signatureAlgorithm);
    PreferAssociatesIff(a, b, c, ab, bc, "", a.publicKeyAlgorithm, b.publicKeyAlgorithm, c.publicKeyAlgorithm);
    PreferAssociatesIff(a, b, c, ab, bc, 0, a.publicKeyBits, b.publicKeyBits, c.publicKeyBits);
    PreferAssociatesIff(a, b, c, ab, bc, 0, a.notBefore, b.notBefore, c.notBefore);
    PreferAssociatesIff(a, b, c, ab, bc, 0, a.notAfter, b.notAfter, c.notAfter);
    SelfSignedAssociatesIff(a, b, c, ab, bc);
  }

  /** Names, flag, depth and provenance never show the grouping. */
  lemma RestAssociates(a: Certificate, b: Certificate, c: Certificate, ab: Certificate, bc: Certificate)
    requires a.fingerprint == b.fingerprint == c.fingerprint && Merge(a, b) == Ok(ab) && Merge(b, c) == Ok(bc)
    ensures var l, r := Merge(ab, c).value, Merge(a, bc).value;
      && l.fingerprint == r.fingerprint && l.dnsNames == r.dnsNames && l.dnsNamesTruncated == r.dnsNamesTruncated
      && l.chainDepth == r.chainDepth && l.prov == r.prov
  {
    var p, q := Node(Leaf(a), Leaf(b)), Node(Leaf(b), Leaf(c));
    var t, u := Node(p, Leaf(c)), Node(Leaf(a), q);
    assert Leaves(Leaf(a)) == [a] && Leaves(Leaf(b)) == [b] && Leaves(Leaf(c)) == [c];
    assert Leaves(p) == [a] + [b] && Leaves(q) == [b] + [c];
    assert Leaves(t) == ([a] + [b]) + [c] == [a, b, c];
    assert Leaves(u) == [a] + ([b] + [c]) == [a, b, c];
    assert Fold(Leaf(a)) == Ok(a) && Fold(Leaf(b)) == Ok(b) && Fold(Leaf(c)) == Ok(c);
    assert Fold(p) == Ok(ab) && Fold(q) == Ok(bc);
    FoldOrderIndependent(t, u, a.fingerprint);
    EarliestProvAssociates(a.prov, b.prov, c.prov);
  }

  /** Exactly when three observations merge to the same certificate in either
      grouping. */
  lemma MergeAssociatesIff(a: Certificate, b: Certificate, c: Certificate, ab: Certificate, bc: Certificate)
    requires a.fingerprint == b.fingerprint == c.fingerprint && Merge(a, b) == Ok(ab) && Merge(b, c) == Ok(bc)
    ensures Merge(ab, c) == Merge(a, bc) <==> !GroupingShows(a, b, c)
  {
    FieldsAssociateIff(a, b, c, ab, bc);
    RestAssociates(a, b, c, ab, bc);
  }

  /** An early observation that lacks a field lends its time to whatever fills the
      field first. */
  lemma PreferDoesNotAssociate()
    ensures var a, b, c := Observation("", 1), Observation("x", 3), Observation("y", 2);
      && Merge(a, b).Ok? && Merge(b, c).Ok?
      && Merge(Merge(a, b).value, c).Ok? && Merge(a, Merge(b, c).value).Ok?
      && Merge(Merge(a, b).value, c).value.subject == "x"
      && Merge(a, Merge(b, c).value).value.subject == "y"
  {
  }

  // ----- folding many observations

  /** Merges the leaves in the order and grouping the tree gives. */
  function Fold(t: Tree<Certificate>): Result<Certificate, Mismatch> {
    match t
    case Leaf(x) => Ok(x)
    case Node(l, r) =>
      match (Fold(l), Fold(r))
      case (Ok(a), Ok(b)) => Merge(a, b)
      case (Err(e), _) => Err(e)
      case (_, Err(e)) => Err(e)
  }

  ghost predicate OneCertificate(t: Tree<Certificate>, fingerprint: string) {
    forall x :: x in Leaves(t) ==> x.fingerprint == fingerprint
  }

  ghost function Names(c: Certificate): set<string> {
    Elements(c.dnsNames)
  }

  /** c is as good as the leaves of t in every later merge. */
  ghost predicate Represents(t: Tree<Certificate>, c: Certificate) {
    && Agrees(StringLess, MAX_DNS_NAMES, AllKeys(Names, t), Names(c))
    && (c.dnsNamesTruncated || |Names(c)| > MAX_DNS_NAMES
        <==> (exists x :: x in Leaves(t) && x.dnsNamesTruncated) || |AllKeys(Names, t)| > MAX_DNS_NAMES)
    && (exists x :: x in Leaves(t) && x.chainDepth == c.chainDepth)
    && (forall x :: x in Leaves(t) ==> x.chainDepth <= c.chainDepth)
  }

  lemma MergedNames(a: Certificate, b: Certificate)
    requires a.fingerprint == b.fingerprint
    ensures var m := Merge(a, b).value;
      && Ascending(StringLess, m.dnsNames)
      && IsFirst(StringLess, MAX_DNS_NAMES, Names(a) + Names(b), Names(m))
      && (m.dnsNamesTruncated <==> a.dnsNamesTruncated || b.dnsNamesTruncated || |Names(a) + Names(b)| > MAX_DNS_NAMES)
  {
    StringOrder();
    NamesOfUnion(a.dnsNames, b.dnsNames);
    PrefixIsFirst(StringLess, MAX_DNS_NAMES, UnionNames(a.dnsNames, b.dnsNames));
  }

  /** Over any order and grouping of two or more observations, the names kept
      are the 32 smallest observed, the flag is set exactly when an input
      carried it or more than 32 were observed, and the depth is the deepest. */
  lemma {:induction false} FoldKeepsSmallest(t: Tree<Certificate>, fingerprint: string)
    requires OneCertificate(t, fingerprint)
    ensures Fold(t).Ok? && Fold(t).value.fingerprint == fingerprint
    ensures Represents(t, Fold(t).value)
    ensures t.Node? ==> var c := Fold(t).value;
      && Ascending(StringLess, c.dnsNames)
      && IsFirst(StringLess, MAX_DNS_NAMES, AllKeys(Names, t), Names(c))
      && (c.dnsNamesTruncated
          <==> (exists x :: x in Leaves(t) && x.dnsNamesTruncated) || |AllKeys(Names, t)| > MAX_DNS_NAMES)
  {
    StringOrder();
    match t
    case Leaf(x) =>
      AgreesRefl(StringLess, MAX_DNS_NAMES, Names(x));
      assert Leaves(t) == [x];
      assert x in Leaves(t);
    case Node(l, r) =>
      assert forall x :: x in Leaves(t) <==> x in Leaves(l) || x in Leaves(r);
      FoldKeepsSmallest(l, fingerprint);
      FoldKeepsSmallest(r, fingerprint);
      var a, b := Fold(l).value, Fold(r).value;
      var m := Merge(a, b).value;
      MergedNames(a, b);
      AgreeingUnion(StringLess, MAX_DNS_NAMES, AllKeys(Names, l), AllKeys(Names, r), Names(a), Names(b), Names(m));
      FirstIsFixed(StringLess, MAX_DNS_NAMES, AllKeys(Names, t), Names(m));
      FoldFlag(l, r, a, b, m);
  }

  lemma FoldFlag(l: Tree<Certificate>, r: Tree<Certificate>, a: Certificate, b: Certificate, m: Certificate)
    requires Represents(l, a) && Represents(r, b)
    requires m.dnsNamesTruncated <==> a.dnsNamesTruncated || b.dnsNamesTruncated || |Names(a) + Names(b)| > MAX_DNS_NAMES
    requires m.chainDepth == Max(a.chainDepth, b.chainDepth)
    ensures var t := Node(l, r);
      && (m.dnsNamesTruncated
          <==> (exists x :: x in Leaves(t) && x.dnsNamesTruncated) || |AllKeys(Names, t)| > MAX_DNS_NAMES)
      && (exists x :: x in Leaves(t) && x.chainDepth == m.chainDepth)
      && (forall x :: x in Leaves(t) ==> x.chainDepth <= m.chainDepth)
  {
    var t := Node(l, r);
    assert forall x :: x in Leaves(t) <==> x in Leaves(l) || x in Leaves(r);
    StringOrder();
    var out := FirstExists(StringLess, MAX_DNS_NAMES, Names(a) + Names(b));
    AgreeingUnion(StringLess, MAX_DNS_NAMES, AllKeys(Names, l), AllKeys(Names, r), Names(a), Names(b), out);
  }

  /** What the merge retains does not depend on order or grouping. */
  lemma FoldOrderIndependent(t: Tree<Certificate>, u: Tree<Certificate>, fingerprint: string)
    requires t.Node? && u.Node? && OneCertificate(t, fingerprint)
    requires Elements(Leaves(t)) == Elements(Leaves(u))
    ensures Fold(t).Ok? && Fold(u).Ok?
    ensures var c, d := Fold(t).value, Fold(u).value;
      c.dnsNames == d.dnsNames && c.dnsNamesTruncated == d.dnsNamesTruncated && c.chainDepth == d.chainDepth
  {
    assert forall x :: x in Leaves(t) <==> x in Elements(Leaves(t));
    assert forall x :: x in Leaves(u) <==> x in Elements(Leaves(u));
    FoldKeepsSmallest(t, fingerprint);
    FoldKeepsSmallest(u, fingerprint);
    SameLeavesSameKeys(Names, t, u);
    StringOrder();
    var c, d := Fold(t).value, Fold(u).value;
    FirstUnique(StringLess, MAX_DNS_NAMES, AllKeys(Names, t), Names(c), Names(d));
    AscendingUnique(StringLess, c.dnsNames, d.dnsNames);
  }
}
