/** Asset identities (internal/asset) and the encodings that keep their
    components apart. */
module Identities {
  import opened Text

  ghost predicate IsBytes(s: string) {
    forall i :: 0 <= i < |s| ==> s[i] as int < 256
  }

  /** A Go string: every char stands for one byte. */
  type Bytes = s: string | IsBytes(s) witness ""

  const HEX_DIGITS := "0123456789ABCDEF"

  function HexValue(c: char): (n: nat)
    ensures n < 16
  {
    if '0' <= c <= '9' then c as int - '0' as int
    else if 'A' <= c <= 'F' then c as int - 'A' as int + 10
    else 0
  }

  /** The triplet form of section 2.1 of RFC 3986 for one byte. */
  function EscapeByte(c: char): string {
    ['%', HEX_DIGITS[c as int / 16 % 16], HEX_DIGITS[c as int % 16]]
  }

  predicate Alphanumeric(c: char) {
    'a' <= c <= 'z' || 'A' <= c <= 'Z' || '0' <= c <= '9'
  }

  /** The bytes encodeIdentity replaces: the escape byte and the unprintable. */
  predicate MustEscape(c: char) {
    c == '%' || c < ' ' || c == '\U{007F}'
  }

  function PercentEncode(s: Bytes): string {
    if s == "" then ""
    else (if Alphanumeric(s[0]) then [s[0]] else EscapeByte(s[0])) + PercentEncode(s[1..])
  }

  function EncodeIdentity(s: Bytes): string {
    if s == "" then ""
    else (if MustEscape(s[0]) then EscapeByte(s[0]) else [s[0]]) + EncodeIdentity(s[1..])
  }

  /** Replaces every %XX triplet by the byte it names: the inverse of both
      encodings. */
  function Unescape(s: string): string {
    if s == "" then ""
    else if s[0] == '%' && |s| >= 3 then [(16 * HexValue(s[1]) + HexValue(s[2])) as char] + Unescape(s[3..])
    else [s[0]] + Unescape(s[1..])
  }

  // ----- the loops of the source

  /** percentEncode: a byte loop into a builder. */
  method PercentEncodeLoop(s: Bytes) returns (b: string)
    ensures b == PercentEncode(s)
  {
    b := "";
    for i := 0 to |s|
      invariant b + PercentEncode(s[i..]) == PercentEncode(s)
    {
      PercentEncodeHead(s, i);
      var piece := PercentWrite(s[i]);
      Associative(b, piece, PercentEncode(s[i + 1..]));
      b := b + piece;
    }
  }

  method PercentWrite(c: char) returns (b: string)
    requires c as int < 256
    ensures b == if Alphanumeric(c) then [c] else EscapeByte(c)
  {
    if 'a' <= c <= 'z' || 'A' <= c <= 'Z' || '0' <= c <= '9' {
      return [c];
    }
    b := ['%'];
    b := b + [HEX_DIGITS[c as int / 16]];
    b := b + [HEX_DIGITS[c as int % 16]];
  }

  lemma PercentEncodeHead(s: Bytes, i: nat)
    requires i < |s|
    ensures PercentEncode(s[i..]) == (if Alphanumeric(s[i]) then [s[i]] else EscapeByte(s[i])) + PercentEncode(s[i + 1..])
  {
    assert s[i..][1..] == s[i + 1..];
  }

  /** encodeIdentity: the same loop with its four branches. */
  method EncodeIdentityLoop(s: Bytes) returns (b: string)
    ensures b == EncodeIdentity(s)
  {
    b := "";
    for i := 0 to |s|
      invariant b + EncodeIdentity(s[i..]) == EncodeIdentity(s)
    {
      EncodeIdentityHead(s, i);
      var piece := EscapeWrite(s[i]);
      Associative(b, piece, EncodeIdentity(s[i + 1..]));
      b := b + piece;
    }
  }

  /** What one round of the loop writes. */
  method EscapeWrite(c: char) returns (b: string)
    requires c as int < 256
    ensures b == if MustEscape(c) then EscapeByte(c) else [c]
  {
    EscapeLiterals();
    if c == '%' {
      b := "%25";
    } else if c == '\0' {
      b := "%00";
    } else if c < ' ' || c == '\U{007F}' {
      b := ['%'];
      b := b + [HEX_DIGITS[c as int / 16]];
      b := b + [HEX_DIGITS[c as int % 16]];
    } else {
      b := [c];
    }
  }

  lemma EncodeIdentityHead(s: Bytes, i: nat)
    requires i < |s|
    ensures EncodeIdentity(s[i..]) == (if MustEscape(s[i]) then EscapeByte(s[i]) else [s[i]]) + EncodeIdentity(s[i + 1..])
  {
    assert s[i..][1..] == s[i + 1..];
  }

  lemma EscapeLiterals()
    ensures EscapeByte('%') == "%25"
    ensures EscapeByte('\0') == "%00"
  {
    assert '%' as int == 37 && '\0' as int == 0;
    assert HEX_DIGITS[2] == '2' && HEX_DIGITS[5] == '5' && HEX_DIGITS[0] == '0';
  }

  // ----- both encodings are injective

  lemma {:induction false} UnescapeStep(c: char, rest: string)
    requires c as int < 256
    ensures Unescape(EscapeByte(c) + rest) == [c] + Unescape(rest)
  {
    var hi, lo := c as int / 16, c as int % 16;
    HexRoundTrip(hi);
    HexRoundTrip(lo);
    var s := EscapeByte(c) + rest;
    assert s[0] == '%' && s[1] == HEX_DIGITS[hi] && s[2] == HEX_DIGITS[lo];
    assert s[3..] == rest;
  }

  lemma HexRoundTrip(n: nat)
    requires n < 16
    ensures HexValue(HEX_DIGITS[n]) == n
    ensures Alphanumeric(HEX_DIGITS[n])
  {
  }

  lemma {:induction false} UnescapePlain(c: char, rest: string)
    requires c != '%'
    ensures Unescape([c] + rest) == [c] + Unescape(rest)
  {
    assert ([c] + rest)[1..] == rest;
  }

  lemma {:induction false} PercentDecodes(s: Bytes)
    ensures Unescape(PercentEncode(s)) == s
  {
    if s != "" {
      PercentDecodes(s[1..]);
      var rest := PercentEncode(s[1..]);
      if Alphanumeric(s[0]) {
        assert PercentEncode(s) == [s[0]] + rest;
        UnescapePlain(s[0], rest);
      } else {
        assert PercentEncode(s) == EscapeByte(s[0]) + rest;
        UnescapeStep(s[0], rest);
      }
      assert s == [s[0]] + s[1..];
    }
  }

  lemma {:induction false} IdentityDecodes(s: Bytes)
    ensures Unescape(EncodeIdentity(s)) == s
  {
    if s != "" {
      IdentityDecodes(s[1..]);
      if MustEscape(s[0]) {
        UnescapeStep(s[0], EncodeIdentity(s[1..]));
      } else {
        UnescapePlain(s[0], EncodeIdentity(s[1..]));
      }
      assert s == [s[0]] + s[1..];
    }
  }

  lemma {:induction false} PercentAlphabet(s: Bytes)
    ensures forall c :: c in PercentEncode(s) ==> Alphanumeric(c) || c == '%'
  {
    if s != "" {
      PercentAlphabet(s[1..]);
      HexRoundTrip(s[0] as int / 16);
      HexRoundTrip(s[0] as int % 16);
    }
  }

  lemma {:induction false} IdentityAlphabet(s: Bytes)
    ensures Free(EncodeIdentity(s), '\0')
  {
    if s != "" {
      IdentityAlphabet(s[1..]);
      HexRoundTrip(s[0] as int / 16);
      HexRoundTrip(s[0] as int % 16);
    }
  }

  lemma {:induction false} PercentGrows(s: Bytes)
    ensures |PercentEncode(s)| >= |s|
    ensures (exists c :: c in s && !('a' <= c <= 'z' || 'A' <= c <= 'Z' || '0' <= c <= '9')) ==> |PercentEncode(s)| > |s|
  {
    if s != "" {
      PercentGrows(s[1..]);
      assert s == [s[0]] + s[1..];
    }
  }

  /** Letters and digits alone stay as they are. */
  lemma {:induction false} PercentUnchanged(s: Bytes)
    ensures PercentEncode(s) == s <==> forall c :: c in s ==> 'a' <= c <= 'z' || 'A' <= c <= 'Z' || '0' <= c <= '9'
  {
    PercentGrows(s);
    if s != "" && forall c :: c in s ==> 'a' <= c <= 'z' || 'A' <= c <= 'Z' || '0' <= c <= '9' {
      assert forall c :: c in s[1..] ==> c in s;
      PercentUnchanged(s[1..]);
      assert s[0] in s && s == [s[0]] + s[1..];
    }
  }

  lemma {:induction false} EncodeIdentityGrows(s: Bytes)
    ensures |EncodeIdentity(s)| >= |s|
    ensures (exists c :: c in s && (c == '%' || c as int < 32 || c as int == 127)) ==> |EncodeIdentity(s)| > |s|
  {
    if s != "" {
      EncodeIdentityGrows(s[1..]);
      assert s == [s[0]] + s[1..];
    }
  }

  /** Only the escape byte and what cannot be printed are replaced. */
  lemma {:induction false} IdentityUnchanged(s: Bytes)
    ensures EncodeIdentity(s) == s <==> forall c :: c in s ==> c != '%' && c as int >= 32 && c as int != 127
  {
    EncodeIdentityGrows(s);
    if s != "" && forall c :: c in s ==> c != '%' && c as int >= 32 && c as int != 127 {
      assert forall c :: c in s[1..] ==> c in s;
      IdentityUnchanged(s[1..]);
      assert s[0] in s && s == [s[0]] + s[1..];
    }
  }

  /** Nothing unprintable is left. */
  lemma {:induction false} IdentityPrintable(s: Bytes)
    ensures forall c :: c in EncodeIdentity(s) ==> c as int >= 32 && c as int != 127
  {
    if s != "" {
      IdentityPrintable(s[1..]);
      HexRoundTrip(s[0] as int / 16);
      HexRoundTrip(s[0] as int % 16);
    }
  }

  lemma PercentInjective(a: Bytes, b: Bytes)
    ensures PercentEncode(a) == PercentEncode(b) <==> a == b
  {
    PercentDecodes(a);
    PercentDecodes(b);
  }

  lemma EncodeIdentityInjective(a: Bytes, b: Bytes)
    ensures EncodeIdentity(a) == EncodeIdentity(b) <==> a == b
  {
    IdentityDecodes(a);
    IdentityDecodes(b);
  }

  // ----- composite identities

  const KINDS: set<string> := {
    "domain", "host", "ip", "port", "service", "url", "endpoint", "javascript",
    "parameter", "technology", "evidence", "tls_certificate", "secret_candidate",
    "source_map", "finding"
  }

  const METHODS: set<string> := {
    "header", "cookie", "html", "generator", "meta", "script", "css", "attribute",
    "endpoint", "tls", "dns", "sourcemap", "js", "secret", "detect"
  }

  const HOST_EDGES: set<string> := {
    "host_to_ip", "host_to_cname", "host_to_mx", "host_to_ns", "host_to_srv",
    "ip_to_port", "port_to_service", "host_to_url", "url_to_endpoint"
  }

  const URL_EDGES: set<string> := {
    "url_to_javascript", "url_to_parameter", "endpoint_to_parameter",
    "host_to_technology", "url_to_technology", "endpoint_to_technology",
    "technology_to_evidence", "host_to_tls_certificate"
  }

  const SCRIPT_EDGES: set<string> := {
    "port_to_tls_certificate", "javascript_to_javascript", "javascript_to_endpoint",
    "javascript_to_source_map", "javascript_to_technology", "url_to_secret_candidate"
  }

  const SECRET_EDGES: set<string> := {
    "javascript_to_secret_candidate", "secret_candidate_to_evidence"
  }

  /** The words of the three vocabularies: asset kinds, detection methods and
      relationship kinds are lowercase and joined by underscores. */
  ghost predicate IsLabel(k: string) {
    k != "" && forall c :: c in k ==> 'a' <= c <= 'z' || c == '_'
  }

  datatype Identity = Identity(kind: Bytes, value: Bytes) {
    predicate IsZero() { kind == "" }

    function ToString(): Bytes { kind + ":" + value }
  }

  datatype Relationship = Relationship(from: Identity, kind: Bytes, to: Identity) {
    function ID(): string {
      EncodeIdentity(from.ToString()) + "\0" + kind + "\0" + EncodeIdentity(to.ToString())
    }
  }

  function EvidenceIdentityValue(m: Bytes, indicator: Bytes, value: Bytes, source: Identity): string {
    m + "/" + PercentEncode(indicator) + "/" + PercentEncode(value) + "/" + PercentEncode(source.ToString())
  }

  function FindingIdentityValue(ruleId: Bytes, subject: Identity): string {
    PercentEncode(ruleId) + "@" + PercentEncode(subject.ToString())
  }

  datatype Port = Port(number: nat, protocol: string) {
    predicate Valid() {
      1 <= number <= 65535 && protocol in {"", "tcp", "udp"}
    }

    function ToString(): string {
      if protocol == "" then Decimal(number) else Decimal(number) + "/" + protocol
    }
  }

  function ServiceIdentityValue(port: Port, name: Bytes): string {
    port.ToString() + "/" + PercentEncode(name)
  }

  lemma PlainLabel(k: string)
    requires IsLabel(k)
    ensures Free(k, ':') && Free(k, '/') && Free(k, '\0')
  {
  }

  lemma KindsAreLabels(k: string)
    requires k in KINDS
    ensures IsLabel(k)
  {
  }

  lemma MethodsAreLabels(k: string)
    requires k in METHODS
    ensures IsLabel(k)
  {
  }

  lemma EdgesAreLabels(k: string)
    requires KnownEdge(k)
    ensures IsLabel(k)
  {
    if k in HOST_EDGES {
      HostEdgesAreLabels(k);
    } else if k in URL_EDGES {
      UrlEdgesAreLabels(k);
    } else if k in SCRIPT_EDGES {
      ScriptEdgesAreLabels(k);
    } else {
      SecretEdgesAreLabels(k);
    }
  }

  lemma HostEdgesAreLabels(k: string)
    requires k in HOST_EDGES
    ensures IsLabel(k)
  {
  }

  lemma UrlEdgesAreLabels(k: string)
    requires k in URL_EDGES
    ensures IsLabel(k)
  {
  }

  lemma ScriptEdgesAreLabels(k: string)
    requires k in SCRIPT_EDGES
    ensures IsLabel(k)
  {
  }

  lemma SecretEdgesAreLabels(k: string)
    requires k in SECRET_EDGES
    ensures IsLabel(k)
  {
  }

  lemma PercentFree(s: Bytes, c: char)
    requires !Alphanumeric(c) && c != '%'
    ensures Free(PercentEncode(s), c)
  {
    PercentAlphabet(s);
  }

  lemma IdentityStringInjective(a: Identity, b: Identity)
    requires IsLabel(a.kind) && IsLabel(b.kind)
    ensures a.ToString() == b.ToString() <==> a == b
  {
    PlainLabel(a.kind);
    PlainLabel(b.kind);
    CutFree(a.kind, ":", a.value);
    CutFree(b.kind, ":", b.value);
  }

  lemma RelationshipIDInjective(a: Relationship, b: Relationship)
    requires IsLabel(a.from.kind) && IsLabel(a.to.kind) && IsLabel(a.kind)
    requires IsLabel(b.from.kind) && IsLabel(b.to.kind) && IsLabel(b.kind)
    ensures a.ID() == b.ID() <==> a == b
  {
    if a.ID() == b.ID() {
      var p := RelationshipParts(a);
      var q := RelationshipParts(b);
      JoinInjective(p, q, '\0');
      assert p[0] == q[0] && p[1] == q[1] && p[2] == q[2];
      EncodeIdentityInjective(a.from.ToString(), b.from.ToString());
      EncodeIdentityInjective(a.to.ToString(), b.to.ToString());
      IdentityStringInjective(a.from, b.from);
      IdentityStringInjective(a.to, b.to);
    }
  }

  lemma RelationshipParts(r: Relationship) returns (p: seq<string>)
    requires IsLabel(r.kind)
    ensures p == [EncodeIdentity(r.from.ToString()), r.kind, EncodeIdentity(r.to.ToString())]
    ensures forall x :: x in p ==> Free(x, '\0')
    ensures Join(p, '\0') == r.ID()
  {
    p := [EncodeIdentity(r.from.ToString()), r.kind, EncodeIdentity(r.to.ToString())];
    IdentityAlphabet(r.from.ToString());
    IdentityAlphabet(r.to.ToString());
    PlainLabel(r.kind);
    JoinFew(p[0], p[1], p[2], "", '\0');
  }

  lemma FindingIdentityInjective(r1: Bytes, s1: Identity, r2: Bytes, s2: Identity)
    requires IsLabel(s1.kind) && IsLabel(s2.kind)
    ensures FindingIdentityValue(r1, s1) == FindingIdentityValue(r2, s2) <==> r1 == r2 && s1 == s2
  {
    PercentFree(r1, '@');
    PercentFree(r2, '@');
    CutFree(PercentEncode(r1), "@", PercentEncode(s1.ToString()));
    CutFree(PercentEncode(r2), "@", PercentEncode(s2.ToString()));
    PercentInjective(r1, r2);
    PercentInjective(s1.ToString(), s2.ToString());
    IdentityStringInjective(s1, s2);
  }

  lemma EvidenceIdentityInjective(m1: Bytes, i1: Bytes, v1: Bytes, s1: Identity,
                                  m2: Bytes, i2: Bytes, v2: Bytes, s2: Identity)
    requires IsLabel(m1) && IsLabel(m2) && IsLabel(s1.kind) && IsLabel(s2.kind)
    ensures EvidenceIdentityValue(m1, i1, v1, s1) == EvidenceIdentityValue(m2, i2, v2, s2)
       <==> m1 == m2 && i1 == i2 && v1 == v2 && s1 == s2
  {
    if EvidenceIdentityValue(m1, i1, v1, s1) == EvidenceIdentityValue(m2, i2, v2, s2) {
      var p := EvidenceParts(m1, i1, v1, s1);
      var q := EvidenceParts(m2, i2, v2, s2);
      JoinInjective(p, q, '/');
      assert p[0] == q[0] && p[1] == q[1] && p[2] == q[2] && p[3] == q[3];
      PercentInjective(i1, i2);
      PercentInjective(v1, v2);
      PercentInjective(s1.ToString(), s2.ToString());
      IdentityStringInjective(s1, s2);
    }
  }

  lemma EvidenceParts(m: Bytes, i: Bytes, v: Bytes, s: Identity) returns (p: seq<string>)
    requires IsLabel(m)
    ensures p == [m, PercentEncode(i), PercentEncode(v), PercentEncode(s.ToString())]
    ensures forall x :: x in p ==> Free(x, '/')
    ensures Join(p, '/') == EvidenceIdentityValue(m, i, v, s)
  {
    p := [m, PercentEncode(i), PercentEncode(v), PercentEncode(s.ToString())];
    PlainLabel(m);
    PercentFree(i, '/');
    PercentFree(v, '/');
    PercentFree(s.ToString(), '/');
    JoinFew(p[0], p[1], p[2], p[3], '/');
  }

  // ----- the vocabularies

  predicate KnownEdge(k: string) {
    k in HOST_EDGES || k in URL_EDGES || k in SCRIPT_EDGES || k in SECRET_EDGES
  }

  /** Assets of the implemented kinds never share an identity string. */
  lemma KnownIdentitiesInjective(a: Identity, b: Identity)
    requires a.kind in KINDS && b.kind in KINDS
    ensures a.ToString() == b.ToString() <==> a == b
  {
    KindsAreLabels(a.kind);
    KindsAreLabels(b.kind);
    IdentityStringInjective(a, b);
  }

  /** Nor do evidence records of the implemented methods. */
  lemma KnownEvidenceInjective(m1: Bytes, i1: Bytes, v1: Bytes, s1: Identity,
                               m2: Bytes, i2: Bytes, v2: Bytes, s2: Identity)
    requires m1 in METHODS && m2 in METHODS && s1.kind in KINDS && s2.kind in KINDS
    ensures EvidenceIdentityValue(m1, i1, v1, s1) == EvidenceIdentityValue(m2, i2, v2, s2)
       <==> m1 == m2 && i1 == i2 && v1 == v2 && s1 == s2
  {
    MethodsAreLabels(m1);
    MethodsAreLabels(m2);
    KindsAreLabels(s1.kind);
    KindsAreLabels(s2.kind);
    EvidenceIdentityInjective(m1, i1, v1, s1, m2, i2, v2, s2);
  }

  /** Nor do edges of the implemented kinds between such assets. */
  lemma KnownEdgesInjective(a: Relationship, b: Relationship)
    requires KnownEdge(a.kind) && a.from.kind in KINDS && a.to.kind in KINDS
    requires KnownEdge(b.kind) && b.from.kind in KINDS && b.to.kind in KINDS
    ensures a.ID() == b.ID() <==> a == b
  {
    EdgesAreLabels(a.kind);
    EdgesAreLabels(b.kind);
    EndsAreLabels(a);
    EndsAreLabels(b);
    RelationshipIDInjective(a, b);
  }

  lemma EndsAreLabels(r: Relationship)
    requires r.from.kind in KINDS && r.to.kind in KINDS
    ensures IsLabel(r.from.kind) && IsLabel(r.to.kind)
  {
    KindsAreLabels(r.from.kind);
    KindsAreLabels(r.to.kind);
  }

  /** A slash in a service name can never be read as the port separator. */
  lemma ServiceIdentityInjective(p1: Port, n1: Bytes, p2: Port, n2: Bytes)
    requires p1.Valid() && p2.Valid()
    ensures ServiceIdentityValue(p1, n1) == ServiceIdentityValue(p2, n2) <==> p1 == p2 && n1 == n2
  {
    if ServiceIdentityValue(p1, n1) == ServiceIdentityValue(p2, n2) {
      var p := ServiceParts(p1, n1);
      var q := ServiceParts(p2, n2);
      JoinInjective(p, q, '/');
      assert |p| == |q| && p[0] == q[0] && p[1] == q[1] && p[|p| - 1] == q[|q| - 1];
      ValueDecimal(p1.number);
      ValueDecimal(p2.number);
      PercentInjective(n1, n2);
    }
  }

  lemma ServiceParts(port: Port, name: Bytes) returns (p: seq<string>)
    requires port.Valid()
    ensures p == if port.protocol == "" then [Decimal(port.number), PercentEncode(name)]
                 else [Decimal(port.number), port.protocol, PercentEncode(name)]
    ensures forall x :: x in p ==> Free(x, '/')
    ensures Join(p, '/') == ServiceIdentityValue(port, name)
  {
    p := if port.protocol == "" then [Decimal(port.number), PercentEncode(name)]
         else [Decimal(port.number), port.protocol, PercentEncode(name)];
    PercentFree(name, '/');
    var d := Decimal(port.number);
    assert Free(d, '/') by {
      assert forall c :: c in d ==> IsDigit(c);
    }
    assert Free(port.protocol, '/');
    JoinFew(d, port.protocol, PercentEncode(name), "", '/');
    JoinFew(d, PercentEncode(name), "", "", '/');
  }
}
