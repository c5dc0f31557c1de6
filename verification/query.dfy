/** The canonical query string of a URL (internal/asset/url.go, sortQuery and
    escapeRawQuery). The decoder of net/url is a parameter: nothing below
    depends on what it decodes to. */
module Query {
  import opened Wrappers
  import opened Text
  import opened Order
  import Identities

  /** The raw bytes that would corrupt a canonical query. */
  predicate Corrupting(c: char) {
    c == ' ' || c == '#' || c == '&' || c == '=' || c as int >= 0x80
  }

  function Escape(s: string): string {
    if s == "" then ""
    else (if Corrupting(s[0]) then Identities.EscapeByte(s[0]) else [s[0]]) + Escape(s[1..])
  }

  /** One raw key or key=value pair. */
  datatype Param = Param(rawKey: string, key: string, value: string, hasValue: bool)

  /** What identity sees of a pair: both halves escaped, and whether it had '='. */
  datatype EscapedPair = EscapedPair(key: string, hasValue: bool, value: string)

  type Decoder = string -> Option<string>

  /** The sort key: the decode of the emitted key, or the key itself. */
  function SortKey(decode: Decoder, rawKey: string): string {
    var emitted := Escape(rawKey);
    match decode(emitted)
    case Some(d) => d
    case None => emitted
  }

  function ParseParam(decode: Decoder, pair: string): Param {
    match Cut(pair, "=")
    case None => Param(pair, SortKey(decode, pair), "", false)
    case Some(kv) => Param(kv.0, SortKey(decode, kv.0), kv.1, true)
  }

  function ParseParams(decode: Decoder, pairs: seq<string>): seq<Param> {
    if pairs == [] then []
    else (if pairs[0] == "" then [] else [ParseParam(decode, pairs[0])]) + ParseParams(decode, pairs[1..])
  }

  predicate ByKey(a: Param, b: Param) {
    StringLess(a.key, b.key)
  }

  function SortedParams(decode: Decoder, raw: string): seq<Param> {
    Sort(ByKey, ParseParams(decode, Split(raw, '&')))
  }

  function Emit(p: Param): string {
    Escape(p.rawKey) + if p.hasValue then "=" + Escape(p.value) else ""
  }

  function EmitAll(ps: seq<Param>): (r: seq<string>)
    ensures |r| == |ps| && forall i :: 0 <= i < |r| ==> r[i] == Emit(ps[i])
  {
    seq(|ps|, i requires 0 <= i < |ps| => Emit(ps[i]))
  }

  function Canonical(decode: Decoder, raw: string): string {
    if raw == "" then "" else Join(EmitAll(SortedParams(decode, raw)), '&')
  }

  function EscapedPairs(ps: seq<Param>): (r: seq<EscapedPair>)
    ensures |r| == |ps|
    ensures forall i :: 0 <= i < |r| ==> r[i] == EscapedPair(Escape(ps[i].rawKey), ps[i].hasValue, Escape(ps[i].value))
  {
    seq(|ps|, i requires 0 <= i < |ps| =>
      EscapedPair(Escape(ps[i].rawKey), ps[i].hasValue, Escape(ps[i].value)))
  }

  // ----- the loops of the source

  /** escapeRawQuery: a scan for a byte to escape, then the builder loop. */
  method EscapeRawQuery(s: string) returns (b: string)
    ensures b == Escape(s)
  {
    var needEscape := false;
    for i := 0 to |s|
      invariant !needEscape ==> forall j :: 0 <= j < i ==> !Corrupting(s[j])
    {
      if Corrupting(s[i]) {
        needEscape := true;
        break;
      }
    }
    if !needEscape {
      EscapeClean(s);
      return s;
    }
    b := "";
    for i := 0 to |s|
      invariant b + Escape(s[i..]) == Escape(s)
    {
      assert s[i..][1..] == s[i + 1..];
      var piece := EscapeWrite(s[i]);
      Associative(b, piece, Escape(s[i + 1..]));
      b := b + piece;
    }
  }

  method EscapeWrite(c: char) returns (b: string)
    ensures b == if Corrupting(c) then Identities.EscapeByte(c) else [c]
  {
    TripletLiterals();
    match c {
      case ' ' => b := "%20";
      case '#' => b := "%23";
      case '&' => b := "%26";
      case '=' => b := "%3D";
      case _ =>
        if c as int >= 0x80 {
          b := ['%'];
          b := b + [Identities.HEX_DIGITS[c as int / 16 % 16]];
          b := b + [Identities.HEX_DIGITS[c as int % 16]];
        } else {
          b := [c];
        }
    }
  }

  lemma TripletLiterals()
    ensures Identities.EscapeByte(' ') == "%20" && Identities.EscapeByte('#') == "%23"
    ensures Identities.EscapeByte('&') == "%26" && Identities.EscapeByte('=') == "%3D"
  {
    var h := Identities.HEX_DIGITS;
    assert h[2] == '2' && h[0] == '0' && h[3] == '3' && h[6] == '6' && h[13] == 'D';
    assert ' ' as int == 32 && '#' as int == 35 && '&' as int == 38 && '=' as int == 61;
  }

  /** sortQuery: collect the pairs, sort them in place, write them out. */
  method SortQuery(decode: Decoder, raw: string) returns (b: string)
    ensures b == Canonical(decode, raw)
  {
    if raw == "" {
      return "";
    }
    var params := CollectParams(decode, Split(raw, '&'));
    params := Sort(ByKey, params);
    b := WriteParams(params);
  }

  /** The first loop of sortQuery. */
  method CollectParams(decode: Decoder, pairs: seq<string>) returns (params: seq<Param>)
    ensures params == ParseParams(decode, pairs)
  {
    params := [];
    for i := 0 to |pairs|
      invariant params + ParseParams(decode, pairs[i..]) == ParseParams(decode, pairs)
    {
      CollectStep(decode, pairs, i, params);
      if pairs[i] == "" {
        continue;
      }
      var p := CollectParam(decode, pairs[i]);
      params := params + [p];
    }
  }

  method CollectParam(decode: Decoder, pair: string) returns (p: Param)
    ensures p == ParseParam(decode, pair)
  {
    var cut := Cut(pair, "=");
    var k, v, found := pair, "", false;
    if cut.Some? {
      k, v, found := cut.value.0, cut.value.1, true;
    }
    var emittedKey := EscapeRawQuery(k);
    var dk := emittedKey;
    if decode(emittedKey).Some? {
      dk := decode(emittedKey).value;
    }
    p := Param(k, dk, v, found);
  }

  lemma ParseParamsHead(decode: Decoder, pairs: seq<string>, i: nat)
    requires i < |pairs|
    ensures ParseParams(decode, pairs[i..])
         == (if pairs[i] == "" then [] else [ParseParam(decode, pairs[i])]) + ParseParams(decode, pairs[i + 1..])
  {
    assert pairs[i..][1..] == pairs[i + 1..];
  }

  lemma CollectStep(decode: Decoder, pairs: seq<string>, i: nat, params: seq<Param>)
    requires i < |pairs|
    ensures params + ParseParams(decode, pairs[i..])
         == (if pairs[i] == "" then params else params + [ParseParam(decode, pairs[i])]) + ParseParams(decode, pairs[i + 1..])
  {
    ParseParamsHead(decode, pairs, i);
    if pairs[i] == "" {
      assert [] + ParseParams(decode, pairs[i + 1..]) == ParseParams(decode, pairs[i + 1..]);
    } else {
      AppendOne(params, ParseParam(decode, pairs[i]), ParseParams(decode, pairs[i + 1..]));
    }
  }

  /** The second loop of sortQuery. */
  method WriteParams(params: seq<Param>) returns (b: string)
    ensures b == Join(EmitAll(params), '&')
  {
    b := "";
    for i := 0 to |params|
      invariant b == Join(EmitAll(params[..i]), '&')
    {
      ghost var written := EmitAll(params[..i]);
      var piece := WriteParam(params[i]);
      assert EmitAll(params[..i + 1]) == written + [piece];
      JoinSnoc(written, piece);
      if i > 0 {
        b := b + ['&'];
      }
      b := b + piece;
    }
    assert params[..|params|] == params;
  }

  method WriteParam(p: Param) returns (b: string)
    ensures b == Emit(p)
  {
    b := EscapeRawQuery(p.rawKey);
    if p.hasValue {
      b := b + ['='];
      var value := EscapeRawQuery(p.value);
      Associative(Escape(p.rawKey), "=", value);
      b := b + value;
    }
  }

  lemma {:induction false} JoinSnoc(parts: seq<string>, last: string)
    ensures Join(parts + [last], '&') == Join(parts, '&') + (if parts == [] then "" else "&") + last
  {
    if |parts| == 1 {
      assert (parts + [last])[1..] == [last];
    } else if |parts| > 1 {
      assert (parts + [last])[1..] == parts[1..] + [last];
      JoinSnoc(parts[1..], last);
    }
  }

  // ----- escaping

  lemma {:induction false} EscapeClean(s: string)
    requires forall i :: 0 <= i < |s| ==> !Corrupting(s[i])
    ensures Escape(s) == s
  {
    if s != "" {
      EscapeClean(s[1..]);
      assert s == [s[0]] + s[1..];
    }
  }

  lemma {:induction false} EscapeIsClean(s: string)
    ensures forall i :: 0 <= i < |Escape(s)| ==> !Corrupting(Escape(s)[i])
    ensures s != "" ==> Escape(s) != ""
  {
    if s != "" {
      EscapeIsClean(s[1..]);
      Identities.HexRoundTrip(s[0] as int / 16 % 16);
      Identities.HexRoundTrip(s[0] as int % 16);
    }
  }

  lemma EscapeFacts(s: string)
    ensures Escape(Escape(s)) == Escape(s)
    ensures Free(Escape(s), '=') && Free(Escape(s), '&')
    ensures s != "" ==> Escape(s) != ""
  {
    EscapeIsClean(s);
    EscapeClean(Escape(s));
  }

  // ----- emitting and reading back

  function Print(e: EscapedPair): string {
    if e.hasValue then e.key + "=" + e.value else e.key
  }

  function Read(s: string): EscapedPair {
    match Cut(s, "=")
    case None => EscapedPair(s, false, "")
    case Some(kv) => EscapedPair(kv.0, true, kv.1)
  }

  lemma EmitRead(p: Param)
    requires !p.hasValue ==> p.value == ""
    ensures var e := EscapedPair(Escape(p.rawKey), p.hasValue, Escape(p.value));
      Emit(p) == Print(e) && Read(Emit(p)) == e
  {
    EscapeFacts(p.rawKey);
    if p.hasValue {
      Associative(Escape(p.rawKey), "=", Escape(p.value));
      CutFree(Escape(p.rawKey), "=", Escape(p.value));
    } else {
      CutNone(Escape(p.rawKey), '=');
      assert Emit(p) == Escape(p.rawKey);
    }
  }

  /** The pair a canonical query is read back as. */
  function Canon(p: Param): Param {
    Param(Escape(p.rawKey), p.key, Escape(p.value), p.hasValue)
  }

  /** A pair as parseQuery builds it: the key it sorts by is derived, and a
      pair without '=' has no value. */
  ghost predicate Parsed(decode: Decoder, p: Param) {
    && p.key == SortKey(decode, p.rawKey)
    && (!p.hasValue ==> p.value == "")
    && (p.rawKey != "" || p.hasValue)
  }

  lemma {:induction false} ParsedParams(decode: Decoder, pairs: seq<string>)
    ensures forall p :: p in ParseParams(decode, pairs) ==> Parsed(decode, p)
  {
    if pairs != [] {
      ParsedParams(decode, pairs[1..]);
    }
  }

  lemma EmitParse(decode: Decoder, p: Param)
    requires Parsed(decode, p)
    ensures Emit(p) != "" && Free(Emit(p), '&')
    ensures ParseParam(decode, Emit(p)) == Canon(p)
    ensures Emit(Canon(p)) == Emit(p)
  {
    EmitRead(p);
    EscapeFacts(p.rawKey);
    EscapeFacts(p.value);
  }

  function CanonAll(ps: seq<Param>): (r: seq<Param>)
    ensures |r| == |ps| && forall i :: 0 <= i < |r| ==> r[i] == Canon(ps[i])
  {
    seq(|ps|, i requires 0 <= i < |ps| => Canon(ps[i]))
  }

  lemma EmittedClean(decode: Decoder, ps: seq<Param>)
    requires forall p :: p in ps ==> Parsed(decode, p)
    ensures forall e :: e in EmitAll(ps) ==> e != "" && Free(e, '&')
  {
    forall e | e in EmitAll(ps) ensures e != "" && Free(e, '&') {
      var i :| 0 <= i < |ps| && EmitAll(ps)[i] == e;
      EmitParse(decode, ps[i]);
    }
  }

  lemma {:induction false} EmitsAlike(decode: Decoder, ps: seq<Param>)
    requires forall p :: p in ps ==> Parsed(decode, p)
    ensures EmitAll(CanonAll(ps)) == EmitAll(ps)
  {
    if ps != [] {
      EmitsAlike(decode, ps[1..]);
      EmitParse(decode, ps[0]);
      assert CanonAll(ps)[1..] == CanonAll(ps[1..]);
    }
  }

  lemma ParseOne(decode: Decoder, e: string, rest: seq<string>)
    requires e != ""
    ensures ParseParams(decode, [e] + rest) == [ParseParam(decode, e)] + ParseParams(decode, rest)
  {
    assert ([e] + rest)[1..] == rest;
  }

  lemma EachAlike(ps: seq<Param>)
    requires ps != []
    ensures EmitAll(ps) == [Emit(ps[0])] + EmitAll(ps[1..])
    ensures CanonAll(ps) == [Canon(ps[0])] + CanonAll(ps[1..])
  {
  }

  lemma {:induction false} ReadBackParams(decode: Decoder, ps: seq<Param>)
    requires forall p :: p in ps ==> Parsed(decode, p)
    ensures ParseParams(decode, EmitAll(ps)) == CanonAll(ps)
  {
    if ps != [] {
      ReadBackParams(decode, ps[1..]);
      EmitParse(decode, ps[0]);
      ParseOne(decode, Emit(ps[0]), EmitAll(ps[1..]));
      EachAlike(ps);
    }
  }

  lemma ReadBack(decode: Decoder, ps: seq<Param>)
    requires forall p :: p in ps ==> Parsed(decode, p)
    ensures forall e :: e in EmitAll(ps) ==> e != "" && Free(e, '&')
    ensures ParseParams(decode, EmitAll(ps)) == CanonAll(ps)
    ensures EmitAll(CanonAll(ps)) == EmitAll(ps)
  {
    EmittedClean(decode, ps);
    ReadBackParams(decode, ps);
    EmitsAlike(decode, ps);
  }

  lemma ByKeyWeak()
    ensures StrictWeak(ByKey)
  {
    StringOrder();
    TotalIsWeak(StringLess);
  }

  lemma SortedParsed(decode: Decoder, raw: string)
    ensures Sorted(ByKey, SortedParams(decode, raw))
    ensures forall p :: p in SortedParams(decode, raw) ==> Parsed(decode, p)
  {
    var ps := ParseParams(decode, Split(raw, '&'));
    ByKeyWeak();
    SortSorted(ByKey, ps);
    SortContents(ByKey, ps);
    ParsedParams(decode, Split(raw, '&'));
    forall p | p in Sort(ByKey, ps) ensures Parsed(decode, p) {
      assert p in multiset(ps);
    }
  }

  /** Canonicalising twice is canonicalising once. */
  lemma CanonicalIsFixedPoint(decode: Decoder, raw: string)
    ensures Canonical(decode, Canonical(decode, raw)) == Canonical(decode, raw)
  {
    if raw != "" {
      SortedParsed(decode, raw);
      PrintedIsCanonical(decode, SortedParams(decode, raw));
    }
  }

  /** What the second loop prints from a sorted list is already canonical. */
  lemma PrintedIsCanonical(decode: Decoder, ps: seq<Param>)
    requires Sorted(ByKey, ps) && forall p :: p in ps ==> Parsed(decode, p)
    ensures var s := Join(EmitAll(ps), '&'); Canonical(decode, s) == s
  {
    ReadBack(decode, ps);
    if ps != [] {
      var x := EmitAll(ps);
      assert x[0] in x;
      JoinNonEmpty(x);
      SplitJoin(x, '&');
      CanonKeepsSorting(ps);
      SortedFixed(ByKey, CanonAll(ps));
    }
  }

  lemma CanonKeepsSorting(ps: seq<Param>)
    requires Sorted(ByKey, ps)
    ensures Sorted(ByKey, CanonAll(ps))
  {
  }

  lemma JoinNonEmpty(parts: seq<string>)
    requires parts != [] && parts[0] != ""
    ensures Join(parts, '&') != ""
  {
  }

  lemma EmitReadAll(ps: seq<Param>)
    requires forall p :: p in ps ==> !p.hasValue ==> p.value == ""
    ensures forall i :: 0 <= i < |ps| ==>
      EmitAll(ps)[i] == Print(EscapedPairs(ps)[i]) && Read(EmitAll(ps)[i]) == EscapedPairs(ps)[i]
  {
    forall i | 0 <= i < |ps|
      ensures EmitAll(ps)[i] == Print(EscapedPairs(ps)[i]) && Read(EmitAll(ps)[i]) == EscapedPairs(ps)[i]
    {
      assert ps[i] in ps;
      EmitRead(ps[i]);
    }
  }

  lemma EmitAllInjective(a: seq<Param>, b: seq<Param>)
    requires forall p :: p in a + b ==> !p.hasValue ==> p.value == ""
    ensures EmitAll(a) == EmitAll(b) <==> EscapedPairs(a) == EscapedPairs(b)
  {
    EmitReadAll(a);
    EmitReadAll(b);
    var x, y := EmitAll(a), EmitAll(b);
    var u, v := EscapedPairs(a), EscapedPairs(b);
    if x == y {
      assert forall i :: 0 <= i < |u| ==> u[i] == Read(x[i]) == v[i];
    }
    if u == v {
      assert forall i :: 0 <= i < |x| ==> x[i] == Print(u[i]) == y[i];
    }
  }

  lemma JoinEmittedInjective(x: seq<string>, y: seq<string>)
    requires forall e :: e in x + y ==> e != "" && Free(e, '&')
    ensures Join(x, '&') == Join(y, '&') <==> x == y
  {
    if x != [] { assert x[0] in x + y; JoinNonEmpty(x); }
    if y != [] { assert y[0] in x + y; JoinNonEmpty(y); }
    if x != [] && y != [] && Join(x, '&') == Join(y, '&') {
      JoinInjective(x, y, '&');
    }
  }

  /** Two raw queries name the same resource exactly when their escaped pairs,
      stably sorted by decoded emitted key, are the same list. */
  lemma SameIdentity(decode: Decoder, a: string, b: string)
    ensures Canonical(decode, a) == Canonical(decode, b)
       <==> EscapedPairs(SortedParams(decode, a)) == EscapedPairs(SortedParams(decode, b))
  {
    SortedParsed(decode, a);
    SortedParsed(decode, b);
    var p, q := SortedParams(decode, a), SortedParams(decode, b);
    ReadBack(decode, p);
    ReadBack(decode, q);
    JoinEmittedInjective(EmitAll(p), EmitAll(q));
    EmitAllInjective(p, q);
    EmptyQuery(decode);
  }

  lemma EmptyQuery(decode: Decoder)
    ensures SortedParams(decode, "") == [] && EmitAll([]) == [] && Join(EmitAll([]), '&') == ""
  {
    assert Split("", '&') == [""];
    assert ParseParams(decode, [""]) == [] by {
      assert [""][1..] == [];
    }
  }

  /** A present but empty value never collapses into the bare key. */
  lemma EmptyValueIsNotBareKey(decode: Decoder, k: string)
    requires k != "" && Free(k, '&') && Free(k, '=')
    ensures Canonical(decode, k + "=") != Canonical(decode, k)
  {
    SinglePair(decode, k);
    SinglePair(decode, k + "=");
    CutNone(k, '=');
    CutFree(k, "=", "");
    assert k + "=" + "" == k + "=";
    SameIdentity(decode, k + "=", k);
    var p, q := SortedParams(decode, k + "="), SortedParams(decode, k);
    assert EscapedPairs(p)[0].hasValue && !EscapedPairs(q)[0].hasValue;
  }

  lemma SinglePair(decode: Decoder, pair: string)
    requires pair != "" && Free(pair, '&')
    ensures SortedParams(decode, pair) == [ParseParam(decode, pair)]
  {
    SplitFree(pair, '&');
    assert [pair][1..] == [];
    assert ParseParams(decode, [pair]) == [ParseParam(decode, pair)];
    var p := [ParseParam(decode, pair)];
    assert p[1..] == [];
    assert Sort(ByKey, p) == Insert(ByKey, p[0], Sort(ByKey, []));
  }

  /** Pairs that share a decoded key keep the order they were written in. */
  lemma SameKeyKeepsOrder(decode: Decoder, raw: string, p: Param)
    ensures Ties(ByKey, p, SortedParams(decode, raw)) == Ties(ByKey, p, ParseParams(decode, Split(raw, '&')))
  {
    ByKeyWeak();
    SortStable(ByKey, p, ParseParams(decode, Split(raw, '&')));
  }

  // ----- byte by byte

  lemma {:induction false} EscapeGrows(s: string)
    ensures |Escape(s)| >= |s|
    ensures (exists c :: c in s && (c == ' ' || c == '#' || c == '&' || c == '=' || c as int >= 128)) ==> |Escape(s)| > |s|
  {
    if s != "" {
      EscapeGrows(s[1..]);
      assert s == [s[0]] + s[1..];
    }
  }

  /** Just the space, '#', '&', '=' and the bytes beyond ASCII are replaced. */
  lemma EscapeMeans(s: string)
    ensures forall c :: c in Escape(s) ==> c != ' ' && c != '#' && c != '&' && c != '=' && c as int < 128
    ensures Escape(s) == s <==> forall c :: c in s ==> c != ' ' && c != '#' && c != '&' && c != '=' && c as int < 128
  {
    EscapeIsClean(s);
    EscapeGrows(s);
    if forall c :: c in s ==> c != ' ' && c != '#' && c != '&' && c != '=' && c as int < 128 {
      forall i | 0 <= i < |s| ensures !Corrupting(s[i]) {
        assert s[i] in s;
      }
      EscapeClean(s);
    }
  }

  /** Each by the triplet that names it. */
  lemma {:induction false} EscapeDecodes(s: Identities.Bytes)
    requires '%' !in s
    ensures Identities.Unescape(Escape(s)) == s
  {
    if s != "" {
      EscapeDecodes(s[1..]);
      if Corrupting(s[0]) {
        Identities.UnescapeStep(s[0], Escape(s[1..]));
      } else {
        Identities.UnescapePlain(s[0], Escape(s[1..]));
      }
      assert s == [s[0]] + s[1..];
    }
  }

  /** What may stand in a canonical query. */
  ghost predicate Clean(s: string) {
    forall c :: c in s ==> c != ' ' && c != '#' && c as int < 128
  }

  lemma EmitIsClean(p: Param)
    ensures Clean(Emit(p))
  {
    EscapeMeans(p.rawKey);
    EscapeMeans(p.value);
  }

  lemma {:induction false} JoinIsClean(parts: seq<string>)
    requires forall i :: 0 <= i < |parts| ==> Clean(parts[i])
    ensures Clean(Join(parts, '&'))
  {
    if |parts| > 1 {
      JoinIsClean(parts[1..]);
    }
  }

  /** A canonical query holds no byte that would end it or is not ASCII. */
  lemma CanonicalIsClean(decode: Decoder, raw: string)
    ensures Clean(Canonical(decode, raw))
  {
    var ps := SortedParams(decode, raw);
    forall i | 0 <= i < |ps| ensures Clean(Emit(ps[i])) {
      EmitIsClean(ps[i]);
    }
    JoinIsClean(EmitAll(ps));
  }

  /** It has the pairs of the query, none lost or made up, by ascending decoded key. */
  lemma CanonicalPairs(decode: Decoder, raw: string)
    ensures var ps := SortedParams(decode, raw);
      && multiset(ps) == multiset(ParseParams(decode, Split(raw, '&')))
      && forall i, j :: 0 <= i < j < |ps| ==> !StringLess(ps[j].key, ps[i].key)
  {
    var all := ParseParams(decode, Split(raw, '&'));
    ByKeyWeak();
    SortContents(ByKey, all);
    SortSorted(ByKey, all);
    var ps := SortedParams(decode, raw);
    assert forall i, j :: 0 <= i < j < |ps| ==> !ByKey(ps[j], ps[i]);
  }
}
