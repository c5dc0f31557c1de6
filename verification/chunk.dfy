/** Chunk identities of truncated scripts (internal/asset/javascript.go), printed
    and parsed as "<file>#rr-chunk=i/n/span=s-e/ph=<hash>/t=<tag>". */
module Chunks {
  import opened Wrappers
  import opened Text

  datatype URL = URL(scheme: string, hostPort: string, path: string, query: string, fragment: string) {
    predicate IsZero() { this == URL("", "", "", "", "") }

    /** The canonical form carries no fragment. */
    function ToString(): string {
      scheme + "://" + hostPort + path + if query != "" then "?" + query else ""
    }
  }

  /** The URL parser is a parameter. */
  type URLParser = string -> Option<URL>

  /** ParseURL always yields a scheme and a host. */
  ghost predicate NeverZero(parse: URLParser) {
    forall s :: parse(s).Some? ==> !parse(s).value.IsZero()
  }

  /** s is its own canonical form. */
  predicate CanonicalFile(parse: URLParser, s: string) {
    parse(s).Some? && parse(s).value.ToString() == s && parse(s).value.fragment == ""
  }

  datatype Chunk = Chunk(file: URL, index: int, total: int, start: int, end: int, hash: string, tag: string)

  datatype Identity = Identity(kind: string, value: string)

  datatype ChunkError = BadKind | BadMarker | BadFile | BadShape | BadIndex | BadTotal | BadSpan | BadHash | BadTag

  const KIND := "javascript"
  const MARKER := "#rr-chunk="
  const MAX_END := 0x80_0000
  const MAX_SPAN := 0x10_0000

  predicate IsHash(s: string) {
    |s| == 8 && forall i :: 0 <= i < 8 ==> '0' <= s[i] <= '9' || 'a' <= s[i] <= 'f'
  }

  // ----- the tiling tag

  /** How many leading bytes of s[i..] are digits, as the index after them. */
  function SkipDigits(s: string, i: nat): (j: nat)
    requires i <= |s|
    ensures i <= j <= |s|
    ensures AllDigits(s[i..j])
    ensures j < |s| ==> !IsDigit(s[j])
    decreases |s| - i
  {
    if i < |s| && IsDigit(s[i]) then
      var j := SkipDigits(s, i + 1);
      assert s[i..j] == [s[i]] + s[i + 1..j];
      j
    else i
  }

  /** The three scans of validateChunkTilingTag. */
  predicate TagOk(tag: string) {
    && 0 < |tag| <= 32
    && tag[0] == 'w'
    && var i := SkipDigits(tag, 1);
    && i > 1 && i + 1 < |tag| && tag[i] == '-' && tag[i + 1] == 'o'
    && var j := SkipDigits(tag, i + 2);
    && j > i + 2 && j + 1 < |tag| && tag[j] == '-' && tag[j + 1] == 'v'
    && var k := SkipDigits(tag, j + 2);
    && k > j + 2 && k == |tag|
  }

  method ValidateTag(tag: string) returns (ok: bool)
    ensures ok == TagOk(tag)
  {
    if tag == "" || |tag| > 32 {
      return false;
    }
    var i := 0;
    if i >= |tag| || tag[i] != 'w' {
      return false;
    }
    i := i + 1;
    var s := i;
    i := ScanDigits(tag, i);
    if i == s {
      return false;
    }
    if i + 1 >= |tag| || tag[i] != '-' || tag[i + 1] != 'o' {
      return false;
    }
    i := i + 2;
    s := i;
    i := ScanDigits(tag, i);
    if i == s {
      return false;
    }
    if i + 1 >= |tag| || tag[i] != '-' || tag[i + 1] != 'v' {
      return false;
    }
    i := i + 2;
    s := i;
    i := ScanDigits(tag, i);
    if i == s || i != |tag| {
      return false;
    }
    return true;
  }

  method ScanDigits(s: string, from: nat) returns (i: nat)
    requires from <= |s|
    ensures i == SkipDigits(s, from)
  {
    i := from;
    while i < |s| && '0' <= s[i] <= '9'
      invariant from <= i <= |s|
      invariant SkipDigits(s, i) == SkipDigits(s, from)
    {
      i := i + 1;
    }
  }

  ghost predicate IsNumeral(s: string) {
    s != "" && AllDigits(s)
  }

  function TagOf(w: string, o: string, v: string): string {
    "w" + w + "-o" + o + "-v" + v
  }

  lemma {:induction false} SkipAll(s: string, i: nat, j: nat)
    requires i <= j <= |s| && AllDigits(s[i..j]) && (j < |s| ==> !IsDigit(s[j]))
    ensures SkipDigits(s, i) == j
    decreases j - i
  {
    if i < j {
      assert s[i..j][0] == s[i] && s[i..j][1..] == s[i + 1..j];
      SkipAll(s, i + 1, j);
    }
  }

  /** The scanner accepts exactly w<digits>-o<digits>-v<digits> of at most 32
      bytes. */
  lemma {:induction false} TagShape(tag: string)
    ensures TagOk(tag) <==>
      |tag| <= 32 && exists w, o, v :: IsNumeral(w) && IsNumeral(o) && IsNumeral(v) && tag == TagOf(w, o, v)
  {
    if TagOk(tag) {
      var i := SkipDigits(tag, 1);
      var j := SkipDigits(tag, i + 2);
      var w, o, v := tag[1..i], tag[i + 2..j], tag[j + 2..];
      assert tag == TagOf(w, o, v) by {
        assert tag == tag[..1] + tag[1..i] + tag[i..i + 2] + tag[i + 2..j] + tag[j..j + 2] + tag[j + 2..];
        assert tag[i..i + 2] == "-o" && tag[j..j + 2] == "-v" && tag[..1] == "w";
      }
      assert SkipDigits(tag, j + 2) == |tag| && tag[j + 2..|tag|] == v;
      assert AllDigits(w) && AllDigits(o) && AllDigits(v);
      assert IsNumeral(w) && IsNumeral(o) && IsNumeral(v);
    }
    if |tag| <= 32 && exists w, o, v :: IsNumeral(w) && IsNumeral(o) && IsNumeral(v) && tag == TagOf(w, o, v) {
      var w, o, v :| IsNumeral(w) && IsNumeral(o) && IsNumeral(v) && tag == TagOf(w, o, v);
      TagScans(tag, w, o, v);
    }
  }

  lemma {:induction false} TagScans(tag: string, w: string, o: string, v: string)
    requires IsNumeral(w) && IsNumeral(o) && IsNumeral(v) && tag == TagOf(w, o, v) && |tag| <= 32
    ensures TagOk(tag)
  {
    var i := 1 + |w|;
    var j := i + 2 + |o|;
    TagParts(tag, w, o, v);
    SkipAll(tag, 1, i);
    SkipAll(tag, i + 2, j);
    SkipAll(tag, j + 2, |tag|);
    assert SkipDigits(tag, 1) == i && SkipDigits(tag, i + 2) == j && SkipDigits(tag, j + 2) == |tag|;
  }

  lemma {:induction false} TagParts(tag: string, w: string, o: string, v: string)
    requires tag == TagOf(w, o, v)
    ensures var i := 1 + |w|; var j := i + 2 + |o|;
      && j + 2 + |v| == |tag| && tag[0] == 'w'
      && tag[1..i] == w && tag[i] == '-' && tag[i + 1] == 'o'
      && tag[i + 2..j] == o && tag[j] == '-' && tag[j + 1] == 'v' && tag[j + 2..|tag|] == v
  {
  }

  lemma TagFree(tag: string)
    requires TagOk(tag)
    ensures Free(tag, '/')
  {
    var i := SkipDigits(tag, 1);
    var j := SkipDigits(tag, i + 2);
    forall k | 0 <= k < |tag| ensures tag[k] != '/' {
      if 1 <= k < i {
        assert tag[1..i][k - 1] == tag[k];
      } else if i + 2 <= k < j {
        assert tag[i + 2..j][k - i - 2] == tag[k];
      } else if j + 2 <= k {
        assert tag[j + 2..|tag|][k - j - 2] == tag[k];
      }
    }
  }

  // ----- numbers

  /** atoiBounded and atoi64Bounded. */
  function AtoiBounded(s: string, min: int, max: int): (r: Option<int>)
    ensures r.Some? ==> IsNumeral(s) && |s| <= 10 && r.value == Value(s) && min <= r.value <= max
  {
    if s == "" || |s| > 10 || !AllDigits(s) then None
    else if Value(s) > max || Value(s) < min then None
    else Some(Value(s))
  }

  method AtoiBoundedLoop(s: string, min: int, max: int) returns (r: Option<int>)
    ensures r == AtoiBounded(s, min, max)
  {
    if s == "" || |s| > 10 {
      return None;
    }
    for i := 0 to |s|
      invariant AllDigits(s[..i])
    {
      if s[i] < '0' || s[i] > '9' {
        return None;
      }
    }
    assert s[..|s|] == s;
    var n := 0;
    for i := 0 to |s|
      invariant n == Value(s[..i])
      invariant i > 0 ==> n <= max
    {
      assert s[..i + 1][..i] == s[..i];
      n := n * 10 + (s[i] as int - '0' as int);
      if n > max {
        PrefixValue(s, i + 1);
        return None;
      }
    }
    if n < min {
      return None;
    }
    return Some(n);
  }

  lemma {:induction false} PrefixValue(s: string, i: nat)
    requires AllDigits(s) && i <= |s|
    ensures Value(s[..i]) <= Value(s)
  {
    if i < |s| {
      var n := |s| - 1;
      PrefixValue(s[..n], i);
      assert s[..n][..i] == s[..i];
    } else {
      assert s[..i] == s;
    }
  }

  /** itoa (12 bytes) and itoa64 (24 bytes): digits written from the right end
      of a fixed buffer. */
  method FormatDecimal(n: nat, size: nat) returns (s: string)
    requires size >= 1 && n < Pow10(size)
    ensures s == Decimal(n)
  {
    if n == 0 {
      return "0";
    }
    var b := new char[size];
    var i: nat, rest: nat := size, n;
    assert b[size..] == "" && Written(n, "") == Decimal(n);
    while rest > 0
      invariant 0 <= i <= size && Buffered(n, rest, b[i..], i)
    {
      NextDigit(n, rest, b[i..], i);
      i := i - 1;
      PutInFront(b, i, DigitChar(rest % 10));
      rest := rest / 10;
    }
    return b[i..];
  }

  method PutInFront(b: array<char>, i: nat, c: char)
    requires i < b.Length
    modifies b
    ensures b[i..] == [c] + old(b[i + 1..])
  {
    b[i] := c;
  }

  /** What is still to write and what is written make up the numeral, and it fits. */
  ghost predicate Buffered(n: nat, rest: nat, tail: string, i: nat) {
    rest < Pow10(i) && Decimal(n) == Written(rest, tail)
  }

  lemma NextDigit(n: nat, rest: nat, tail: string, i: nat)
    requires rest > 0 && Buffered(n, rest, tail, i)
    ensures i > 0 && Buffered(n, rest / 10, [DigitChar(rest % 10)] + tail, i - 1)
  {
    DecimalStep(rest, tail);
    DigitFits(rest, i);
  }

  /** Room for a number is room for its last digit and the others. */
  lemma DigitFits(n: nat, i: nat)
    requires 0 < n < Pow10(i)
    ensures i > 0 && n / 10 < Pow10(i - 1)
  {
  }

  /** The digits still to write followed by those written. */
  function Written(rest: nat, tail: string): string {
    (if rest > 0 then Decimal(rest) else "") + tail
  }

  lemma DecimalStep(rest: nat, tail: string)
    requires rest > 0
    ensures Written(rest, tail) == Written(rest / 10, [DigitChar(rest % 10)] + tail)
  {
    if rest >= 10 {
      Associative(Decimal(rest / 10), [DigitChar(rest % 10)], tail);
    }
  }

  // ----- printing

  function Fields(index: string, total: string, start: string, end: string, hash: string, tag: string): seq<string> {
    [index, total, "span=" + (start + "-" + end), "ph=" + hash, "t=" + tag]
  }

  /** The printed form, its numerals given. */
  function Layout(file: string, index: string, total: string, start: string, end: string, hash: string, tag: string): string {
    file + MARKER + Join(Fields(index, total, start, end, hash, tag), '/')
  }

  /** ChunkJavaScriptIdentity. */
  function Build(c: Chunk): Result<Identity, ChunkError> {
    if c.file.IsZero() || c.file.fragment != "" || c.file.ToString() == "" || '#' in c.file.ToString() then Err(BadFile)
    else if c.total <= 0 || c.total > 1024 then Err(BadTotal)
    else if c.index < 0 || c.index >= c.total then Err(BadIndex)
    else if c.start < 0 || c.end <= c.start || c.end > MAX_END || c.end - c.start > MAX_SPAN then Err(BadSpan)
    else if !IsHash(c.hash) then Err(BadHash)
    else if !TagOk(c.tag) then Err(BadTag)
    else Ok(Identity(KIND, Layout(c.file.ToString(), Decimal(c.index), Decimal(c.total), Decimal(c.start), Decimal(c.end), c.hash, c.tag)))
  }

  // ----- parsing

  /** ParseChunkIdentity. */
  function Parse(parse: URLParser, id: Identity): Result<Chunk, ChunkError> {
    if id.kind != KIND then Err(BadKind)
    else
      match Cut(id.value, MARKER)
      case None => Err(BadMarker)
      case Some((file, rest)) =>
        if file == "" || '#' in file || !CanonicalFile(parse, file) then Err(BadFile)
        else ParseFields(parse(file).value, Split(rest, '/'))
  }

  function ParseFields(file: URL, parts: seq<string>): Result<Chunk, ChunkError> {
    if |parts| != 5 then Err(BadShape)
    else
      var index := AtoiBounded(parts[0], 0, 1023);
      var total := AtoiBounded(parts[1], 1, 1024);
      if index.None? then Err(BadIndex)
      else if total.None? then Err(BadTotal)
      else if index.value >= total.value then Err(BadIndex)
      else
        match ParseSpan(parts[2])
        case None => Err(BadSpan)
        case Some((start, end)) =>
          var ph := CutPrefix(parts[3], "ph=");
          var tag := CutPrefix(parts[4], "t=");
          if ph.None? || !IsHash(ph.value) then Err(BadHash)
          else if tag.None? || !TagOk(tag.value) then Err(BadTag)
          else Ok(Chunk(file, index.value, total.value, start, end, ph.value, tag.value))
  }

  function ParseSpan(part: string): Option<(int, int)> {
    match CutPrefix(part, "span=")
    case None => None
    case Some(span) =>
      match Cut(span, "-")
      case None => None
      case Some((s0, s1)) =>
        var start := AtoiBounded(s0, 0, MAX_END);
        var end := AtoiBounded(s1, 0, MAX_END);
        if start.None? || end.None? then None
        else if end.value <= start.value || end.value - start.value > MAX_SPAN then None
        else Some((start.value, end.value))
  }

  // ----- the two are inverse

  /** The numerals of an accepted string. */
  ghost predicate Numerals(c: Chunk, index: string, total: string, start: string, end: string) {
    && AtoiBounded(index, 0, 1023) == Some(c.index) && AtoiBounded(total, 1, 1024) == Some(c.total)
    && AtoiBounded(start, 0, MAX_END) == Some(c.start) && AtoiBounded(end, 0, MAX_END) == Some(c.end)
  }

  /** What both directions agree a chunk is. */
  ghost predicate ValidWindow(c: Chunk) {
    && 0 <= c.index < c.total <= 1024
    && 0 <= c.start < c.end <= MAX_END && c.end - c.start <= MAX_SPAN
    && IsHash(c.hash) && TagOk(c.tag)
  }

  lemma NumeralFree(s: string, c: char)
    requires IsNumeral(s) && !IsDigit(c)
    ensures Free(s, c)
  {
  }

  lemma FieldsFree(index: string, total: string, start: string, end: string, hash: string, tag: string)
    requires IsNumeral(index) && IsNumeral(total) && IsNumeral(start) && IsNumeral(end)
    requires IsHash(hash) && TagOk(tag)
    ensures forall f :: f in Fields(index, total, start, end, hash, tag) ==> Free(f, '/')
  {
    NumeralFree(index, '/');
    NumeralFree(total, '/');
    NumeralFree(start, '/');
    NumeralFree(end, '/');
    TagFree(tag);
  }

  /** Every printed chunk reads back, whatever its numerals look like. */
  lemma ParsePrinted(parse: URLParser, c: Chunk, index: string, total: string, start: string, end: string)
    requires CanonicalFile(parse, c.file.ToString()) && c.file.ToString() != "" && '#' !in c.file.ToString()
    requires parse(c.file.ToString()).value == c.file
    requires ValidWindow(c) && Numerals(c, index, total, start, end)
    ensures Parse(parse, Identity(KIND, Layout(c.file.ToString(), index, total, start, end, c.hash, c.tag))) == Ok(c)
  {
    var file := c.file.ToString();
    var fields := Fields(index, total, start, end, c.hash, c.tag);
    CutFree(file, MARKER, Join(fields, '/'));
    FieldsFree(index, total, start, end, c.hash, c.tag);
    SplitJoin(fields, '/');
    FieldsPrinted(c, index, total, start, end);
  }

  lemma FieldsPrinted(c: Chunk, index: string, total: string, start: string, end: string)
    requires ValidWindow(c) && Numerals(c, index, total, start, end)
    ensures ParseFields(c.file, Fields(index, total, start, end, c.hash, c.tag)) == Ok(c)
  {
    var fields := Fields(index, total, start, end, c.hash, c.tag);
    SpanPrinted(c, start, end);
    assert CutPrefix(fields[3], "ph=") == Some(c.hash) && CutPrefix(fields[4], "t=") == Some(c.tag);
  }

  lemma SpanPrinted(c: Chunk, start: string, end: string)
    requires ValidWindow(c)
    requires AtoiBounded(start, 0, MAX_END) == Some(c.start) && AtoiBounded(end, 0, MAX_END) == Some(c.end)
    ensures ParseSpan("span=" + (start + "-" + end)) == Some((c.start, c.end))
  {
    NumeralFree(start, '-');
    CutFree(start, "-", end);
    assert CutPrefix("span=" + (start + "-" + end), "span=") == Some(start + "-" + end);
  }

  lemma ParsedSpan(part: string) returns (s0: string, s1: string)
    requires ParseSpan(part).Some?
    ensures part == "span=" + (s0 + "-" + s1)
    ensures AtoiBounded(s0, 0, MAX_END) == Some(ParseSpan(part).value.0)
    ensures AtoiBounded(s1, 0, MAX_END) == Some(ParseSpan(part).value.1)
  {
    var cut := Cut(CutPrefix(part, "span=").value, "-").value;
    s0, s1 := cut.0, cut.1;
  }

  /** Every accepted string is a printed chunk with some numerals. */
  lemma ParsedIsPrinted(parse: URLParser, id: Identity)
      returns (index: string, total: string, start: string, end: string)
    requires Parse(parse, id).Ok?
    ensures var c := Parse(parse, id).value;
      && ValidWindow(c) && Numerals(c, index, total, start, end)
      && id == Identity(KIND, Layout(c.file.ToString(), index, total, start, end, c.hash, c.tag))
      && CanonicalFile(parse, c.file.ToString()) && parse(c.file.ToString()).value == c.file
      && c.file.ToString() != "" && '#' !in c.file.ToString()
  {
    var cut := Cut(id.value, MARKER).value;
    var parts := Split(cut.1, '/');
    JoinSplit(cut.1, '/');
    index, total := parts[0], parts[1];
    start, end := ParsedSpan(parts[2]);
    var c := Parse(parse, id).value;
    assert parts == Fields(index, total, start, end, c.hash, c.tag);
  }

  lemma DecimalNumerals(c: Chunk)
    requires ValidWindow(c)
    ensures Numerals(c, Decimal(c.index), Decimal(c.total), Decimal(c.start), Decimal(c.end))
  {
    DecimalReads(c.index);
    DecimalReads(c.total);
    DecimalReads(c.start);
    DecimalReads(c.end);
  }

  lemma DecimalReads(n: nat)
    requires n <= MAX_END
    ensures Value(Decimal(n)) == n && |Decimal(n)| <= 10
  {
    ValueDecimal(n);
    DecimalLength(n, 10, Pow10(10));
  }

  function PrintedChunk(c: Chunk): string
    requires c.index >= 0 && c.total >= 0 && c.start >= 0 && c.end >= 0
  {
    Layout(c.file.ToString(), Decimal(c.index), Decimal(c.total), Decimal(c.start), Decimal(c.end), c.hash, c.tag)
  }

  /** What was built, and of what. */
  lemma Built(c: Chunk)
    requires Build(c).Ok?
    ensures ValidWindow(c) && c.file.ToString() != "" && '#' !in c.file.ToString() && IsHash(c.hash) && TagOk(c.tag)
    ensures Build(c).value == Identity(KIND, PrintedChunk(c))
  {
  }

  /** Which chunks have an identity, and its text. */
  lemma BuildMeans(c: Chunk)
    ensures Build(c).Ok? <==>
      (&& c.file != URL("", "", "", "", "") && c.file.fragment == "" && c.file.ToString() != "" && '#' !in c.file.ToString()
       && 0 <= c.index < c.total <= 1024 && 0 <= c.start < c.end <= 8388608 && c.end - c.start <= 1048576
       && IsHash(c.hash) && TagOk(c.tag))
    ensures Build(c).Ok? ==> Build(c).value == Identity("javascript", Join([c.file.ToString() + "#rr-chunk=" + Decimal(c.index),
      Decimal(c.total), "span=" + Decimal(c.start) + "-" + Decimal(c.end), "ph=" + c.hash, "t=" + c.tag], '/'))
  {
    if Build(c).Ok? {
      var f := Fields(Decimal(c.index), Decimal(c.total), Decimal(c.start), Decimal(c.end), c.hash, c.tag);
      var span := "span=" + Decimal(c.start) + "-" + Decimal(c.end);
      assert f[2] == span;
      assert f == [Decimal(c.index)] + [Decimal(c.total), span, "ph=" + c.hash, "t=" + c.tag];
      JoinInFront(c.file.ToString() + "#rr-chunk=", Decimal(c.index), [Decimal(c.total), span, "ph=" + c.hash, "t=" + c.tag]);
    }
  }

  lemma JoinInFront(x: string, first: string, rest: seq<string>)
    requires rest != []
    ensures x + Join([first] + rest, '/') == Join([x + first] + rest, '/')
  {
    assert ([first] + rest)[1..] == rest && ([x + first] + rest)[1..] == rest;
    assert x + (first + ['/'] + Join(rest, '/')) == (x + first) + ['/'] + Join(rest, '/');
  }

  /** Parsing a built identity gives back what it was built from. */
  lemma {:induction false} BuildThenParse(parse: URLParser, c: Chunk)
    requires Build(c).Ok?
    requires CanonicalFile(parse, c.file.ToString())
    ensures Parse(parse, Build(c).value) == Ok(c.(file := parse(c.file.ToString()).value))
  {
    var d := c.(file := parse(c.file.ToString()).value);
    Built(c);
    SameFileText(parse, c.file.ToString());
    DecimalNumerals(d);
    ParsePrinted(parse, d, Decimal(d.index), Decimal(d.total), Decimal(d.start), Decimal(d.end));
  }

  lemma SameFileText(parse: URLParser, text: string)
    requires CanonicalFile(parse, text)
    ensures parse(text).value.ToString() == text
  {
  }

  /** Distinct windows of canonical files have distinct identities. */
  lemma BuildInjective(parse: URLParser, c: Chunk, d: Chunk)
    requires Build(c).Ok? && CanonicalFile(parse, c.file.ToString())
    requires Build(d).Ok? && CanonicalFile(parse, d.file.ToString())
    requires Build(c) == Build(d)
    ensures c.file.ToString() == d.file.ToString() && c == d.(file := c.file)
  {
    BuildThenParse(parse, c);
    BuildThenParse(parse, d);
  }

  /** Whatever the parser accepts, the builder accepts, and parsing what it
      builds gives the same chunk again. */
  lemma {:induction false} ParseThenBuild(parse: URLParser, id: Identity)
    requires NeverZero(parse) && Parse(parse, id).Ok?
    ensures Build(Parse(parse, id).value).Ok?
    ensures Parse(parse, Build(Parse(parse, id).value).value) == Parse(parse, id)
  {
    var c := Parse(parse, id).value;
    var _, _, _, _ := ParsedIsPrinted(parse, id);
    BuildThenParse(parse, c);
  }

  /** The numeral fields of a chunk string. */
  function NumeralFields(value: string): seq<string> {
    match Cut(value, MARKER)
    case None => []
    case Some((_, rest)) =>
      var parts := Split(rest, '/');
      if |parts| != 5 || CutPrefix(parts[2], "span=").None? then []
      else
        match Cut(CutPrefix(parts[2], "span=").value, "-")
        case None => []
        case Some((s0, s1)) => [parts[0], parts[1], s0, s1]
  }

  /** The parser accepts leading zeros, so printing undoes parsing exactly when
      no numeral has one. */
  lemma ParseThenBuildIsIdentity(parse: URLParser, id: Identity)
    requires NeverZero(parse) && Parse(parse, id).Ok?
    ensures Build(Parse(parse, id).value) == Ok(id)
       <==> forall s :: s in NumeralFields(id.value) ==> !LeadingZero(s)
  {
    var c := Parse(parse, id).value;
    var i, t, s, e := ParsedIsPrinted(parse, id);
    var file := c.file.ToString();
    ParseThenBuild(parse, id);
    FieldsOfLayout(file, i, t, s, e, c.hash, c.tag);
    AllOfFour(NumeralFields(id.value), i, t, s, e);
    PrintsBack(c.index, i);
    PrintsBack(c.total, t);
    PrintsBack(c.start, s);
    PrintsBack(c.end, e);
    if Build(c) == Ok(id) {
      DecimalNumerals(c);
      FieldsOfLayout(file, Decimal(c.index), Decimal(c.total), Decimal(c.start), Decimal(c.end), c.hash, c.tag);
      SameFour(i, t, s, e, Decimal(c.index), Decimal(c.total), Decimal(c.start), Decimal(c.end));
    }
  }

  lemma AllOfFour(f: seq<string>, a: string, b: string, c: string, d: string)
    requires f == [a, b, c, d]
    ensures (forall s :: s in f ==> !LeadingZero(s))
       <==> !LeadingZero(a) && !LeadingZero(b) && !LeadingZero(c) && !LeadingZero(d)
  {
    assert f[0] in f && f[1] in f && f[2] in f && f[3] in f;
  }

  lemma SameFour(a: string, b: string, c: string, d: string, e: string, f: string, g: string, h: string)
    requires [a, b, c, d] == [e, f, g, h]
    ensures a == e && b == f && c == g && d == h
  {
    var x, y := [a, b, c, d], [e, f, g, h];
    assert x[0] == y[0] && x[1] == y[1] && x[2] == y[2] && x[3] == y[3];
  }

  lemma PrintsBack(n: int, s: string)
    requires IsNumeral(s) && n == Value(s)
    ensures Decimal(n) == s <==> !LeadingZero(s)
  {
    DecimalValue(s);
  }

  lemma {:induction false} FieldsOfLayout(file: string, index: string, total: string, start: string, end: string, hash: string, tag: string)
    requires '#' !in file && IsNumeral(index) && IsNumeral(total) && IsNumeral(start) && IsNumeral(end)
    requires IsHash(hash) && TagOk(tag)
    ensures NumeralFields(Layout(file, index, total, start, end, hash, tag)) == [index, total, start, end]
  {
    var fields := Fields(index, total, start, end, hash, tag);
    CutFree(file, MARKER, Join(fields, '/'));
    FieldsFree(index, total, start, end, hash, tag);
    SplitJoin(fields, '/');
    NumeralFree(start, '-');
    CutFree(start, "-", end);
  }

  /** A second string for the same chunk: its index written with a zero in
      front. */
  lemma {:induction false} LeadingZeroAccepted(parse: URLParser, c: Chunk)
    requires Build(c).Ok?
    requires CanonicalFile(parse, c.file.ToString()) && parse(c.file.ToString()).value == c.file
    ensures var id := Identity(KIND, Layout(c.file.ToString(), "0" + Decimal(c.index), Decimal(c.total), Decimal(c.start), Decimal(c.end), c.hash, c.tag));
      Parse(parse, id) == Ok(c) && id != Build(c).value
  {
    DecimalNumerals(c);
    var z := "0" + Decimal(c.index);
    Built(c);
    ZeroParses(parse, c, z);
    FieldsOfLayout(c.file.ToString(), z, Decimal(c.total), Decimal(c.start), Decimal(c.end), c.hash, c.tag);
    FieldsOfLayout(c.file.ToString(), Decimal(c.index), Decimal(c.total), Decimal(c.start), Decimal(c.end), c.hash, c.tag);
    assert |z| == |Decimal(c.index)| + 1;
  }

  lemma ZeroParses(parse: URLParser, c: Chunk, z: string)
    requires Build(c).Ok? && z == "0" + Decimal(c.index)
    requires CanonicalFile(parse, c.file.ToString()) && parse(c.file.ToString()).value == c.file
    ensures Parse(parse, Identity(KIND, Layout(c.file.ToString(), z, Decimal(c.total), Decimal(c.start), Decimal(c.end), c.hash, c.tag))) == Ok(c)
    ensures IsNumeral(z)
  {
    DecimalNumerals(c);
    DecimalLength(c.index, 4, Pow10(4));
    LeadingZeroValue(Decimal(c.index));
    ParsePrinted(parse, c, z, Decimal(c.total), Decimal(c.start), Decimal(c.end));
  }

  lemma {:induction false} LeadingZeroValue(s: string)
    requires AllDigits(s)
    ensures AllDigits("0" + s) && Value("0" + s) == Value(s)
  {
    var z := "0" + s;
    if s == "" {
      assert z[..0] == "";
    } else {
      var n := |s| - 1;
      LeadingZeroValue(s[..n]);
      assert z[..|z| - 1] == "0" + s[..n];
    }
  }
}
