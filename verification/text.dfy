/** What the program calls of Go's strings and strconv packages.

    Splitting and joining, cutting, and decimal numerals, with the laws that
    make them inverse to each other. A char of a modelled string stands for one
    byte. */
module Text {
  import opened Wrappers

  ghost predicate Free(s: string, c: char) {
    c !in s
  }

  lemma Associative(a: string, b: string, c: string)
    ensures (a + b) + c == a + (b + c)
  {
  }

  /** strings.Split with a one-byte separator: never empty, "" gives [""]. */
  function Split(s: string, sep: char): (parts: seq<string>)
    ensures |parts| > 0
  {
    if s == "" then [""]
    else
      var rest := Split(s[1..], sep);
      if s[0] == sep then [""] + rest else [[s[0]] + rest[0]] + rest[1..]
  }

  function Join(parts: seq<string>, sep: char): string {
    if parts == [] then ""
    else if |parts| == 1 then parts[0]
    else parts[0] + [sep] + Join(parts[1..], sep)
  }

  lemma {:induction false} SplitFree(s: string, sep: char)
    requires Free(s, sep)
    ensures Split(s, sep) == [s]
  {
    if s != "" {
      SplitFree(s[1..], sep);
      assert s == [s[0]] + s[1..];
    }
  }

  lemma {:induction false} SplitHead(a: string, sep: char, b: string)
    requires Free(a, sep)
    ensures Split(a + [sep] + b, sep) == [a] + Split(b, sep)
  {
    var s := a + [sep] + b;
    if a == "" {
      assert s[1..] == b;
    } else {
      assert s[1..] == a[1..] + [sep] + b;
      SplitHead(a[1..], sep, b);
      assert a == [a[0]] + a[1..];
    }
  }

  lemma {:induction false} SplitJoin(parts: seq<string>, sep: char)
    requires parts != [] && forall p :: p in parts ==> Free(p, sep)
    ensures Split(Join(parts, sep), sep) == parts
  {
    if |parts| == 1 {
      SplitFree(parts[0], sep);
    } else {
      SplitJoin(parts[1..], sep);
      SplitHead(parts[0], sep, Join(parts[1..], sep));
      assert parts == [parts[0]] + parts[1..];
    }
  }

  lemma {:induction false} JoinSplit(s: string, sep: char)
    ensures Join(Split(s, sep), sep) == s
    ensures forall p :: p in Split(s, sep) ==> Free(p, sep)
  {
    if s != "" {
      JoinSplit(s[1..], sep);
      var rest := Split(s[1..], sep);
      assert s == [s[0]] + s[1..];
      if s[0] == sep {
        assert ([""] + rest)[1..] == rest;
      } else {
        var all := [[s[0]] + rest[0]] + rest[1..];
        assert all[1..] == rest[1..];
        assert rest[0] in rest && Free(rest[0], sep) && Free([s[0]] + rest[0], sep);
        assert |rest| > 1 ==> Join(all, sep) == [s[0]] + (rest[0] + [sep] + Join(rest[1..], sep));
      }
    }
  }

  lemma JoinInjective(a: seq<string>, b: seq<string>, sep: char)
    requires a != [] && forall p :: p in a ==> Free(p, sep)
    requires b != [] && forall p :: p in b ==> Free(p, sep)
    requires Join(a, sep) == Join(b, sep)
    ensures a == b
  {
    SplitJoin(a, sep);
    SplitJoin(b, sep);
  }

  lemma JoinFew(a: string, b: string, c: string, d: string, sep: char)
    ensures Join([a, b], sep) == a + [sep] + b
    ensures Join([a, b, c], sep) == a + [sep] + b + [sep] + c
    ensures Join([a, b, c, d], sep) == a + [sep] + b + [sep] + c + [sep] + d
  {
    assert [a, b][1..] == [b] && [a, b, c][1..] == [b, c] && [a, b, c, d][1..] == [b, c, d];
    assert [b, c][1..] == [c] && [b, c, d][1..] == [c, d] && [c, d][1..] == [d];
    assert Join([c, d], sep) == c + [sep] + d;
    assert Join([b, c], sep) == b + [sep] + c;
    assert Join([b, c, d], sep) == b + [sep] + Join([c, d], sep);
  }

  lemma CutLater(s: string, a: string, sep: string, b: string)
    requires s != "" && s[1..] == a + sep + b
    ensures s == ([s[0]] + a) + sep + b
  {
    assert s == [s[0]] + s[1..];
    Associative([s[0]], a + sep, b);
    Associative([s[0]], a, sep);
  }

  /** strings.Cut: what stands before and after the first occurrence. */
  function Cut(s: string, sep: string): (r: Option<(string, string)>)
    requires sep != ""
    ensures r.Some? ==> s == r.value.0 + sep + r.value.1
  {
    if |s| < |sep| then None
    else if s[..|sep|] == sep then Some(("", s[|sep|..]))
    else
      match Cut(s[1..], sep)
      case None => None
      case Some(p) =>
        CutLater(s, p.0, sep, p.1);
        Some(([s[0]] + p.0, p.1))
  }

  /** A prefix without the separator's first byte is cut off whole. */
  lemma {:induction false} CutFree(a: string, sep: string, b: string)
    requires sep != "" && Free(a, sep[0])
    ensures Cut(a + sep + b, sep) == Some((a, b))
  {
    var s := a + sep + b;
    if a == "" {
      assert s[..|sep|] == sep && s[|sep|..] == b;
    } else {
      assert s[1..] == a[1..] + sep + b;
      CutFree(a[1..], sep, b);
      assert s[..|sep|][0] == a[0] != sep[0];
      assert a == [a[0]] + a[1..];
    }
  }

  lemma {:induction false} CutNone(s: string, c: char)
    ensures Cut(s, [c]).None? <==> Free(s, c)
    ensures Cut(s, [c]).Some? ==> Free(Cut(s, [c]).value.0, c)
  {
    if s != "" {
      CutNone(s[1..], c);
      assert s == [s[0]] + s[1..];
      assert s[..1] == [s[0]];
    }
  }

  /** strings.CutPrefix. */
  function CutPrefix(s: string, prefix: string): (r: Option<string>)
    ensures r.Some? <==> prefix <= s
    ensures r.Some? ==> s == prefix + r.value
  {
    if prefix <= s then Some(s[|prefix|..]) else None
  }

  // ----- decimal numbers

  predicate IsDigit(c: char) {
    '0' <= c <= '9'
  }

  predicate AllDigits(s: string) {
    forall i :: 0 <= i < |s| ==> IsDigit(s[i])
  }

  function DigitChar(n: nat): (c: char)
    requires n < 10
    ensures IsDigit(c) && DigitValue(c) == n
  {
    ('0' as int + n) as char
  }

  function DigitValue(c: char): (n: nat)
    requires IsDigit(c)
    ensures n < 10
  {
    c as int - '0' as int
  }

  /** The decimal form without leading zeros. */
  function Decimal(n: nat): (s: string)
    ensures s != "" && AllDigits(s)
  {
    if n < 10 then [DigitChar(n)] else Decimal(n / 10) + [DigitChar(n % 10)]
  }

  function Value(s: string): nat
    requires AllDigits(s)
  {
    if s == "" then 0 else Value(s[..|s| - 1]) * 10 + DigitValue(s[|s| - 1])
  }

  lemma {:induction false} ValueDecimal(n: nat)
    ensures Value(Decimal(n)) == n
  {
    if n >= 10 {
      ValueDecimal(n / 10);
      var d := Decimal(n / 10);
      assert Decimal(n)[..|Decimal(n)| - 1] == d;
    }
  }

  predicate LeadingZero(s: string) {
    |s| > 1 && s[0] == '0'
  }

  /** Digits print back unchanged exactly when they have no leading zero. */
  lemma {:induction false} DecimalValue(s: string)
    requires s != "" && AllDigits(s)
    ensures Decimal(Value(s)) == s <==> !LeadingZero(s)
    ensures !LeadingZero(s) && |s| > 1 ==> Value(s) >= 10
  {
    var n := |s| - 1;
    assert s == s[..n] + [s[n]];
    if n > 0 {
      DecimalValue(s[..n]);
      var v, d := Value(s[..n]), DigitValue(s[n]);
      assert Value(s) == v * 10 + d;
      assert n == 1 ==> Value(s[..n][..0]) == 0;
      if v == 0 {
        assert Decimal(Value(s)) == [DigitChar(d)];
      } else {
        assert Value(s) / 10 == v && Value(s) % 10 == d;
        assert Decimal(Value(s)) == Decimal(v) + [DigitChar(d)];
        assert DigitChar(d) == s[n];
        assert (Decimal(v) + [s[n]])[..|Decimal(v)|] == Decimal(v);
        assert Decimal(Value(s)) == s ==> Decimal(v) == s[..n];
      }
    } else {
      assert s[..n] == "";
    }
  }

  lemma {:induction false} DecimalNoLeadingZero(n: nat)
    ensures !LeadingZero(Decimal(n))
    ensures n >= 10 ==> Decimal(n)[0] != '0'
  {
    if n >= 10 {
      DecimalNoLeadingZero(n / 10);
    }
  }

  lemma {:induction false} DecimalLength(n: nat, k: nat, bound: nat)
    requires k >= 1 && bound == Pow10(k) && n < bound
    ensures |Decimal(n)| <= k
  {
    if n >= 10 {
      DecimalLength(n / 10, k - 1, Pow10(k - 1));
    }
  }

  function Pow10(k: nat): nat {
    if k == 0 then 1 else 10 * Pow10(k - 1)
  }
}
