/** What becomes of a byte string that encoding/json writes and reads back. A
    char of a modelled string stands for one byte. */
module JsonText {

  predicate Within(c: char, lo: int, hi: int) {
    lo <= c as int <= hi
  }

  predicate Tail(s: string, i: nat) {
    i < |s| && Within(s[i], 0x80, 0xBF)
  }

  /** The length of the sequence s starts with, or 0 when it is not valid. */
  function RuneSize(s: string): (n: nat)
    ensures n <= |s| && n <= 4
  {
    if s == "" then 0
    else if Within(s[0], 0, 0x7F) then 1
    else if |s| < 2 then 0
    else if Within(s[0], 0xC2, 0xDF) then (if Tail(s, 1) then 2 else 0)
    else if Within(s[0], 0xE0, 0xEF) then
      (if SecondOk(s[0], s[1]) && Tail(s, 2) then 3 else 0)
    else if Within(s[0], 0xF0, 0xF4) then
      (if SecondOk(s[0], s[1]) && Tail(s, 2) && Tail(s, 3) then 4 else 0)
    else 0
  }

  /** The second byte excludes overlong forms, surrogates and values beyond
      U+10FFFF. */
  predicate SecondOk(first: char, second: char) {
    if first as int == 0xE0 then Within(second, 0xA0, 0xBF)
    else if first as int == 0xED then Within(second, 0x80, 0x9F)
    else if first as int == 0xF0 then Within(second, 0x90, 0xBF)
    else if first as int == 0xF4 then Within(second, 0x80, 0x8F)
    else Within(second, 0x80, 0xBF)
  }

  predicate ValidUtf8(s: string) {
    s == "" || (RuneSize(s) > 0 && ValidUtf8(s[RuneSize(s)..]))
  }

  // ----- what valid means

  predicate IsScalar(cp: int) {
    0 <= cp < 0xD800 || 0xE000 <= cp < 0x110000
  }

  /** The bytes of a Unicode scalar value (section 3 of RFC 3629). */
  function Utf8(cp: int): string
    requires IsScalar(cp)
  {
    if cp < 0x80 then [cp as char]
    else if cp < 0x800 then [(0xC0 + cp / 64) as char, (0x80 + cp % 64) as char]
    else if cp < 0x10000 then [(0xE0 + cp / 4096) as char, (0x80 + cp / 64 % 64) as char, (0x80 + cp % 64) as char]
    else [(0xF0 + cp / 262144) as char, (0x80 + cp / 4096 % 64) as char, (0x80 + cp / 64 % 64) as char, (0x80 + cp % 64) as char]
  }

  /** A scalar value is recognised in front of anything. */
  lemma ScalarIsRune(cp: int, rest: string)
    requires IsScalar(cp)
    ensures RuneSize(Utf8(cp) + rest) == |Utf8(cp)|
  {
    var s := Utf8(cp) + rest;
    assert forall i :: 0 <= i < |Utf8(cp)| ==> s[i] == Utf8(cp)[i];
  }

  lemma SixBits(high: int, low: int)
    requires 0 <= low < 64
    ensures (high * 64 + low) / 64 == high && (high * 64 + low) % 64 == low
  {
  }

  /** What is recognised is a scalar value. */
  lemma RuneIsScalar(s: string) returns (cp: int)
    requires RuneSize(s) > 0
    ensures IsScalar(cp) && s[..RuneSize(s)] == Utf8(cp)
  {
    if RuneSize(s) == 1 {
      cp := s[0] as int;
    } else if RuneSize(s) == 2 {
      cp := TwoBytes(s);
    } else if RuneSize(s) == 3 {
      cp := ThreeBytes(s);
    } else {
      cp := FourBytes(s);
    }
  }

  lemma TwoBytes(s: string) returns (cp: int)
    requires RuneSize(s) == 2
    ensures IsScalar(cp) && s[..2] == Utf8(cp)
  {
    var a, b := s[0] as int - 0xC0, s[1] as int - 0x80;
    cp := a * 64 + b;
    SixBits(a, b);
  }

  lemma ThreeBytes(s: string) returns (cp: int)
    requires RuneSize(s) == 3
    ensures IsScalar(cp) && s[..3] == Utf8(cp)
  {
    var a, b, c := s[0] as int - 0xE0, s[1] as int - 0x80, s[2] as int - 0x80;
    var high := a * 64 + b;
    cp := high * 64 + c;
    SixBits(a, b);
    SixBits(high, c);
    assert cp / 4096 == high / 64;
  }

  lemma FourBytes(s: string) returns (cp: int)
    requires RuneSize(s) == 4
    ensures IsScalar(cp) && s[..4] == Utf8(cp)
  {
    var a, b, c, d := s[0] as int - 0xF0, s[1] as int - 0x80, s[2] as int - 0x80, s[3] as int - 0x80;
    var high := a * 64 + b;
    var middle := high * 64 + c;
    cp := middle * 64 + d;
    SixBits(a, b);
    SixBits(high, c);
    SixBits(middle, d);
    assert cp / 4096 == high && cp / 262144 == a;
  }

  ghost predicate Scalars(cps: seq<int>) {
    forall i :: 0 <= i < |cps| ==> IsScalar(cps[i])
  }

  function EncodeAll(cps: seq<int>): string
    requires forall i :: 0 <= i < |cps| ==> IsScalar(cps[i])
  {
    if cps == [] then "" else Utf8(cps[0]) + EncodeAll(cps[1..])
  }

  lemma {:induction false} EncodedIsValid(cps: seq<int>)
    requires Scalars(cps)
    ensures ValidUtf8(EncodeAll(cps))
  {
    if cps != [] {
      EncodedIsValid(cps[1..]);
      ScalarIsRune(cps[0], EncodeAll(cps[1..]));
      assert EncodeAll(cps)[|Utf8(cps[0])|..] == EncodeAll(cps[1..]);
    }
  }

  lemma FirstScalar(cp: int, rest: seq<int>)
    requires IsScalar(cp) && Scalars(rest)
    ensures Scalars([cp] + rest) && EncodeAll([cp] + rest) == Utf8(cp) + EncodeAll(rest)
  {
    assert ([cp] + rest)[1..] == rest;
  }

  lemma Joined(s: string, n: nat)
    requires n <= |s|
    ensures s == s[..n] + s[n..]
  {
  }

  lemma {:induction false} ValidIsEncoded(s: string) returns (cps: seq<int>)
    requires ValidUtf8(s)
    ensures Scalars(cps) && EncodeAll(cps) == s
    decreases |s|
  {
    if s == "" {
      cps := [];
    } else {
      var n := RuneSize(s);
      var cp := RuneIsScalar(s);
      var rest := ValidIsEncoded(s[n..]);
      cps := [cp] + rest;
      FirstScalar(cp, rest);
      Joined(s, n);
    }
  }

  /** The valid texts are the encodings of sequences of scalar values. */
  lemma ValidMeans(s: string)
    ensures ValidUtf8(s) <==> exists cps :: Scalars(cps) && EncodeAll(cps) == s
  {
    if ValidUtf8(s) {
      var cps := ValidIsEncoded(s);
    }
    forall cps | Scalars(cps) && EncodeAll(cps) == s ensures ValidUtf8(s) {
      EncodedIsValid(cps);
    }
  }

  const REPLACEMENT: string := [0xEF as char, 0xBF as char, 0xBD as char]

  /** Marshal, then Unmarshal: each byte that does not belong to a valid UTF-8
      sequence (section 4 of RFC 3629) comes back as the replacement character. */
  function Reread(s: string): string {
    if s == "" then ""
    else if RuneSize(s) == 0 then REPLACEMENT + Reread(s[1..])
    else s[..RuneSize(s)] + Reread(s[RuneSize(s)..])
  }

  /** A string survives exactly when it is valid UTF-8. */
  lemma {:induction false} SurvivesIffValid(s: string)
    ensures Reread(s) == s <==> ValidUtf8(s)
    ensures |Reread(s)| >= |s|
    decreases |s|
  {
    if s != "" {
      var n := RuneSize(s);
      if n == 0 {
        SurvivesIffValid(s[1..]);
        InvalidIsNoReplacement(s);
        assert Reread(s)[..3] == REPLACEMENT;
      } else {
        SurvivesIffValid(s[n..]);
        assert Reread(s)[n..] == Reread(s[n..]);
        assert s == s[..n] + s[n..];
      }
    }
  }

  /** What is read back survives from then on. */
  lemma {:induction false} RereadIsValid(s: string)
    ensures ValidUtf8(Reread(s))
    decreases |s|
  {
    if s != "" {
      var n := RuneSize(s);
      if n == 0 {
        RereadIsValid(s[1..]);
        ReplacementFirst(Reread(s[1..]));
      } else {
        RereadIsValid(s[n..]);
        ValidFirst(s, Reread(s[n..]));
      }
    }
  }

  lemma ReplacementFirst(rest: string)
    requires ValidUtf8(rest)
    ensures ValidUtf8(REPLACEMENT + rest)
  {
    var s := REPLACEMENT + rest;
    assert s[0] as int == 0xEF && s[1] as int == 0xBF && s[2] as int == 0xBD;
    assert RuneSize(s) == 3 && s[3..] == rest;
  }

  /** The sequence a string starts with is valid in front of anything. */
  lemma ValidFirst(s: string, rest: string)
    requires RuneSize(s) > 0 && ValidUtf8(rest)
    ensures ValidUtf8(s[..RuneSize(s)] + rest)
  {
    var n := RuneSize(s);
    var t := s[..n] + rest;
    assert forall i :: 0 <= i < n ==> t[i] == s[i];
    assert RuneSize(t) == n && t[n..] == rest;
  }

  /** What starts like the replacement character is valid there. */
  lemma InvalidIsNoReplacement(s: string)
    requires RuneSize(s) == 0
    ensures |s| < 3 || s[..3] != REPLACEMENT
  {
    if |s| >= 3 {
      assert s[..3][0] == s[0] && s[..3][1] == s[1] && s[..3][2] == s[2];
    }
  }

  // ----- what is written

  /** What Marshal writes for a byte that does not belong to a valid sequence: not
      the replacement character, but its escape. */
  const ESCAPE := "\\ufffd"

  function Step(s: string): (n: nat)
    requires s != ""
    ensures 0 < n <= |s|
  {
    if RuneSize(s) == 0 then 1 else RuneSize(s)
  }

  /** What is written for the rune, or the byte, that s starts with. */
  function Unit(s: string): string
    requires s != ""
  {
    if RuneSize(s) == 0 then ESCAPE else if s[0] == '\\' then "\\\\" else s[..RuneSize(s)]
  }

  /** The text between the quotes. The other escapes stand for one valid rune each and
      tell no less than the rune, so they are left out. */
  function Written(s: string): string {
    if s == "" then "" else Unit(s) + Written(s[Step(s)..])
  }

  /** The sequence a string starts with settles its own length. */
  lemma SizeKept(s: string, rest: string)
    requires RuneSize(s) > 0
    ensures RuneSize(s[..RuneSize(s)] + rest) == RuneSize(s)
  {
    var n := RuneSize(s);
    var t := s[..n] + rest;
    assert forall i :: 0 <= i < n ==> t[i] == s[i];
  }

  /** No unit is the beginning of another. */
  lemma {:induction false} UnitsSplit(s: string, x: string, t: string, y: string)
    requires s != "" && t != "" && Unit(s) + x == Unit(t) + y
    ensures Unit(s) == Unit(t) && x == y
  {
    var all := Unit(s) + x;
    assert all[0] == Unit(s)[0] == Unit(t)[0];
    if all[0] == '\\' {
      assert all[1] == Unit(s)[1] == Unit(t)[1];
    } else {
      SizeKept(s, x);
      SizeKept(t, y);
    }
    var n := |Unit(s)|;
    assert all[..n] == Unit(s) == Unit(t) && all[n..] == x == y;
  }

  /** A unit that is no escape of a byte tells the rune. */
  lemma {:induction false} UnitTells(s: string, t: string)
    requires s != "" && t != "" && RuneSize(s) > 0 && Unit(s) == Unit(t)
    ensures RuneSize(t) == RuneSize(s) && t[..RuneSize(s)] == s[..RuneSize(s)]
  {
    if s[0] == '\\' || t[0] == '\\' {
      assert Unit(s)[0] == Unit(t)[0];
    }
  }

  /** A valid text is told from every other one. */
  lemma {:induction false} ValidTold(s: string, t: string)
    requires ValidUtf8(s) && Written(t) == Written(s)
    ensures t == s
    decreases |s|
  {
    if s == "" {
      assert t == "";
    } else {
      assert t != "";
      UnitsSplit(s, Written(s[Step(s)..]), t, Written(t[Step(t)..]));
      UnitTells(s, t);
      var n := RuneSize(s);
      ValidTold(s[n..], t[n..]);
      assert s == s[..n] + s[n..] && t == t[..n] + t[n..];
    }
  }

  /** Another text that is written alike, and no longer: the first byte that is not
      UTF-8 is made another such byte. */
  function Other(s: string): string
    requires !ValidUtf8(s)
  {
    var n := RuneSize(s);
    if n == 0 then [if s[0] as int == 0xFF then 0xFE as char else 0xFF as char] + s[1..]
    else s[..n] + Other(s[n..])
  }

  lemma {:induction false} OtherIsAlike(s: string)
    requires !ValidUtf8(s)
    ensures Other(s) != s && Written(Other(s)) == Written(s) && |Other(s)| == |s|
    decreases |s|
  {
    var n, t := RuneSize(s), Other(s);
    if n == 0 {
      assert t[0] != s[0] && t[1..] == s[1..] && RuneSize(t) == 0;
    } else {
      OtherIsAlike(s[n..]);
      SizeKept(s, Other(s[n..]));
      assert t[..n] == s[..n] && t[n..] == Other(s[n..]) && t[0] == s[0];
    }
  }

  /** What is written tells a text from every other exactly when it is valid UTF-8. */
  lemma {:induction false} AloneIffValid(s: string)
    ensures (forall t :: Written(t) == Written(s) ==> t == s) <==> ValidUtf8(s)
  {
    if ValidUtf8(s) {
      forall t | Written(t) == Written(s) ensures t == s {
        ValidTold(s, t);
      }
    } else {
      OtherIsAlike(s);
      assert Other(s) != s;
    }
  }

  /** What is read back is settled by what is written. */
  lemma {:induction false} WrittenIsRead(s: string, t: string)
    requires Written(s) == Written(t)
    ensures Reread(s) == Reread(t)
    decreases |s|
  {
    if s != "" && t != "" {
      UnitsSplit(s, Written(s[Step(s)..]), t, Written(t[Step(t)..]));
      WrittenIsRead(s[Step(s)..], t[Step(t)..]);
      if RuneSize(s) > 0 {
        UnitTells(s, t);
      } else if RuneSize(t) > 0 {
        UnitTells(t, s);
      }
    }
  }

  /** But not the other way round: the byte and the replacement character are written
      apart and read back alike. */
  lemma ReplacementIsApart()
    ensures var byte := [0xFF as char];
      Written(byte) == ESCAPE != Written(REPLACEMENT) && Reread(byte) == Reread(REPLACEMENT) == REPLACEMENT
  {
    var byte, r := [0xFF as char], REPLACEMENT;
    assert RuneSize(byte) == 0 && byte[1..] == "";
    assert RuneSize(r) == 3 && r[3..] == "" && r[..3] == r;
    assert Written(r)[0] == r[0] && ESCAPE[0] == '\\';
  }

  /** What is written as one byte's escape is one byte. */
  lemma {:induction false} EscapeIsByte(t: string, b: string)
    requires b != "" && RuneSize(b) == 0 && Written(t) == Unit(b)
    ensures |t| == 1
  {
    if t == "" {
      assert false;
    } else {
      var rest := Written(t[Step(t)..]);
      assert Unit(b) + "" == Unit(b);
      UnitsSplit(b, "", t, rest);
      NothingWritten(t[Step(t)..]);
      EscapeIsNoRune(t, b);
    }
  }

  lemma {:induction false} NothingWritten(s: string)
    ensures Written(s) == "" <==> s == ""
  {
  }

  lemma {:induction false} EscapeIsNoRune(t: string, b: string)
    requires t != "" && b != "" && RuneSize(b) == 0 && Unit(t) == Unit(b)
    ensures RuneSize(t) == 0
  {
    if RuneSize(t) > 0 {
      UnitTells(t, b);
    }
  }
}
