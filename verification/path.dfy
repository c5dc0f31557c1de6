/** Root-clamped dot-segment removal (internal/asset/url.go,
    removeDotSegments and the empty-path rule of ParseURL). */
module DotSegments {
  import opened Text

  predicate IsDot(seg: string) {
    seg == "." || seg == ".."
  }

  /** The output stack after reading segs: the first entry is never popped. */
  function Push(out: seq<string>, seg: string): seq<string> {
    if seg == "." then out
    else if seg == ".." then (if |out| > 1 then out[..|out| - 1] else out)
    else out + [seg]
  }

  function PushAll(out: seq<string>, segs: seq<string>): seq<string>
    decreases segs
  {
    if segs == [] then out else PushAll(Push(out, segs[0]), segs[1..])
  }

  predicate Absolute(path: string) {
    path != "" && path[0] == '/'
  }

  function Stack(path: string): seq<string> {
    if Absolute(path) then PushAll([""], Split(path[1..], '/')) else PushAll([], Split(path, '/'))
  }

  function Remove(path: string): string {
    Join(Stack(path), '/')
  }

  /** ParseURL stores "/" for a path that resolves to nothing. */
  function Canonical(path: string): string {
    if Remove(path) == "" then "/" else Remove(path)
  }

  /** removeDotSegments: the stack loop of the source. */
  method RemoveDotSegments(path: string) returns (r: string)
    ensures r == Remove(path)
  {
    var out: seq<string> := [];
    var start := 0;
    if Absolute(path) {
      out := out + [""];
      start := 1;
    }
    ghost var base := out;
    var segs := Split(path[start..], '/');
    assert path[0..] == path;
    assert base == if Absolute(path) then [""] else [];
    assert PushAll(base, segs) == Stack(path);
    assert segs[0..] == segs;
    for i := 0 to |segs|
      invariant PushAll(out, segs[i..]) == PushAll(base, segs)
    {
      assert segs[i..][1..] == segs[i + 1..];
      match segs[i] {
        case "." =>
        case ".." =>
          if |out| > 1 {
            out := out[..|out| - 1];
          }
        case _ => out := out + [segs[i]];
      }
    }
    assert segs[|segs|..] == [];
    if |out| == 0 {
      return "";
    }
    r := Join(out, '/');
  }

  // ----- which segments survive

  /** How many segments to its left the ".."s of segs still remove. */
  function Pending(segs: seq<string>): nat {
    if segs == [] then 0
    else
      var p := Pending(segs[1..]);
      if segs[0] == "." then p
      else if segs[0] == ".." then p + 1
      else if p > 0 then p - 1 else 0
  }

  /** The segments no later ".." removes, read from the right. */
  function Survivors(segs: seq<string>): seq<string> {
    if segs == [] then []
    else if !IsDot(segs[0]) && Pending(segs[1..]) == 0 then [segs[0]] + Survivors(segs[1..])
    else Survivors(segs[1..])
  }

  function Keep(n: int, p: nat): nat {
    if n > p then n - p else 0
  }

  /** Pushing a segment that later ".."s may still remove. */
  lemma PushedThenKept(st: seq<string>, x: string, p: nat)
    ensures p > 0 ==> (st + [x])[..Keep(|st| + 1, p)] == st[..Keep(|st|, p - 1)]
    ensures p == 0 ==> (st + [x])[..Keep(|st| + 1, p)] == st + [x] && st[..Keep(|st|, 0)] == st
  {
  }

  lemma PoppedThenKept(st: seq<string>, p: nat)
    requires st != []
    ensures st[..|st| - 1][..Keep(|st| - 1, p)] == st[..Keep(|st|, p + 1)]
  {
  }

  lemma {:induction false} StackIsSurvivors(st: seq<string>, segs: seq<string>)
    ensures PushAll([""] + st, segs) == [""] + st[..Keep(|st|, Pending(segs))] + Survivors(segs)
    decreases segs
  {
    if segs != [] {
      var tail := segs[1..];
      if segs[0] == "." {
        StackIsSurvivors(st, tail);
      } else if segs[0] == ".." {
        PopSurvivors(st, segs);
      } else {
        PushSurvivors(st, segs);
      }
    }
  }

  lemma {:induction false} PopSurvivors(st: seq<string>, segs: seq<string>)
    requires segs != [] && segs[0] == ".."
    ensures PushAll([""] + st, segs) == [""] + st[..Keep(|st|, Pending(segs))] + Survivors(segs)
    decreases segs, 0
  {
    if st == [] {
      StackIsSurvivors(st, segs[1..]);
    } else {
      var n := |st| - 1;
      assert ([""] + st)[..n + 1] == [""] + st[..n];
      StackIsSurvivors(st[..n], segs[1..]);
      PoppedThenKept(st, Pending(segs[1..]));
    }
  }

  lemma {:induction false} PushSurvivors(st: seq<string>, segs: seq<string>)
    requires segs != [] && !IsDot(segs[0])
    ensures PushAll([""] + st, segs) == [""] + st[..Keep(|st|, Pending(segs))] + Survivors(segs)
    decreases segs, 0
  {
    var tail := segs[1..];
    assert ([""] + st) + [segs[0]] == [""] + (st + [segs[0]]);
    StackIsSurvivors(st + [segs[0]], tail);
    PushedThenKept(st, segs[0], Pending(tail));
    if Pending(tail) == 0 {
      assert [""] + (st + [segs[0]]) + Survivors(tail) == [""] + st + ([segs[0]] + Survivors(tail));
    }
  }

  /** An absolute path keeps exactly the segments, empty ones included, that
      no later ".." removes; surplus ".."s stop at the root. */
  lemma AbsoluteResolution(path: string)
    requires Absolute(path)
    ensures Remove(path) == Join([""] + Survivors(Split(path[1..], '/')), '/')
    ensures Absolute(Canonical(path))
  {
    var segs := Split(path[1..], '/');
    StackIsSurvivors([], segs);
    assert [""] + [] == [""];
    assert Stack(path) == [""] + Survivors(segs);
    var s := Stack(path);
    if |s| > 1 {
      assert Join(s, '/') == "" + ['/'] + Join(s[1..], '/');
    }
  }

  // ----- the canonical path is a fixed point

  ghost predicate Clean(st: seq<string>) {
    forall s :: s in st ==> !IsDot(s) && Free(s, '/')
  }

  lemma {:induction false} PushAllClean(out: seq<string>, segs: seq<string>)
    requires Clean(out) && forall s :: s in segs ==> Free(s, '/')
    ensures Clean(PushAll(out, segs))
    ensures out != [] && out[0] == "" ==> PushAll(out, segs) != [] && PushAll(out, segs)[0] == ""
    decreases segs
  {
    if segs != [] {
      PushAllClean(Push(out, segs[0]), segs[1..]);
    }
  }

  lemma {:induction false} PushClean(out: seq<string>, segs: seq<string>)
    requires Clean(segs)
    ensures PushAll(out, segs) == out + segs
    decreases segs
  {
    if segs != [] {
      assert segs[0] in segs;
      assert Push(out, segs[0]) == out + [segs[0]];
      PushClean(out + [segs[0]], segs[1..]);
      assert out + [segs[0]] + segs[1..] == out + segs;
    }
  }

  lemma StackClean(path: string)
    ensures Clean(Stack(path))
  {
    if Absolute(path) {
      JoinSplit(path[1..], '/');
      PushAllClean([""], Split(path[1..], '/'));
    } else {
      JoinSplit(path, '/');
      PushAllClean([], Split(path, '/'));
    }
  }

  /** A printed clean stack reads back as itself. */
  lemma ReadBack(st: seq<string>)
    requires Clean(st) && Join(st, '/') != ""
    ensures Stack(Join(st, '/')) == st
  {
    var r := Join(st, '/');
    assert st != [];
    SplitJoin(st, '/');
    if st[0] == "" {
      assert |st| > 1;
      assert r == ['/'] + Join(st[1..], '/');
      assert r[1..] == Join(st[1..], '/');
      SplitJoin(st[1..], '/');
      PushClean([""], st[1..]);
    } else {
      assert r[0] == st[0][0] by {
        assert |st| > 1 ==> r == st[0] + ['/'] + Join(st[1..], '/');
      }
      assert !Absolute(r) by { assert st[0] in st && st[0][0] in st[0]; }
      PushClean([], st);
    }
  }

  lemma RootIsCanonical()
    ensures Canonical("/") == "/"
  {
    assert "/"[1..] == "" && Split("", '/') == [""];
    PushClean([""], [""]);
    assert Stack("/") == ["", ""];
    JoinFew("", "", "", "", '/');
  }

  /** Canonicalising a path twice is canonicalising it once, whether the path
      is absolute or not. */
  lemma CanonicalIsFixedPoint(path: string)
    ensures Canonical(Canonical(path)) == Canonical(path)
  {
    RootIsCanonical();
    if Remove(path) != "" {
      StackClean(path);
      ReadBack(Stack(path));
    }
  }

  /** No "." or ".." segment is left. */
  lemma NoDotSegments(path: string)
    ensures forall s :: s in Split(Canonical(path), '/') ==> !IsDot(s)
  {
    if Remove(path) == "" {
      assert Split("/", '/') == ["", ""] by { JoinFew("", "", "", "", '/'); SplitJoin(["", ""], '/'); }
    } else {
      StackClean(path);
      SplitJoin(Stack(path), '/');
    }
  }
}
