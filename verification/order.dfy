/** Strict orders, the sorting contract of Go's sort package, and the "k first
    elements" operators that every capped list of the program uses.

    Strings compare bytewise, as in Go; findings rank by confidence first and
    by a list of labels then. */
module Order {

  ghost predicate StrictTotal<T(!new)>(less: (T, T) -> bool) {
    && (forall x :: !less(x, x))
    && (forall x, y, z :: less(x, y) && less(y, z) ==> less(x, z))
    && (forall x, y :: x == y || less(x, y) || less(y, x))
  }

  /** The order is a strict weak order: elements may tie without being equal. */
  ghost predicate StrictWeak<T(!new)>(less: (T, T) -> bool) {
    && (forall x :: !less(x, x))
    && (forall x, y, z :: less(x, y) && less(y, z) ==> less(x, z))
    && (forall x, y, z :: !less(x, y) && !less(y, z) ==> !less(x, z))
  }

  ghost predicate Sorted<T>(less: (T, T) -> bool, s: seq<T>) {
    forall i, j :: 0 <= i < j < |s| ==> !less(s[j], s[i])
  }

  ghost predicate Ascending<T>(less: (T, T) -> bool, s: seq<T>) {
    forall i, j :: 0 <= i < j < |s| ==> less(s[i], s[j])
  }

  function Elements<T>(s: seq<T>): set<T> {
    set x | x in s
  }

  function Map<T, U>(f: T -> U, s: seq<T>): (r: seq<U>)
    ensures |r| == |s| && forall i :: 0 <= i < |s| ==> r[i] == f(s[i])
  {
    seq(|s|, i requires 0 <= i < |s| => f(s[i]))
  }

  lemma AppendOne<T>(a: seq<T>, x: T, b: seq<T>)
    ensures (a + [x]) + b == a + ([x] + b)
  {
  }

  function Min(a: int, b: int): int { if a < b then a else b }

  function Max(a: int, b: int): int { if a < b then b else a }

  // ----- sorting

  /** Puts x in front of the first element that is not smaller than it. */
  function Insert<T>(less: (T, T) -> bool, x: T, s: seq<T>): seq<T> {
    if s == [] then [x]
    else if less(s[0], x) then [s[0]] + Insert(less, x, s[1..])
    else [x] + s
  }

  /** A stable sort: what sort.SliceStable returns, and one of the results
      sort.Slice may return (the only one when the order is total). */
  function Sort<T>(less: (T, T) -> bool, s: seq<T>): seq<T> {
    if s == [] then [] else Insert(less, s[0], Sort(less, s[1..]))
  }

  lemma {:induction false} InsertContents<T>(less: (T, T) -> bool, x: T, s: seq<T>)
    ensures multiset(Insert(less, x, s)) == multiset{x} + multiset(s)
    ensures |Insert(less, x, s)| == |s| + 1
  {
    if s != [] {
      InsertContents(less, x, s[1..]);
      assert s == [s[0]] + s[1..];
    }
  }

  lemma {:induction false} InsertSorted<T(!new)>(less: (T, T) -> bool, x: T, s: seq<T>)
    requires StrictWeak(less) && Sorted(less, s)
    ensures Sorted(less, Insert(less, x, s))
  {
    if s != [] && less(s[0], x) {
      InsertSorted(less, x, s[1..]);
      InsertContents(less, x, s[1..]);
      var t := Insert(less, x, s[1..]);
      forall j | 0 <= j < |t| ensures !less(t[j], s[0]) {
        assert t[j] in multiset(t);
        assert t[j] == x || t[j] in s[1..];
      }
    }
  }

  lemma {:induction false} SortContents<T>(less: (T, T) -> bool, s: seq<T>)
    ensures multiset(Sort(less, s)) == multiset(s)
    ensures |Sort(less, s)| == |s|
  {
    if s != [] {
      SortContents(less, s[1..]);
      InsertContents(less, s[0], Sort(less, s[1..]));
      assert s == [s[0]] + s[1..];
    }
  }

  lemma {:induction false} SortSorted<T(!new)>(less: (T, T) -> bool, s: seq<T>)
    requires StrictWeak(less)
    ensures Sorted(less, Sort(less, s))
  {
    if s != [] {
      SortSorted(less, s[1..]);
      InsertSorted(less, s[0], Sort(less, s[1..]));
    }
  }

  lemma TotalIsWeak<T(!new)>(less: (T, T) -> bool)
    requires StrictTotal(less)
    ensures StrictWeak(less)
  {
    forall x, y, z | !less(x, y) && !less(y, z) ensures !less(x, z) {
      assert y == z || less(z, y);
      assert x == y || less(y, x);
    }
  }

  /** Under a total order a sorted listing is determined by what it lists. */
  lemma {:induction false} SortedUnique<T(!new)>(less: (T, T) -> bool, a: seq<T>, b: seq<T>)
    requires StrictTotal(less) && Sorted(less, a) && Sorted(less, b)
    requires multiset(a) == multiset(b)
    ensures a == b
  {
    SameLength(a, b);
    if a != [] {
      SortedHead(less, a, b);
      SameTails(a, b);
      SortedTail(less, a);
      SortedTail(less, b);
      SortedUnique(less, a[1..], b[1..]);
    }
  }

  lemma SameLength<T>(a: seq<T>, b: seq<T>)
    requires multiset(a) == multiset(b)
    ensures |a| == |b|
  {
    assert |a| == |multiset(a)| == |multiset(b)| == |b|;
  }

  lemma SameTails<T>(a: seq<T>, b: seq<T>)
    requires multiset(a) == multiset(b) && a != [] && b != [] && a[0] == b[0]
    ensures multiset(a[1..]) == multiset(b[1..])
    ensures a[1..] == b[1..] ==> a == b
  {
    WithoutFirst(a);
    WithoutFirst(b);
  }

  lemma WithoutFirst<T>(s: seq<T>)
    requires s != []
    ensures s == [s[0]] + s[1..] && multiset(s[1..]) == multiset(s) - multiset{s[0]}
  {
    assert s == [s[0]] + s[1..];
  }

  lemma SortedTail<T>(less: (T, T) -> bool, s: seq<T>)
    requires Sorted(less, s) && s != []
    ensures Sorted(less, s[1..])
  {
  }

  lemma SortedHead<T(!new)>(less: (T, T) -> bool, a: seq<T>, b: seq<T>)
    requires StrictTotal(less) && Sorted(less, a) && Sorted(less, b)
    requires multiset(a) == multiset(b) && a != [] && b != []
    ensures a[0] == b[0]
  {
    assert a[0] in multiset(b) && b[0] in multiset(a);
    assert !less(a[0], b[0]) by { SortedLeast(less, b, a[0]); }
    assert !less(b[0], a[0]) by { SortedLeast(less, a, b[0]); }
  }

  lemma SortedLeast<T(!new)>(less: (T, T) -> bool, s: seq<T>, x: T)
    requires StrictTotal(less) && Sorted(less, s) && x in s
    ensures !less(x, s[0])
  {
    var i :| 0 <= i < |s| && s[i] == x;
  }

  /** Sorting forgets the arrival order, and nothing else. */
  lemma SortCanonical<T(!new)>(less: (T, T) -> bool, a: seq<T>, b: seq<T>)
    requires StrictTotal(less)
    ensures Sort(less, a) == Sort(less, b) <==> multiset(a) == multiset(b)
  {
    TotalIsWeak(less);
    SortContents(less, a);
    SortContents(less, b);
    SortSorted(less, a);
    SortSorted(less, b);
    if multiset(a) == multiset(b) {
      SortedUnique(less, Sort(less, a), Sort(less, b));
    }
  }

  predicate Tied<T>(less: (T, T) -> bool, x: T, y: T) {
    !less(y, x) && !less(x, y)
  }

  /** The elements of s that tie with x, in their order of appearance. */
  function Ties<T>(less: (T, T) -> bool, x: T, s: seq<T>): seq<T> {
    if s == [] then []
    else (if Tied(less, x, s[0]) then [s[0]] else []) + Ties(less, x, s[1..])
  }

  lemma TiesCons<T>(less: (T, T) -> bool, x: T, y: T, s: seq<T>)
    ensures Ties(less, x, [y] + s) == (if Tied(less, x, y) then [y] else []) + Ties(less, x, s)
  {
    assert ([y] + s)[1..] == s;
  }

  lemma {:induction false} InsertStable<T(!new)>(less: (T, T) -> bool, x: T, y: T, s: seq<T>)
    requires StrictWeak(less)
    ensures Ties(less, x, Insert(less, y, s)) == (if Tied(less, x, y) then [y] else []) + Ties(less, x, s)
  {
    if s == [] || !less(s[0], y) {
      TiesCons(less, x, y, s);
    } else {
      InsertStable(less, x, y, s[1..]);
      TiesCons(less, x, s[0], Insert(less, y, s[1..]));
    }
  }

  /** Sorting never reorders elements that tie. */
  lemma {:induction false} SortStable<T(!new)>(less: (T, T) -> bool, x: T, s: seq<T>)
    requires StrictWeak(less)
    ensures Ties(less, x, Sort(less, s)) == Ties(less, x, s)
  {
    if s != [] {
      SortStable(less, x, s[1..]);
      InsertStable(less, x, s[0], Sort(less, s[1..]));
    }
  }

  lemma {:induction false} SortedFixed<T>(less: (T, T) -> bool, s: seq<T>)
    requires Sorted(less, s)
    ensures Sort(less, s) == s
  {
    if s != [] {
      SortedFixed(less, s[1..]);
      if |s| > 1 {
        assert !less(s[1], s[0]);
      }
    }
  }

  lemma AscendingDistinct<T(!new)>(less: (T, T) -> bool, s: seq<T>)
    requires StrictTotal(less) && Sorted(less, s)
    requires forall i, j :: 0 <= i < j < |s| ==> s[i] != s[j]
    ensures Ascending(less, s)
  {
  }

  // ----- the k first of a multiset

  /** kept holds the k first elements of all. */
  ghost predicate IsTop<T>(less: (T, T) -> bool, k: nat, all: multiset<T>, kept: multiset<T>) {
    && kept <= all
    && |kept| == Min(k, |all|)
    && forall x, y :: x in kept && y in all - kept ==> !less(y, x)
  }

  lemma SubmultisetSameSize<T>(a: multiset<T>, b: multiset<T>)
    requires a <= b && |a| == |b|
    ensures a == b
  {
    assert b == a + (b - a);
  }

  lemma SmallerMultiset<T>(a: multiset<T>, b: multiset<T>)
    requires |a| == |b| && a != b
    ensures exists x :: a[x] > b[x]
  {
    if a <= b {
      SubmultisetSameSize(a, b);
    }
  }

  lemma KeptBeforeCut<T>(less: (T, T) -> bool, k: nat, all: multiset<T>, kept: multiset<T>, x: T, y: T)
    requires IsTop(less, k, all, kept) && x in kept && kept[y] < all[y]
    ensures !less(y, x)
  {
    assert y in all - kept;
  }

  /** No two different elements tie. */
  ghost predicate NoTies<T>(less: (T, T) -> bool, all: multiset<T>) {
    forall x, y :: x in all && y in all && x != y ==> !Tied(less, x, y)
  }

  lemma TopUnique<T>(less: (T, T) -> bool, k: nat, all: multiset<T>, a: multiset<T>, b: multiset<T>)
    requires NoTies(less, all)
    requires IsTop(less, k, all, a) && IsTop(less, k, all, b)
    ensures a == b
  {
    if a != b {
      SmallerMultiset(a, b);
      SmallerMultiset(b, a);
      var x :| a[x] > b[x];
      var y :| b[y] > a[y];
      KeptBeforeCut(less, k, all, a, x, y);
      KeptBeforeCut(less, k, all, b, y, x);
    }
  }

  /** A kept element ties with a different one that is cut. */
  ghost predicate TieAtCut<T(!new)>(less: (T, T) -> bool, k: nat, all: multiset<T>) {
    exists kept, x, y :: IsTop(less, k, all, kept) && x in kept && y in all - kept && x != y && Tied(less, x, y)
  }

  /** Two choices of the k first differ only where a tie is cut. */
  lemma DifferentTops<T(!new)>(less: (T, T) -> bool, k: nat, all: multiset<T>, a: multiset<T>, b: multiset<T>)
    requires IsTop(less, k, all, a) && IsTop(less, k, all, b) && a != b
    ensures TieAtCut(less, k, all)
  {
    SmallerMultiset(a, b);
    SmallerMultiset(b, a);
    var x :| a[x] > b[x];
    var y :| b[y] > a[y];
    KeptBeforeCut(less, k, all, a, x, y);
    KeptBeforeCut(less, k, all, b, y, x);
    assert y in all - a && Tied(less, x, y);
  }

  /** Swapping a kept element for one it ties with is as good a choice. */
  lemma SwapTied<T(!new)>(less: (T, T) -> bool, k: nat, all: multiset<T>, kept: multiset<T>, x: T, y: T)
    requires StrictWeak(less) && IsTop(less, k, all, kept)
    requires x in kept && y in all - kept && x != y && Tied(less, x, y)
    ensures IsTop(less, k, all, kept - multiset{x} + multiset{y}) && kept - multiset{x} + multiset{y} != kept
  {
    var other := kept - multiset{x} + multiset{y};
    assert other[x] < kept[x];
    assert other <= all by {
      forall z ensures other[z] <= all[z] {
        assert kept[z] <= all[z];
      }
    }
    assert |other| == |kept|;
    forall p, q | p in other && q in all - other ensures !less(q, p) {
      var p', q' := if p == y then x else p, if q == x then y else q;
      assert p' in kept && q' in all - kept;
      assert !less(q', p');
    }
  }

  /** Cutting a sorted listing after k elements keeps the k first. */
  lemma SortedPrefixIsTop<T(!new)>(less: (T, T) -> bool, k: nat, s: seq<T>)
    requires Sorted(less, s) && k <= |s|
    ensures IsTop(less, k, multiset(s), multiset(s[..k]))
  {
    assert s == s[..k] + s[k..];
    assert multiset(s) == multiset(s[..k]) + multiset(s[k..]);
  }

  /** Dropping early is harmless: the k first of (the k first so far plus the
      next batch) are the k first of everything. */
  lemma TopStep<T(!new)>(less: (T, T) -> bool, k: nat, all: multiset<T>, kept: multiset<T>,
                         batch: multiset<T>, next: multiset<T>)
    requires StrictWeak(less)
    requires IsTop(less, k, all, kept)
    requires IsTop(less, k, kept + batch, next)
    ensures IsTop(less, k, all + batch, next)
  {
    assert |kept + batch| == |kept| + |batch|;
    forall x, y | x in next && y in (all + batch) - next ensures !less(y, x) {
      if y !in (kept + batch) - next {
        assert y in all - kept;
        assert |all - kept| == |all| - |kept|;
        if x !in kept {
          var z := LostElement(k, kept, batch, next, x);
          assert !less(z, x) && !less(y, z);
        }
      }
    }
  }

  lemma LostElement<T>(k: nat, kept: multiset<T>, batch: multiset<T>, next: multiset<T>, x: T) returns (z: T)
    requires |kept| == k && |next| == k && next <= kept + batch
    requires x in next && x !in kept
    ensures z in kept && z in (kept + batch) - next
  {
    assert kept != next;
    SmallerMultiset(kept, next);
    z :| kept[z] > next[z];
  }

  // ----- the k first of a set

  /** kept holds the k first elements of S. */
  ghost predicate IsFirst<T>(less: (T, T) -> bool, k: nat, S: set<T>, kept: set<T>) {
    && kept <= S
    && |kept| == Min(k, |S|)
    && forall x, y :: x in kept && y in S - kept ==> less(x, y)
  }

  lemma {:induction false} AscendingSize<T(!new)>(less: (T, T) -> bool, s: seq<T>)
    requires StrictTotal(less) && Ascending(less, s)
    ensures |Elements(s)| == |s|
  {
    if s != [] {
      AscendingSize(less, s[1..]);
      assert s[0] !in s[1..];
      assert Elements(s) == {s[0]} + Elements(s[1..]);
    }
  }

  /** An ascending listing is determined by what it lists. */
  lemma AscendingUnique<T(!new)>(less: (T, T) -> bool, a: seq<T>, b: seq<T>)
    requires StrictTotal(less) && Ascending(less, a) && Ascending(less, b)
    requires Elements(a) == Elements(b)
    ensures a == b
    decreases |a|
  {
    assert b == [] || b[0] in Elements(a);
    assert a == [] || a[0] in Elements(b);
    if a != [] {
      assert a[0] == b[0];
      assert Elements(a[1..]) == Elements(a) - {a[0]};
      assert Elements(b[1..]) == Elements(b) - {b[0]};
      AscendingUnique(less, a[1..], b[1..]);
    }
  }

  lemma SubsetSameSize<T>(a: set<T>, b: set<T>)
    requires a <= b && |a| >= |b|
    ensures a == b
  {
    assert b == a + (b - a);
    assert |b| == |a| + |b - a|;
  }

  lemma SetSizes<T>(a: set<T>, b: set<T>)
    requires a <= b
    ensures |a| <= |b|
  {
    assert b == a + (b - a);
  }

  lemma Lost<T>(a: set<T>, out: set<T>, x: T) returns (z: T)
    requires |a| == |out| && x in out && x !in a
    ensures z in a && z !in out
  {
    SetSizes(a * out, out - {x});
    assert a == (a * out) + (a - out);
    z :| z in a - out;
  }

  lemma FirstBeforeCut<T>(less: (T, T) -> bool, k: nat, S: set<T>, kept: set<T>, x: T, y: T)
    requires IsFirst(less, k, S, kept) && x in kept && y in S && y !in kept
    ensures less(x, y)
  {
    assert y in S - kept;
  }

  ghost function Before<T(!new)>(less: (T, T) -> bool, S: set<T>, x: T): set<T> {
    set y | y in S && less(y, x)
  }

  /** What is kept has fewer than k elements before it. */
  lemma FirstMeansFew<T(!new)>(less: (T, T) -> bool, k: nat, S: set<T>, kept: set<T>, x: T)
    requires StrictTotal(less) && IsFirst(less, k, S, kept) && x in S
    ensures x in kept <==> |Before(less, S, x)| < k
  {
    var before := Before(less, S, x);
    if x in kept {
      forall y | y in before ensures y in kept - {x} {
        if y !in kept {
          FirstBeforeCut(less, k, S, kept, x, y);
        }
      }
      SetSizes(before, kept - {x});
    } else {
      forall y | y in kept ensures y in before {
        FirstBeforeCut(less, k, S, kept, y, x);
      }
      SetSizes(kept, before);
      SetSizes(kept + {x}, S);
    }
  }

  lemma FirstUnique<T(!new)>(less: (T, T) -> bool, k: nat, S: set<T>, a: set<T>, b: set<T>)
    requires StrictTotal(less)
    requires IsFirst(less, k, S, a) && IsFirst(less, k, S, b)
    ensures a == b
  {
    if a <= b {
      SubsetSameSize(a, b);
    } else {
      var x :| x in a && x !in b;
      var y := Lost(b, a, x);
      FirstBeforeCut(less, k, S, a, x, y);
      FirstBeforeCut(less, k, S, b, y, x);
    }
  }

  /** Cutting an ascending listing after k elements keeps the k first. */
  lemma PrefixIsFirst<T(!new)>(less: (T, T) -> bool, k: nat, s: seq<T>)
    requires StrictTotal(less) && Ascending(less, s)
    ensures |Elements(s)| == |s|
    ensures |s| > k ==> IsFirst(less, k, Elements(s), Elements(s[..k]))
    ensures |s| <= k ==> IsFirst(less, k, Elements(s), Elements(s))
  {
    AscendingSize(less, s);
    if |s| > k {
      AscendingSize(less, s[..k]);
      forall x, y | x in Elements(s[..k]) && y in Elements(s) - Elements(s[..k]) ensures less(x, y) {
        assert s == s[..k] + s[k..];
        var i :| 0 <= i < k && s[i] == x;
        var j :| 0 <= j < |s[k..]| && s[k..][j] == y;
        assert less(s[i], s[k + j]);
      }
    }
  }

  /** Capping the parts before the whole loses nothing the whole would keep,
      and the whole union overflows exactly when a part or the union of the
      capped parts did. */
  lemma FirstOfUnion<T(!new)>(less: (T, T) -> bool, k: nat, A: set<T>, B: set<T>, a: set<T>, b: set<T>, out: set<T>)
    requires StrictTotal(less)
    requires IsFirst(less, k, A, a) && IsFirst(less, k, B, b)
    requires IsFirst(less, k, a + b, out)
    ensures IsFirst(less, k, A + B, out)
    ensures |A + B| > k <==> |A| > k || |B| > k || |a + b| > k
  {
    SetSizes(A, A + B);
    SetSizes(B, A + B);
    SetSizes(a + b, A + B);
    SetSizes(a, a + b);
    SetSizes(b, a + b);
    if |A| <= k && |B| <= k {
      SubsetSameSize(a, A);
      SubsetSameSize(b, B);
    } else {
      forall x, y | x in out && y in (A + B) - out ensures less(x, y) {
        if y !in a + b {
          if y in A {
            BeyondFull(less, k, A, a, a + b, out, x, y);
          } else {
            BeyondFull(less, k, B, b, a + b, out, x, y);
          }
        }
      }
    }
  }

  /** An element cut from a full part lies beyond everything the union keeps. */
  lemma BeyondFull<T(!new)>(less: (T, T) -> bool, k: nat, A: set<T>, a: set<T>, C: set<T>, out: set<T>, x: T, y: T)
    requires StrictTotal(less) && IsFirst(less, k, A, a) && IsFirst(less, k, C, out)
    requires a <= C && |out| == k
    requires x in out && y in A - a
    ensures less(x, y)
  {
    SetSizes(a + {y}, A);
    assert |a| == k;
    if x !in a {
      var z := Lost(a, out, x);
      assert less(x, z) && less(z, y);
    }
  }

  /** Parts that already agree on their k first elements may replace each
      other in a union. */
  lemma FirstOfEqualParts<T(!new)>(less: (T, T) -> bool, k: nat,
      A: set<T>, B: set<T>, A': set<T>, B': set<T>, a: set<T>, b: set<T>, out: set<T>)
    requires StrictTotal(less)
    requires IsFirst(less, k, A, a) && IsFirst(less, k, A', a)
    requires IsFirst(less, k, B, b) && IsFirst(less, k, B', b)
    requires IsFirst(less, k, A' + B', out)
    ensures IsFirst(less, k, A + B, out)
    ensures |A + B| > k <==> |A| > k || |B| > k || |a + b| > k
    ensures |A' + B'| > k <==> |A'| > k || |B'| > k || |a + b| > k
  {
    var c := FirstExists(less, k, a + b);
    FirstOfUnion(less, k, A', B', a, b, c);
    FirstUnique(less, k, A' + B', c, out);
    FirstOfUnion(less, k, A, B, a, b, c);
  }

  /** Every set has its k first elements. */
  lemma {:induction false} FirstExists<T(!new)>(less: (T, T) -> bool, k: nat, S: set<T>) returns (kept: set<T>)
    requires StrictTotal(less)
    ensures IsFirst(less, k, S, kept)
    decreases S
  {
    if |S| <= k {
      kept := S;
    } else {
      var last := Greatest(less, S);
      kept := FirstExists(less, k, S - {last});
    }
  }

  lemma {:induction false} Greatest<T(!new)>(less: (T, T) -> bool, S: set<T>) returns (m: T)
    requires StrictTotal(less) && S != {}
    ensures m in S && forall x :: x in S && x != m ==> less(x, m)
    decreases S
  {
    m :| m in S;
    if S != {m} {
      var n := Greatest(less, S - {m});
      m := if less(m, n) then n else m;
    }
  }

  // ----- distinct sorted lists

  predicate Distinct<T(==)>(s: seq<T>) {
    forall i, j :: 0 <= i < j < |s| ==> s[i] != s[j]
  }

  lemma {:induction false} DistinctCounts<T>(s: seq<T>)
    ensures Distinct(s) <==> forall x :: multiset(s)[x] <= 1
  {
    if s != [] {
      var rest := s[1..];
      DistinctCounts(rest);
      assert s == [s[0]] + rest;
      assert multiset(s) == multiset{s[0]} + multiset(rest);
      assert s[0] in rest <==> multiset(rest)[s[0]] > 0;
      assert Distinct(s) <==> Distinct(rest) && s[0] !in rest by {
        if Distinct(rest) && s[0] !in rest {
          forall i, j | 0 <= i < j < |s| ensures s[i] != s[j] {
            assert s[j] == rest[j - 1];
            assert i == 0 || s[i] == rest[i - 1];
          }
        }
        if Distinct(s) {
          assert forall j :: 0 <= j < |rest| ==> rest[j] == s[j + 1];
        }
      }
      if forall x :: multiset(s)[x] <= 1 {
        assert forall x :: multiset(rest)[x] <= multiset(s)[x];
        assert multiset(s)[s[0]] <= 1;
      }
    }
  }

  /** Sorting a listing without repetitions lists the same set in order. */
  lemma SortDistinct<T(!new)>(less: (T, T) -> bool, s: seq<T>)
    requires StrictTotal(less) && Distinct(s)
    ensures Ascending(less, Sort(less, s))
    ensures Elements(Sort(less, s)) == Elements(s)
  {
    var t := Sort(less, s);
    TotalIsWeak(less);
    SortSorted(less, s);
    SortContents(less, s);
    DistinctCounts(s);
    DistinctCounts(t);
    AscendingDistinct(less, t);
    assert forall x :: x in t <==> x in multiset(s);
  }

  /** The distinct elements of s in order. */
  lemma SqueezedSort<T(!new)>(less: (T, T) -> bool, s: seq<T>)
    requires StrictTotal(less)
    ensures Ascending(less, Squeeze(Sort(less, s)))
    ensures Elements(Squeeze(Sort(less, s))) == Elements(s)
  {
    TotalIsWeak(less);
    SortSorted(less, s);
    SortContents(less, s);
    SqueezeAscending(less, Sort(less, s));
    assert forall x :: x in Sort(less, s) <==> x in multiset(s);
  }

  /** Removes adjacent repetitions. */
  function Squeeze<T(==)>(s: seq<T>): seq<T> {
    if |s| < 2 then s
    else if s[0] == s[1] then Squeeze(s[1..])
    else [s[0]] + Squeeze(s[1..])
  }

  lemma {:induction false} SqueezeAscending<T(!new)>(less: (T, T) -> bool, s: seq<T>)
    requires StrictTotal(less) && Sorted(less, s)
    ensures Ascending(less, Squeeze(s))
    ensures Elements(Squeeze(s)) == Elements(s)
    ensures s != [] ==> Squeeze(s) != [] && Squeeze(s)[0] == s[0]
  {
    if |s| >= 2 {
      SqueezeAscending(less, s[1..]);
      assert Elements(s) == {s[0]} + Elements(s[1..]);
      var t := Squeeze(s[1..]);
      if s[0] != s[1] {
        assert !less(s[1], s[0]);
        assert Elements([s[0]] + t) == {s[0]} + Elements(t);
        forall j | 0 <= j < |t| ensures less(s[0], t[j]) {
          assert j == 0 || less(t[0], t[j]);
        }
      }
    }
  }

  // ----- bytewise string order

  /** Go compares strings bytewise; a string here stands for its bytes. */
  predicate StringLess(a: string, b: string) {
    b != [] && (a == [] || a[0] < b[0] || (a[0] == b[0] && StringLess(a[1..], b[1..])))
  }

  /** a ends, or is smaller, at the first place where the two differ. */
  ghost predicate SmallerAt(a: string, b: string, k: nat) {
    k <= |a| && k < |b| && a[..k] == b[..k] && (k == |a| || a[k] < b[k])
  }

  lemma {:induction false} StringLessIff(a: string, b: string)
    ensures StringLess(a, b) <==> exists k: nat :: SmallerAt(a, b, k)
  {
    if a != [] && b != [] {
      StringLessIff(a[1..], b[1..]);
      if StringLess(a[1..], b[1..]) && a[0] == b[0] {
        var k: nat :| SmallerAt(a[1..], b[1..], k);
        assert a[..k + 1] == [a[0]] + a[1..][..k] && b[..k + 1] == [b[0]] + b[1..][..k];
        assert SmallerAt(a, b, k + 1);
      }
      forall k: nat | SmallerAt(a, b, k) ensures StringLess(a, b) {
        if k > 0 {
          assert a[..k][0] == a[0] && b[..k][0] == b[0] && a[..k][1..] == a[1..][..k - 1] && b[..k][1..] == b[1..][..k - 1];
          assert SmallerAt(a[1..], b[1..], k - 1);
        }
      }
      assert a[0] < b[0] ==> SmallerAt(a, b, 0);
    } else if b != [] {
      assert SmallerAt(a, b, 0);
    }
  }

  lemma {:induction false} StringLessTransitive(a: string, b: string, c: string)
    requires StringLess(a, b) && StringLess(b, c)
    ensures StringLess(a, c)
  {
    if a != [] && a[0] == b[0] == c[0] {
      StringLessTransitive(a[1..], b[1..], c[1..]);
    }
  }

  lemma {:induction false} StringLessConnected(a: string, b: string)
    ensures a == b || StringLess(a, b) || StringLess(b, a)
  {
    if a != [] && b != [] && a[0] == b[0] {
      StringLessConnected(a[1..], b[1..]);
      assert a == [a[0]] + a[1..] && b == [b[0]] + b[1..];
    }
  }

  lemma {:induction false} StringLessIrreflexive(a: string)
    ensures !StringLess(a, a)
  {
    if a != [] {
      StringLessIrreflexive(a[1..]);
    }
  }

  lemma StringOrder()
    ensures StrictTotal(StringLess)
  {
    forall a: string ensures !StringLess(a, a) { StringLessIrreflexive(a); }
    forall a: string, b: string, c: string | StringLess(a, b) && StringLess(b, c) ensures StringLess(a, c) {
      StringLessTransitive(a, b, c);
    }
    forall a: string, b: string ensures a == b || StringLess(a, b) || StringLess(b, a) {
      StringLessConnected(a, b);
    }
  }

  /** The reverse of a strict total order is one too. */
  predicate StringGreater(a: string, b: string) {
    StringLess(b, a)
  }

  lemma ReverseStringOrder()
    ensures StrictTotal(StringGreater)
  {
    StringOrder();
  }

  /** The strings of a set, listed in order. */
  ghost function InOrder(ids: set<string>): (s: seq<string>)
    ensures Elements(s) == ids && Ascending(StringLess, s)
  {
    ListExists(ids);
    var s :| Elements(s) == ids && Ascending(StringLess, s);
    s
  }

  lemma {:induction false} ListExists(ids: set<string>)
    ensures exists s :: Elements(s) == ids && Ascending(StringLess, s)
    decreases ids
  {
    StringOrder();
    if ids == {} {
      assert Elements<string>([]) == {} && Ascending(StringLess, []);
    } else {
      var last := Greatest(StringLess, ids);
      ListExists(ids - {last});
      var s :| Elements(s) == ids - {last} && Ascending(StringLess, s);
      assert forall i :: 0 <= i < |s| ==> s[i] in Elements(s);
      assert Elements(s + [last]) == Elements(s) + {last} == ids;
      assert Ascending(StringLess, s + [last]);
    }
  }

  // ----- rank order: confidence first, then a list of labels

  /** Lexicographic order on lists of strings. */
  predicate FieldsLess(a: seq<string>, b: seq<string>) {
    b != [] && (a == [] || StringLess(a[0], b[0]) || (a[0] == b[0] && FieldsLess(a[1..], b[1..])))
  }

  lemma {:induction false} FieldsTransitive(a: seq<string>, b: seq<string>, c: seq<string>)
    requires FieldsLess(a, b) && FieldsLess(b, c)
    ensures FieldsLess(a, c)
  {
    if a != [] {
      StringOrder();
      if a[0] == b[0] == c[0] {
        StringLessIrreflexive(a[0]);
        FieldsTransitive(a[1..], b[1..], c[1..]);
      }
    }
  }

  lemma {:induction false} FieldsConnected(a: seq<string>, b: seq<string>)
    ensures a == b || FieldsLess(a, b) || FieldsLess(b, a)
  {
    if a != [] && b != [] {
      StringLessConnected(a[0], b[0]);
      if a[0] == b[0] {
        FieldsConnected(a[1..], b[1..]);
        assert a == [a[0]] + a[1..] && b == [b[0]] + b[1..];
      }
    }
  }

  lemma {:induction false} FieldsIrreflexive(a: seq<string>)
    ensures !FieldsLess(a, a)
  {
    if a != [] {
      StringLessIrreflexive(a[0]);
      FieldsIrreflexive(a[1..]);
    }
  }

  /** A finite float64: the whole number of 2^-1074 that it is. */
  type Float64 = int

  datatype Rank = Rank(confidence: Float64, labels: seq<string>)

  /** Higher confidence first; ties go to the smaller labels. */
  predicate RankLess(a: Rank, b: Rank) {
    a.confidence > b.confidence || (a.confidence == b.confidence && FieldsLess(a.labels, b.labels))
  }

  lemma RankOrder()
    ensures StrictTotal(RankLess)
  {
    forall a: Rank ensures !RankLess(a, a) { FieldsIrreflexive(a.labels); }
    forall a: Rank, b: Rank, c: Rank | RankLess(a, b) && RankLess(b, c) ensures RankLess(a, c) {
      if a.confidence == b.confidence == c.confidence {
        FieldsTransitive(a.labels, b.labels, c.labels);
      }
    }
    forall a: Rank, b: Rank ensures a == b || RankLess(a, b) || RankLess(b, a) {
      FieldsConnected(a.labels, b.labels);
    }
  }
}
