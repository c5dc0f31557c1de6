/** What the merge primitives of internal/asset share.

    Provenance, lists that are sorted by key, freed of duplicates and capped,
    and the trees that stand for the orders and groupings in which observations
    may be merged. */
module Merging {
  import opened Order

  /** Times count from an epoch; zero is Go's zero time. */
  datatype Provenance = Provenance(source: string, discoveredAt: int, reference: string, confidence: Float64)

  /** earliestProv. */
  function EarliestProv(a: Provenance, b: Provenance): Provenance {
    if a.discoveredAt == 0 then b
    else if b.discoveredAt == 0 then a
    else if a.discoveredAt > b.discoveredAt then b
    else a
  }

  lemma EarliestProvCommutes(a: Provenance, b: Provenance)
    ensures EarliestProv(a, b) == EarliestProv(b, a) <==> a == b || a.discoveredAt != b.discoveredAt
  {
  }

  /** The earlier of the dated ones, and the first of two of one time. */
  lemma EarliestProvMeans(a: Provenance, b: Provenance)
    ensures var p := EarliestProv(a, b);
      && (p == a || p == b) && (p.discoveredAt == 0 <==> a.discoveredAt == 0 && b.discoveredAt == 0)
      && (a.discoveredAt != 0 ==> p.discoveredAt <= a.discoveredAt) && (b.discoveredAt != 0 ==> p.discoveredAt <= b.discoveredAt)
      && (a.discoveredAt == b.discoveredAt != 0 ==> p == a)
  {
  }

  // ----- merge trees

  /** An order and grouping in which observations are merged. */
  datatype Tree<T> = Leaf(x: T) | Node(l: Tree<T>, r: Tree<T>)

  function Leaves<T>(t: Tree<T>): seq<T> {
    match t
    case Leaf(x) => [x]
    case Node(l, r) => Leaves(l) + Leaves(r)
  }

  /** Everything the leaves carry in one list. */
  ghost function AllKeys<T>(keys: T -> set<string>, t: Tree<T>): set<string> {
    match t
    case Leaf(x) => keys(x)
    case Node(l, r) => AllKeys(keys, l) + AllKeys(keys, r)
  }

  lemma {:induction false} AllKeysOfLeaves<T>(keys: T -> set<string>, t: Tree<T>, k: string)
    ensures k in AllKeys(keys, t) <==> exists x :: x in Leaves(t) && k in keys(x)
  {
    match t
    case Leaf(x) => assert x in Leaves(t);
    case Node(l, r) =>
      AllKeysOfLeaves(keys, l, k);
      AllKeysOfLeaves(keys, r, k);
      assert forall x :: x in Leaves(t) <==> x in Leaves(l) || x in Leaves(r);
  }

  lemma SameLeavesSameKeys<T(!new)>(keys: T -> set<string>, t: Tree<T>, u: Tree<T>)
    requires Elements(Leaves(t)) == Elements(Leaves(u))
    ensures AllKeys(keys, t) == AllKeys(keys, u)
  {
    assert forall x :: x in Leaves(t) <==> x in Elements(Leaves(t));
    assert forall x :: x in Leaves(u) <==> x in Elements(Leaves(u));
    forall k ensures k in AllKeys(keys, t) <==> k in AllKeys(keys, u) {
      AllKeysOfLeaves(keys, t, k);
      AllKeysOfLeaves(keys, u, k);
    }
  }

  // ----- capped sets that agree

  /** own may stand for all in every later union capped at k. */
  ghost predicate Agrees(less: (string, string) -> bool, k: nat, all: set<string>, own: set<string>) {
    exists kept :: IsFirst(less, k, all, kept) && IsFirst(less, k, own, kept)
  }

  lemma AgreesRefl(less: (string, string) -> bool, k: nat, all: set<string>)
    requires StrictTotal(less)
    ensures Agrees(less, k, all, all)
  {
    var kept := FirstExists(less, k, all);
  }

  lemma FirstIsFixed(less: (string, string) -> bool, k: nat, all: set<string>, kept: set<string>)
    requires IsFirst(less, k, all, kept)
    ensures IsFirst(less, k, kept, kept)
    ensures Agrees(less, k, all, kept) && |kept| <= k
  {
  }

  lemma AgreeingUnion(less: (string, string) -> bool, k: nat,
      A: set<string>, B: set<string>, A': set<string>, B': set<string>, out: set<string>)
    requires StrictTotal(less) && Agrees(less, k, A, A') && Agrees(less, k, B, B')
    requires IsFirst(less, k, A' + B', out)
    ensures IsFirst(less, k, A + B, out)
    ensures |A| > k || |B| > k ==> |A + B| > k
    ensures |A'| > k || |B'| > k ==> |A' + B'| > k
    ensures |A + B| > k ==> |A| > k || |B| > k || |A' + B'| > k
    ensures |A' + B'| > k ==> |A'| > k || |B'| > k || |A + B| > k
  {
    var a :| IsFirst(less, k, A, a) && IsFirst(less, k, A', a);
    var b :| IsFirst(less, k, B, b) && IsFirst(less, k, B', b);
    FirstOfEqualParts(less, k, A, B, A', B', a, b, out);
  }

  // ----- keyed lists

  function ByKey<T>(key: T -> string): (T, T) -> bool {
    (a, b) => StringLess(key(a), key(b))
  }

  function KeysOf<T>(key: T -> string, s: seq<T>): (r: seq<string>)
    ensures |r| == |s| && forall i :: 0 <= i < |s| ==> r[i] == key(s[i])
  {
    seq(|s|, i requires 0 <= i < |s| => key(s[i]))
  }

  ghost function KeySet<T>(key: T -> string, s: seq<T>): set<string> {
    Elements(KeysOf(key, s))
  }

  /** One round of a dedupe loop: a record with the key of the last one is
      merged into it. */
  function DedupeStep<T>(key: T -> string, combine: (T, T) -> T, out: seq<T>, x: T): seq<T> {
    var n := |out|;
    if n > 0 && key(out[n - 1]) == key(x) then out[..n - 1] + [combine(out[n - 1], x)] else out + [x]
  }

  function DedupeAll<T>(key: T -> string, combine: (T, T) -> T, out: seq<T>, s: seq<T>): seq<T>
    decreases s
  {
    if s == [] then out else DedupeAll(key, combine, DedupeStep(key, combine, out, s[0]), s[1..])
  }

  /** Sort by key, merge equal keys, keep the first cap. */
  function Dedupe<T>(key: T -> string, combine: (T, T) -> T, s: seq<T>): seq<T> {
    DedupeAll(key, combine, [], Sort(ByKey(key), s))
  }

  function Capped<T>(cap: nat, s: seq<T>): seq<T> {
    if |s| > cap then s[..cap] else s
  }

  ghost predicate KeepsKey<T(!new)>(key: T -> string, combine: (T, T) -> T) {
    forall a, b :: key(combine(a, b)) == key(a)
  }

  lemma ByKeyWeak<T(!new)>(key: T -> string)
    ensures StrictWeak(ByKey(key))
  {
    StringOrder();
    TotalIsWeak(StringLess);
  }

  lemma KeysOfSorted<T(!new)>(key: T -> string, s: seq<T>)
    requires Sorted(ByKey(key), s)
    ensures Sorted(StringLess, KeysOf(key, s))
  {
  }

  /** After the loop the keys ascend strictly and none is lost. */
  lemma {:induction false} DedupeKeys<T(!new)>(key: T -> string, combine: (T, T) -> T, out: seq<T>, s: seq<T>)
    requires KeepsKey(key, combine)
    requires Ascending(StringLess, KeysOf(key, out)) && Sorted(StringLess, KeysOf(key, s))
    requires out != [] && s != [] ==> !StringLess(key(s[0]), key(out[|out| - 1]))
    ensures Ascending(StringLess, KeysOf(key, DedupeAll(key, combine, out, s)))
    ensures KeySet(key, DedupeAll(key, combine, out, s)) == KeySet(key, out) + KeySet(key, s)
    decreases s
  {
    if s != [] {
      var next := DedupeStep(key, combine, out, s[0]);
      DedupeStepKeys(key, combine, out, s[0]);
      assert KeysOf(key, s)[1..] == KeysOf(key, s[1..]);
      assert |s| > 1 ==> !StringLess(KeysOf(key, s)[1], KeysOf(key, s)[0]);
      assert |s| > 1 ==> !StringLess(key(s[1..][0]), key(next[|next| - 1]));
      DedupeKeys(key, combine, next, s[1..]);
      assert KeysOf(key, s) == [key(s[0])] + KeysOf(key, s[1..]);
      ElementsCons(key(s[0]), KeysOf(key, s[1..]));
    }
  }

  lemma ElementsCons(x: string, s: seq<string>)
    ensures Elements([x] + s) == {x} + Elements(s)
    ensures Elements(s + [x]) == {x} + Elements(s)
  {
  }

  lemma DedupeStepKeys<T(!new)>(key: T -> string, combine: (T, T) -> T, out: seq<T>, x: T)
    requires KeepsKey(key, combine)
    requires Ascending(StringLess, KeysOf(key, out))
    requires out != [] ==> !StringLess(key(x), key(out[|out| - 1]))
    ensures var next := DedupeStep(key, combine, out, x);
      && Ascending(StringLess, KeysOf(key, next)) && next != []
      && key(next[|next| - 1]) == key(x)
      && KeySet(key, next) == KeySet(key, out) + {key(x)}
  {
    var n := |out|;
    var next := DedupeStep(key, combine, out, x);
    var ks := KeysOf(key, out);
    if n > 0 && key(out[n - 1]) == key(x) {
      assert KeysOf(key, next) == ks;
      assert ks[n - 1] in Elements(ks);
    } else {
      assert KeysOf(key, next) == ks + [key(x)];
      ElementsCons(key(x), ks);
      StringOrder();
      forall i | 0 <= i < n ensures StringLess(ks[i], key(x)) {
        assert StringLess(ks[n - 1], key(x));
        assert i == n - 1 || StringLess(ks[i], ks[n - 1]);
      }
    }
  }

  /** A capped merge keeps the smallest keys of the union, in ascending order,
      and cuts exactly when the union is larger than the cap. */
  lemma CappedMerge<T(!new)>(key: T -> string, combine: (T, T) -> T, cap: nat, a: seq<T>, b: seq<T>)
    requires KeepsKey(key, combine)
    ensures var d := Dedupe(key, combine, a + b);
      && Ascending(StringLess, KeysOf(key, Capped(cap, d)))
      && IsFirst(StringLess, cap, KeySet(key, a) + KeySet(key, b), KeySet(key, Capped(cap, d)))
      && (|d| > cap <==> |KeySet(key, a) + KeySet(key, b)| > cap)
  {
    var s := Sort(ByKey(key), a + b);
    var d := Dedupe(key, combine, a + b);
    ByKeyWeak(key);
    SortSorted(ByKey(key), a + b);
    KeysOfSorted(key, s);
    DedupeKeys(key, combine, [], s);
    SortedKeySet(key, a, b);
    assert KeySet(key, []) == {};
    CapKeepsFirst(key, cap, d);
  }

  lemma CapKeepsFirst<T(!new)>(key: T -> string, cap: nat, d: seq<T>)
    requires Ascending(StringLess, KeysOf(key, d))
    ensures Ascending(StringLess, KeysOf(key, Capped(cap, d)))
    ensures IsFirst(StringLess, cap, KeySet(key, d), KeySet(key, Capped(cap, d)))
    ensures |d| > cap <==> |KeySet(key, d)| > cap
  {
    var ks := KeysOf(key, d);
    StringOrder();
    PrefixIsFirst(StringLess, cap, ks);
    if |d| > cap {
      assert KeysOf(key, d[..cap]) == ks[..cap];
    }
  }

  lemma SortedKeySet<T(!new)>(key: T -> string, a: seq<T>, b: seq<T>)
    ensures KeySet(key, Sort(ByKey(key), a + b)) == KeySet(key, a) + KeySet(key, b)
  {
    var s := Sort(ByKey(key), a + b);
    SortContents(ByKey(key), a + b);
    KeySetMembers(key, s);
    KeySetMembers(key, a);
    KeySetMembers(key, b);
    assert forall x :: x in s <==> x in multiset(a + b);
    assert forall x :: x in multiset(a + b) <==> x in a || x in b;
  }

  lemma KeySetMembers<T(!new)>(key: T -> string, s: seq<T>)
    ensures forall k :: k in KeySet(key, s) <==> exists x :: x in s && key(x) == k
  {
    forall k ensures k in KeySet(key, s) <==> exists x :: x in s && key(x) == k {
      if k in KeySet(key, s) {
        var i :| 0 <= i < |s| && KeysOf(key, s)[i] == k;
        assert s[i] in s;
      }
      if x :| x in s && key(x) == k {
        var i :| 0 <= i < |s| && s[i] == x;
        assert KeysOf(key, s)[i] == k;
      }
    }
  }

  // ----- keys and permutations

  lemma Without<T>(s: seq<T>, i: nat)
    requires i < |s|
    ensures multiset(s[..i] + s[i + 1..]) == multiset(s) - multiset{s[i]}
    ensures multiset(s) == multiset(s[..i] + s[i + 1..]) + multiset{s[i]}
  {
    assert s == s[..i] + [s[i]] + s[i + 1..];
  }

  lemma KeysWithout<T(!new)>(key: T -> string, s: seq<T>, i: nat)
    requires i < |s|
    ensures multiset(KeysOf(key, s)) == multiset(KeysOf(key, s[..i] + s[i + 1..])) + multiset{key(s[i])}
  {
    var ks := KeysOf(key, s);
    Without(ks, i);
    assert KeysOf(key, s[..i] + s[i + 1..]) == ks[..i] + ks[i + 1..];
  }

  lemma {:induction false} KeysOfPermutation<T(!new)>(key: T -> string, a: seq<T>, b: seq<T>)
    requires multiset(a) == multiset(b)
    ensures multiset(KeysOf(key, a)) == multiset(KeysOf(key, b))
    decreases |a|
  {
    assert |a| == |multiset(a)| == |multiset(b)| == |b|;
    if a != [] {
      assert a[0] in multiset(b);
      var i :| 0 <= i < |b| && b[i] == a[0];
      KeysStep(key, a, b, i);
      KeysOfPermutation(key, a[..0] + a[1..], b[..i] + b[i + 1..]);
    }
  }

  lemma KeysStep<T(!new)>(key: T -> string, a: seq<T>, b: seq<T>, i: nat)
    requires multiset(a) == multiset(b) && a != [] && i < |b| && b[i] == a[0]
    ensures var a', b' := a[..0] + a[1..], b[..i] + b[i + 1..];
      && multiset(a') == multiset(b') && |a'| < |a|
      && (multiset(KeysOf(key, a')) == multiset(KeysOf(key, b')) ==> multiset(KeysOf(key, a)) == multiset(KeysOf(key, b)))
  {
    RestAlike(a, b, i);
    KeysWithout(key, a, 0);
    KeysWithout(key, b, i);
  }

  lemma RestAlike<T>(a: seq<T>, b: seq<T>, i: nat)
    requires multiset(a) == multiset(b) && a != [] && i < |b| && b[i] == a[0]
    ensures multiset(a[..0] + a[1..]) == multiset(b[..i] + b[i + 1..])
  {
    Without(a, 0);
    Without(b, i);
  }

  ghost predicate Injective<T(!new)>(f: T -> string) {
    forall a, b :: f(a) == f(b) ==> a == b
  }

  lemma {:induction false} CountKeys<T(!new)>(f: T -> string, s: seq<T>, x: T)
    requires Injective(f)
    ensures multiset(KeysOf(f, s))[f(x)] == multiset(s)[x]
  {
    if s == [] {
    } else {
      CountKeys(f, s[1..], x);
      assert s == [s[0]] + s[1..];
      assert KeysOf(f, s) == [f(s[0])] + KeysOf(f, s[1..]);
    }
  }

  lemma InjectiveKeys<T(!new)>(f: T -> string, a: seq<T>, b: seq<T>)
    requires Injective(f) && multiset(KeysOf(f, a)) == multiset(KeysOf(f, b))
    ensures multiset(a) == multiset(b)
  {
    forall x ensures multiset(a)[x] == multiset(b)[x] {
      CountKeys(f, a, x);
      CountKeys(f, b, x);
    }
  }

  /** Distinct keys sort into one listing. */
  lemma SortByDistinctKeys<T(!new)>(key: T -> string, s: seq<T>)
    requires Distinct(KeysOf(key, s))
    ensures Ascending(StringLess, KeysOf(key, Sort(ByKey(key), s)))
  {
    var t := Sort(ByKey(key), s);
    ByKeyWeak(key);
    SortSorted(ByKey(key), s);
    SortContents(ByKey(key), s);
    KeysOfSorted(key, t);
    KeysOfPermutation(key, s, t);
    DistinctCounts(KeysOf(key, s));
    DistinctCounts(KeysOf(key, t));
    StringOrder();
    AscendingDistinct(StringLess, KeysOf(key, t));
  }

  /** A listing with ascending keys is determined by its contents. */
  lemma {:induction false} KeyedUnique<T(!new)>(key: T -> string, a: seq<T>, b: seq<T>)
    requires Ascending(StringLess, KeysOf(key, a)) && Ascending(StringLess, KeysOf(key, b))
    requires multiset(a) == multiset(b)
    ensures a == b
    decreases |a|
  {
    assert |a| == |multiset(a)| == |multiset(b)| == |b|;
    if a != [] {
      KeyedHead(key, a, b);
      SameTail(a, b);
      KeyedTail(key, a);
      KeyedTail(key, b);
      KeyedUnique(key, a[1..], b[1..]);
      assert a == [a[0]] + a[1..] && b == [a[0]] + b[1..];
    }
  }

  lemma SameTail<T>(a: seq<T>, b: seq<T>)
    requires a != [] && b != [] && a[0] == b[0] && multiset(a) == multiset(b)
    ensures multiset(a[1..]) == multiset(b[1..])
  {
    assert a == [a[0]] + a[1..] && b == [a[0]] + b[1..];
    assert multiset(a[1..]) == multiset(a) - multiset{a[0]};
    assert multiset(b[1..]) == multiset(b) - multiset{a[0]};
  }

  lemma KeyedTail<T(!new)>(key: T -> string, s: seq<T>)
    requires Ascending(StringLess, KeysOf(key, s)) && s != []
    ensures Ascending(StringLess, KeysOf(key, s[1..]))
  {
    assert KeysOf(key, s)[1..] == KeysOf(key, s[1..]);
  }

  lemma KeyedLeast<T(!new)>(key: T -> string, s: seq<T>, x: T)
    requires Ascending(StringLess, KeysOf(key, s)) && x in s
    ensures x == s[0] || StringLess(key(s[0]), key(x))
  {
    var i :| 0 <= i < |s| && s[i] == x;
    if i > 0 {
      assert StringLess(KeysOf(key, s)[0], KeysOf(key, s)[i]);
    }
  }

  lemma KeyedHead<T(!new)>(key: T -> string, a: seq<T>, b: seq<T>)
    requires Ascending(StringLess, KeysOf(key, a)) && Ascending(StringLess, KeysOf(key, b))
    requires multiset(a) == multiset(b) && a != [] && b != []
    ensures a[0] == b[0]
  {
    assert a[0] in multiset(b) && b[0] in multiset(a);
    KeyedLeast(key, b, a[0]);
    KeyedLeast(key, a, b[0]);
    StringOrder();
  }

  // ----- the provenance of merged elements

  /** e has a provenance of its key in the list, dated if any of those is, and no
      later than those. */
  ghost predicate EarliestOfKey<T(!new)>(key: T -> string, prov: T -> Provenance, list: seq<T>, e: T) {
    && (exists x :: x in list && key(x) == key(e) && prov(x) == prov(e))
    && forall z :: z in list && key(z) == key(e) && prov(z).discoveredAt != 0
         ==> prov(e).discoveredAt != 0 && prov(e).discoveredAt <= prov(z).discoveredAt
  }

  /** combine merges provenance and nothing that identifies. */
  ghost predicate MergesProv<T(!new)>(key: T -> string, combine: (T, T) -> T, prov: T -> Provenance) {
    KeepsKey(key, combine) && forall a, b :: prov(combine(a, b)) == EarliestProv(prov(a), prov(b))
  }

  /** What merging adjacent elements has made of done. */
  ghost predicate DedupedSoFar<T(!new)>(key: T -> string, prov: T -> Provenance, done: seq<T>, out: seq<T>) {
    && (forall i :: 0 <= i < |out| ==> EarliestOfKey(key, prov, done, out[i]))
    && (done == [] <==> out == [])
    && (done != [] ==> key(out[|out| - 1]) == key(done[|done| - 1]))
  }

  /** In a sorted list equal keys are adjacent. */
  lemma AdjacentOnly<T(!new)>(key: T -> string, done: seq<T>, x: T)
    requires Sorted(ByKey(key), done + [x]) && done != [] && key(done[|done| - 1]) != key(x)
    ensures forall z :: z in done ==> key(z) != key(x)
  {
    var s, n := done + [x], |done|;
    StringOrder();
    forall i | 0 <= i < n ensures key(done[i]) != key(x) {
      assert s[i] == done[i] && s[n] == x && s[n - 1] == done[n - 1];
      if i < n - 1 {
        assert !ByKey(key)(s[n - 1], s[i]) && !ByKey(key)(s[n], s[n - 1]);
      }
    }
  }

  lemma CombinedEarliest<T(!new)>(key: T -> string, prov: T -> Provenance, done: seq<T>, a: T, x: T, e: T)
    requires EarliestOfKey(key, prov, done, a) && key(a) == key(x) == key(e) && prov(e) == EarliestProv(prov(a), prov(x))
    ensures EarliestOfKey(key, prov, done + [x], e)
  {
    EarliestProvMeans(prov(a), prov(x));
    var y :| y in done && key(y) == key(a) && prov(y) == prov(a);
    var more := done + [x];
    assert y in more && x in more;
    assert prov(e) == prov(y) || prov(e) == prov(x);
    assert exists z :: z in more && key(z) == key(e) && prov(z) == prov(e);
    assert forall z :: z in more <==> z in done || z == x;
  }

  lemma OthersEarliest<T(!new)>(key: T -> string, prov: T -> Provenance, done: seq<T>, a: T, x: T)
    requires EarliestOfKey(key, prov, done, a) && key(a) != key(x)
    ensures EarliestOfKey(key, prov, done + [x], a)
  {
    var y :| y in done && key(y) == key(a) && prov(y) == prov(a);
    assert y in done + [x];
  }

  lemma FirstOfKey<T(!new)>(key: T -> string, prov: T -> Provenance, done: seq<T>, x: T)
    requires forall z :: z in done ==> key(z) != key(x)
    ensures EarliestOfKey(key, prov, done + [x], x)
  {
    assert x in done + [x];
  }

  lemma DedupedNext<T(!new)>(key: T -> string, combine: (T, T) -> T, prov: T -> Provenance, done: seq<T>, out: seq<T>, x: T)
    requires MergesProv(key, combine, prov) && Sorted(ByKey(key), done + [x]) && DedupedSoFar(key, prov, done, out)
    requires Ascending(StringLess, KeysOf(key, out))
    ensures DedupedSoFar(key, prov, done + [x], DedupeStep(key, combine, out, x))
  {
    var n := |out|;
    if n > 0 && key(out[n - 1]) == key(x) {
      DedupedMerge(key, prov, done, out, x, combine(out[n - 1], x));
    } else {
      if n > 0 {
        AdjacentOnly(key, done, x);
      }
      DedupedAppend(key, prov, done, out, x);
    }
  }

  lemma DedupedMerge<T(!new)>(key: T -> string, prov: T -> Provenance, done: seq<T>, out: seq<T>, x: T, e: T)
    requires DedupedSoFar(key, prov, done, out) && Ascending(StringLess, KeysOf(key, out)) && out != []
    requires var a := out[|out| - 1]; key(a) == key(x) == key(e) && prov(e) == EarliestProv(prov(a), prov(x))
    ensures DedupedSoFar(key, prov, done + [x], out[..|out| - 1] + [e])
  {
    var n, next := |out|, out[..|out| - 1] + [e];
    CombinedEarliest(key, prov, done, out[n - 1], x, e);
    forall i | 0 <= i < n ensures EarliestOfKey(key, prov, done + [x], next[i]) {
      if i < n - 1 {
        assert StringLess(KeysOf(key, out)[i], KeysOf(key, out)[n - 1]);
        StringLessIrreflexive(key(x));
        OthersEarliest(key, prov, done, out[i], x);
      }
    }
  }

  lemma DedupedAppend<T(!new)>(key: T -> string, prov: T -> Provenance, done: seq<T>, out: seq<T>, x: T)
    requires DedupedSoFar(key, prov, done, out) && forall z :: z in done ==> key(z) != key(x)
    ensures DedupedSoFar(key, prov, done + [x], out + [x])
  {
    FirstOfKey(key, prov, done, x);
    forall i | 0 <= i < |out| ensures EarliestOfKey(key, prov, done + [x], out[i]) {
      var y :| y in done && key(y) == key(out[i]) && prov(y) == prov(out[i]);
      OthersEarliest(key, prov, done, out[i], x);
    }
  }

  lemma {:induction false} DedupedAll<T(!new)>(key: T -> string, combine: (T, T) -> T, prov: T -> Provenance, done: seq<T>, s: seq<T>)
    requires MergesProv(key, combine, prov) && Sorted(ByKey(key), done + s)
    requires DedupedSoFar(key, prov, done, DedupeAll(key, combine, [], done))
    ensures DedupedSoFar(key, prov, done + s, DedupeAll(key, combine, [], done + s))
    decreases |s|
  {
    if s == [] {
      assert done + s == done;
    } else {
      var more := done + [s[0]];
      assert more + s[1..] == done + s;
      SortedPrefix(ByKey(key), done + s, |more|);
      assert (done + s)[..|more|] == more;
      DedupedLast(key, combine, [], done, s[0]);
      SortedKeysDedupe(key, combine, done, s[0]);
      DedupedNext(key, combine, prov, done, DedupeAll(key, combine, [], done), s[0]);
      DedupedAll(key, combine, prov, more, s[1..]);
    }
  }

  lemma SortedPrefix<T>(less: (T, T) -> bool, s: seq<T>, n: nat)
    requires Sorted(less, s) && n <= |s|
    ensures Sorted(less, s[..n])
  {
  }

  lemma {:induction false} DedupedLast<T>(key: T -> string, combine: (T, T) -> T, out: seq<T>, s: seq<T>, x: T)
    ensures DedupeAll(key, combine, out, s + [x]) == DedupeStep(key, combine, DedupeAll(key, combine, out, s), x)
    decreases s
  {
    if s == [] {
      assert (s + [x])[1..] == [];
    } else {
      assert (s + [x])[0] == s[0] && (s + [x])[1..] == s[1..] + [x];
      DedupedLast(key, combine, DedupeStep(key, combine, out, s[0]), s[1..], x);
    }
  }

  lemma SortedKeysDedupe<T(!new)>(key: T -> string, combine: (T, T) -> T, done: seq<T>, x: T)
    requires KeepsKey(key, combine) && Sorted(ByKey(key), done + [x])
    ensures Ascending(StringLess, KeysOf(key, DedupeAll(key, combine, [], done)))
  {
    SortedPrefix(ByKey(key), done + [x], |done|);
    assert (done + [x])[..|done|] == done;
    assert KeysOf(key, []) == [];
    DedupeKeys(key, combine, [], done);
  }

  /** Each element that sorting, merging and cutting leaves carries the earliest
      provenance of its key. */
  lemma DedupeEarliest<T(!new)>(key: T -> string, combine: (T, T) -> T, prov: T -> Provenance, list: seq<T>)
    requires MergesProv(key, combine, prov)
    ensures forall e :: e in Dedupe(key, combine, list) ==> EarliestOfKey(key, prov, list, e)
  {
    var s := Sort(ByKey(key), list);
    ByKeyWeak(key);
    SortSorted(ByKey(key), list);
    SortContents(ByKey(key), list);
    assert [] + s == s;
    DedupedAll(key, combine, prov, [], s);
    assert forall x :: x in s <==> x in multiset(s);
    assert forall x :: x in list <==> x in multiset(list);
  }
}
