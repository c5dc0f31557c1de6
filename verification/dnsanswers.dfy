/** Answer normalisation of the DNS stage (internal/dns/run.go, resolver.go):
    parse, drop, deduplicate, sort, cap. */
module DnsAnswers {
  import opened Wrappers
  import opened Text
  import opened Order

  const MAX_ANSWERS_PER_TYPE := 64
  const MAX_TXT_STRING_BYTES := 4096

  datatype RecordType = A | AAAA | CNAME | MX | TXT | NS | SRV | Unsupported(name: string)

  predicate IsAddressType(rt: RecordType) { rt.A? || rt.AAAA? }

  /** isHostTargetType. */
  predicate IsHostTargetType(rt: RecordType) { rt.CNAME? || rt.MX? || rt.NS? || rt.SRV? }

  /** The asset layer's normalisers: canonical address and host names. */
  datatype Assets = Assets(newIP: string -> Option<string>, newHost: string -> Option<string>)

  /** Canonical forms are their own canonical form. */
  ghost predicate Canonicalising(w: Assets) {
    && (forall a, n :: w.newIP(a) == Some(n) ==> w.newIP(n) == Some(n))
    && (forall a, n :: w.newHost(a) == Some(n) ==> w.newHost(n) == Some(n))
  }

  // ----- SRV wire strings

  /** The position of the last c, or -1. */
  function LastIndex(s: string, c: char): (i: int)
    ensures -1 <= i < |s|
    ensures i >= 0 ==> s[i] == c
    ensures forall j :: i < j < |s| ==> s[j] != c
  {
    if s == "" then -1
    else if s[|s| - 1] == c then |s| - 1
    else LastIndex(s[..|s| - 1], c)
  }

  /** strconv.ParseUint(s, 10, 16). */
  function ParsePort(s: string): Option<nat> {
    if s == "" || !AllDigits(s) || Value(s) > 65535 then None else Some(Value(s))
  }

  function ParseSRVAnswer(s: string): Option<(string, nat)> {
    var i := LastIndex(s, ':');
    if i <= 0 then None
    else
      match ParsePort(s[i + 1..])
      case None => None
      case Some(port) => Some((s[..i], port))
  }

  function FormatSRVAnswer(target: string, port: nat): string {
    target + ":" + Decimal(port)
  }

  lemma {:induction false} LastIndexFree(a: string, c: char, b: string)
    requires Free(b, c)
    ensures LastIndex(a + [c] + b, c) == |a|
  {
    var s := a + [c] + b;
    assert s[|a|] == c;
    forall j | |a| < j < |s| ensures s[j] != c {
      assert s[j] == b[j - |a| - 1];
    }
  }

  /** Formatting an SRV answer and parsing it back loses nothing, whatever
      colons the target holds. */
  lemma SRVRoundTrip(target: string, port: nat)
    requires target != "" && port <= 65535
    ensures ParseSRVAnswer(FormatSRVAnswer(target, port)) == Some((target, port))
  {
    var d := Decimal(port);
    ValueDecimal(port);
    assert Free(d, ':') by {
      assert AllDigits(d);
    }
    LastIndexFree(target, ':', d);
    assert FormatSRVAnswer(target, port)[..|target|] == target;
    assert FormatSRVAnswer(target, port)[|target| + 1..] == d;
  }

  // ----- one answer

  /** A normalised answer; port is 0 but for SRV. */
  datatype Item = Item(text: string, port: nat)

  function Parsed(w: Assets, rt: RecordType, a: string): Option<Item> {
    if IsAddressType(rt) then (match w.newIP(a) case None => None case Some(n) => Some(Item(n, 0)))
    else if rt.CNAME? || rt.MX? || rt.NS? then (match w.newHost(a) case None => None case Some(n) => Some(Item(n, 0)))
    else if rt.SRV? then
      (match ParseSRVAnswer(a)
       case None => None
       case Some(p) => match w.newHost(p.0) case None => None case Some(n) => Some(Item(n, p.1)))
    else if rt.TXT? && |a| <= MAX_TXT_STRING_BYTES then Some(Item(a, 0))
    else None
  }

  /** A host pointing at itself is no observation. */
  predicate IsSelf(rt: RecordType, queried: string, item: Item) {
    IsHostTargetType(rt) && item.text == queried
  }

  /** Canonical text first, then port. */
  predicate ItemLess(a: Item, b: Item) {
    StringLess(a.text, b.text) || (a.text == b.text && a.port < b.port)
  }

  lemma ItemOrder()
    ensures StrictTotal(ItemLess)
  {
    StringOrder();
  }

  // ----- all answers

  /** The distinct observations, in order of arrival. */
  function Collect(w: Assets, rt: RecordType, queried: string, answers: seq<string>): seq<Item> {
    if answers == [] then []
    else
      var n := |answers| - 1;
      var before := Collect(w, rt, queried, answers[..n]);
      match Parsed(w, rt, answers[n])
      case None => before
      case Some(item) => if IsSelf(rt, queried, item) || item in before then before else before + [item]
  }

  function MalformedIn(w: Assets, rt: RecordType, answers: seq<string>): nat {
    if answers == [] then 0
    else
      var n := |answers| - 1;
      MalformedIn(w, rt, answers[..n]) + (if Parsed(w, rt, answers[n]).None? then 1 else 0)
  }

  /** What is retained: the first 64 in canonical order. */
  function Kept(items: seq<Item>): seq<Item> {
    var s := Sort(ItemLess, items);
    if |s| > MAX_ANSWERS_PER_TYPE then s[..MAX_ANSWERS_PER_TYPE] else s
  }

  ghost function Observed(w: Assets, rt: RecordType, queried: string, answers: seq<string>): set<Item> {
    set a | a in answers && Parsed(w, rt, a).Some? && !IsSelf(rt, queried, Parsed(w, rt, a).value) :: Parsed(w, rt, a).value
  }

  lemma {:induction false} CollectIsObserved(w: Assets, rt: RecordType, queried: string, answers: seq<string>)
    ensures Elements(Collect(w, rt, queried, answers)) == Observed(w, rt, queried, answers)
    ensures Distinct(Collect(w, rt, queried, answers))
  {
    if answers != [] {
      var n := |answers| - 1;
      CollectIsObserved(w, rt, queried, answers[..n]);
      ObservedAppend(w, rt, queried, answers[..n], answers[n]);
      assert answers == answers[..n] + [answers[n]];
    }
  }

  lemma ObservedAppend(w: Assets, rt: RecordType, queried: string, before: seq<string>, a: string)
    ensures Observed(w, rt, queried, before + [a]) == Observed(w, rt, queried, before)
      + (if Parsed(w, rt, a).Some? && !IsSelf(rt, queried, Parsed(w, rt, a).value) then {Parsed(w, rt, a).value} else {})
  {
    forall x ensures x in Observed(w, rt, queried, before + [a]) <==>
      x in Observed(w, rt, queried, before) || (Parsed(w, rt, a) == Some(x) && !IsSelf(rt, queried, x))
    {
      assert forall b :: b in before + [a] <==> b in before || b == a;
    }
  }

  /** The retained answers ascend strictly by (name, port), are the 64 smallest
      distinct observations, and the rest is cut exactly when there are more. */
  lemma KeepsSmallest(w: Assets, rt: RecordType, queried: string, answers: seq<string>)
    ensures var items := Collect(w, rt, queried, answers); var all := Observed(w, rt, queried, answers);
      && Ascending(ItemLess, Kept(items))
      && IsFirst(ItemLess, MAX_ANSWERS_PER_TYPE, all, Elements(Kept(items)))
      && |Elements(Kept(items))| == |Kept(items)| && |items| == |all|
      && (|items| > MAX_ANSWERS_PER_TYPE <==> |all| > MAX_ANSWERS_PER_TYPE)
  {
    var items := Collect(w, rt, queried, answers);
    CollectIsObserved(w, rt, queried, answers);
    ItemOrder();
    SortDistinct(ItemLess, items);
    SortContents(ItemLess, items);
    PrefixIsFirst(ItemLess, MAX_ANSWERS_PER_TYPE, Sort(ItemLess, items));
    AscendingSize(ItemLess, Kept(items));
  }

  // ----- every answer has one fate

  datatype Fate = Malformed | SelfTarget | Duplicate | Retained | Cut

  /** What became of answer i, where kept was retained. */
  ghost function FateOf(w: Assets, rt: RecordType, queried: string, answers: seq<string>, kept: set<Item>, i: nat): Fate
    requires i < |answers|
  {
    match Parsed(w, rt, answers[i])
    case None => Malformed
    case Some(item) =>
      if IsSelf(rt, queried, item) then SelfTarget
      else if exists j :: 0 <= j < i && Parsed(w, rt, answers[j]) == Some(item) then Duplicate
      else if item in kept then Retained
      else Cut
  }

  /** How many of the first n answers met a fate. */
  ghost function Tally(w: Assets, rt: RecordType, queried: string, answers: seq<string>, kept: set<Item>, n: nat, f: Fate): nat
    requires n <= |answers|
  {
    if n == 0 then 0
    else Tally(w, rt, queried, answers, kept, n - 1, f) + (if FateOf(w, rt, queried, answers, kept, n - 1) == f then 1 else 0)
  }

  lemma {:induction false} TalliesAddUp(w: Assets, rt: RecordType, queried: string, answers: seq<string>, kept: set<Item>, n: nat)
    requires n <= |answers|
    ensures n == Tally(w, rt, queried, answers, kept, n, Malformed) + Tally(w, rt, queried, answers, kept, n, SelfTarget)
              + Tally(w, rt, queried, answers, kept, n, Duplicate) + Tally(w, rt, queried, answers, kept, n, Retained)
              + Tally(w, rt, queried, answers, kept, n, Cut)
  {
    if n > 0 {
      TalliesAddUp(w, rt, queried, answers, kept, n - 1);
    }
  }

  lemma SeenBefore(w: Assets, rt: RecordType, queried: string, answers: seq<string>, n: nat, item: Item)
    requires n <= |answers| && !IsSelf(rt, queried, item)
    ensures item in Collect(w, rt, queried, answers[..n]) <==> exists j :: 0 <= j < n && Parsed(w, rt, answers[j]) == Some(item)
  {
    CollectIsObserved(w, rt, queried, answers[..n]);
    assert item in Collect(w, rt, queried, answers[..n]) <==> item in Elements(Collect(w, rt, queried, answers[..n]));
    if item in Observed(w, rt, queried, answers[..n]) {
      var a :| a in answers[..n] && Parsed(w, rt, a) == Some(item);
      var j :| 0 <= j < n && answers[..n][j] == a;
      assert Parsed(w, rt, answers[j]) == Some(item);
    }
    if j :| 0 <= j < n && Parsed(w, rt, answers[j]) == Some(item) {
      assert answers[..n][j] in answers[..n];
    }
  }

  /** One answer moves each count by what its fate says. */
  lemma FateStep(w: Assets, rt: RecordType, queried: string, answers: seq<string>, kept: set<Item>, n: nat)
    requires n < |answers|
    ensures var before := Elements(Collect(w, rt, queried, answers[..n])); var after := Elements(Collect(w, rt, queried, answers[..n + 1]));
      var fate := FateOf(w, rt, queried, answers, kept, n);
      && MalformedIn(w, rt, answers[..n + 1]) == MalformedIn(w, rt, answers[..n]) + (if fate == Malformed then 1 else 0)
      && |after * kept| == |before * kept| + (if fate == Retained then 1 else 0)
      && |after - kept| == |before - kept| + (if fate == Cut then 1 else 0)
  {
    assert answers[..n + 1][..n] == answers[..n];
    var before := Collect(w, rt, queried, answers[..n]);
    match Parsed(w, rt, answers[n])
    case None =>
    case Some(item) =>
      if !IsSelf(rt, queried, item) {
        SeenBefore(w, rt, queried, answers, n, item);
        if item !in before {
          FirstSeen(before, item, kept);
        }
      }
  }

  lemma {:induction false} CountFates(w: Assets, rt: RecordType, queried: string, answers: seq<string>, kept: set<Item>, n: nat)
    requires n <= |answers|
    ensures Tally(w, rt, queried, answers, kept, n, Malformed) == MalformedIn(w, rt, answers[..n])
    ensures Tally(w, rt, queried, answers, kept, n, Retained) == |Elements(Collect(w, rt, queried, answers[..n])) * kept|
    ensures Tally(w, rt, queried, answers, kept, n, Cut) == |Elements(Collect(w, rt, queried, answers[..n])) - kept|
  {
    if n > 0 {
      CountFates(w, rt, queried, answers, kept, n - 1);
      FateStep(w, rt, queried, answers, kept, n - 1);
    } else {
      assert Elements(Collect(w, rt, queried, answers[..0])) == {};
    }
  }

  lemma FirstSeen(before: seq<Item>, item: Item, kept: set<Item>)
    requires item !in before
    ensures var b, s := Elements(before), Elements(before + [item]);
      && |s * kept| == |b * kept| + (if item in kept then 1 else 0)
      && |s - kept| == |b - kept| + (if item in kept then 0 else 1)
  {
    var b := Elements(before);
    assert Elements(before + [item]) == b + {item};
    if item in kept {
      assert (b + {item}) * kept == (b * kept) + {item};
      assert (b + {item}) - kept == b - kept;
    } else {
      assert (b + {item}) * kept == b * kept;
      assert (b + {item}) - kept == (b - kept) + {item};
    }
  }

  /** Each raw answer is exactly one of malformed, self-target, duplicate,
      retained and cut; the malformed ones are the count reported, the
      retained ones the answers reported. */
  lemma AnswersAreConserved(w: Assets, rt: RecordType, queried: string, answers: seq<string>)
    ensures var items := Collect(w, rt, queried, answers); var kept := Elements(Kept(items)); var n := |answers|;
      && Tally(w, rt, queried, answers, kept, n, Malformed) == MalformedIn(w, rt, answers)
      && Tally(w, rt, queried, answers, kept, n, Retained) == |Kept(items)|
      && Tally(w, rt, queried, answers, kept, n, Cut) == |items| - |Kept(items)|
      && n == MalformedIn(w, rt, answers) + |items|
            + Tally(w, rt, queried, answers, kept, n, SelfTarget) + Tally(w, rt, queried, answers, kept, n, Duplicate)
  {
    var items := Collect(w, rt, queried, answers);
    var kept, n := Elements(Kept(items)), |answers|;
    KeepsSmallest(w, rt, queried, answers);
    CollectIsObserved(w, rt, queried, answers);
    CountFates(w, rt, queried, answers, kept, n);
    TalliesAddUp(w, rt, queried, answers, kept, n);
    assert answers[..n] == answers;
    assert kept <= Elements(items);
    assert Elements(items) * kept == kept;
    assert |Elements(items) - kept| == |Elements(items)| - |kept|;
  }

  // ----- the loop, its sorts and its caps

  /** The raw lists: which one is filled depends on the record type, and ports
      runs parallel to hosts for SRV. */
  datatype Raw = Raw(ips: seq<string>, hosts: seq<string>, ports: seq<nat>, txts: seq<string>)

  function TextOf(item: Item): string { item.text }
  function PortOf(item: Item): nat { item.port }

  function RawOf(rt: RecordType, items: seq<Item>): Raw {
    Raw(if IsAddressType(rt) then Map(TextOf, items) else [],
        if IsHostTargetType(rt) then Map(TextOf, items) else [],
        if rt.SRV? then Map(PortOf, items) else [],
        if rt.TXT? then Map(TextOf, items) else [])
  }

  function Extend(w: Assets, rt: RecordType, queried: string, before: seq<Item>, a: string): seq<Item> {
    match Parsed(w, rt, a)
    case None => before
    case Some(item) => if IsSelf(rt, queried, item) || item in before then before else before + [item]
  }

  lemma CollectNext(w: Assets, rt: RecordType, queried: string, answers: seq<string>, n: nat)
    requires n < |answers|
    ensures Collect(w, rt, queried, answers[..n + 1]) == Extend(w, rt, queried, Collect(w, rt, queried, answers[..n]), answers[n])
    ensures MalformedIn(w, rt, answers[..n + 1])
      == MalformedIn(w, rt, answers[..n]) + (if Parsed(w, rt, answers[n]).None? then 1 else 0)
  {
    assert answers[..n + 1][..n] == answers[..n];
  }

  lemma RawAppend(rt: RecordType, items: seq<Item>, item: Item)
    ensures RawOf(rt, items + [item]) ==
      Raw(RawOf(rt, items).ips + (if IsAddressType(rt) then [item.text] else []),
          RawOf(rt, items).hosts + (if IsHostTargetType(rt) then [item.text] else []),
          RawOf(rt, items).ports + (if rt.SRV? then [item.port] else []),
          RawOf(rt, items).txts + (if rt.TXT? then [item.text] else []))
  {
    assert Map(TextOf, items + [item]) == Map(TextOf, items) + [item.text];
    assert Map(PortOf, items + [item]) == Map(PortOf, items) + [item.port];
  }

  /** One round of the loop; seen stands for whichever seen-map the type uses. */
  method TakeAnswer(w: Assets, rt: RecordType, queried: string, a: string, raw: Raw, seen: set<Item>, malformed: nat,
                    ghost items: seq<Item>)
    returns (raw': Raw, seen': set<Item>, malformed': nat)
    requires raw == RawOf(rt, items) && seen == Elements(items)
    ensures var next := Extend(w, rt, queried, items, a); raw' == RawOf(rt, next) && seen' == Elements(next)
    ensures malformed' == malformed + (if Parsed(w, rt, a).None? then 1 else 0)
  {
    raw', seen', malformed' := raw, seen, malformed;
    var item := Parsed(w, rt, a);
    if item.None? {
      malformed' := malformed + 1;
      return;
    }
    var x := item.value;
    if IsHostTargetType(rt) && x.text == queried {
      return;
    }
    if x in seen {
      return;
    }
    RawAppend(rt, items, x);
    assert Elements(items + [x]) == Elements(items) + {x};
    seen' := seen + {x};
    match rt {
      case A => raw' := raw.(ips := raw.ips + [x.text]);
      case AAAA => raw' := raw.(ips := raw.ips + [x.text]);
      case SRV => raw' := raw.(hosts := raw.hosts + [x.text], ports := raw.ports + [x.port]);
      case TXT => raw' := raw.(txts := raw.txts + [x.text]);
      case _ => raw' := raw.(hosts := raw.hosts + [x.text]);
    }
  }

  lemma {:induction false} MapInsert<T(!new), U>(f: T -> U, less: (T, T) -> bool, order: (U, U) -> bool, x: T, s: seq<T>)
    requires forall y :: y in s ==> (less(y, x) <==> order(f(y), f(x)))
    ensures Map(f, Insert(less, x, s)) == Insert(order, f(x), Map(f, s))
  {
    if s != [] {
      assert Map(f, s)[1..] == Map(f, s[1..]);
      if less(s[0], x) {
        MapInsert(f, less, order, x, s[1..]);
        assert Map(f, Insert(less, x, s)) == [f(s[0])] + Map(f, Insert(less, x, s[1..]));
      } else {
        assert Map(f, [x] + s) == [f(x)] + Map(f, s);
      }
    }
  }

  /** Sorting by a key and then taking keys is taking keys and then sorting. */
  lemma {:induction false} MapSort<T(!new), U>(f: T -> U, less: (T, T) -> bool, order: (U, U) -> bool, s: seq<T>)
    requires forall x, y :: x in s && y in s ==> (less(x, y) <==> order(f(x), f(y)))
    ensures Map(f, Sort(less, s)) == Sort(order, Map(f, s))
  {
    if s != [] {
      MapSort(f, less, order, s[1..]);
      SortContents(less, s[1..]);
      forall y | y in Sort(less, s[1..]) ensures y in s {
        assert y in multiset(s[1..]);
      }
      MapInsert(f, less, order, s[0], Sort(less, s[1..]));
      assert Map(f, s)[1..] == Map(f, s[1..]);
    }
  }

  /** Without ports, sorting the texts sorts the items. */
  lemma SortTexts(items: seq<Item>)
    requires forall item :: item in items ==> item.port == 0
    ensures Sort(StringLess, Map(TextOf, items)) == Map(TextOf, Sort(ItemLess, items))
  {
    MapSort(TextOf, ItemLess, StringLess, items);
  }

  predicate PairLess(hosts: seq<string>, ports: seq<nat>, i: nat, j: nat) {
    && i < |hosts| == |ports| && j < |hosts|
    && if hosts[i] != hosts[j] then StringLess(hosts[i], hosts[j]) else ports[i] < ports[j]
  }

  /** The positions of the pairs in canonical order. */
  function PairOrder(hosts: seq<string>, ports: seq<nat>): (order: seq<nat>)
    ensures |order| == |hosts| && forall i :: i in order ==> i < |hosts|
  {
    var indices: seq<nat> := seq(|hosts|, i => i);
    var less := (i: nat, j: nat) => PairLess(hosts, ports, i, j);
    SortContents(less, indices);
    assert forall i :: i in Sort(less, indices) ==> i in multiset(indices);
    Sort(less, indices)
  }

  function At(items: seq<Item>, i: nat): Item { if i < |items| then items[i] else Item("", 0) }

  lemma PairOrderSorts(items: seq<Item>)
    ensures var order := PairOrder(Map(TextOf, items), Map(PortOf, items));
      |order| == |items| && forall k :: 0 <= k < |items| ==> At(items, order[k]) == At(Sort(ItemLess, items), k)
  {
    var hosts, ports := Map(TextOf, items), Map(PortOf, items);
    var indices: seq<nat> := seq(|items|, i => i);
    var less, at := (i: nat, j: nat) => PairLess(hosts, ports, i, j), (i: nat) => At(items, i);
    forall i, j | i in indices && j in indices ensures less(i, j) <==> ItemLess(at(i), at(j)) {
      StringLessIrreflexive(hosts[i]);
    }
    MapSort(at, less, ItemLess, indices);
    assert Map(at, indices) == items;
  }

  /** The index sort that keeps ports aligned with hosts. */
  method SortPairs(hosts: seq<string>, ports: seq<nat>, ghost items: seq<Item>) returns (hosts': seq<string>, ports': seq<nat>)
    requires hosts == Map(TextOf, items) && ports == Map(PortOf, items)
    ensures hosts' == Map(TextOf, Sort(ItemLess, items)) && ports' == Map(PortOf, Sort(ItemLess, items))
  {
    var order := PairOrder(hosts, ports);
    hosts', ports' := [], [];
    PairOrderSorts(items);
    SortContents(ItemLess, items);
    for k := 0 to |order|
      invariant |hosts'| == k == |ports'|
      invariant forall m :: 0 <= m < k ==> hosts'[m] == Sort(ItemLess, items)[m].text && ports'[m] == Sort(ItemLess, items)[m].port
    {
      assert order[k] in order && At(items, order[k]) == At(Sort(ItemLess, items), k);
      hosts' := hosts' + [hosts[order[k]]];
      ports' := ports' + [ports[order[k]]];
    }
  }

  lemma {:induction false} NoPorts(w: Assets, rt: RecordType, queried: string, answers: seq<string>)
    requires !rt.SRV?
    ensures forall item :: item in Collect(w, rt, queried, answers) ==> item.port == 0
  {
    if answers != [] {
      NoPorts(w, rt, queried, answers[..|answers| - 1]);
    }
  }

  lemma {:induction false} NothingElse(w: Assets, rt: RecordType, queried: string, answers: seq<string>)
    requires !IsAddressType(rt) && !IsHostTargetType(rt) && !rt.TXT?
    ensures Collect(w, rt, queried, answers) == []
  {
    if answers != [] {
      NothingElse(w, rt, queried, answers[..|answers| - 1]);
    }
  }

  function Cap<T>(s: seq<T>): seq<T> {
    if |s| > MAX_ANSWERS_PER_TYPE then s[..MAX_ANSWERS_PER_TYPE] else s
  }

  lemma CapOfMap<T, U>(f: T -> U, s: seq<T>)
    ensures Cap(Map(f, s)) == Map(f, Cap(s))
  {
  }

  /** normalizeAnswers. The type decides which list is filled; hosts and ports
      of an SRV answer stay paired through sort and cap. */
  method NormalizeAnswers(w: Assets, rt: RecordType, answers: seq<string>, queried: string)
    returns (ips: seq<string>, hosts: seq<string>, txts: seq<string>, ports: seq<nat>, malformed: nat, truncated: bool)
    ensures Raw(ips, hosts, ports, txts) == RawOf(rt, Kept(Collect(w, rt, queried, answers)))
    ensures malformed == MalformedIn(w, rt, answers)
    ensures truncated <==> |Collect(w, rt, queried, answers)| > MAX_ANSWERS_PER_TYPE
  {
    var raw, seen := Raw([], [], [], []), {};
    malformed := 0;
    for n := 0 to |answers|
      invariant raw == RawOf(rt, Collect(w, rt, queried, answers[..n]))
      invariant seen == Elements(Collect(w, rt, queried, answers[..n]))
      invariant malformed == MalformedIn(w, rt, answers[..n])
    {
      CollectNext(w, rt, queried, answers, n);
      raw, seen, malformed := TakeAnswer(w, rt, queried, answers[n], raw, seen, malformed, Collect(w, rt, queried, answers[..n]));
    }
    assert answers[..|answers|] == answers;
    ghost var items := Collect(w, rt, queried, answers);
    SortContents(ItemLess, items);
    raw := SortRaw(w, rt, queried, answers, raw);
    truncated := |raw.ips| > MAX_ANSWERS_PER_TYPE || |raw.hosts| > MAX_ANSWERS_PER_TYPE || |raw.txts| > MAX_ANSWERS_PER_TYPE;
    if !IsAddressType(rt) && !IsHostTargetType(rt) && !rt.TXT? {
      NothingElse(w, rt, queried, answers);
    }
    CapOfMap(TextOf, Sort(ItemLess, items));
    CapOfMap(PortOf, Sort(ItemLess, items));
    ips, hosts, txts, ports := Cap(raw.ips), Cap(raw.hosts), Cap(raw.txts), Cap(raw.ports);
  }

  method SortRaw(w: Assets, rt: RecordType, queried: string, ghost answers: seq<string>, raw: Raw) returns (sorted: Raw)
    requires raw == RawOf(rt, Collect(w, rt, queried, answers))
    ensures sorted == RawOf(rt, Sort(ItemLess, Collect(w, rt, queried, answers)))
  {
    ghost var items := Collect(w, rt, queried, answers);
    if rt.SRV? {
      var hosts, ports := SortPairs(raw.hosts, raw.ports, items);
      sorted := Raw([], hosts, ports, []);
    } else {
      NoPorts(w, rt, queried, answers);
      SortTexts(items);
      sorted := Raw(Sort(StringLess, raw.ips), Sort(StringLess, raw.hosts), [], Sort(StringLess, raw.txts));
    }
  }
}
