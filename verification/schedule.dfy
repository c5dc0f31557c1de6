/** The rule registry and its dependency schedule
    (internal/detect/registry.go). */
module Schedule {
  import opened Wrappers
  import opened Order

  /** The dependency lists of the registered rules. */
  type Graph = map<string, seq<string>>

  // ----- chains

  /** Each rule of the chain depends on the next one. */
  ghost predicate Chain(g: Graph, p: seq<string>) {
    && p != []
    && (forall i :: 0 <= i < |p| ==> p[i] in g)
    && forall i :: 0 <= i < |p| - 1 ==> p[i + 1] in g[p[i]]
  }

  ghost predicate Cyclic(g: Graph) {
    exists p :: Chain(g, p) && |p| > 1 && p[0] == p[|p| - 1]
  }

  /** From id, following dependencies, some rule is met twice. */
  ghost predicate ReachesCycle(g: Graph, id: string) {
    exists p, i, j :: Chain(g, p) && p[0] == id && 0 <= i < j < |p| && p[i] == p[j]
  }

  ghost predicate AllRegistered(g: Graph) {
    forall id, d :: id in g && d in g[id] ==> d in g
  }

  // ----- levels

  /** The rules whose dependencies are exhausted after k rounds. */
  function Below(g: Graph, k: nat): set<string> {
    if k == 0 then {}
    else set id | id in g && forall d :: d in g[id] ==> d in Below(g, k - 1)
  }

  lemma {:induction false} BelowMonotone(g: Graph, k: nat)
    ensures Below(g, k) <= Below(g, k + 1) <= g.Keys
  {
    if k > 0 {
      BelowMonotone(g, k - 1);
    }
  }

  lemma {:induction false} BelowGrows(g: Graph, k: nat, m: nat)
    requires k <= m
    ensures Below(g, k) <= Below(g, m)
    decreases m - k
  {
    if k < m {
      BelowMonotone(g, k);
      BelowGrows(g, k + 1, m);
    }
  }

  lemma {:induction false} BelowFixed(g: Graph, k: nat, m: nat)
    requires k <= m && Below(g, k) == Below(g, k + 1)
    ensures Below(g, m) == Below(g, k)
    decreases m - k
  {
    if k < m {
      assert Below(g, k + 2) == Below(g, k + 1);
      BelowFixed(g, k + 1, m);
    }
  }

  /** A rule is outside round k exactly when a chain of k + 1 rules starts at
      it: the round of a rule is the length of its longest chain. */
  lemma {:induction false} ChainOfRound(g: Graph, id: string, k: nat)
    requires AllRegistered(g) && id in g
    ensures id !in Below(g, k) <==> exists p :: Chain(g, p) && p[0] == id && |p| == k + 1
    decreases k
  {
    if k == 0 {
      assert Chain(g, [id]);
    } else {
      if id !in Below(g, k) {
        var d :| d in g[id] && d !in Below(g, k - 1);
        ChainOfRound(g, d, k - 1);
        var q :| Chain(g, q) && q[0] == d && |q| == k;
        ChainCons(g, id, q);
      }
      if p :| Chain(g, p) && p[0] == id && |p| == k + 1 {
        ChainTail(g, p);
        ChainOfRound(g, p[1], k - 1);
      }
    }
  }

  lemma ChainCons(g: Graph, id: string, q: seq<string>)
    requires Chain(g, q) && id in g && q[0] in g[id]
    ensures Chain(g, [id] + q)
  {
  }

  lemma ChainTail(g: Graph, p: seq<string>)
    requires Chain(g, p) && |p| > 1
    ensures Chain(g, p[1..]) && p[1] in g[p[0]]
  {
  }

  lemma ChainSlice(g: Graph, p: seq<string>, i: nat, j: nat)
    requires Chain(g, p) && i < j <= |p|
    ensures Chain(g, p[i..j])
  {
  }

  lemma {:induction false} Pigeonhole(p: seq<string>, S: set<string>)
    requires |p| > |S| && forall i :: 0 <= i < |p| ==> p[i] in S
    ensures exists i, j :: 0 <= i < j < |p| && p[i] == p[j]
    decreases |S|
  {
    var rest := p[1..];
    if i :| 0 <= i < |rest| && rest[i] == p[0] {
      assert p[0] == p[i + 1];
    } else {
      forall i | 0 <= i < |rest| ensures rest[i] in S - {p[0]} {
        assert rest[i] == p[i + 1];
      }
      Pigeonhole(rest, S - {p[0]});
      var i, j :| 0 <= i < j < |rest| && rest[i] == rest[j];
      assert p[i + 1] == p[j + 1];
    }
  }

  /** A chain longer than the registry meets a rule twice. */
  lemma LongChainRepeats(g: Graph, id: string)
    requires AllRegistered(g) && id in g && id !in Below(g, |g|)
    ensures ReachesCycle(g, id)
  {
    ChainOfRound(g, id, |g|);
    var p :| Chain(g, p) && p[0] == id && |p| == |g| + 1;
    Pigeonhole(p, g.Keys);
    var i, j :| 0 <= i < j < |p| && p[i] == p[j];
  }

  /** Going round a cycle again makes chains of any length. */
  lemma {:induction false} CycleNeverScheduled(g: Graph, p: seq<string>, k: nat)
    requires AllRegistered(g) && Chain(g, p) && |p| > 1 && p[0] == p[|p| - 1]
    ensures forall i :: 0 <= i < |p| ==> p[i] !in Below(g, k)
  {
    if k > 0 {
      CycleNeverScheduled(g, p, k - 1);
      forall i | 0 <= i < |p| ensures p[i] !in Below(g, k) {
        var next := if i == |p| - 1 then p[1] else p[i + 1];
        assert next in g[p[i]];
      }
    }
  }

  lemma {:induction false} ReachingNeverScheduled(g: Graph, p: seq<string>, i: nat, j: nat, k: nat)
    requires AllRegistered(g) && Chain(g, p) && i < j < |p| && p[i] == p[j]
    ensures p[0] !in Below(g, k)
    decreases i
  {
    if i == 0 {
      ChainSlice(g, p, 0, j + 1);
      CycleNeverScheduled(g, p[..j + 1], k);
      assert p[..j + 1][0] == p[0];
    } else {
      ChainTail(g, p);
      assert p[1..][i - 1] == p[1..][j - 1];
      if k > 0 {
        ReachingNeverScheduled(g, p[1..], i - 1, j - 1, k - 1);
      }
    }
  }

  /** Being left over after any fixed point is reaching a cycle. */
  lemma LeftOver(g: Graph, id: string, k: nat)
    requires AllRegistered(g) && id in g && Below(g, k) == Below(g, k + 1)
    ensures id !in Below(g, k) <==> ReachesCycle(g, id)
  {
    if id !in Below(g, k) {
      if k <= |g| {
        BelowFixed(g, k, |g|);
      } else {
        BelowGrows(g, |g|, k);
      }
      LongChainRepeats(g, id);
    }
    if p, i, j :| Chain(g, p) && p[0] == id && 0 <= i < j < |p| && p[i] == p[j] {
      ReachingNeverScheduled(g, p, i, j, k);
    }
  }

  lemma CyclicIsReached(g: Graph)
    ensures Cyclic(g) <==> exists id :: id in g && ReachesCycle(g, id)
  {
    if p :| Chain(g, p) && |p| > 1 && p[0] == p[|p| - 1] {
      assert ReachesCycle(g, p[0]);
    }
    if id :| id in g && ReachesCycle(g, id) {
      var p, i, j :| Chain(g, p) && p[0] == id && 0 <= i < j < |p| && p[i] == p[j];
      ChainSlice(g, p, i, j + 1);
      var q := p[i..j + 1];
      assert q[0] == q[|q| - 1];
    }
  }

  // ----- what the schedule must be

  /** Level k lists, sorted, the rules whose longest chain has k + 1 rules. */
  ghost predicate IsLevels(g: Graph, levels: seq<seq<string>>) {
    forall k :: 0 <= k < |levels| ==>
      && levels[k] != []
      && Ascending(StringLess, levels[k])
      && Elements(levels[k]) == Below(g, k + 1) - Below(g, k)
  }

  datatype ScheduleError = Cycle(smallest: string)

  // ----- layered Kahn elimination

  /** How many entries of deps are not in done. */
  function Outstanding(deps: seq<string>, done: set<string>): nat {
    if deps == [] then 0
    else (if deps[0] in done then 0 else 1) + Outstanding(deps[1..], done)
  }

  lemma {:induction false} OutstandingZero(deps: seq<string>, done: set<string>)
    ensures Outstanding(deps, done) == 0 <==> forall d :: d in deps ==> d in done
  {
    if deps != [] {
      OutstandingZero(deps[1..], done);
    }
  }

  lemma {:induction false} OutstandingAfter(deps: seq<string>, done: set<string>, id: string)
    requires id !in done
    ensures Outstanding(deps, done + {id}) == Outstanding(deps, done) - multiset(deps)[id]
  {
    if deps != [] {
      OutstandingAfter(deps[1..], done, id);
      assert deps == [deps[0]] + deps[1..];
    }
  }

  lemma {:induction false} OutstandingNone(deps: seq<string>)
    ensures Outstanding(deps, {}) == |deps|
  {
    if deps != [] {
      OutstandingNone(deps[1..]);
    }
  }

  function DependentsOf(dependents: map<string, seq<string>>, id: string): seq<string> {
    if id in dependents then dependents[id] else []
  }

  /** dependents inverts the dependency lists, multiplicities included. */
  ghost predicate Inverts(g: Graph, dependents: map<string, seq<string>>, from: set<string>) {
    forall dep, id :: multiset(DependentsOf(dependents, dep))[id]
                   == if id in g && id in from then multiset(g[id])[dep] else 0
  }

  ghost predicate Counts(g: Graph, indegree: map<string, int>, done: set<string>) {
    indegree.Keys == g.Keys && forall id :: id in g ==> indegree[id] == Outstanding(g[id], done)
  }

  /** The rules with nothing outstanding. */
  ghost function Free(g: Graph, done: set<string>): set<string> {
    set id | id in g && Outstanding(g[id], done) == 0
  }

  lemma FreeIsNextRound(g: Graph, k: nat)
    ensures Free(g, Below(g, k)) == Below(g, k + 1)
  {
    forall id | id in g
      ensures Outstanding(g[id], Below(g, k)) == 0 <==> forall d :: d in g[id] ==> d in Below(g, k)
    {
      OutstandingZero(g[id], Below(g, k));
    }
  }

  /** The first loop of scheduleLevels. */
  method CountDependencies(g: Graph) returns (indegree: map<string, int>, dependents: map<string, seq<string>>)
    ensures Counts(g, indegree, {})
    ensures Inverts(g, dependents, g.Keys)
  {
    indegree, dependents := map[], map[];
    var rest := g.Keys;
    while rest != {}
      invariant rest <= g.Keys && indegree.Keys == g.Keys - rest
      invariant forall id :: id in indegree ==> indegree[id] == |g[id]|
      invariant Inverts(g, dependents, g.Keys - rest)
      decreases rest
    {
      var id :| id in rest;
      indegree := indegree[id := |g[id]|];
      dependents := AddDependent(g, dependents, id, g.Keys - rest);
      rest := rest - {id};
      assert g.Keys - rest == (g.Keys - (rest + {id})) + {id};
    }
    forall id | id in g ensures indegree[id] == Outstanding(g[id], {}) {
      OutstandingNone(g[id]);
    }
    assert g.Keys - rest == g.Keys;
  }

  method AddDependent(g: Graph, before: map<string, seq<string>>, id: string, ghost from: set<string>)
      returns (dependents: map<string, seq<string>>)
    requires id in g && id !in from && Inverts(g, before, from)
    ensures Inverts(g, dependents, from + {id})
  {
    dependents := before;
    for i := 0 to |g[id]|
      invariant Added(before, dependents, id, g[id][..i])
    {
      var dep := g[id][i];
      AddedStep(before, dependents, id, g[id], i);
      dependents := dependents[dep := DependentsOf(dependents, dep) + [id]];
    }
    assert g[id][..|g[id]|] == g[id];
    AddedInverts(g, before, dependents, id, from);
  }

  lemma AddedInverts(g: Graph, before: map<string, seq<string>>, after: map<string, seq<string>>, id: string, from: set<string>)
    requires id in g && id !in from && Inverts(g, before, from) && Added(before, after, id, g[id])
    ensures Inverts(g, after, from + {id})
  {
  }

  lemma AddedStep(before: map<string, seq<string>>, mid: map<string, seq<string>>, id: string, deps: seq<string>, i: nat)
    requires i < |deps| && Added(before, mid, id, deps[..i])
    ensures Added(before, mid[deps[i] := DependentsOf(mid, deps[i]) + [id]], id, deps[..i + 1])
  {
    PrefixStep(deps, i);
    AppendDependent(mid, deps[i], id);
  }

  /** after lists id once more under every mention in deps. */
  ghost predicate Added(before: map<string, seq<string>>, after: map<string, seq<string>>, id: string, deps: seq<string>) {
    forall d, x :: multiset(DependentsOf(after, d))[x] == (multiset(DependentsOf(before, d))[x] + if x == id then multiset(deps)[d] else 0)
  }

  lemma AppendDependent(dependents: map<string, seq<string>>, dep: string, id: string)
    ensures var after := dependents[dep := DependentsOf(dependents, dep) + [id]];
      forall d, x :: multiset(DependentsOf(after, d))[x]
                  == (multiset(DependentsOf(dependents, d))[x] + if d == dep && x == id then 1 else 0)
  {
  }

  lemma PrefixStep(s: seq<string>, i: nat)
    requires i < |s|
    ensures forall d :: multiset(s[..i + 1])[d] == multiset(s[..i])[d] + if d == s[i] then 1 else 0
    ensures multiset(s[..i])[s[i]] < multiset(s)[s[i]]
  {
    assert s[..i + 1] == s[..i] + [s[i]];
    assert s == s[..i + 1] + s[i + 1..];
    assert multiset(s) == multiset(s[..i + 1]) + multiset(s[i + 1..]);
  }

  /** Marks id done: every dependent loses one from its count per mention, and
      those that reach zero are appended. */
  method ReleaseOne(g: Graph, list: seq<string>, id: string, before: map<string, int>, found: seq<string>,
                    ghost done: set<string>, ghost base: set<string>)
      returns (indegree: map<string, int>, next: seq<string>)
    requires Counts(g, before, done) && id !in done
    requires forall x :: multiset(list)[x] == if x in g then multiset(g[x])[id] else 0
    requires base <= Free(g, done)
    requires Distinct(found) && Elements(found) == Free(g, done) - base
    ensures Counts(g, indegree, done + {id})
    ensures Distinct(next) && Elements(next) == Free(g, done + {id}) - base
  {
    indegree, next := before, found;
    for j := 0 to |list|
      invariant Partly(g, indegree, done, list[..j])
      invariant FoundSoFar(g, indegree, base, next)
    {
      var y := list[j];
      PartlyStep(g, indegree, done, list, j, id, base);
      FoundStep(g, indegree, base, next, y);
      indegree := indegree[y := indegree[y] - 1];
      if indegree[y] == 0 {
        next := next + [y];
      }
    }
    assert list[..|list|] == list;
    PartlyDone(g, indegree, done, list, id);
  }

  /** next lists the rules whose count has reached zero since base. */
  ghost predicate FoundSoFar(g: Graph, indegree: map<string, int>, base: set<string>, next: seq<string>) {
    && Distinct(next) && indegree.Keys == g.Keys
    && Elements(next) == (set x | x in g && indegree[x] == 0) - base
  }

  lemma FoundStep(g: Graph, indegree: map<string, int>, base: set<string>, next: seq<string>, y: string)
    requires FoundSoFar(g, indegree, base, next) && y in g && y !in base && indegree[y] > 0
    ensures var after := indegree[y := indegree[y] - 1];
      FoundSoFar(g, after, base, if after[y] == 0 then next + [y] else next)
  {
    var after := indegree[y := indegree[y] - 1];
    assert y !in Elements(next);
    if after[y] == 0 {
      assert Elements(next + [y]) == Elements(next) + {y};
    }
  }

  /** The mentions counted so far are taken off. */
  ghost predicate Partly(g: Graph, indegree: map<string, int>, done: set<string>, taken: seq<string>) {
    && indegree.Keys == g.Keys
    && forall x :: x in g ==> indegree[x] == Outstanding(g[x], done) - multiset(taken)[x]
  }

  lemma PartlyStep(g: Graph, indegree: map<string, int>, done: set<string>, list: seq<string>, j: nat, id: string, base: set<string>)
    requires j < |list| && Partly(g, indegree, done, list[..j]) && id !in done
    requires forall x :: multiset(list)[x] == if x in g then multiset(g[x])[id] else 0
    requires base <= Free(g, done)
    ensures list[j] in g && list[j] !in base && indegree[list[j]] > 0
    ensures Partly(g, indegree[list[j] := indegree[list[j]] - 1], done, list[..j + 1])
  {
    var y := list[j];
    PrefixStep(list, j);
    assert y in g;
    OutstandingAfter(g[y], done, id);
  }

  lemma PartlyDone(g: Graph, indegree: map<string, int>, done: set<string>, list: seq<string>, id: string)
    requires Partly(g, indegree, done, list) && id !in done
    requires forall x :: multiset(list)[x] == if x in g then multiset(g[x])[id] else 0
    ensures Counts(g, indegree, done + {id})
  {
    forall x | x in g ensures indegree[x] == Outstanding(g[x], done + {id}) {
      OutstandingAfter(g[x], done, id);
    }
  }

  /** The two nested loops over one level. */
  method ReleaseLevel(g: Graph, dependents: map<string, seq<string>>, ready: seq<string>, before: map<string, int>,
                      ghost done: set<string>)
      returns (indegree: map<string, int>, next: seq<string>)
    requires Inverts(g, dependents, g.Keys) && Counts(g, before, done)
    requires Distinct(ready) && Elements(ready) !! done
    ensures Counts(g, indegree, done + Elements(ready))
    ensures Distinct(next) && Elements(next) == Free(g, done + Elements(ready)) - Free(g, done)
  {
    indegree, next := before, [];
    assert done + Elements(ready[..0]) == done;
    for i := 0 to |ready|
      invariant Counts(g, indegree, done + Elements(ready[..i]))
      invariant Free(g, done) <= Free(g, done + Elements(ready[..i]))
      invariant Distinct(next) && Elements(next) == Free(g, done + Elements(ready[..i])) - Free(g, done)
    {
      var id := ready[i];
      ghost var sofar := done + Elements(ready[..i]);
      assert ready[..i + 1] == ready[..i] + [id];
      assert done + Elements(ready[..i + 1]) == sofar + {id};
      assert id in Elements(ready);
      FreeGrows(g, sofar, id);
      indegree, next := ReleaseOne(g, DependentsOf(dependents, id), id, indegree, next, sofar, Free(g, done));
    }
    assert ready[..|ready|] == ready;
  }

  lemma FreeGrows(g: Graph, done: set<string>, id: string)
    ensures Free(g, done) <= Free(g, done + {id})
  {
    forall x | x in Free(g, done) ensures x in Free(g, done + {id}) {
      OutstandingZero(g[x], done);
      OutstandingZero(g[x], done + {id});
    }
  }

  /** The rules that can start at once. */
  method InitialReady(g: Graph, indegree: map<string, int>) returns (ready: seq<string>)
    requires Counts(g, indegree, {})
    ensures AtRound(g, 0, indegree, ready)
  {
    ready := [];
    var rest := indegree.Keys;
    while rest != {}
      invariant rest <= g.Keys && Distinct(ready)
      invariant Elements(ready) == Free(g, {}) - rest
      decreases rest
    {
      var id :| id in rest;
      if indegree[id] == 0 {
        assert id !in Elements(ready);
        ready := ready + [id];
        assert Elements(ready) == (Free(g, {}) - rest) + {id};
      }
      rest := rest - {id};
    }
    FreeIsNextRound(g, 0);
    SortReady(g, 0, ready);
    ready := Sort(StringLess, ready);
  }

  /** scheduleLevels: succeeds exactly on acyclic graphs, with every rule at
      the level of its longest chain; otherwise it names the smallest rule that
      reaches a cycle. */
  method ScheduleLevels(g: Graph) returns (r: Result<seq<seq<string>>, ScheduleError>)
    requires AllRegistered(g) && "" !in g
    ensures r.Ok? <==> !Cyclic(g)
    ensures r.Ok? ==> IsLevels(g, r.value) && Below(g, |r.value|) == g.Keys
    ensures r.Err? ==>
      && r.error.smallest in g && ReachesCycle(g, r.error.smallest)
      && forall id :: id in g && ReachesCycle(g, id) ==> !StringLess(id, r.error.smallest)
  {
    var indegree, dependents := CountDependencies(g);
    var ready := InitialReady(g, indegree);
    var levels: seq<seq<string>> := [];
    var scheduled := 0;
    while |ready| > 0
      invariant IsLevels(g, levels) && AtRound(g, |levels|, indegree, ready)
      invariant scheduled == |Below(g, |levels|)| <= |g|
      decreases |g| - scheduled
    {
      TakeLevel(g, |levels|, ready);
      AppendLevel(g, levels, ready);
      levels := levels + [ready];
      scheduled := scheduled + |ready|;
      indegree, ready := NextRound(g, dependents, |levels| - 1, indegree, ready);
    }
    EmptyRound(g, |levels|, ready);
    if scheduled != |g| {
      var smallest := SmallestLeft(g, indegree, |levels|);
      return Err(Cycle(smallest));
    }
    SubsetSameSize(Below(g, |levels|), g.Keys);
    return Ok(levels);
  }

  /** ready is the sorted level k and the counts are those before it runs. */
  ghost predicate AtRound(g: Graph, k: nat, indegree: map<string, int>, ready: seq<string>) {
    && Ascending(StringLess, ready)
    && Elements(ready) == Below(g, k + 1) - Below(g, k)
    && Counts(g, indegree, Below(g, k))
  }

  /** One pass of the main loop: release the level, sort what it freed. */
  method NextRound(g: Graph, dependents: map<string, seq<string>>, ghost k: nat, before: map<string, int>, level: seq<string>)
      returns (indegree: map<string, int>, ready: seq<string>)
    requires Inverts(g, dependents, g.Keys) && AtRound(g, k, before, level)
    ensures AtRound(g, k + 1, indegree, ready)
  {
    TakeLevel(g, k, level);
    var next;
    indegree, next := ReleaseLevel(g, dependents, level, before, Below(g, k));
    FreeIsNextRound(g, k);
    FreeIsNextRound(g, k + 1);
    SortReady(g, k + 1, next);
    ready := Sort(StringLess, next);
  }

  lemma SortReady(g: Graph, k: nat, ready: seq<string>)
    requires Distinct(ready) && Elements(ready) == Below(g, k + 1) - Below(g, k)
    ensures Ascending(StringLess, Sort(StringLess, ready))
    ensures Elements(Sort(StringLess, ready)) == Below(g, k + 1) - Below(g, k)
  {
    StringOrder();
    SortDistinct(StringLess, ready);
  }

  lemma AppendLevel(g: Graph, levels: seq<seq<string>>, ready: seq<string>)
    requires IsLevels(g, levels) && ready != [] && Ascending(StringLess, ready)
    requires Elements(ready) == Below(g, |levels| + 1) - Below(g, |levels|)
    ensures IsLevels(g, levels + [ready])
  {
  }

  lemma TakeLevel(g: Graph, k: nat, ready: seq<string>)
    requires Ascending(StringLess, ready) && Elements(ready) == Below(g, k + 1) - Below(g, k)
    ensures Distinct(ready) && Elements(ready) !! Below(g, k)
    ensures Below(g, k) + Elements(ready) == Below(g, k + 1)
    ensures |Below(g, k + 1)| == |Below(g, k)| + |ready| <= |g|
  {
    StringOrder();
    AscendingSize(StringLess, ready);
    AscendingIsDistinct(ready);
    BelowMonotone(g, k);
    assert Below(g, k + 1) == Below(g, k) + Elements(ready);
    SetSizes(Below(g, k + 1), g.Keys);
    assert |g| == |g.Keys|;
  }

  lemma AscendingIsDistinct(s: seq<string>)
    requires Ascending(StringLess, s)
    ensures Distinct(s)
  {
    forall i, j | 0 <= i < j < |s| ensures s[i] != s[j] {
      StringLessIrreflexive(s[i]);
    }
  }

  /** When a round finds nothing the rounds have reached their fixed point, and
      what is left is what reaches a cycle. */
  lemma EmptyRound(g: Graph, k: nat, ready: seq<string>)
    requires AllRegistered(g)
    requires ready == [] && Elements(ready) == Below(g, k + 1) - Below(g, k)
    ensures Below(g, k + 1) == Below(g, k) <= g.Keys
    ensures forall id :: id in g ==> (id !in Below(g, k) <==> ReachesCycle(g, id))
    ensures |Below(g, k)| == |g| <==> !Cyclic(g)
  {
    BelowMonotone(g, k);
    assert Elements(ready) == {};
    forall id ensures id in Below(g, k + 1) <==> id in Below(g, k) {
      assert id !in Below(g, k + 1) - Below(g, k);
    }
    forall id | id in g ensures id !in Below(g, k) <==> ReachesCycle(g, id) {
      LeftOver(g, id, k);
    }
    CyclicIsReached(g);
    assert |g| == |g.Keys|;
    if |Below(g, k)| == |g| {
      SubsetSameSize(Below(g, k), g.Keys);
    }
    if !Cyclic(g) {
      assert g.Keys == Below(g, k);
    }
  }

  /** The scan for the smallest rule still counting dependencies. */
  method SmallestLeft(g: Graph, indegree: map<string, int>, ghost k: nat) returns (smallest: string)
    requires Counts(g, indegree, Below(g, k)) && Below(g, k + 1) == Below(g, k) <= g.Keys
    requires |Below(g, k)| != |g| && "" !in g
    ensures smallest in g && smallest !in Below(g, k)
    ensures NoneSmaller(g.Keys - Below(g, k), smallest)
  {
    FreeIsNextRound(g, k);
    ghost var left := g.Keys - Below(g, k);
    assert |g| == |g.Keys|;
    assert g.Keys == Below(g, k) + left;
    assert left != {};
    smallest := "";
    var rest := indegree.Keys;
    while rest != {}
      invariant rest <= g.Keys
      invariant smallest == "" ==> left <= rest
      invariant smallest != "" ==> smallest in left && NoneSmaller(left - rest, smallest)
      decreases rest
    {
      var id :| id in rest;
      SmallerOf(left - rest, smallest, id);
      OneScanned(left, rest, id);
      assert indegree[id] > 0 <==> id in left;
      if indegree[id] > 0 && (smallest == "" || StringLess(id, smallest)) {
        smallest := id;
      }
      rest := rest - {id};
    }
  }

  lemma OneScanned(left: set<string>, rest: set<string>, id: string)
    requires id in rest
    ensures left - (rest - {id}) == if id in left then left - rest + {id} else left - rest
  {
  }

  ghost predicate NoneSmaller(S: set<string>, x: string) {
    forall y :: y in S ==> !StringLess(y, x)
  }

  lemma SmallerOf(S: set<string>, x: string, y: string)
    ensures NoneSmaller({y}, y)
    ensures NoneSmaller(S, x) && StringLess(y, x) ==> NoneSmaller(S + {y}, y)
    ensures NoneSmaller(S, x) && !StringLess(y, x) ==> NoneSmaller(S + {y}, x)
  {
    StringLessIrreflexive(y);
    if NoneSmaller(S, x) && StringLess(y, x) {
      forall z | z in S ensures !StringLess(z, y) {
        if StringLess(z, y) {
          StringLessTransitive(z, y, x);
        }
      }
    }
  }

  // ----- what a schedule promises

  /** The levels partition the rules, each dependency lies in an earlier
      level, and the level of a rule is the length of its longest chain. */
  lemma LevelsPartition(g: Graph, levels: seq<seq<string>>, id: string)
    requires AllRegistered(g) && IsLevels(g, levels) && Below(g, |levels|) == g.Keys && id in g
    ensures exists k :: 0 <= k < |levels| && id in levels[k]
    ensures forall k, m :: 0 <= k < |levels| && 0 <= m < |levels| && id in levels[k] && id in levels[m] ==> k == m
    ensures forall k, d :: 0 <= k < |levels| && id in levels[k] && d in g[id] ==> exists m :: 0 <= m < k && d in levels[m]
    ensures forall k :: 0 <= k < |levels| && id in levels[k] ==> LongestChain(g, id, k + 1)
  {
    var n := FirstRound(g, levels, |levels|, id);
    forall k | 0 <= k < |levels| && id in levels[k] ensures k == n {
      SameRound(g, levels, k, n, id);
    }
    forall d | d in g[id] ensures exists m :: 0 <= m < n && d in levels[m] {
      assert d in Below(g, n);
      var m := FirstRound(g, levels, n, d);
    }
    RoundIsLongestChain(g, n, id);
  }

  /** Some chain from id has n rules and none has more. */
  ghost predicate LongestChain(g: Graph, id: string, n: nat) {
    && (exists p :: Chain(g, p) && p[0] == id && |p| == n)
    && (forall p :: Chain(g, p) && p[0] == id ==> |p| <= n)
  }

  lemma RoundIsLongestChain(g: Graph, n: nat, id: string)
    requires AllRegistered(g) && id in Below(g, n + 1) && id !in Below(g, n)
    ensures LongestChain(g, id, n + 1)
  {
    assert id in g;
    ChainOfRound(g, id, n);
    forall p | Chain(g, p) && p[0] == id && |p| > n + 1
      ensures exists q :: Chain(g, q) && q[0] == id && |q| == n + 2
    {
      ChainSlice(g, p, 0, n + 2);
      assert p[0..n + 2][0] == id;
    }
    ChainOfRound(g, id, n + 1);
  }

  lemma SameRound(g: Graph, levels: seq<seq<string>>, k: nat, n: nat, id: string)
    requires IsLevels(g, levels) && k < |levels| && id in levels[k]
    requires id in Below(g, n + 1) && id !in Below(g, n)
    ensures k == n
  {
    assert id in Elements(levels[k]);
    assert id in Below(g, k + 1) && id !in Below(g, k);
    if k < n {
      BelowGrows(g, k + 1, n);
    } else if n < k {
      BelowGrows(g, n + 1, k);
    }
  }

  lemma {:induction false} FirstRound(g: Graph, levels: seq<seq<string>>, bound: nat, id: string) returns (k: nat)
    requires IsLevels(g, levels) && bound <= |levels| && id in Below(g, bound)
    ensures k < bound && id in levels[k] && id in Below(g, k + 1) && id !in Below(g, k)
    decreases bound
  {
    if id in Below(g, bound - 1) {
      k := FirstRound(g, levels, bound - 1, id);
    } else {
      k := bound - 1;
      assert id in Elements(levels[k]);
    }
  }

  /** Following dependencies from id leads back to it. */
  ghost predicate OnCycle(g: Graph, id: string) {
    exists p :: Chain(g, p) && |p| > 1 && p[0] == id && p[|p| - 1] == id
  }

  lemma OnCycleReaches(g: Graph, id: string)
    requires OnCycle(g, id)
    ensures id in g && ReachesCycle(g, id)
  {
    var p :| Chain(g, p) && |p| > 1 && p[0] == id && p[|p| - 1] == id;
    assert p[0] == p[|p| - 1];
  }

  /** The rule only leads to a cycle, and is smaller than every rule on one. */
  ghost predicate Misleads(g: Graph, id: string) {
    id in g && ReachesCycle(g, id) && !OnCycle(g, id) && forall c :: OnCycle(g, c) ==> StringLess(id, c)
  }

  /** The error text says that the named rule, the smallest that reaches a cycle,
      is on one: so it is exactly when no rule that merely leads to a cycle is
      smaller than every rule on one. */
  lemma NamedRuleOnCycleIff(g: Graph, named: string)
    requires named in g && ReachesCycle(g, named)
    requires forall id :: id in g && ReachesCycle(g, id) ==> !StringLess(id, named)
    ensures OnCycle(g, named) <==> !exists id :: Misleads(g, id)
  {
    if !OnCycle(g, named) {
      forall c | OnCycle(g, c) ensures StringLess(named, c) {
        OnCycleReaches(g, c);
        StringLessConnected(named, c);
      }
      assert Misleads(g, named);
    }
  }

  /** A graph for which it is not. */
  lemma NamedRuleMayBeOffTheCycle()
    ensures var g := map["a" := ["b"], "b" := ["c"], "c" := ["b"]];
      && AllRegistered(g) && ReachesCycle(g, "a")
      && (forall id :: id in g && ReachesCycle(g, id) ==> !StringLess(id, "a"))
      && !OnCycle(g, "a")
  {
    var g := map["a" := ["b"], "b" := ["c"], "c" := ["b"]];
    var p := ["a", "b", "c", "b"];
    assert Chain(g, p) && p[1] == p[3];
    assert ReachesCycle(g, "a");
    forall q | Chain(g, q) && |q| > 1 ensures q[|q| - 1] != "a" {
      assert q[|q| - 1] in g[q[|q| - 2]];
    }
    assert !StringLess("a", "a") && !StringLess("b", "a") && !StringLess("c", "a");
  }
}
