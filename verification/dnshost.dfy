/** Resolving one host (internal/dns/run.go: resolveHost, resolveType,
    closureTargets, assemble), from the cache or from a resolver, until the
    context ends. */
module DnsHosts {
  import opened Wrappers
  import opened Order
  import opened Merging
  import opened JsonText
  import opened DnsAnswers
  import opened DnsReplay

  const HOST_TYPES: seq<RecordType> := [A, AAAA, CNAME, MX, TXT, NS, SRV]

  /** What happens around one query: the context is done before it is tried, or
      after the cache was asked; the limiter refuses; or the resolver replies, and
      the cache takes the record or cannot. */
  datatype Turn = DoneBefore | DoneAfterLookup | Refused(timedOut: bool) | Proceed(reply: Reply, stored: bool)

  /** One type's result, the cache after it, and how many queries were issued. */
  datatype Resolution = Resolution(tr: TypeResult, cache: map<Key, Rec>, queries: nat)

  /** resolveType, and the check before it. */
  function ResolveType(w: Assets, cache: map<Key, Rec>, host: string, rt: RecordType, turn: Turn, prov: Provenance): Resolution {
    if turn.DoneBefore? then Resolution(EmptyResult(host, rt, TypeCancelled, false, prov), cache, 0)
    else
      match LookupType(w, cache, host, rt)
      case Some(tr) => Resolution(tr, cache, 0)
      case None =>
        match turn
        case Proceed(reply, stored) =>
          var tr := Applied(w, host, rt, reply, prov);
          Resolution(tr, if stored then cache[TypeKey(host, rt) := StoredRecord(tr)] else cache, 1)
        case Refused(timedOut) =>
          Resolution(EmptyResult(host, rt, if timedOut then TypeTimedOut else TypeCancelled, false, prov), cache, 0)
        case DoneAfterLookup => Resolution(EmptyResult(host, rt, TypeCancelled, false, prov), cache, 0)
  }

  type Query = (string, RecordType)

  /** The surroundings of a run: what happens at its i-th type, and when it is. */
  datatype Surroundings = Surroundings(turn: nat -> Turn, prov: nat -> Provenance)

  datatype Run = Run(results: seq<TypeResult>, cache: map<Key, Rec>, queries: nat)

  function ResolveAll(w: Assets, env: Surroundings, from: nat, cache: map<Key, Rec>, plan: seq<Query>): Run {
    if plan == [] then Run([], cache, 0)
    else
      var n := |plan| - 1;
      var before := ResolveAll(w, env, from, cache, plan[..n]);
      var one := ResolveType(w, before.cache, plan[n].0, plan[n].1, env.turn(from + n), env.prov(from + n));
      Run(before.results + [one.tr], one.cache, before.queries + one.queries)
  }

  function HostPlan(host: string): seq<Query> {
    seq(|HOST_TYPES|, i requires 0 <= i < |HOST_TYPES| => (host, HOST_TYPES[i]))
  }

  function TargetPlan(targets: seq<string>): seq<Query> {
    if targets == [] then [] else TargetPlan(targets[..|targets| - 1]) + [(targets[|targets| - 1], A), (targets[|targets| - 1], AAAA)]
  }

  // ----- closure targets

  predicate GivesTargets(tr: TypeResult) {
    IsHostTargetType(tr.rt) && tr.status.TypeCompleted? && !tr.nxdomain
  }

  function NewTargets(tr: TypeResult, seen: seq<string>, hosts: seq<string>): seq<string>
    decreases hosts
  {
    if hosts == [] then seen
    else NewTargets(tr, if hosts[0] == tr.host || hosts[0] in seen then seen else seen + [hosts[0]], hosts[1..])
  }

  function TargetsIn(types: seq<TypeResult>): seq<string> {
    if types == [] then []
    else
      var tr := types[|types| - 1];
      var seen := TargetsIn(types[..|types| - 1]);
      if GivesTargets(tr) then NewTargets(tr, seen, tr.hosts) else seen
  }

  function ClosureTargets(types: seq<TypeResult>): seq<string> {
    Sort(StringLess, TargetsIn(types))
  }

  method CollectTargets(types: seq<TypeResult>) returns (out: seq<string>)
    ensures out == ClosureTargets(types)
  {
    out := [];
    for n := 0 to |types|
      invariant out == TargetsIn(types[..n])
    {
      assert types[..n + 1][..n] == types[..n];
      var tr := types[n];
      if GivesTargets(tr) {
        out := TakeTargets(tr, out);
      }
    }
    assert types[..|types|] == types;
    out := Sort(StringLess, out);
  }

  method TakeTargets(tr: TypeResult, seen: seq<string>) returns (out: seq<string>)
    ensures out == NewTargets(tr, seen, tr.hosts)
  {
    out := seen;
    for i := 0 to |tr.hosts|
      invariant NewTargets(tr, out, tr.hosts[i..]) == NewTargets(tr, seen, tr.hosts)
    {
      assert tr.hosts[i..][1..] == tr.hosts[i + 1..];
      var h := tr.hosts[i];
      if h != tr.host && h !in out {
        out := out + [h];
      }
    }
  }

  ghost function ObservedTargets(types: seq<TypeResult>): set<string> {
    set tr, h | tr in types && GivesTargets(tr) && h in tr.hosts && h != tr.host :: h
  }

  lemma {:induction false} NewTargetsMean(tr: TypeResult, seen: seq<string>, hosts: seq<string>)
    requires Distinct(seen)
    ensures Distinct(NewTargets(tr, seen, hosts))
    ensures Elements(NewTargets(tr, seen, hosts)) == Elements(seen) + (set h | h in hosts && h != tr.host)
    decreases hosts
  {
    if hosts != [] {
      var next := if hosts[0] == tr.host || hosts[0] in seen then seen else seen + [hosts[0]];
      NewTargetsMean(tr, next, hosts[1..]);
      assert hosts == [hosts[0]] + hosts[1..];
    }
  }

  lemma {:induction false} TargetsMean(types: seq<TypeResult>)
    ensures Distinct(TargetsIn(types)) && Elements(TargetsIn(types)) == ObservedTargets(types)
  {
    if types != [] {
      var n := |types| - 1;
      TargetsMean(types[..n]);
      NewTargetsMean(types[n], TargetsIn(types[..n]), types[n].hosts);
      assert types == types[..n] + [types[n]];
      ObservedTargetsAppend(types[..n], types[n]);
    }
  }

  lemma ObservedTargetsAppend(types: seq<TypeResult>, tr: TypeResult)
    ensures ObservedTargets(types + [tr]) == ObservedTargets(types)
      + (if GivesTargets(tr) then (set h | h in tr.hosts && h != tr.host) else {})
  {
    forall h ensures h in ObservedTargets(types + [tr])
      <==> h in ObservedTargets(types) || (GivesTargets(tr) && h in tr.hosts && h != tr.host)
    {
      assert forall x :: x in types + [tr] <==> x in types || x == tr;
    }
  }

  /** The closure is the distinct non-self targets of completed host-target
      answers, in name order. */
  lemma ClosureMeans(types: seq<TypeResult>)
    ensures Ascending(StringLess, ClosureTargets(types))
    ensures Elements(ClosureTargets(types)) == ObservedTargets(types)
  {
    TargetsMean(types);
    StringOrder();
    SortDistinct(StringLess, TargetsIn(types));
  }

  // ----- one host

  /** resolveHost up to assembly. */
  function ResolveHost(w: Assets, env: Surroundings, cache: map<Key, Rec>, host: string): Run {
    var own := ResolveAll(w, env, 0, cache, HostPlan(host));
    var rest := ResolveAll(w, env, |HOST_TYPES|, own.cache, TargetPlan(ClosureTargets(own.results)));
    Then(own, rest)
  }

  /** The loops of resolveHost. */
  method ResolveHostLoop(w: Assets, env: Surroundings, cache: map<Key, Rec>, host: string) returns (run: Run)
    ensures run == ResolveHost(w, env, cache, host)
  {
    var own := ResolvePlan(w, env, 0, cache, HostPlan(host));
    var targets := CollectTargets(own.results);
    var rest := ResolvePlan(w, env, |HOST_TYPES|, own.cache, TargetPlan(targets));
    run := Run(own.results + rest.results, rest.cache, own.queries + rest.queries);
  }

  /** resolveType, one branch after another. */
  method ResolveOne(w: Assets, cache: map<Key, Rec>, host: string, rt: RecordType, turn: Turn, prov: Provenance)
      returns (one: Resolution)
    ensures one == ResolveType(w, cache, host, rt, turn, prov)
  {
    if turn.DoneBefore? {
      return Resolution(EmptyResult(host, rt, TypeCancelled, false, prov), cache, 0);
    }
    var hit := LookupType(w, cache, host, rt);
    if hit.Some? {
      return Resolution(hit.value, cache, 0);
    }
    match turn {
      case Proceed(reply, stored) =>
        var tr := ApplyAnswers(w, host, rt, reply, prov);
        return Resolution(tr, if stored then cache[TypeKey(host, rt) := StoredRecord(tr)] else cache, 1);
      case Refused(timedOut) =>
        return Resolution(EmptyResult(host, rt, if timedOut then TypeTimedOut else TypeCancelled, false, prov), cache, 0);
      case DoneAfterLookup =>
        return Resolution(EmptyResult(host, rt, TypeCancelled, false, prov), cache, 0);
    }
  }

  method ResolvePlan(w: Assets, env: Surroundings, from: nat, cache: map<Key, Rec>, plan: seq<Query>) returns (run: Run)
    ensures run == ResolveAll(w, env, from, cache, plan)
  {
    run := Run([], cache, 0);
    for n := 0 to |plan|
      invariant run == ResolveAll(w, env, from, cache, plan[..n])
    {
      ResolveUpTo(w, env, from, cache, plan, n);
      var one := ResolveOne(w, run.cache, plan[n].0, plan[n].1, env.turn(from + n), env.prov(from + n));
      run := Run(run.results + [one.tr], one.cache, run.queries + one.queries);
    }
    assert plan[..|plan|] == plan;
  }

  lemma ResolveUpTo(w: Assets, env: Surroundings, from: nat, cache: map<Key, Rec>, plan: seq<Query>, n: nat)
    requires n < |plan|
    ensures ResolveAll(w, env, from, cache, plan[..n + 1]) == AndOne(w, env, from + n, ResolveAll(w, env, from, cache, plan[..n]), plan[n])
  {
    assert plan[..n + 1][..n] == plan[..n];
  }

  // ----- what a run leaves in the cache

  /** The question will be answered from the cache: it was, or its result was stored
      and can be served, its texts as JSON reads them back. */
  predicate Found(tr: TypeResult, turn: Turn) {
    tr.cached || (turn.Proceed? && turn.stored && Servable(tr) && FitsReread(tr.strings))
  }

  /** What is served next time. */
  function AsServed(tr: TypeResult): TypeResult {
    if tr.cached then tr else tr.(cached := true, strings := Map(Reread, tr.strings))
  }

  /** The context is never done before the cache is asked. */
  ghost predicate Alive(env: Surroundings) {
    forall i :: !env.turn(i).DoneBefore?
  }

  /** A question touches its own entry only. */
  lemma OneResolved(w: Assets, cache: map<Key, Rec>, host: string, rt: RecordType, turn: Turn, prov: Provenance)
    ensures var one := ResolveType(w, cache, host, rt, turn, prov);
      one.tr.host == host && one.tr.rt == rt && OnlyAt(TypeKey(host, rt), cache, one.cache)
  {
    LookupNamed(w, cache, host, rt);
    if turn.Proceed? {
      AppliedNamed(w, host, rt, turn.reply, prov);
    }
  }

  lemma LookupNamed(w: Assets, cache: map<Key, Rec>, host: string, rt: RecordType)
    ensures var found := LookupType(w, cache, host, rt); found.Some? ==> found.value.host == host && found.value.rt == rt
  {
  }

  lemma AppliedNamed(w: Assets, host: string, rt: RecordType, reply: Reply, prov: Provenance)
    ensures var tr := Applied(w, host, rt, reply, prov); tr.host == host && tr.rt == rt
  {
  }

  ghost predicate OnlyAt(key: Key, cache: map<Key, Rec>, next: map<Key, Rec>) {
    forall k :: k != key ==> (k in next <==> k in cache) && (k in cache ==> next[k] == cache[k])
  }

  lemma OneCovered(w: Assets, cache: map<Key, Rec>, host: string, rt: RecordType, turn: Turn, prov: Provenance, alive: bool)
    requires Canonicalising(w) && (alive ==> !turn.DoneBefore?)
    ensures var one := ResolveType(w, cache, host, rt, turn, prov); CoveredAt(w, turn, alive, one.cache, (host, rt), one.tr)
  {
    if LookupType(w, cache, host, rt).None? && turn.Proceed? {
      FreshIsNotCached(w, host, rt, turn.reply, prov);
      if turn.stored {
        StoredCovered(w, cache, host, rt, turn, prov, alive);
      }
    }
  }

  lemma StoredCovered(w: Assets, cache: map<Key, Rec>, host: string, rt: RecordType, turn: Turn, prov: Provenance, alive: bool)
    requires Canonicalising(w) && LookupType(w, cache, host, rt).None? && turn.Proceed? && turn.stored
    ensures var one := ResolveType(w, cache, host, rt, turn, prov); CoveredAt(w, turn, alive, one.cache, (host, rt), one.tr)
  {
    FreshIsNotCached(w, host, rt, turn.reply, prov);
    ReplayExact(w, ResolveType(w, cache, host, rt, turn, prov).cache, host, rt, turn.reply, prov);
  }

  lemma FreshIsNotCached(w: Assets, host: string, rt: RecordType, reply: Reply, prov: Provenance)
    ensures !Applied(w, host, rt, reply, prov).cached
  {
  }

  lemma OtherLookup(w: Assets, a: map<Key, Rec>, b: map<Key, Rec>, host: string, rt: RecordType)
    requires TypeKey(host, rt) in a <==> TypeKey(host, rt) in b
    requires TypeKey(host, rt) in a ==> a[TypeKey(host, rt)] == b[TypeKey(host, rt)]
    ensures LookupType(w, a, host, rt) == LookupType(w, b, host, rt)
  {
  }

  /** What each question of a run finds in the cache the run leaves. */
  ghost predicate Covered(w: Assets, env: Surroundings, from: nat, cache: map<Key, Rec>, plan: seq<Query>, results: seq<TypeResult>) {
    && |results| == |plan|
    && (forall i :: 0 <= i < |plan| ==> results[i].host == plan[i].0 && results[i].rt == plan[i].1)
    && (forall i :: 0 <= i < |plan| ==> CoveredAt(w, env.turn(from + i), Alive(env), cache, plan[i], results[i]))
  }

  ghost predicate CoveredAt(w: Assets, turn: Turn, alive: bool, cache: map<Key, Rec>, q: Query, tr: TypeResult) {
    && (Found(tr, turn) ==> LookupType(w, cache, q.0, q.1) == Some(AsServed(tr)))
    && (alive && !Found(tr, turn) ==> LookupType(w, cache, q.0, q.1).None?)
  }

  lemma RunCovers(w: Assets, env: Surroundings, from: nat, cache: map<Key, Rec>, plan: seq<Query>)
    requires Canonicalising(w) && Distinct(plan)
    ensures var run := ResolveAll(w, env, from, cache, plan); Covered(w, env, from, run.cache, plan, run.results)
  {
    CoversClimb(w, env, from, cache, plan, |plan|);
    assert plan[..|plan|] == plan;
  }

  /** The first n questions are covered once they are resolved. */
  ghost predicate CoversUpTo(w: Assets, env: Surroundings, from: nat, cache: map<Key, Rec>, plan: seq<Query>, n: nat)
    requires n <= |plan|
  {
    var run := ResolveAll(w, env, from, cache, plan[..n]); Covered(w, env, from, run.cache, plan[..n], run.results)
  }

  lemma {:induction false} CoversClimb(w: Assets, env: Surroundings, from: nat, cache: map<Key, Rec>, plan: seq<Query>, n: nat)
    requires Canonicalising(w) && Distinct(plan) && n <= |plan|
    ensures CoversUpTo(w, env, from, cache, plan, n)
  {
    if n > 0 {
      CoversClimb(w, env, from, cache, plan, n - 1);
      CoversNext(w, env, from, cache, plan, n - 1);
    } else {
      NothingAsked(w, env, from, cache, plan[..0]);
    }
  }

  lemma CoversNext(w: Assets, env: Surroundings, from: nat, cache: map<Key, Rec>, plan: seq<Query>, n: nat)
    requires Canonicalising(w) && Distinct(plan) && n < |plan| && CoversUpTo(w, env, from, cache, plan, n)
    ensures CoversUpTo(w, env, from, cache, plan, n + 1)
  {
    var before, run := ResolveAll(w, env, from, cache, plan[..n]), ResolveAll(w, env, from, cache, plan[..n + 1]);
    var asked := plan[..n + 1];
    ResolveUpTo(w, env, from, cache, plan, n);
    DistinctPrefix(plan, n + 1);
    assert asked[..n] == plan[..n] && asked[n] == plan[n];
    OneMore(w, env, from, before, asked, n, run);
  }

  lemma DistinctPrefix(plan: seq<Query>, n: nat)
    requires Distinct(plan) && n <= |plan|
    ensures Distinct(plan[..n])
  {
  }

  lemma OneMore(w: Assets, env: Surroundings, from: nat, before: Run, plan: seq<Query>, n: nat, run: Run)
    requires Canonicalising(w) && |plan| == n + 1 && Distinct(plan) && run == AndOne(w, env, from + n, before, plan[n])
    requires Covered(w, env, from, before.cache, plan[..n], before.results)
    ensures Covered(w, env, from, run.cache, plan, run.results)
  {
    var tr := OneAdded(w, env, from + n, before, plan[n]);
    CoveredOn(w, env, from, before.cache, run.cache, plan, before.results, tr);
  }

  lemma OneAdded(w: Assets, env: Surroundings, i: nat, before: Run, q: Query) returns (tr: TypeResult)
    requires Canonicalising(w)
    ensures var run := AndOne(w, env, i, before, q);
      && run.results == before.results + [tr] && tr.host == q.0 && tr.rt == q.1
      && OnlyAt(TypeKey(q.0, q.1), before.cache, run.cache) && CoveredAt(w, env.turn(i), Alive(env), run.cache, q, tr)
  {
    tr := ResolveType(w, before.cache, q.0, q.1, env.turn(i), env.prov(i)).tr;
    OneResolved(w, before.cache, q.0, q.1, env.turn(i), env.prov(i));
    OneCovered(w, before.cache, q.0, q.1, env.turn(i), env.prov(i), Alive(env));
  }

  lemma CoveredOn(w: Assets, env: Surroundings, from: nat, cache: map<Key, Rec>, next: map<Key, Rec>, plan: seq<Query>,
                  results: seq<TypeResult>, tr: TypeResult)
    requires plan != [] && Distinct(plan) && Covered(w, env, from, cache, plan[..|plan| - 1], results)
    requires var n := |plan| - 1;
      && OnlyAt(TypeKey(plan[n].0, plan[n].1), cache, next)
      && tr.host == plan[n].0 && tr.rt == plan[n].1 && CoveredAt(w, env.turn(from + n), Alive(env), next, plan[n], tr)
    ensures Covered(w, env, from, next, plan, results + [tr])
  {
    EarlierCovered(w, env, from, cache, next, plan, results);
    CoveredAppend(w, env, from, next, plan, results, tr);
  }

  lemma EarlierCovered(w: Assets, env: Surroundings, from: nat, cache: map<Key, Rec>, next: map<Key, Rec>, plan: seq<Query>, results: seq<TypeResult>)
    requires plan != [] && Distinct(plan) && Covered(w, env, from, cache, plan[..|plan| - 1], results)
    requires OnlyAt(TypeKey(plan[|plan| - 1].0, plan[|plan| - 1].1), cache, next)
    ensures Covered(w, env, from, next, plan[..|plan| - 1], results)
  {
    var n := |plan| - 1;
    forall i | 0 <= i < n ensures CoveredAt(w, env.turn(from + i), Alive(env), next, plan[..n][i], results[i]) {
      assert plan[..n][i] == plan[i] && plan[i] != plan[n];
      OtherCovered(w, env.turn(from + i), Alive(env), cache, next, plan[i], plan[n], results[i]);
    }
  }

  lemma CoveredAppend(w: Assets, env: Surroundings, from: nat, cache: map<Key, Rec>, plan: seq<Query>, results: seq<TypeResult>, tr: TypeResult)
    requires plan != [] && Covered(w, env, from, cache, plan[..|plan| - 1], results)
    requires var n := |plan| - 1;
      tr.host == plan[n].0 && tr.rt == plan[n].1 && CoveredAt(w, env.turn(from + n), Alive(env), cache, plan[n], tr)
    ensures Covered(w, env, from, cache, plan, results + [tr])
  {
    var n := |plan| - 1;
    assert forall i :: 0 <= i < n ==> plan[..n][i] == plan[i];
  }

  /** A question's entry is no other question's. */
  lemma OtherCovered(w: Assets, turn: Turn, alive: bool, cache: map<Key, Rec>, next: map<Key, Rec>, q: Query, asked: Query, tr: TypeResult)
    requires CoveredAt(w, turn, alive, cache, q, tr) && q != asked
    requires OnlyAt(TypeKey(asked.0, asked.1), cache, next)
    ensures CoveredAt(w, turn, alive, next, q, tr)
  {
    HostIdInjective(q.0, asked.0);
    OtherLookup(w, next, cache, q.0, q.1);
  }

  // ----- a run that finds everything

  ghost predicate AllHit(w: Assets, cache: map<Key, Rec>, plan: seq<Query>, results: seq<TypeResult>) {
    && |results| == |plan|
    && forall i :: 0 <= i < |plan| ==> LookupType(w, cache, plan[i].0, plan[i].1) == Some(results[i])
  }

  lemma HitNext(w: Assets, env: Surroundings, i: nat, cache: map<Key, Rec>, q: Query, results: seq<TypeResult>, tr: TypeResult)
    requires !env.turn(i).DoneBefore? && LookupType(w, cache, q.0, q.1) == Some(tr)
    ensures AndOne(w, env, i, Run(results, cache, 0), q) == Run(results + [tr], cache, 0)
  {
  }

  /** With every entry in place and the context alive, no query is issued. */
  lemma HitsOnly(w: Assets, env: Surroundings, from: nat, cache: map<Key, Rec>, plan: seq<Query>, results: seq<TypeResult>)
    requires AllHit(w, cache, plan, results) && forall i :: !env.turn(i).DoneBefore?
    ensures ResolveAll(w, env, from, cache, plan) == Run(results, cache, 0)
  {
    HitsClimb(w, env, from, cache, plan, results, |plan|);
    assert plan[..|plan|] == plan && results[..|plan|] == results;
  }

  /** The first n questions are answered from the cache. */
  ghost predicate HitsUpTo(w: Assets, env: Surroundings, from: nat, cache: map<Key, Rec>, plan: seq<Query>,
                           results: seq<TypeResult>, n: nat)
    requires n <= |plan| == |results|
  {
    ResolveAll(w, env, from, cache, plan[..n]) == Run(results[..n], cache, 0)
  }

  lemma {:induction false} HitsClimb(w: Assets, env: Surroundings, from: nat, cache: map<Key, Rec>, plan: seq<Query>,
                                     results: seq<TypeResult>, n: nat)
    requires AllHit(w, cache, plan, results) && n <= |plan| && forall i :: !env.turn(i).DoneBefore?
    ensures HitsUpTo(w, env, from, cache, plan, results, n)
  {
    if n > 0 {
      HitsClimb(w, env, from, cache, plan, results, n - 1);
      HitsOn(w, env, from, cache, plan, results, n - 1);
    } else {
      NothingAsked(w, env, from, cache, plan[..0]);
      assert results[..0] == [];
    }
  }

  lemma HitsOn(w: Assets, env: Surroundings, from: nat, cache: map<Key, Rec>, plan: seq<Query>, results: seq<TypeResult>, n: nat)
    requires n < |plan| == |results| && !env.turn(from + n).DoneBefore? && HitsUpTo(w, env, from, cache, plan, results, n)
    requires LookupType(w, cache, plan[n].0, plan[n].1) == Some(results[n])
    ensures HitsUpTo(w, env, from, cache, plan, results, n + 1)
  {
    ResolveUpTo(w, env, from, cache, plan, n);
    HitNext(w, env, from + n, cache, plan[n], results[..n], results[n]);
    assert results[..n] + [results[n]] == results[..n + 1];
  }

  lemma NothingAsked(w: Assets, env: Surroundings, from: nat, cache: map<Key, Rec>, plan: seq<Query>)
    requires plan == []
    ensures ResolveAll(w, env, from, cache, plan) == Run([], cache, 0)
  {
  }

  /** One run after another. */
  function Then(a: Run, b: Run): Run {
    Run(a.results + b.results, b.cache, a.queries + b.queries)
  }

  /** A run goes on with one more question, its i-th. */
  function AndOne(w: Assets, env: Surroundings, i: nat, run: Run, q: Query): Run {
    var one := ResolveType(w, run.cache, q.0, q.1, env.turn(i), env.prov(i));
    Run(run.results + [one.tr], one.cache, run.queries + one.queries)
  }

  lemma ThenAndOne(w: Assets, env: Surroundings, i: nat, a: Run, b: Run, q: Query)
    ensures Then(a, AndOne(w, env, i, b, q)) == AndOne(w, env, i, Then(a, b), q)
  {
    var one := ResolveType(w, b.cache, q.0, q.1, env.turn(i), env.prov(i));
    assert a.results + (b.results + [one.tr]) == (a.results + b.results) + [one.tr];
  }

  lemma ResolveLast(w: Assets, env: Surroundings, from: nat, cache: map<Key, Rec>, plan: seq<Query>, q: Query, i: nat, before: Run)
    requires i == from + |plan| && before == ResolveAll(w, env, from, cache, plan)
    ensures ResolveAll(w, env, from, cache, plan + [q]) == AndOne(w, env, i, before, q)
  {
    assert (plan + [q])[..|plan|] == plan;
  }

  lemma AppendedStep(w: Assets, env: Surroundings, cache: map<Key, Rec>, p: seq<Query>, q: seq<Query>, x: Query, own: Run, before: Run)
    requires before == ResolveAll(w, env, |p|, own.cache, q)
    requires ResolveAll(w, env, 0, cache, p + q) == Then(own, before)
    ensures ResolveAll(w, env, 0, cache, p + (q + [x])) == Then(own, ResolveAll(w, env, |p|, own.cache, q + [x]))
  {
    assert p + (q + [x]) == (p + q) + [x];
    var i := |p| + |q|;
    ResolveLast(w, env, |p|, own.cache, q, x, i, before);
    ResolveLast(w, env, 0, cache, p + q, x, i, Then(own, before));
    ThenAndOne(w, env, i, own, before, x);
  }

  lemma {:induction false} Appended(w: Assets, env: Surroundings, cache: map<Key, Rec>, p: seq<Query>, q: seq<Query>, own: Run)
    requires own == ResolveAll(w, env, 0, cache, p)
    ensures ResolveAll(w, env, 0, cache, p + q) == Then(own, ResolveAll(w, env, |p|, own.cache, q))
    decreases |q|
  {
    if q == [] {
      assert p + q == p && own.results + [] == own.results;
    } else {
      var n := |q| - 1;
      Appended(w, env, cache, p, q[..n], own);
      AppendedStep(w, env, cache, p, q[..n], q[n], own, ResolveAll(w, env, |p|, own.cache, q[..n]));
      assert q[..n] + [q[n]] == q;
    }
  }

  // ----- the plan asks each question once

  lemma {:induction false} TargetPlanOf(targets: seq<string>)
    requires Distinct(targets)
    ensures Distinct(TargetPlan(targets))
    ensures forall q :: q in TargetPlan(targets) ==> q.0 in targets
  {
    if targets != [] {
      var n := |targets| - 1;
      TargetPlanOf(targets[..n]);
      assert targets == targets[..n] + [targets[n]];
      assert targets[n] !in targets[..n];
    }
  }

  lemma PlanDistinct(host: string, targets: seq<string>)
    requires Distinct(targets) && host !in targets
    ensures Distinct(HostPlan(host) + TargetPlan(targets))
  {
    TargetPlanOf(targets);
    var p, q := HostPlan(host), TargetPlan(targets);
    forall i, j | 0 <= i < |p| && 0 <= j < |q| ensures p[i] != q[j] {
      assert q[j] in q;
    }
  }

  lemma ClosureExcludes(types: seq<TypeResult>, host: string)
    requires forall i :: 0 <= i < |types| ==> types[i].host == host
    ensures Distinct(ClosureTargets(types)) && host !in ClosureTargets(types)
  {
    ClosureMeans(types);
    var s := ClosureTargets(types);
    forall i, j | 0 <= i < j < |s| ensures s[i] != s[j] {
      StringLessIrreflexive(s[i]);
    }
    assert host in s <==> host in Elements(s);
    forall tr | tr in types ensures tr.host == host {
    }
  }

  // ----- what being served does not change

  function Servedly(types: seq<TypeResult>): seq<TypeResult> {
    Map(AsServed, types)
  }

  lemma {:induction false} SameNewTargets(a: TypeResult, seen: seq<string>, hosts: seq<string>)
    ensures NewTargets(AsServed(a), seen, hosts) == NewTargets(a, seen, hosts)
    decreases hosts
  {
    if hosts != [] {
      SameNewTargets(a, if hosts[0] == a.host || hosts[0] in seen then seen else seen + [hosts[0]], hosts[1..]);
    }
  }

  lemma {:induction false} SameTargets(types: seq<TypeResult>)
    ensures TargetsIn(Servedly(types)) == TargetsIn(types)
  {
    if types != [] {
      var n := |types| - 1;
      SameTargets(types[..n]);
      assert Servedly(types)[..n] == Servedly(types[..n]);
      SameNewTargets(types[n], TargetsIn(types[..n]), types[n].hosts);
    }
  }

  // ----- resolving again

  /** So are all questions of a run, the first being its from-th. */
  ghost predicate AllFound(env: Surroundings, from: nat, results: seq<TypeResult>) {
    forall i :: 0 <= i < |results| ==> Found(results[i], env.turn(from + i))
  }

  lemma CoveredHits(w: Assets, env: Surroundings, from: nat, cache: map<Key, Rec>, plan: seq<Query>, results: seq<TypeResult>)
    requires Covered(w, env, from, cache, plan, results) && AllFound(env, from, results)
    ensures AllHit(w, cache, plan, Servedly(results))
  {
    forall i | 0 <= i < |plan| ensures LookupType(w, cache, plan[i].0, plan[i].1) == Some(Servedly(results)[i]) {
      assert CoveredAt(w, env.turn(from + i), Alive(env), cache, plan[i], results[i]);
    }
  }

  lemma CoveredSplit(w: Assets, env: Surroundings, cache: map<Key, Rec>, p: seq<Query>, q: seq<Query>, a: seq<TypeResult>, b: seq<TypeResult>)
    requires |a| == |p| && Covered(w, env, 0, cache, p + q, a + b)
    ensures Covered(w, env, 0, cache, p, a) && Covered(w, env, |p|, cache, q, b)
  {
    forall i | 0 <= i < |p|
      ensures a[i].host == p[i].0 && a[i].rt == p[i].1 && CoveredAt(w, env.turn(i), Alive(env), cache, p[i], a[i])
    {
      assert (p + q)[i] == p[i] && (a + b)[i] == a[i];
    }
    forall i | 0 <= i < |q|
      ensures b[i].host == q[i].0 && b[i].rt == q[i].1 && CoveredAt(w, env.turn(|p| + i), Alive(env), cache, q[i], b[i])
    {
      assert (p + q)[|p| + i] == q[i] && (a + b)[|p| + i] == b[i];
    }
  }

  /** A run of the host's own types, then of its targets' addresses, covers both. */
  lemma FirstRun(w: Assets, env: Surroundings, cache: map<Key, Rec>, host: string, own: seq<TypeResult>, rest: seq<TypeResult>)
    requires Canonicalising(w) && own == ResolveAll(w, env, 0, cache, HostPlan(host)).results
    requires own + rest == ResolveHost(w, env, cache, host).results
    ensures var run := ResolveHost(w, env, cache, host);
      && Covered(w, env, 0, run.cache, HostPlan(host), own)
      && Covered(w, env, |HOST_TYPES|, run.cache, TargetPlan(ClosureTargets(own)), rest)
      && Distinct(HostPlan(host)) && Distinct(TargetPlan(ClosureTargets(own)))
  {
    var first := ResolveAll(w, env, 0, cache, HostPlan(host));
    assert Distinct(HostPlan(host));
    RunCovers(w, env, 0, cache, HostPlan(host));
    ClosureExcludes(own, host);
    var targets := ClosureTargets(own);
    PlanDistinct(host, targets);
    TargetPlanOf(targets);
    Appended(w, env, cache, HostPlan(host), TargetPlan(targets), first);
    RunCovers(w, env, 0, cache, HostPlan(host) + TargetPlan(targets));
    CoveredSplit(w, env, ResolveHost(w, env, cache, host).cache, HostPlan(host), TargetPlan(targets), own, rest);
  }

  /** The results of a run, the host's own and its targets'. */
  lemma SplitResults(w: Assets, env: Surroundings, cache: map<Key, Rec>, host: string) returns (own: seq<TypeResult>, rest: seq<TypeResult>)
    ensures own == ResolveAll(w, env, 0, cache, HostPlan(host)).results
    ensures own + rest == ResolveHost(w, env, cache, host).results
  {
    var first := ResolveAll(w, env, 0, cache, HostPlan(host));
    own := first.results;
    rest := ResolveAll(w, env, |HOST_TYPES|, first.cache, TargetPlan(ClosureTargets(own))).results;
  }

  /** A host whose every question will be found is resolved again from the cache
      alone: no query is issued, whatever the resolver would say now, and the
      results are those served. */
  lemma ResolvedAgain(w: Assets, env: Surroundings, cache: map<Key, Rec>, again: Surroundings, host: string)
    requires Canonicalising(w) && Alive(again) && AllFound(env, 0, ResolveHost(w, env, cache, host).results)
    ensures var first := ResolveHost(w, env, cache, host);
      ResolveHost(w, again, first.cache, host) == Run(Servedly(first.results), first.cache, 0)
  {
    var first := ResolveHost(w, env, cache, host);
    var own, rest := SplitResults(w, env, cache, host);
    FirstRun(w, env, cache, host, own, rest);
    AllFoundSplit(env, own, rest);
    CoveredHits(w, env, 0, first.cache, HostPlan(host), own);
    CoveredHits(w, env, |HOST_TYPES|, first.cache, TargetPlan(ClosureTargets(own)), rest);
    Again(w, again, first.cache, host, own, rest);
  }

  lemma AllFoundSplit(env: Surroundings, own: seq<TypeResult>, rest: seq<TypeResult>)
    ensures AllFound(env, 0, own + rest) <==> AllFound(env, 0, own) && AllFound(env, |own|, rest)
  {
    var all := own + rest;
    assert forall i :: 0 <= i < |own| ==> all[i] == own[i];
    assert forall i :: 0 <= i < |rest| ==> all[|own| + i] == rest[i];
    if AllFound(env, 0, own) && AllFound(env, |own|, rest) {
      forall i | 0 <= i < |all| ensures Found(all[i], env.turn(i)) {
        assert i < |own| || all[i] == rest[i - |own|];
      }
    }
    if AllFound(env, 0, all) {
      forall i | 0 <= i < |rest| ensures Found(rest[i], env.turn(|own| + i)) {
        assert Found(all[|own| + i], env.turn(|own| + i));
      }
    }
  }

  lemma Again(w: Assets, env: Surroundings, cache: map<Key, Rec>, host: string, own: seq<TypeResult>, rest: seq<TypeResult>)
    requires AllHit(w, cache, HostPlan(host), Servedly(own)) && Alive(env)
    requires AllHit(w, cache, TargetPlan(ClosureTargets(own)), Servedly(rest))
    ensures ResolveHost(w, env, cache, host) == Run(Servedly(own + rest), cache, 0)
  {
    HitsOnly(w, env, 0, cache, HostPlan(host), Servedly(own));
    SameTargets(own);
    HitsOnly(w, env, |HOST_TYPES|, cache, TargetPlan(ClosureTargets(own)), Servedly(rest));
    assert Servedly(own) + Servedly(rest) == Servedly(own + rest);
  }

  // ----- what is not found costs a query

  lemma {:induction false} OthersKeep(w: Assets, env: Surroundings, from: nat, cache: map<Key, Rec>, plan: seq<Query>, q: Query)
    requires Canonicalising(w) && q !in plan
    ensures LookupType(w, ResolveAll(w, env, from, cache, plan).cache, q.0, q.1) == LookupType(w, cache, q.0, q.1)
  {
    if plan != [] {
      var n := |plan| - 1;
      var before := ResolveAll(w, env, from, cache, plan[..n]);
      OthersKeep(w, env, from, cache, plan[..n], q);
      OneResolved(w, before.cache, plan[n].0, plan[n].1, env.turn(from + n), env.prov(from + n));
      HostIdInjective(q.0, plan[n].0);
      assert plan[n] in plan;
      OtherLookup(w, ResolveAll(w, env, from, cache, plan).cache, before.cache, q.0, q.1);
    }
  }

  lemma {:induction false} MissCosts(w: Assets, env: Surroundings, from: nat, cache: map<Key, Rec>, plan: seq<Query>, i: nat)
    requires Canonicalising(w) && Distinct(plan) && i < |plan| && forall k :: env.turn(k).Proceed?
    requires LookupType(w, cache, plan[i].0, plan[i].1).None?
    ensures ResolveAll(w, env, from, cache, plan).queries >= 1
  {
    var n := |plan| - 1;
    if i < n {
      assert plan[..n][i] == plan[i];
      MissCosts(w, env, from, cache, plan[..n], i);
    } else {
      OthersKeep(w, env, from, cache, plan[..n], plan[n]);
    }
  }

  lemma NotFoundCosts(w: Assets, env: Surroundings, again: Surroundings, from: nat, cache: map<Key, Rec>, plan: seq<Query>, results: seq<TypeResult>)
    requires Canonicalising(w) && Distinct(plan) && Alive(env) && (forall k :: again.turn(k).Proceed?)
    requires Covered(w, env, from, cache, plan, results) && !AllFound(env, from, results)
    ensures ResolveAll(w, again, from, cache, plan).queries >= 1
  {
    var i :| 0 <= i < |results| && !Found(results[i], env.turn(from + i));
    assert CoveredAt(w, env.turn(from + i), true, cache, plan[i], results[i]);
    MissCosts(w, again, from, cache, plan, i);
  }

  /** Resolving again issues no query exactly when every question of the first run
      will be found: it was in the cache, or it was stored, completed with nothing
      cut, and its texts still fit when read back, valid UTF-8 or not. */
  lemma NoQueryIff(w: Assets, env: Surroundings, cache: map<Key, Rec>, again: Surroundings, host: string)
    requires Canonicalising(w) && Alive(env) && forall i :: again.turn(i).Proceed?
    ensures ResolveHost(w, again, ResolveHost(w, env, cache, host).cache, host).queries == 0
       <==> AllFound(env, 0, ResolveHost(w, env, cache, host).results)
  {
    var first := ResolveHost(w, env, cache, host);
    if AllFound(env, 0, first.results) {
      ResolvedAgain(w, env, cache, again, host);
    } else {
      var own, rest := SplitResults(w, env, cache, host);
      FirstRun(w, env, cache, host, own, rest);
      AllFoundSplit(env, own, rest);
      if AllFound(env, 0, own) {
        CoveredHits(w, env, 0, first.cache, HostPlan(host), own);
        HitsOnly(w, again, 0, first.cache, HostPlan(host), Servedly(own));
        SameTargets(own);
        NotFoundCosts(w, env, again, |HOST_TYPES|, first.cache, TargetPlan(ClosureTargets(own)), rest);
      } else {
        NotFoundCosts(w, env, again, 0, first.cache, HostPlan(host), own);
      }
    }
  }
}
