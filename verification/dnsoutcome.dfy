/** What the resolver's replies make of a host's questions (internal/dns/run.go:
    resolveHost, resolveType, applyAnswers, normalizeAnswers), said of the replies
    themselves. */
module DnsOutcomes {
  import opened Wrappers
  import opened Text
  import opened Order
  import opened Merging
  import opened JsonText
  import opened DnsAnswers
  import opened DnsReplay
  import opened DnsHosts

  // ----- one question

  /** The status a turn of events gives a question that the cache does not answer. */
  ghost predicate StatusTells(turn: Turn, tr: TypeResult) {
    match turn
    case DoneBefore => tr.status.TypeCancelled? && !tr.nxdomain
    case DoneAfterLookup => tr.status.TypeCancelled? && !tr.nxdomain
    case Refused(timedOut) => (if timedOut then tr.status.TypeTimedOut? else tr.status.TypeCancelled?) && !tr.nxdomain
    case Proceed(reply, _) =>
      && (tr.status.TypeCompleted? <==> reply.Answers? || reply == QueryFailed(ErrNotFound))
      && (tr.nxdomain <==> reply == QueryFailed(ErrNotFound))
      && (tr.status.TypeTimedOut? <==> reply == QueryFailed(ErrTimeout))
      && (tr.status.TypeCancelled? <==> reply == QueryFailed(ErrCancelled))
      && (tr.status.TypeFailed? <==> reply == QueryFailed(ErrTemporary) || reply == QueryFailed(ErrFailure))
  }

  /** Nothing is reported but by an answering resolver. */
  ghost predicate AnswersTell(turn: Turn, tr: TypeResult) {
    (turn.Proceed? && turn.reply.Answers?)
    || (tr.ips == [] && tr.hosts == [] && tr.strings == [] && tr.ports == [] && tr.malformed == 0 && !tr.truncated)
  }

  lemma QuestionTells(w: Assets, cache: map<Key, Rec>, host: string, rt: RecordType, turn: Turn, prov: Provenance)
    requires LookupType(w, cache, host, rt).None?
    ensures var one := ResolveType(w, cache, host, rt, turn, prov);
      && StatusTells(turn, one.tr) && AnswersTell(turn, one.tr) && !one.tr.cached
      && one.queries == (if turn.Proceed? then 1 else 0)
  {
    if turn.Proceed? {
      ReplyTells(w, host, rt, turn.reply, turn.stored, prov);
    }
  }

  lemma ReplyTells(w: Assets, host: string, rt: RecordType, reply: Reply, stored: bool, prov: Provenance)
    ensures var tr := Applied(w, host, rt, reply, prov);
      StatusTells(Proceed(reply, stored), tr) && AnswersTell(Proceed(reply, stored), tr) && !tr.cached
  {
  }

  /** Once the context is done nothing is asked, not even the cache. */
  lemma DoneAsksNothing(w: Assets, cache: map<Key, Rec>, host: string, rt: RecordType, prov: Provenance)
    ensures var one := ResolveType(w, cache, host, rt, DoneBefore, prov);
      && one.cache == cache && one.queries == 0 && StatusTells(DoneBefore, one.tr) && AnswersTell(DoneBefore, one.tr)
      && one.tr.host == host && one.tr.rt == rt && !one.tr.cached
  {
  }

  /** Whatever is in the cache, only a completed record of this operation, host and
      type is served, and only with canonical answers that such a question has. */
  lemma ServedIsWellFormed(w: Assets, cache: map<Key, Rec>, host: string, rt: RecordType)
    requires LookupType(w, cache, host, rt).Some?
    ensures var tr := LookupType(w, cache, host, rt).value;
      && tr.host == host && tr.rt == rt && tr.cached && tr.status.TypeCompleted? && !tr.truncated
      && (tr.ips != [] ==> rt.A? || rt.AAAA?) && (tr.hosts != [] ==> rt.CNAME? || rt.MX? || rt.NS? || rt.SRV?)
      && (tr.strings != [] ==> rt.TXT?) && (tr.ports != [] ==> rt.SRV?) && (rt.SRV? ==> |tr.ports| == |tr.hosts|)
      && (tr.nxdomain ==> tr.ips == [] && tr.hosts == [] && tr.strings == [])
      && (forall i :: 0 <= i < |tr.ips| ==> w.newIP(tr.ips[i]) == Some(tr.ips[i]))
      && (forall i :: 0 <= i < |tr.hosts| ==> w.newHost(tr.hosts[i]) == Some(tr.hosts[i]))
      && (forall i :: 0 <= i < |tr.strings| ==> |tr.strings[i]| <= 4096)
    ensures exists key :: key in cache && ForQuestion(cache[key], host, rt)
  {
    assert ForQuestion(cache[TypeKey(host, rt)], host, rt);
  }

  ghost predicate ForQuestion(rec: Rec, host: string, rt: RecordType) {
    && rec.operation == "dns.resolve" && rec.target == "host:" + host && rec.status.StatusCompleted?
    && rec.data.target == "host:" + host && rec.data.rt == rt && !rec.data.truncated
  }

  /** After any reply but answers or a missing name the cache serves nothing, and
      the question is asked again. */
  lemma FailureIsAskedAgain(w: Assets, cache: map<Key, Rec>, host: string, rt: RecordType, turn: Turn, prov: Provenance,
                            again: Turn, later: Provenance)
    requires LookupType(w, cache, host, rt).None? && again.Proceed?
    requires turn.Proceed? ==> turn.reply.QueryFailed? && !turn.reply.kind.ErrNotFound?
    ensures var one := ResolveType(w, cache, host, rt, turn, prov);
      && LookupType(w, one.cache, host, rt).None?
      && ResolveType(w, one.cache, host, rt, again, later).queries == 1
  {
  }

  /** The record a stored question leaves: completed only when nothing was cut. */
  lemma StoredStatus(w: Assets, cache: map<Key, Rec>, host: string, rt: RecordType, reply: Reply, prov: Provenance)
    requires LookupType(w, cache, host, rt).None?
    ensures var one := ResolveType(w, cache, host, rt, Proceed(reply, true), prov); var key := Key("dns.resolve", "host:" + host, rt);
      && key in one.cache
      && (one.cache[key].status.StatusCompleted? <==> one.tr.status.TypeCompleted? && !one.tr.truncated)
      && (one.cache[key].status.StatusIncomplete? <==> one.tr.truncated)
      && (one.cache[key].status.StatusFailed? <==> reply == QueryFailed(ErrTemporary) || reply == QueryFailed(ErrFailure))
      && forall k :: k != key ==> (k in one.cache <==> k in cache) && (k in cache ==> one.cache[k] == cache[k])
  {
  }

  // ----- the answers reported

  /** An SRV answer splits at its last colon into a target and a port. */
  ghost predicate SplitsAt(a: string, k: nat, target: string, port: nat) {
    && 0 < k < |a| - 1 && a[k] == ':' && a[..k] == target
    && AllDigits(a[k + 1..]) && Value(a[k + 1..]) == port <= 65535
  }

  /** The answer a, to a question of type rt, stands for x. */
  ghost predicate Means(w: Assets, rt: RecordType, a: string, x: Item) {
    match rt
    case A => w.newIP(a) == Some(x.text) && x.port == 0
    case AAAA => w.newIP(a) == Some(x.text) && x.port == 0
    case CNAME => w.newHost(a) == Some(x.text) && x.port == 0
    case MX => w.newHost(a) == Some(x.text) && x.port == 0
    case NS => w.newHost(a) == Some(x.text) && x.port == 0
    case SRV => exists k: nat, target :: SplitsAt(a, k, target, x.port) && w.newHost(target) == Some(x.text)
    case TXT => a == x.text && x.port == 0 && |a| <= 4096
    case Unsupported(_) => false
  }

  /** Some answer stands for x, and x is not the host asked about. */
  ghost predicate Given(w: Assets, host: string, rt: RecordType, list: seq<string>, x: Item) {
    && (exists a :: a in list && Means(w, rt, a, x))
    && (rt.CNAME? || rt.MX? || rt.NS? || rt.SRV? ==> x.text != host)
  }

  /** tr reports x in the list of its type. */
  ghost predicate Reported(tr: TypeResult, x: Item) {
    match tr.rt
    case A => x.text in tr.ips && x.port == 0
    case AAAA => x.text in tr.ips && x.port == 0
    case CNAME => x.text in tr.hosts && x.port == 0
    case MX => x.text in tr.hosts && x.port == 0
    case NS => x.text in tr.hosts && x.port == 0
    case SRV => exists i :: 0 <= i < |tr.hosts| && i < |tr.ports| && tr.hosts[i] == x.text && tr.ports[i] == x.port
    case TXT => x.text in tr.strings && x.port == 0
    case Unsupported(_) => false
  }

  lemma SplitIsLast(a: string, k: nat, target: string, port: nat)
    requires SplitsAt(a, k, target, port)
    ensures ParseSRVAnswer(a) == Some((target, port))
  {
    forall j | k < j < |a| ensures a[j] != ':' {
      assert a[k + 1..][j - k - 1] == a[j];
    }
    assert LastIndex(a, ':') == k;
  }

  lemma ParsedMeans(w: Assets, rt: RecordType, a: string, x: Item)
    ensures Parsed(w, rt, a) == Some(x) <==> Means(w, rt, a, x)
  {
    if rt.SRV? {
      SRVMeans(w, a, x);
    }
  }

  lemma ParsedSplits(a: string) returns (k: nat)
    requires ParseSRVAnswer(a).Some?
    ensures SplitsAt(a, k, ParseSRVAnswer(a).value.0, ParseSRVAnswer(a).value.1)
  {
    k := LastIndex(a, ':');
  }

  lemma SRVMeans(w: Assets, a: string, x: Item)
    ensures Parsed(w, SRV, a) == Some(x) <==> Means(w, SRV, a, x)
  {
    if Parsed(w, SRV, a) == Some(x) {
      var p := ParseSRVAnswer(a).value;
      var k := ParsedSplits(a);
      assert SplitsAt(a, k, p.0, x.port) && w.newHost(p.0) == Some(x.text);
    }
    if k: nat, target :| SplitsAt(a, k, target, x.port) && w.newHost(target) == Some(x.text) {
      SplitIsLast(a, k, target, x.port);
    }
  }

  lemma ObservedIsGiven(w: Assets, rt: RecordType, host: string, list: seq<string>, x: Item)
    ensures x in Observed(w, rt, host, list) <==> Given(w, host, rt, list, x)
  {
    forall a ensures Parsed(w, rt, a) == Some(x) <==> Means(w, rt, a, x) {
      ParsedMeans(w, rt, a, x);
    }
  }

  lemma ReportedIsKept(w: Assets, host: string, rt: RecordType, list: seq<string>, prov: Provenance, x: Item)
    ensures Reported(Applied(w, host, rt, Answers(list), prov), x) <==> x in Kept(Collect(w, rt, host, list))
  {
    var kept := Kept(Collect(w, rt, host, list));
    var tr := Applied(w, host, rt, Answers(list), prov);
    forall i | 0 <= i < |kept| ensures !rt.SRV? ==> kept[i].port == 0 {
      if !rt.SRV? {
        NoPorts(w, rt, host, list);
        KeptMembers(Collect(w, rt, host, list), kept[i]);
      }
    }
    if rt.Unsupported? {
      NothingElse(w, rt, host, list);
    }
    if x in kept {
      var i :| 0 <= i < |kept| && kept[i] == x;
      assert rt.SRV? ==> tr.hosts[i] == x.text && tr.ports[i] == x.port;
    }
    if Reported(tr, x) {
      var i := PlaceOf(tr, x);
      assert kept[i] == x;
    }
  }

  lemma PlaceOf(tr: TypeResult, x: Item) returns (i: nat)
    requires Reported(tr, x)
    ensures tr.rt.A? || tr.rt.AAAA? ==> i < |tr.ips| && tr.ips[i] == x.text
    ensures IsHostTargetType(tr.rt) ==> i < |tr.hosts| && tr.hosts[i] == x.text
    ensures tr.rt.SRV? ==> i < |tr.ports| && tr.ports[i] == x.port
    ensures tr.rt.TXT? ==> i < |tr.strings| && tr.strings[i] == x.text
    ensures !tr.rt.SRV? ==> x.port == 0
    ensures !tr.rt.Unsupported?
  {
    if tr.rt.SRV? {
      i :| 0 <= i < |tr.hosts| && i < |tr.ports| && tr.hosts[i] == x.text && tr.ports[i] == x.port;
    } else if tr.rt.TXT? {
      i :| 0 <= i < |tr.strings| && tr.strings[i] == x.text;
    } else if IsAddressType(tr.rt) {
      i :| 0 <= i < |tr.ips| && tr.ips[i] == x.text;
    } else {
      i :| 0 <= i < |tr.hosts| && tr.hosts[i] == x.text;
    }
  }

  lemma CutIsBehind(w: Assets, host: string, rt: RecordType, list: seq<string>, x: Item)
    ensures var items := Collect(w, rt, host, list);
      && (x in Kept(items) ==> Given(w, host, rt, list, x))
      && (|items| <= MAX_ANSWERS_PER_TYPE && Given(w, host, rt, list, x) ==> x in Kept(items))
      && (Given(w, host, rt, list, x) && x !in Kept(items) ==>
            |Kept(items)| == MAX_ANSWERS_PER_TYPE && forall y :: y in Kept(items) ==> ItemLess(y, x))
  {
    var items := Collect(w, rt, host, list);
    ObservedIsGiven(w, rt, host, list, x);
    KeepsSmallest(w, rt, host, list);
    CollectIsObserved(w, rt, host, list);
    SortContents(ItemLess, items);
    assert forall y :: y in Kept(items) <==> y in Elements(Kept(items));
    assert x in items <==> x in multiset(items);
    ItemOrder();
  }

  /** The answers to a question asked, in the list of its type: every one that was
      given, or the 64 smallest by name and port when there are more. */
  lemma AnswersReported(w: Assets, cache: map<Key, Rec>, host: string, rt: RecordType, list: seq<string>, stored: bool, prov: Provenance, x: Item)
    requires LookupType(w, cache, host, rt).None?
    ensures var tr := ResolveType(w, cache, host, rt, Proceed(Answers(list), stored), prov).tr;
      && (Reported(tr, x) ==> Given(w, host, rt, list, x))
      && (!tr.truncated ==> (Reported(tr, x) <==> Given(w, host, rt, list, x)))
      && (Given(w, host, rt, list, x) && !Reported(tr, x) ==>
            && tr.truncated && |tr.ips| + |tr.hosts| + |tr.strings| == 64
            && forall y :: Reported(tr, y) ==> StringLess(y.text, x.text) || (y.text == x.text && y.port < x.port))
  {
    var tr := Applied(w, host, rt, Answers(list), prov);
    var items := Collect(w, rt, host, list);
    forall y ensures Reported(tr, y) <==> y in Kept(items) {
      ReportedIsKept(w, host, rt, list, prov, y);
    }
    CutIsBehind(w, host, rt, list, x);
    if rt.Unsupported? {
      NothingElse(w, rt, host, list);
    }
  }

  ghost predicate Stands(w: Assets, rt: RecordType, a: string) {
    exists x :: Means(w, rt, a, x)
  }

  /** The answers that stand for nothing. */
  ghost function Unread(w: Assets, rt: RecordType, list: seq<string>): set<int> {
    set i | 0 <= i < |list| && !Stands(w, rt, list[i])
  }

  /** They are counted, each of them. */
  lemma {:induction false} MalformedMeans(w: Assets, rt: RecordType, list: seq<string>)
    ensures MalformedIn(w, rt, list) == |Unread(w, rt, list)|
  {
    if list != [] {
      var n := |list| - 1;
      MalformedMeans(w, rt, list[..n]);
      assert list[..n] + [list[n]] == list;
      UnreadAppend(w, rt, list[..n], list[n]);
    }
  }

  lemma UnreadAppend(w: Assets, rt: RecordType, list: seq<string>, a: string)
    ensures Unread(w, rt, list + [a]) == Unread(w, rt, list) + (if Parsed(w, rt, a).None? then {|list|} else {})
  {
    assert Parsed(w, rt, a).None? <==> !Stands(w, rt, a) by {
      forall x ensures Parsed(w, rt, a) == Some(x) <==> Means(w, rt, a, x) {
        ParsedMeans(w, rt, a, x);
      }
      if Parsed(w, rt, a).Some? {
        assert Means(w, rt, a, Parsed(w, rt, a).value);
      }
    }
    var more := Unread(w, rt, list) + (if Parsed(w, rt, a).None? then {|list|} else {});
    forall i ensures i in Unread(w, rt, list + [a]) <==> i in more {
      if 0 <= i < |list| {
        assert (list + [a])[i] == list[i];
      }
    }
  }

  // ----- one host

  lemma {:induction false} PrefixResults(w: Assets, env: Surroundings, from: nat, cache: map<Key, Rec>, plan: seq<Query>, i: nat)
    requires i <= |plan|
    ensures var all, before := ResolveAll(w, env, from, cache, plan).results, ResolveAll(w, env, from, cache, plan[..i]).results;
      |all| == |plan| && |before| == i && all[..i] == before
  {
    var n := |plan| - 1;
    if i <= n {
      PrefixResults(w, env, from, cache, plan[..n], i);
      LastResult(w, env, from, cache, plan[..n], plan[n]);
      assert plan[..n] + [plan[n]] == plan && plan[..n][..i] == plan[..i];
      OneLonger(ResolveAll(w, env, from, cache, plan).results, ResolveAll(w, env, from, cache, plan[..n]).results, i);
    } else {
      assert plan[..i] == plan;
      ResultCount(w, env, from, cache, plan);
    }
  }

  lemma OneLonger(all: seq<TypeResult>, before: seq<TypeResult>, i: nat)
    requires |all| == |before| + 1 && all[..|before|] == before && i <= |before|
    ensures all[..i] == before[..i]
  {
    assert all[..|before|][..i] == all[..i];
  }

  /** What the i-th question is answered, after those before it. */
  ghost function ResultFor(w: Assets, env: Surroundings, from: nat, cache: map<Key, Rec>, plan: seq<Query>, i: nat): TypeResult
    requires i < |plan|
  {
    ResolveType(w, ResolveAll(w, env, from, cache, plan[..i]).cache, plan[i].0, plan[i].1, env.turn(from + i), env.prov(from + i)).tr
  }

  lemma ResultAt(w: Assets, env: Surroundings, from: nat, cache: map<Key, Rec>, plan: seq<Query>, i: nat)
    requires i < |plan|
    ensures var results := ResolveAll(w, env, from, cache, plan).results;
      |results| == |plan| && results[i] == ResultFor(w, env, from, cache, plan, i)
  {
    var all := ResolveAll(w, env, from, cache, plan).results;
    PrefixResults(w, env, from, cache, plan, i + 1);
    UpToResult(w, env, from, cache, plan, i);
    assert all[i] == all[..i + 1][i];
  }

  lemma UpToResult(w: Assets, env: Surroundings, from: nat, cache: map<Key, Rec>, plan: seq<Query>, i: nat)
    requires i < |plan|
    ensures var results := ResolveAll(w, env, from, cache, plan[..i + 1]).results;
      |results| == i + 1 && results[i] == ResultFor(w, env, from, cache, plan, i)
  {
    LastResult(w, env, from, cache, plan[..i], plan[i]);
    assert plan[..i] + [plan[i]] == plan[..i + 1];
  }

  lemma LastResult(w: Assets, env: Surroundings, from: nat, cache: map<Key, Rec>, plan: seq<Query>, q: Query)
    ensures var before, run := ResolveAll(w, env, from, cache, plan), ResolveAll(w, env, from, cache, plan + [q]);
      && |before.results| == |plan|
      && run.results == before.results + [ResolveType(w, before.cache, q.0, q.1, env.turn(from + |plan|), env.prov(from + |plan|)).tr]
  {
    ResultCount(w, env, from, cache, plan);
    ResolveLast(w, env, from, cache, plan, q, from + |plan|, ResolveAll(w, env, from, cache, plan));
  }

  lemma {:induction false} ResultCount(w: Assets, env: Surroundings, from: nat, cache: map<Key, Rec>, plan: seq<Query>)
    ensures |ResolveAll(w, env, from, cache, plan).results| == |plan|
  {
    if plan != [] {
      ResultCount(w, env, from, cache, plan[..|plan| - 1]);
    }
  }

  lemma {:induction false} TargetPlanAt(targets: seq<string>, j: nat)
    requires j < |targets|
    ensures |TargetPlan(targets)| == 2 * |targets|
    ensures TargetPlan(targets)[2 * j] == (targets[j], A) && TargetPlan(targets)[2 * j + 1] == (targets[j], AAAA)
  {
    var n := |targets| - 1;
    if n > 0 {
      TargetPlanAt(targets[..n], if j < n then j else 0);
    } else {
      assert targets[..n] == [];
    }
  }

  /** All the questions of a host, and its run over them. */
  ghost function WholePlan(w: Assets, env: Surroundings, cache: map<Key, Rec>, host: string): seq<Query> {
    HostPlan(host) + TargetPlan(ClosureTargets(ResolveAll(w, env, 0, cache, HostPlan(host)).results))
  }

  lemma OwnResult(w: Assets, env: Surroundings, cache: map<Key, Rec>, host: string, i: nat)
    requires i < 7
    ensures var own := ResolveAll(w, env, 0, cache, HostPlan(host)).results;
      |own| == 7 && own[i].host == host && own[i].rt == [A, AAAA, CNAME, MX, TXT, NS, SRV][i]
  {
    ResultAt(w, env, 0, cache, HostPlan(host), i);
    OneResolved(w, ResolveAll(w, env, 0, cache, HostPlan(host)[..i]).cache, host, HOST_TYPES[i], env.turn(i), env.prov(i));
  }

  lemma WholeRun(w: Assets, env: Surroundings, cache: map<Key, Rec>, host: string)
    ensures ResolveHost(w, env, cache, host) == ResolveAll(w, env, 0, cache, WholePlan(w, env, cache, host))
    ensures Distinct(WholePlan(w, env, cache, host))
  {
    var first := ResolveAll(w, env, 0, cache, HostPlan(host));
    forall i | 0 <= i < |first.results| ensures first.results[i].host == host {
      ResultCount(w, env, 0, cache, HostPlan(host));
      OwnResult(w, env, cache, host, i);
    }
    ClosureExcludes(first.results, host);
    PlanDistinct(host, ClosureTargets(first.results));
    Appended(w, env, cache, HostPlan(host), TargetPlan(ClosureTargets(first.results)), first);
  }

  /** From an empty cache every question is answered by its own turn of events, and
      one query goes out for each that gets as far as the resolver. */
  lemma RunTells(w: Assets, env: Surroundings, host: string, i: nat)
    requires Canonicalising(w) && i < |ResolveHost(w, env, map[], host).results|
    ensures var tr := ResolveHost(w, env, map[], host).results[i];
      !tr.cached && StatusTells(env.turn(i), tr) && AnswersTell(env.turn(i), tr)
  {
    var plan := WholePlan(w, env, map[], host);
    WholeRun(w, env, map[], host);
    ResultCount(w, env, 0, map[], plan);
    ResultAt(w, env, 0, map[], plan, i);
    var before := ResolveAll(w, env, 0, map[], plan[..i]).cache;
    assert plan[i] !in plan[..i];
    OthersKeep(w, env, 0, map[], plan[..i], plan[i]);
    QuestionTells(w, before, plan[i].0, plan[i].1, env.turn(i), env.prov(i));
  }

  /** One question that ended in anything but answers or a missing name is enough for
      a later run to issue a query. */
  lemma FailureCostsAQuery(w: Assets, env: Surroundings, host: string, i: nat, again: Surroundings)
    requires Canonicalising(w) && i < |ResolveHost(w, env, map[], host).results| && Alive(env) && forall k :: again.turn(k).Proceed?
    requires env.turn(i).Proceed? ==> env.turn(i).reply.QueryFailed? && !env.turn(i).reply.kind.ErrNotFound?
    ensures ResolveHost(w, again, ResolveHost(w, env, map[], host).cache, host).queries >= 1
  {
    RunTells(w, env, host, i);
    NoQueryIff(w, env, map[], again, host);
    assert !Found(ResolveHost(w, env, map[], host).results[i], env.turn(0 + i));
  }

  /** The host's seven types come first. */
  ghost predicate AsksOwn(results: seq<TypeResult>, host: string) {
    && |results| >= 7
    && forall i :: 0 <= i < 7 ==> results[i].host == host && results[i].rt == [A, AAAA, CNAME, MX, TXT, NS, SRV][i]
  }

  /** Then come A and AAAA of each target. */
  ghost predicate AsksTargets(results: seq<TypeResult>, targets: seq<string>) {
    && |results| == 7 + 2 * |targets|
    && (forall j :: 0 <= j < |targets| ==> results[7 + 2 * j].host == targets[j] && results[7 + 2 * j].rt == A)
    && (forall j :: 0 <= j < |targets| ==> results[8 + 2 * j].host == targets[j] && results[8 + 2 * j].rt == AAAA)
  }

  /** The targets are what a completed CNAME, MX, NS or SRV result names, in name
      order. */
  ghost predicate TargetsOf(results: seq<TypeResult>, host: string, targets: seq<string>) {
    && |results| >= 7
    && (forall t :: t in targets <==> t != host && exists i :: 0 <= i < 7 && Names(results[i], t))
    && forall j, k :: 0 <= j < k < |targets| ==> StringLess(targets[j], targets[k])
  }

  /** Which questions a host is asked. */
  lemma QuestionsAsked(w: Assets, env: Surroundings, cache: map<Key, Rec>, host: string) returns (targets: seq<string>)
    ensures var results := ResolveHost(w, env, cache, host).results;
      AsksOwn(results, host) && AsksTargets(results, targets) && TargetsOf(results, host, targets)
  {
    var first := ResolveAll(w, env, 0, cache, HostPlan(host));
    targets := ClosureTargets(first.results);
    var rest := ResolveAll(w, env, 7, first.cache, TargetPlan(targets));
    forall i | 0 <= i < 7
      ensures |first.results| == 7 && first.results[i].host == host && first.results[i].rt == [A, AAAA, CNAME, MX, TXT, NS, SRV][i]
    {
      OwnResult(w, env, cache, host, i);
    }
    assert |first.results| == 7 by { OwnResult(w, env, cache, host, 0); }
    assert AsksOwn(first.results, host);
    OwnTargets(first.results, host);
    TargetResults(w, env, first.cache, targets);
    Joined(first.results, rest.results, host, targets);
  }

  lemma OwnTargets(own: seq<TypeResult>, host: string)
    requires |own| == 7 && AsksOwn(own, host)
    ensures TargetsOf(own, host, ClosureTargets(own))
  {
    ClosureMeans(own);
    forall t ensures t in ClosureTargets(own) <==> t != host && exists i :: 0 <= i < 7 && Names(own[i], t) {
      TargetsNamed(own, host, t);
    }
  }

  lemma Joined(own: seq<TypeResult>, rest: seq<TypeResult>, host: string, targets: seq<string>)
    requires |own| == 7 && AsksOwn(own, host) && TargetsOf(own, host, targets) && |rest| == 2 * |targets|
    requires forall j :: 0 <= j < |targets| ==> rest[2 * j].host == targets[j] && rest[2 * j].rt == A
    requires forall j :: 0 <= j < |targets| ==> rest[2 * j + 1].host == targets[j] && rest[2 * j + 1].rt == AAAA
    ensures AsksOwn(own + rest, host) && AsksTargets(own + rest, targets) && TargetsOf(own + rest, host, targets)
  {
    var all := own + rest;
    assert forall i :: 0 <= i < 7 ==> all[i] == own[i];
    forall j | 0 <= j < |targets| ensures all[7 + 2 * j] == rest[2 * j] && all[8 + 2 * j] == rest[2 * j + 1] {
    }
    forall t ensures t in targets <==> t != host && exists i :: 0 <= i < 7 && Names(all[i], t) {
      if i :| 0 <= i < 7 && Names(own[i], t) {
        assert Names(all[i], t);
      }
    }
  }

  /** A completed result of a host-target type with the name t among its answers. */
  predicate Names(tr: TypeResult, t: string) {
    (tr.rt == CNAME || tr.rt == MX || tr.rt == NS || tr.rt == SRV) && tr.status == TypeCompleted && !tr.nxdomain && t in tr.hosts
  }

  lemma TargetsNamed(own: seq<TypeResult>, host: string, t: string)
    requires |own| == 7 && forall i :: 0 <= i < 7 ==> own[i].host == host
    ensures t in ClosureTargets(own) <==> t != host && exists i :: 0 <= i < 7 && Names(own[i], t)
  {
    ClosureMeans(own);
    assert t in ClosureTargets(own) <==> t in Elements(ClosureTargets(own));
    if t in ObservedTargets(own) {
      var tr :| tr in own && GivesTargets(tr) && t in tr.hosts && t != tr.host;
      var i :| 0 <= i < 7 && own[i] == tr;
      assert Names(own[i], t);
    }
    if i :| 0 <= i < 7 && Names(own[i], t) && t != host {
      assert own[i] in own;
    }
  }

  lemma TargetResults(w: Assets, env: Surroundings, cache: map<Key, Rec>, targets: seq<string>)
    ensures var rest := ResolveAll(w, env, 7, cache, TargetPlan(targets)).results;
      && |rest| == 2 * |targets|
      && (forall j :: 0 <= j < |targets| ==> rest[2 * j].host == targets[j] && rest[2 * j].rt == A)
      && (forall j :: 0 <= j < |targets| ==> rest[2 * j + 1].host == targets[j] && rest[2 * j + 1].rt == AAAA)
  {
    ResultCount(w, env, 7, cache, TargetPlan(targets));
    if targets != [] {
      TargetPlanAt(targets, 0);
    }
    var rest := ResolveAll(w, env, 7, cache, TargetPlan(targets)).results;
    forall j | 0 <= j < |targets|
      ensures rest[2 * j].host == targets[j] && rest[2 * j].rt == A
      ensures rest[2 * j + 1].host == targets[j] && rest[2 * j + 1].rt == AAAA
    {
      TargetPlanAt(targets, j);
      TargetResult(w, env, cache, targets, 2 * j);
      TargetResult(w, env, cache, targets, 2 * j + 1);
    }
  }

  lemma TargetResult(w: Assets, env: Surroundings, cache: map<Key, Rec>, targets: seq<string>, i: nat)
    requires i < |TargetPlan(targets)|
    ensures var run := ResolveAll(w, env, 7, cache, TargetPlan(targets));
      |run.results| == |TargetPlan(targets)| && run.results[i].host == TargetPlan(targets)[i].0 && run.results[i].rt == TargetPlan(targets)[i].1
  {
    var plan := TargetPlan(targets);
    ResultAt(w, env, 7, cache, plan, i);
    OneResolved(w, ResolveAll(w, env, 7, cache, plan[..i]).cache, plan[i].0, plan[i].1, env.turn(7 + i), env.prov(7 + i));
  }
}
