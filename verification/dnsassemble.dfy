/** Assembly of one host's observations (internal/dns/run.go, assemble;
    observe.go, mergeHosts, mergeIPs, sortRelationships). */
module DnsAssembly {
  import opened Wrappers
  import opened Order
  import opened Merging
  import opened DnsAnswers
  import opened DnsReplay
  import opened DnsHosts
  import DnsOutcomes

  datatype EdgeKind = HostToIP | HostToCNAME | HostToMX | HostToNS | HostToSRV

  datatype Edge = Edge(from: string, kind: EdgeKind, to: string)

  /** A host or address asset. */
  datatype Named = Named(name: string, prov: Provenance)

  function KindFor(rt: RecordType): Option<EdgeKind> {
    match rt
    case A => Some(HostToIP)
    case AAAA => Some(HostToIP)
    case CNAME => Some(HostToCNAME)
    case MX => Some(HostToMX)
    case NS => Some(HostToNS)
    case SRV => Some(HostToSRV)
    case _ => None
  }

  predicate Observes(tr: TypeResult) {
    tr.status.TypeCompleted? && !tr.nxdomain && KindFor(tr.rt).Some?
  }

  function AnswersOf(tr: TypeResult): seq<string> {
    if IsAddressType(tr.rt) then tr.ips else tr.hosts
  }

  function AssetsOf(tr: TypeResult): seq<Named> {
    var names := AnswersOf(tr);
    seq(|names|, i requires 0 <= i < |names| => Named(names[i], tr.prov))
  }

  function NameOf(x: Named): string { x.name }

  // ----- merging assets of one name

  /** The asset merge keeps the earlier provenance. */
  function MergeNamed(a: Named, b: Named): Named {
    Named(a.name, EarliestProv(a.prov, b.prov))
  }

  function PositionOf(out: seq<Named>, name: string): (i: nat)
    ensures i <= |out|
    ensures i < |out| ==> out[i].name == name
    ensures forall j :: 0 <= j < i ==> out[j].name != name
  {
    if out == [] || out[0].name == name then 0 else 1 + PositionOf(out[1..], name)
  }

  function Absorb(out: seq<Named>, x: Named): seq<Named> {
    var i := PositionOf(out, x.name);
    if i < |out| then out[i := MergeNamed(out[i], x)] else out + [x]
  }

  function AbsorbAll(out: seq<Named>, list: seq<Named>): seq<Named>
    decreases list
  {
    if list == [] then out else AbsorbAll(Absorb(out, list[0]), list[1..])
  }

  function Merged(list: seq<Named>): seq<Named> {
    Sort(ByKey(NameOf), AbsorbAll([], list))
  }

  /** mergeHosts and mergeIPs: one round per asset, then a sort by name. */
  method MergeAssets(list: seq<Named>) returns (out: seq<Named>)
    ensures out == Merged(list)
  {
    out := [];
    for n := 0 to |list|
      invariant AbsorbAll(out, list[n..]) == AbsorbAll([], list)
    {
      assert list[n..][1..] == list[n + 1..];
      var i := PositionOf(out, list[n].name);
      if i < |out| {
        out := out[i := MergeNamed(out[i], list[n])];
      } else {
        out := out + [list[n]];
      }
    }
    out := Sort(ByKey(NameOf), out);
  }

  lemma AbsorbNames(out: seq<Named>, x: Named)
    requires Distinct(KeysOf(NameOf, out))
    ensures Distinct(KeysOf(NameOf, Absorb(out, x)))
    ensures KeySet(NameOf, Absorb(out, x)) == KeySet(NameOf, out) + {x.name}
  {
    var i := PositionOf(out, x.name);
    var ks := KeysOf(NameOf, out);
    if i < |out| {
      assert KeysOf(NameOf, Absorb(out, x)) == ks;
      assert ks[i] in Elements(ks);
    } else {
      assert KeysOf(NameOf, Absorb(out, x)) == ks + [x.name];
      ElementsCons(x.name, ks);
    }
  }

  lemma {:induction false} AbsorbAllNames(out: seq<Named>, list: seq<Named>)
    requires Distinct(KeysOf(NameOf, out))
    ensures Distinct(KeysOf(NameOf, AbsorbAll(out, list)))
    ensures KeySet(NameOf, AbsorbAll(out, list)) == KeySet(NameOf, out) + KeySet(NameOf, list)
    decreases list
  {
    if list != [] {
      AbsorbNames(out, list[0]);
      AbsorbAllNames(Absorb(out, list[0]), list[1..]);
      FirstName(list);
    }
  }

  lemma FirstName(list: seq<Named>)
    requires list != []
    ensures KeySet(NameOf, list) == {list[0].name} + KeySet(NameOf, list[1..])
  {
    assert KeysOf(NameOf, list) == [list[0].name] + KeysOf(NameOf, list[1..]);
    ElementsCons(list[0].name, KeysOf(NameOf, list[1..]));
  }

  /** One asset per name, in name order, and no name lost. */
  lemma MergedNames(list: seq<Named>)
    ensures Ascending(StringLess, KeysOf(NameOf, Merged(list)))
    ensures KeySet(NameOf, Merged(list)) == KeySet(NameOf, list)
  {
    var all := AbsorbAll([], list);
    assert KeysOf(NameOf, []) == [];
    AbsorbAllNames([], list);
    SortByDistinctKeys(NameOf, all);
    SortedKeySet(NameOf, all, []);
    assert all + [] == all && KeySet(NameOf, []) == {};
  }

  // ----- edges

  /** addRel over one result's answers. */
  function AddEdges(edges: seq<Edge>, from: string, kind: EdgeKind, names: seq<string>): seq<Edge>
    decreases names
  {
    if names == [] then edges
    else
      var e := Edge(from, kind, names[0]);
      AddEdges(if e in edges then edges else edges + [e], from, kind, names[1..])
  }

  function EdgesIn(types: seq<TypeResult>): seq<Edge> {
    if types == [] then []
    else
      var tr := types[|types| - 1];
      var before := EdgesIn(types[..|types| - 1]);
      if Observes(tr) then AddEdges(before, tr.host, KindFor(tr.rt).value, AnswersOf(tr)) else before
  }

  function AssetsIn(types: seq<TypeResult>, addresses: bool): seq<Named> {
    if types == [] then []
    else
      var tr := types[|types| - 1];
      AssetsIn(types[..|types| - 1], addresses) + (if Observes(tr) && IsAddressType(tr.rt) == addresses then AssetsOf(tr) else [])
  }

  ghost function ObservedEdges(types: seq<TypeResult>): set<Edge> {
    set tr, n | tr in types && Observes(tr) && n in AnswersOf(tr) :: Edge(tr.host, KindFor(tr.rt).value, n)
  }

  lemma {:induction false} AddEdgesMean(edges: seq<Edge>, from: string, kind: EdgeKind, names: seq<string>)
    requires Distinct(edges)
    ensures var out := AddEdges(edges, from, kind, names);
      Distinct(out) && Elements(out) == Elements(edges) + (set n | n in names :: Edge(from, kind, n))
    decreases names
  {
    if names != [] {
      var e := Edge(from, kind, names[0]);
      AddEdgesMean(if e in edges then edges else edges + [e], from, kind, names[1..]);
      assert names == [names[0]] + names[1..];
    }
  }

  lemma {:induction false} EdgesMean(types: seq<TypeResult>)
    ensures Distinct(EdgesIn(types)) && Elements(EdgesIn(types)) == ObservedEdges(types)
  {
    if types != [] {
      var n := |types| - 1;
      EdgesMean(types[..n]);
      assert types == types[..n] + [types[n]];
      ObservedEdgesAppend(types[..n], types[n]);
      if Observes(types[n]) {
        AddEdgesMean(EdgesIn(types[..n]), types[n].host, KindFor(types[n].rt).value, AnswersOf(types[n]));
      }
    }
  }

  lemma ObservedEdgesAppend(types: seq<TypeResult>, tr: TypeResult)
    ensures ObservedEdges(types + [tr]) == ObservedEdges(types)
      + (if Observes(tr) then (set n | n in AnswersOf(tr) :: Edge(tr.host, KindFor(tr.rt).value, n)) else {})
  {
    var more := if Observes(tr) then (set n | n in AnswersOf(tr) :: Edge(tr.host, KindFor(tr.rt).value, n)) else {};
    forall e | e in ObservedEdges(types + [tr]) ensures e in ObservedEdges(types) + more {
      var x, n :| x in types + [tr] && Observes(x) && n in AnswersOf(x) && e == Edge(x.host, KindFor(x.rt).value, n);
      assert x in types || x == tr;
    }
    forall e | e in ObservedEdges(types) + more ensures e in ObservedEdges(types + [tr]) {
      if e in ObservedEdges(types) {
        var x, n :| x in types && Observes(x) && n in AnswersOf(x) && e == Edge(x.host, KindFor(x.rt).value, n);
        assert x in types + [tr];
      } else {
        assert tr in types + [tr];
      }
    }
  }

  /** The edges of a host are exactly the retained answers of its completed
      queries, each once, in the order of their identities. */
  lemma EdgesAreObserved(id: Edge -> string, types: seq<TypeResult>)
    requires Injective(id)
    ensures var rels := Sort(ByKey(id), EdgesIn(types));
      Ascending(StringLess, KeysOf(id, rels)) && Elements(rels) == ObservedEdges(types)
  {
    var edges := EdgesIn(types);
    EdgesMean(types);
    assert Distinct(KeysOf(id, edges)) by {
      forall i, j | 0 <= i < j < |edges| ensures KeysOf(id, edges)[i] != KeysOf(id, edges)[j] {
        assert edges[i] != edges[j];
      }
    }
    SortByDistinctKeys(id, edges);
    SortContents(ByKey(id), edges);
    assert forall e :: e in Sort(ByKey(id), edges) <==> e in multiset(edges);
  }

  datatype Assembly = Assembly(ips: seq<Named>, targets: seq<Named>, rels: seq<Edge>)

  function Assembled(id: Edge -> string, types: seq<TypeResult>): Assembly {
    Assembly(Merged(AssetsIn(types, true)), Merged(AssetsIn(types, false)), Sort(ByKey(id), EdgesIn(types)))
  }

  /** The loop of assemble; id is the relationship identity. */
  method Assemble(id: Edge -> string, types: seq<TypeResult>) returns (ips: seq<Named>, targets: seq<Named>, rels: seq<Edge>)
    ensures Assembly(ips, targets, rels) == Assembled(id, types)
  {
    ips, targets, rels := [], [], [];
    for n := 0 to |types|
      invariant ips == AssetsIn(types[..n], true) && targets == AssetsIn(types[..n], false) && rels == EdgesIn(types[..n])
    {
      assert types[..n + 1][..n] == types[..n];
      var tr := types[n];
      if !tr.status.TypeCompleted? || tr.nxdomain {
        continue;
      }
      match KindFor(tr.rt) {
        case None =>
        case Some(kind) =>
          rels := TakeEdges(rels, tr.host, kind, AnswersOf(tr));
          if IsAddressType(tr.rt) {
            ips := ips + AssetsOf(tr);
          } else {
            targets := targets + AssetsOf(tr);
          }
      }
    }
    assert types[..|types|] == types;
    ips := MergeAssets(ips);
    targets := MergeAssets(targets);
    rels := Sort(ByKey(id), rels);
  }

  method TakeEdges(edges: seq<Edge>, from: string, kind: EdgeKind, names: seq<string>) returns (out: seq<Edge>)
    ensures out == AddEdges(edges, from, kind, names)
  {
    out := edges;
    for i := 0 to |names|
      invariant AddEdges(out, from, kind, names[i..]) == AddEdges(edges, from, kind, names)
    {
      assert names[i..][1..] == names[i + 1..];
      var e := Edge(from, kind, names[i]);
      if e !in out {
        out := out + [e];
      }
    }
  }

  /** Which assets: the names observed by completed queries of the kind. */
  lemma {:induction false} AssetNames(types: seq<TypeResult>, addresses: bool, name: string)
    ensures name in KeySet(NameOf, AssetsIn(types, addresses))
      <==> exists tr :: tr in types && Observes(tr) && IsAddressType(tr.rt) == addresses && name in AnswersOf(tr)
  {
    if types != [] {
      var n := |types| - 1;
      var tr, before := types[n], AssetsIn(types[..n], addresses);
      AssetNames(types[..n], addresses, name);
      assert types == types[..n] + [tr];
      assert forall x :: x in types <==> x in types[..n] || x == tr;
      var more: seq<Named> := if Observes(tr) && IsAddressType(tr.rt) == addresses then AssetsOf(tr) else [];
      NamesAppend(before, more, name);
      assert KeysOf(NameOf, AssetsOf(tr)) == AnswersOf(tr);
    }
  }

  lemma NamesAppend(a: seq<Named>, b: seq<Named>, name: string)
    ensures name in KeySet(NameOf, a + b) <==> name in KeySet(NameOf, a) || name in KeySet(NameOf, b)
  {
    assert KeysOf(NameOf, a + b) == KeysOf(NameOf, a) + KeysOf(NameOf, b);
  }

  /** The assembled addresses are exactly those observed, one asset each. */
  lemma AddressesAreObserved(id: Edge -> string, types: seq<TypeResult>, name: string)
    ensures var ips := Assembled(id, types).ips;
      && Ascending(StringLess, KeysOf(NameOf, ips))
      && (name in KeySet(NameOf, ips) <==>
            exists tr :: tr in types && tr.status.TypeCompleted? && !tr.nxdomain && IsAddressType(tr.rt) && name in tr.ips)
  {
    MergedNames(AssetsIn(types, true));
    AssetNames(types, true, name);
    forall tr ensures (Observes(tr) && IsAddressType(tr.rt) && name in AnswersOf(tr))
      <==> (tr.status.TypeCompleted? && !tr.nxdomain && IsAddressType(tr.rt) && name in tr.ips)
    {
    }
  }

  /** The edge e was observed by tr: of the kind of its type, to one of its answers. */
  ghost predicate Shows(tr: TypeResult, e: Edge) {
    && tr.status == TypeCompleted && !tr.nxdomain && e.from == tr.host
    && match e.kind
       case HostToIP => (tr.rt == A || tr.rt == AAAA) && e.to in tr.ips
       case HostToCNAME => tr.rt == CNAME && e.to in tr.hosts
       case HostToMX => tr.rt == MX && e.to in tr.hosts
       case HostToNS => tr.rt == NS && e.to in tr.hosts
       case HostToSRV => tr.rt == SRV && e.to in tr.hosts
  }

  lemma ShowsObserved(types: seq<TypeResult>, e: Edge)
    ensures e in ObservedEdges(types) <==> exists tr :: tr in types && Shows(tr, e)
  {
    if e in ObservedEdges(types) {
      var tr, n :| tr in types && Observes(tr) && n in AnswersOf(tr) && e == Edge(tr.host, KindFor(tr.rt).value, n);
      assert Shows(tr, e);
    }
    forall tr | tr in types && Shows(tr, e) ensures e in ObservedEdges(types) {
      assert Observes(tr) && e.to in AnswersOf(tr) && e == Edge(tr.host, KindFor(tr.rt).value, e.to);
    }
  }

  /** Which edges are assembled, kind by kind. */
  lemma EdgeMeans(id: Edge -> string, types: seq<TypeResult>, e: Edge)
    requires Injective(id)
    ensures e in Assembled(id, types).rels <==> exists tr :: tr in types && Shows(tr, e)
  {
    EdgesAreObserved(id, types);
    ShowsObserved(types, e);
    assert e in Assembled(id, types).rels <==> e in Elements(Assembled(id, types).rels);
  }

  /** The assembled targets are exactly the names that completed CNAME, MX, NS and SRV
      results hold, one asset each. */
  lemma TargetsAreObserved(id: Edge -> string, types: seq<TypeResult>, name: string)
    ensures var targets := Assembled(id, types).targets;
      && Ascending(StringLess, KeysOf(NameOf, targets))
      && (name in KeySet(NameOf, targets) <==>
            exists tr :: tr in types && DnsOutcomes.Names(tr, name))
  {
    MergedNames(AssetsIn(types, false));
    AssetNames(types, false, name);
    forall tr ensures (Observes(tr) && !IsAddressType(tr.rt) && name in AnswersOf(tr)) <==> DnsOutcomes.Names(tr, name) {
    }
  }

  /** x is one of the list, dated if any of its name is, and no later than those. */
  ghost predicate EarliestIn(list: seq<Named>, x: Named) {
    && x in list
    && forall z :: z in list && z.name == x.name && z.prov.discoveredAt != 0
         ==> x.prov.discoveredAt != 0 && x.prov.discoveredAt <= z.prov.discoveredAt
  }

  ghost predicate Has(out: seq<Named>, name: string) {
    exists i :: 0 <= i < |out| && out[i].name == name
  }

  /** What has been merged of done. */
  ghost predicate Absorbed(done: seq<Named>, out: seq<Named>) {
    && (forall i, j :: 0 <= i < j < |out| ==> out[i].name != out[j].name)
    && (forall z :: z in done ==> Has(out, z.name))
    && (forall i :: 0 <= i < |out| ==> EarliestIn(done, out[i]))
  }

  lemma MergeEarliest(done: seq<Named>, a: Named, y: Named)
    requires EarliestIn(done, a) && a.name == y.name
    ensures EarliestIn(done + [y], MergeNamed(a, y))
  {
    EarliestProvMeans(a.prov, y.prov);
    assert MergeNamed(a, y) == a || MergeNamed(a, y) == y;
  }

  lemma OthersEarliest(done: seq<Named>, a: Named, y: Named)
    requires EarliestIn(done, a) && a.name != y.name
    ensures EarliestIn(done + [y], a)
  {
  }

  lemma AbsorbEarliest(done: seq<Named>, out: seq<Named>, y: Named)
    requires Absorbed(done, out)
    ensures Absorbed(done + [y], Absorb(out, y))
  {
    var i := PositionOf(out, y.name);
    var next := Absorb(out, y);
    forall z | z in done + [y] ensures Has(next, z.name) {
      if z.name == y.name {
        assert next[i].name == y.name;
      } else {
        assert Has(out, z.name);
        var k :| 0 <= k < |out| && out[k].name == z.name;
        assert next[k].name == z.name;
      }
    }
    forall k | 0 <= k < |next| ensures EarliestIn(done + [y], next[k]) {
      if k != i {
        OthersEarliest(done, out[k], y);
      } else if i < |out| {
        MergeEarliest(done, out[i], y);
      } else {
        assert forall z :: z in done ==> Has(out, z.name);
      }
    }
  }

  lemma {:induction false} AbsorbAllEarliest(done: seq<Named>, out: seq<Named>, list: seq<Named>)
    requires Absorbed(done, out)
    ensures Absorbed(done + list, AbsorbAll(out, list))
    decreases list
  {
    if list == [] {
      assert done + list == done;
    } else {
      var y, next, rest := list[0], Absorb(out, list[0]), list[1..];
      AbsorbEarliest(done, out, y);
      assert (done + [y]) + rest == done + list by { assert list == [y] + rest; }
      AbsorbAllEarliest(done + [y], next, rest);
    }
  }

  /** Each asset carries the earliest provenance of its name. */
  lemma MergedEarliest(list: seq<Named>, x: Named)
    requires x in Merged(list)
    ensures EarliestIn(list, x)
  {
    AbsorbAllEarliest([], [], list);
    assert [] + list == list;
    SortContents(ByKey(NameOf), AbsorbAll([], list));
    assert x in multiset(Merged(list));
  }

  // ----- being served plays no part

  lemma {:induction false} SameObservations(types: seq<TypeResult>, addresses: bool)
    ensures AssetsIn(Servedly(types), addresses) == AssetsIn(types, addresses)
    ensures EdgesIn(Servedly(types)) == EdgesIn(types)
  {
    if types != [] {
      var n := |types| - 1;
      SameObservations(types[..n], addresses);
      assert Servedly(types)[..n] == Servedly(types[..n]);
      assert AssetsOf(AsServed(types[n])) == AssetsOf(types[n]);
    }
  }

  /** Resolved again from the cache, a host yields the same addresses, targets
      and edges, and not one query. */
  lemma ReplayedHostAssemblesAlike(w: Assets, env: Surroundings, cache: map<Key, Rec>, again: Surroundings, host: string, id: Edge -> string)
    requires Canonicalising(w) && Alive(again) && AllFound(env, 0, ResolveHost(w, env, cache, host).results)
    ensures var first := ResolveHost(w, env, cache, host); var second := ResolveHost(w, again, first.cache, host);
      second.queries == 0 && Assembled(id, second.results) == Assembled(id, first.results)
  {
    ResolvedAgain(w, env, cache, again, host);
    var types := ResolveHost(w, env, cache, host).results;
    SameObservations(types, true);
    SameObservations(types, false);
  }
}
