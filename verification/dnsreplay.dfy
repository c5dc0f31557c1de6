/** The DNS cache (internal/dns/run.go, cache.go): what is stored of a query's
    result and what is served again. */
module DnsReplay {
  import opened Wrappers
  import opened Order
  import opened Merging
  import opened JsonText
  import opened DnsAnswers

  const OPERATION := "dns.resolve"

  datatype TypeStatus = TypeCompleted | TypeFailed | TypeTimedOut | TypeCancelled

  /** Hosts and addresses are their canonical names; prov is the provenance
      all answers of one query share. The diagnosis is left out. */
  datatype TypeResult = TypeResult(
    host: string, rt: RecordType, status: TypeStatus, cached: bool, nxdomain: bool, truncated: bool,
    ips: seq<string>, hosts: seq<string>, strings: seq<string>, ports: seq<nat>, malformed: nat, prov: Provenance)

  datatype ErrorKind = ErrCancelled | ErrTimeout | ErrNotFound | ErrTemporary | ErrFailure

  datatype Reply = Answers(list: seq<string>) | QueryFailed(kind: ErrorKind)

  function EmptyResult(host: string, rt: RecordType, status: TypeStatus, nxdomain: bool, prov: Provenance): TypeResult {
    TypeResult(host, rt, status, false, nxdomain, false, [], [], [], [], 0, prov)
  }

  /** applyAnswers, as a function of the reply. */
  function Applied(w: Assets, host: string, rt: RecordType, reply: Reply, prov: Provenance): TypeResult {
    match reply
    case QueryFailed(ErrCancelled) => EmptyResult(host, rt, TypeCancelled, false, prov)
    case QueryFailed(ErrTimeout) => EmptyResult(host, rt, TypeTimedOut, false, prov)
    case QueryFailed(ErrNotFound) => EmptyResult(host, rt, TypeCompleted, true, prov)
    case QueryFailed(_) => EmptyResult(host, rt, TypeFailed, false, prov)
    case Answers(list) =>
      var items := Collect(w, rt, host, list);
      var raw := RawOf(rt, Kept(items));
      TypeResult(host, rt, TypeCompleted, false, false, |items| > MAX_ANSWERS_PER_TYPE,
                 raw.ips, raw.hosts, raw.txts, raw.ports, MalformedIn(w, rt, list), prov)
  }

  method ApplyAnswers(w: Assets, host: string, rt: RecordType, reply: Reply, prov: Provenance) returns (tr: TypeResult)
    ensures tr == Applied(w, host, rt, reply, prov)
  {
    match reply {
      case QueryFailed(kind) =>
        tr := EmptyResult(host, rt, TypeFailed, false, prov);
        match kind {
          case ErrCancelled => tr := tr.(status := TypeCancelled);
          case ErrTimeout => tr := tr.(status := TypeTimedOut);
          case ErrNotFound => tr := tr.(status := TypeCompleted, nxdomain := true);
          case _ =>
        }
      case Answers(list) =>
        var ips, hosts, txts, ports, malformed, truncated := NormalizeAnswers(w, rt, list, host);
        tr := TypeResult(host, rt, TypeCompleted, false, false, truncated, ips, hosts, txts, ports, malformed, prov);
    }
  }

  // ----- records

  datatype CacheStatus = StatusCompleted | StatusIncomplete | StatusFailed | StatusCancelled

  datatype StoredType = StoredType(
    target: string, rt: RecordType, nxdomain: bool, truncated: bool,
    ips: seq<string>, hosts: seq<string>, strings: seq<string>, ports: seq<nat>, malformed: nat, prov: Provenance)

  datatype Rec = Rec(operation: string, target: string, status: CacheStatus, data: StoredType)

  /** typeKey: a digest of the operation, the host and the record type. */
  datatype Key = Key(operation: string, target: string, rt: RecordType)

  function HostId(name: string): string { "host:" + name }

  function TypeKey(host: string, rt: RecordType): Key { Key(OPERATION, HostId(host), rt) }

  lemma HostIdInjective(a: string, b: string)
    ensures HostId(a) == HostId(b) <==> a == b
  {
    assert HostId(a)[5..] == a && HostId(b)[5..] == b;
  }

  function TypeStatusToCache(ts: TypeStatus, truncated: bool): CacheStatus {
    if truncated then StatusIncomplete
    else match ts
      case TypeCompleted => StatusCompleted
      case TypeFailed => StatusFailed
      case _ => StatusCancelled
  }

  /** storeType's record, as the cache will read it back. Canonical names are
      ASCII; free text passes through the JSON form of strings. */
  function StoredRecord(tr: TypeResult): Rec {
    Rec(OPERATION, HostId(tr.host), TypeStatusToCache(tr.status, tr.truncated),
        StoredType(HostId(tr.host), tr.rt, tr.nxdomain, tr.truncated, tr.ips, tr.hosts, Map(Reread, tr.strings),
                   tr.ports, tr.malformed, tr.prov))
  }

  predicate AllCanonical(norm: string -> Option<string>, names: seq<string>) {
    forall i :: 0 <= i < |names| ==> norm(names[i]) == Some(names[i])
  }

  /** decodeStoredType, check by check. */
  predicate Decodes(w: Assets, st: StoredType, host: string, rt: RecordType) {
    && st.target == HostId(host)
    && st.rt == rt
    && (|st.hosts| > 0 ==> IsHostTargetType(rt))
    && (|st.ips| > 0 ==> IsAddressType(rt))
    && (|st.strings| > 0 ==> rt.TXT?)
    && (|st.ports| > 0 ==> rt.SRV?)
    && (rt.SRV? ==> |st.ports| == |st.hosts|)
    && !(st.nxdomain && (|st.ips| > 0 || |st.hosts| > 0 || |st.strings| > 0))
    && !st.truncated
    && AllCanonical(w.newIP, st.ips)
    && AllCanonical(w.newHost, st.hosts)
    && (forall i :: 0 <= i < |st.strings| ==> |st.strings[i]| <= MAX_TXT_STRING_BYTES)
  }

  function FromStored(st: StoredType, host: string, rt: RecordType): TypeResult {
    TypeResult(host, rt, TypeCompleted, true, st.nxdomain, false, st.ips, st.hosts, st.strings, st.ports, st.malformed, st.prov)
  }

  /** lookupType: what the cache serves, if anything. An expired or lost entry
      is one that is not in the map. */
  function LookupType(w: Assets, cache: map<Key, Rec>, host: string, rt: RecordType): Option<TypeResult> {
    var key := TypeKey(host, rt);
    if key !in cache || !cache[key].status.StatusCompleted? then None
    else if cache[key].operation != OPERATION || cache[key].target != HostId(host) then None
    else if !Decodes(w, cache[key].data, host, rt) then None
    else Some(FromStored(cache[key].data, host, rt))
  }

  // ----- storing and serving one type

  lemma KeptMembers(items: seq<Item>, x: Item)
    requires x in Kept(items)
    ensures x in items
  {
    SortContents(ItemLess, items);
    assert x in multiset(items);
  }

  /** Every retained answer is canonical. */
  lemma RetainedCanonical(w: Assets, rt: RecordType, host: string, list: seq<string>, x: Item)
    requires Canonicalising(w) && x in Kept(Collect(w, rt, host, list))
    ensures IsAddressType(rt) ==> w.newIP(x.text) == Some(x.text)
    ensures IsHostTargetType(rt) ==> w.newHost(x.text) == Some(x.text)
    ensures rt.TXT? ==> |x.text| <= MAX_TXT_STRING_BYTES
  {
    KeptMembers(Collect(w, rt, host, list), x);
    CollectIsObserved(w, rt, host, list);
    assert x in Elements(Collect(w, rt, host, list));
    var a :| a in list && Parsed(w, rt, a) == Some(x);
    ParsedCanonical(w, rt, a, x);
  }

  lemma ParsedCanonical(w: Assets, rt: RecordType, a: string, x: Item)
    requires Canonicalising(w) && Parsed(w, rt, a) == Some(x)
    ensures IsAddressType(rt) ==> w.newIP(x.text) == Some(x.text)
    ensures IsHostTargetType(rt) ==> w.newHost(x.text) == Some(x.text)
    ensures rt.TXT? ==> |x.text| <= MAX_TXT_STRING_BYTES
  {
  }

  lemma RetainedNames(w: Assets, rt: RecordType, host: string, list: seq<string>)
    requires Canonicalising(w)
    ensures var raw := RawOf(rt, Kept(Collect(w, rt, host, list)));
      AllCanonical(w.newIP, raw.ips) && AllCanonical(w.newHost, raw.hosts)
  {
    var kept := Kept(Collect(w, rt, host, list));
    forall i | 0 <= i < |kept|
      ensures IsAddressType(rt) ==> w.newIP(kept[i].text) == Some(kept[i].text)
      ensures IsHostTargetType(rt) ==> w.newHost(kept[i].text) == Some(kept[i].text)
    {
      RetainedCanonical(w, rt, host, list, kept[i]);
    }
  }

  /** Its result may be served again: completed, and nothing was cut. */
  predicate Servable(tr: TypeResult) {
    tr.status.TypeCompleted? && !tr.truncated
  }

  predicate FitsReread(strings: seq<string>) {
    var reread := Map(Reread, strings);
    forall i :: 0 <= i < |reread| ==> |reread[i]| <= MAX_TXT_STRING_BYTES
  }

  predicate AllValid(strings: seq<string>) {
    forall i :: 0 <= i < |strings| ==> ValidUtf8(strings[i])
  }

  /** Decoding accepts a stored query result exactly when it is servable and no
      text outgrew the cap on its way through JSON. */
  lemma StoredDecodes(w: Assets, host: string, rt: RecordType, reply: Reply, prov: Provenance)
    requires Canonicalising(w)
    ensures var tr := Applied(w, host, rt, reply, prov);
      Servable(tr) ==> (Decodes(w, StoredRecord(tr).data, host, rt) <==> FitsReread(tr.strings))
  {
    match reply
    case Answers(list) => RetainedNames(w, rt, host, list);
    case QueryFailed(_) =>
  }

  /** What a lookup right after the store serves. */
  lemma ReplayExact(w: Assets, cache: map<Key, Rec>, host: string, rt: RecordType, reply: Reply, prov: Provenance)
    requires Canonicalising(w)
    requires var tr := Applied(w, host, rt, reply, prov); TypeKey(host, rt) in cache && cache[TypeKey(host, rt)] == StoredRecord(tr)
    ensures var tr := Applied(w, host, rt, reply, prov); var served := LookupType(w, cache, host, rt);
      && (served.Some? <==> Servable(tr) && FitsReread(tr.strings))
      && (served.Some? ==> served.value == tr.(cached := true, strings := Map(Reread, tr.strings)))
  {
    var tr := Applied(w, host, rt, reply, prov);
    if Servable(tr) {
      StoredDecodes(w, host, rt, reply, prov);
    }
  }

  lemma TextsWithinCap(w: Assets, host: string, rt: RecordType, reply: Reply, prov: Provenance)
    requires Canonicalising(w)
    ensures var tr := Applied(w, host, rt, reply, prov);
      forall i :: 0 <= i < |tr.strings| ==> |tr.strings[i]| <= MAX_TXT_STRING_BYTES
  {
    if reply.Answers? && rt.TXT? {
      var kept := Kept(Collect(w, rt, host, reply.list));
      forall i | 0 <= i < |kept| ensures |kept[i].text| <= MAX_TXT_STRING_BYTES {
        RetainedCanonical(w, rt, host, reply.list, kept[i]);
      }
    }
  }

  /** The replay is exact if and only if the result is servable and every text
      is valid UTF-8; cache.go promises it for all of them. */
  lemma ReplayIffValid(w: Assets, cache: map<Key, Rec>, host: string, rt: RecordType, reply: Reply, prov: Provenance)
    requires Canonicalising(w)
    requires var tr := Applied(w, host, rt, reply, prov); TypeKey(host, rt) in cache && cache[TypeKey(host, rt)] == StoredRecord(tr)
    ensures var tr := Applied(w, host, rt, reply, prov);
      LookupType(w, cache, host, rt) == Some(tr.(cached := true)) <==> Servable(tr) && AllValid(tr.strings)
  {
    var tr := Applied(w, host, rt, reply, prov);
    ReplayExact(w, cache, host, rt, reply, prov);
    TextsWithinCap(w, host, rt, reply, prov);
    forall i | 0 <= i < |tr.strings| ensures Reread(tr.strings[i]) == tr.strings[i] <==> ValidUtf8(tr.strings[i]) {
      SurvivesIffValid(tr.strings[i]);
    }
    if AllValid(tr.strings) {
      assert Map(Reread, tr.strings) == tr.strings;
    }
    if Map(Reread, tr.strings) == tr.strings {
      forall i | 0 <= i < |tr.strings| ensures ValidUtf8(tr.strings[i]) {
        assert Map(Reread, tr.strings)[i] == Reread(tr.strings[i]);
      }
    }
  }

  /** A TXT record of one byte 0xFF is served back as three other bytes. */
  lemma InvalidTextChanges(w: Assets, host: string, prov: Provenance)
    ensures var text := [0xFF as char];
      var tr := Applied(w, host, TXT, Answers([text]), prov);
      && Servable(tr) && tr.strings == [text] && Reread(text) == REPLACEMENT
      && LookupType(w, map[TypeKey(host, TXT) := StoredRecord(tr)], host, TXT) == Some(tr.(cached := true, strings := [REPLACEMENT]))
  {
    var text := [0xFF as char];
    var none: seq<string> := [];
    assert [text][..0] == none && Collect(w, TXT, host, none) == [];
    assert Collect(w, TXT, host, [text]) == [Item(text, 0)];
    var items := [Item(text, 0)];
    assert items[1..] == [] && Sort(ItemLess, items) == Insert(ItemLess, items[0], Sort(ItemLess, items[1..])) == items;
    assert RuneSize(text) == 0 && text[1..] == "" && Reread(text) == REPLACEMENT + Reread("") == REPLACEMENT;
    assert Map(Reread, [text]) == [REPLACEMENT];
  }

  /** Whatever was stored, only a completed result with nothing cut is ever
      served. */
  lemma NothingPartialServed(w: Assets, cache: map<Key, Rec>, host: string, rt: RecordType, tr: TypeResult)
    requires TypeKey(host, rt) in cache && cache[TypeKey(host, rt)] == StoredRecord(tr)
    ensures LookupType(w, cache, host, rt).Some? ==>
      Servable(tr) && tr.rt == rt && tr.host == host
      && LookupType(w, cache, host, rt).value == tr.(cached := true, strings := Map(Reread, tr.strings))
  {
    HostIdInjective(tr.host, host);
  }
}
