/** Runs whose cache shows, each for one byte that is not UTF-8
    (internal/asset/finding.go, NewFinding: metadata values are bounded, not checked;
    internal/detect/context.go, validateConfig: nor are configuration values). */
module CacheWitness {
  import opened Wrappers
  import opened Text
  import opened Order
  import opened Merging
  import opened Identities
  import opened Findings
  import opened JsonText
  import opened FindingJson
  import opened Retention
  import opened Registries
  import opened RuleViews
  import opened RuleKeys
  import opened RuleRecords
  import opened Engine
  import opened Reference
  import opened Equivalence
  import opened CacheHistory
  import Encoders

  const RULE := Rule("r", "n", "d", "exposure", "1.0.0", ["assets"], ["findings"], [], [], "low", 1, "a", true)
  const HOST := Identity("host", "h")
  const EVIDENCE := Evidence("detect", "r", "v", HOST, Provenance("s", 1, "", 0))
  const CORPUS := SnapshotView([], [[Entry("host:h", [])]])

  /** One judgment about the host. */
  const FINDING := Finding("r", "n", "exposure", HOST, 0, [EVIDENCE], [], [], "info", "open", 1, 1, map[], false)

  const BYTE: string := [0xFF as char]
  const OTHER: string := [0xFE as char]

  function Annotated(value: string): Finding {
    FINDING.(metadata := map["k" := value])
  }

  // ----- texts

  lemma {:induction false} Ascii(s: string)
    requires forall i :: 0 <= i < |s| ==> s[i] as int < 0x80
    ensures ValidUtf8(s)
    decreases |s|
  {
    if s != "" {
      Ascii(s[1..]);
    }
  }

  lemma VersionShape()
    ensures Split("1.0.0", '.') == ["1", "0", "0"]
  {
    var parts: seq<string> := ["1", "0", "0"];
    assert Join(parts[2..], '.') == "0";
    assert parts[1..][1..] == parts[2..];
    assert Join(parts[1..], '.') == "0" + ['.'] + "0";
    assert Join(parts, '.') == "1" + ['.'] + ("0" + ['.'] + "0");
    assert Join(parts, '.') == "1.0.0";
    SplitJoin(parts, '.');
  }

  lemma RuleIsWellFormed()
    ensures WellFormed(RULE)
  {
    VersionShape();
    forall check: Check ensures Satisfies(RULE, check) {
    }
  }

  /** JSON leaves the judgment alone, but for the annotation. */
  lemma FindingRead(m: map<string, string>)
    ensures RereadFinding(FINDING.(metadata := m)) == FINDING.(metadata := RereadMetadata(m))
    ensures Writable(FINDING.(metadata := m))
    ensures ValidTexts(FINDING.(metadata := m)) <==> ValidMetadata(m)
  {
    Ascii("h");
    Ascii("s");
    Ascii("");
    IdentitySurvives(HOST);
    SurvivesIffValid("s");
    SurvivesIffValid("");
    var none: seq<Identity>, edges: seq<Relationship> := [], [];
    assert Map(RereadIdentity, none) == none && Map(RereadEdge, edges) == edges;
    assert RereadProvenance(EVIDENCE.prov) == EVIDENCE.prov;
    assert RereadEvidence(EVIDENCE) == EVIDENCE;
    assert Map(RereadEvidence, [EVIDENCE]) == [EVIDENCE];
  }

  lemma BytesWritten()
    ensures Written(BYTE) == Written(OTHER) && !ValidUtf8(BYTE) && BYTE != OTHER
  {
    InvalidBytesBlur();
    assert RuneSize(BYTE) == 0;
  }

  // ----- one rule on one host

  lemma OneMerged(f: Finding)
    ensures MergeList([], [f]) == [f] && Sort(ByKey(FindingKey), [f]) == [f]
  {
    var fs, none: seq<Finding> := [f], [];
    assert fs[1..] == none && IndexOf(none, f.Key()) == 0;
    assert MergeInto(none, f) == fs;
    assert MergeList(none, fs) == MergeList(fs, none) == fs;
    assert Sort(ByKey(FindingKey), fs) == Insert(ByKey(FindingKey), fs[0], Sort(ByKey(FindingKey), none)) == fs;
  }

  lemma RuleFinds(w: World, v: View, f: Finding)
    requires w.detect(MetaOf(RULE), v) == Returned([f]) && w.canonical(f) && w.observes(v.snapshot) == {HOST}
    requires f == FINDING.(metadata := f.metadata) && "rule_version" !in f.metadata
    ensures Execute(w, RULE, v) == JobDone([f])
  {
    OneMerged(f);
    var fs := [f];
    assert ValidFinding(w, fs[0], RULE, w.observes(v.snapshot));
  }

  lemma RuleFindsNone(w: World, v: View)
    requires w.detect(MetaOf(RULE), v) == Returned([])
    ensures Execute(w, RULE, v) == JobDone([])
  {
    var none: seq<Finding> := [];
    assert MergeList(none, none) == none && Sort(ByKey(FindingKey), none) == none;
  }

  ghost function TheSetup(w: World, config: map<string, string>): Setup {
    Setup(w, map["r" := RULE], {}, [["r"]], CORPUS, config, false)
  }

  lemma SetupIsProper(w: World, config: map<string, string>)
    ensures var s := TheSetup(w, config); Proper(w, s) && Looks(s, 0, "r")
  {
    var s := TheSetup(w, config);
    assert MissingKind([], s.kinds).None?;
    assert "r" in s.levels[0];
    assert WellLeveled(s);
    assert FirstIncomplete([], After(s, 0).results).None?;
  }

  lemma InputsAreLone(config: map<string, string>)
    requires Lone(Entries(config))
    ensures LoneInputs(RULE, CORPUS, config)
  {
    Ascii("n");
    Ascii("d");
    Ascii("a");
    Ascii("host:h");
    ValidIsLone(CORPUS.edges);
    ValidIsLone(CORPUS.domains[0]);
  }

  lemma NoEntries(config: map<string, string>)
    requires config == map[]
    ensures Entries(config) == []
  {
    assert config.Keys == {};
    NothingInOrder(InOrder(config.Keys));
  }

  // ----- a byte in the metadata

  /** Some world that obeys every law has a run of valid rules, corpus and
      configuration, whose every key settles what its detector is shown, and whose
      cache shows, for one byte of metadata. */
  lemma InvalidMetadataShows() returns (s: Setup)
    ensures Proper(s.world, s) && Sound(s.world) && LoneRun(s) && (forall id :: id in s.rules ==> WellFormed(s.rules[id]))
    ensures !Invisible(s)
  {
    var w := Encoders.SoundWorldExists(Anything, Host, (r: Rule, v: View) => Returned([Annotated(BYTE)]));
    s := TheSetup(w, map[]);
    RuleIsWellFormed();
    SetupIsProper(w, map[]);
    ValidSetup(w);
    ByteShows(w);
  }

  predicate Anything(f: Finding) { true }

  function Host(v: SnapshotView): set<Identity> { {HOST} }

  lemma ValidSetup(w: World)
    ensures LoneRun(TheSetup(w, map[]))
  {
    NoEntries(map[]);
    InputsAreLone(map[]);
    var s := TheSetup(w, map[]);
    assert After(s, 0).prior == [];
  }

  lemma ByteShows(w: World)
    requires w.canonical == Anything && w.observes == Host && w.detect == ((r: Rule, v: View) => Returned([Annotated(BYTE)]))
    ensures !Invisible(TheSetup(w, map[]))
  {
    var s, f := TheSetup(w, map[]), Annotated(BYTE);
    SetupIsProper(w, map[]);
    RuleFinds(w, ViewOf(CORPUS, [], map[]), f);
    assert BatchOf(s, After(s, 0), "r") == Some([f]);
    BytesWritten();
    FindingRead(f.metadata);
    assert f.metadata["k"] == BYTE && !ValidTexts([f][0]);
    ServedAgain(s, f);
    InvalidRecordShows(s, 0, "r");
  }

  lemma ServedAgain(s: Setup, f: Finding)
    requires s.rules == map["r" := RULE] && s.world.canonical == Anything
    requires s.world.observes(s.snapshot) == {HOST}
    requires f == FINDING.(metadata := f.metadata) && "rule_version" !in f.metadata
    ensures Servable(s, "r", [f])
  {
    FindingRead(f.metadata);
    var g := RereadFinding(f);
    assert RereadAll([f]) == [g];
    assert ValidFinding(s.world, g, RULE, {HOST});
  }

  // ----- a byte in the configuration of another run

  /** The detector tells the two bytes apart; what it finds is valid UTF-8. */
  function Configured(r: Rule, v: View): Detection {
    if "k" in v.config && v.config["k"] == OTHER then Returned([FINDING]) else Returned([])
  }

  lemma ConfiguredIsValid(w: World)
    requires w.detect == Configured
    ensures ValidDetectors(w)
  {
    forall r, v | Execute(w, r, v).JobDone? ensures AllValidTexts(Execute(w, r, v).findings) {
      var none: seq<Finding> := [];
      assert MergeList(none, none) == none && Sort(ByKey(FindingKey), none) == none;
      OneMerged(FINDING);
      FindingRead(map[]);
      assert FINDING.(metadata := map[]) == FINDING;
    }
  }

  lemma SameConfigText()
    ensures WrittenListing(Entries(map["k" := BYTE])) == WrittenListing(Entries(map["k" := OTHER]))
  {
    var a, b: map<string, string> := map["k" := BYTE], map["k" := OTHER];
    assert a.Keys == b.Keys == {"k"};
    BytesWritten();
    var ks := InOrder(a.Keys);
    forall i | 0 <= i < |ks| ensures WrittenEntry(EntryOf(a)(ks[i])) == WrittenEntry(EntryOf(b)(ks[i])) {
      assert ks[i] in Elements(ks);
      assert Map(Written, [BYTE]) == Map(Written, [OTHER]);
    }
  }

  /** Every text of the rules and the corpus is valid UTF-8, and no detector returns any
      other; but a run configured with another byte that is not may have stored
      another result under the key. */
  lemma InvalidConfigShows() returns (s: Setup)
    ensures Proper(s.world, s) && Sound(s.world) && ValidDetectors(s.world) && ServesValid(s)
    ensures LoneInputs(RULE, s.snapshot, map[]) && s.rules == map["r" := RULE] && WellFormed(RULE)
    ensures s.config == map["k" := OTHER]
    ensures !Invisible(s)
  {
    var w := Encoders.SoundWorldExists(Anything, Host, Configured);
    s := TheSetup(w, map["k" := OTHER]);
    BytesWritten();
    RuleIsWellFormed();
    NoEntries(map[]);
    InputsAreLone(map[]);
    SetupIsProper(w, map["k" := OTHER]);
    ConfiguredIsValid(w);
    AllServeValid(s);
    ConfigShows(w, map["k" := OTHER], map["k" := BYTE]);
  }

  lemma ConfigShows(w: World, ours: map<string, string>, theirs: map<string, string>)
    requires ours == map["k" := OTHER] && theirs == map["k" := BYTE]
    requires w.detect == Configured && w.canonical == Anything && w.observes == Host
    ensures !Invisible(TheSetup(w, ours))
  {
    var rec := TheirRecord(w, theirs);
    SameConfigText();
    SameKeys(w, ours, theirs);
    OurFinding(w, ours);
    SetupIsProper(w, ours);
    DisagreeingShows(TheSetup(w, ours), 0, "r", rec);
  }

  /** What the run with the byte stores. */
  lemma TheirRecord(w: World, theirs: map<string, string>) returns (rec: Record)
    requires theirs == map["k" := BYTE] && w.detect == Configured
    ensures Storable(w, KeyAt(TheSetup(w, theirs), 0, "r"), rec) && Encode("r", []) == Some(rec)
  {
    var other := TheSetup(w, theirs);
    SetupIsProper(w, theirs);
    BytesWritten();
    RuleFindsNone(w, ViewOf(CORPUS, [], theirs));
    assert BatchOf(other, After(other, 0), "r") == Some([]);
    OwnIsStorable(other, 0, "r");
    rec := Encode("r", []).value;
  }

  lemma SameKeys(w: World, ours: map<string, string>, theirs: map<string, string>)
    requires WrittenListing(Entries(theirs)) == WrittenListing(Entries(ours))
    ensures KeyAt(TheSetup(w, ours), 0, "r") == KeyAt(TheSetup(w, theirs), 0, "r")
  {
    PairsIff(ours, theirs);
  }

  /** What the rule finds here is not what that record serves. */
  lemma OurFinding(w: World, ours: map<string, string>)
    requires ours == map["k" := OTHER] && w.detect == Configured && w.canonical == Anything && w.observes == Host
    ensures var s := TheSetup(w, ours);
      !RecordAgrees(s, 0, "r", Encode("r", []).value)
  {
    var s := TheSetup(w, ours);
    SetupIsProper(w, ours);
    assert FINDING.(metadata := map[]) == FINDING;
    RuleFinds(w, ViewOf(CORPUS, [], ours), FINDING);
    assert BatchOf(s, After(s, 0), "r") == Some([FINDING]);
    assert DecodeFor(s, "r", Encode("r", []).value) == Some([]);
  }
}
