/** What a rule's detector may read (internal/detect/context.go, record.go). */
module RuleViews {
  import opened Order
  import opened Merging
  import opened Identities
  import opened Findings
  import opened FindingJson
  import opened Registries

  /** What rules may read of a prior finding: identity, confidence, metadata. */
  datatype PriorView = PriorView(key: string, confidence: Float64, metadata: map<string, string>)

  /** One element of a corpus: its canonical identity, and whatever else of it the
      fingerprint covers. */
  datatype Entry = Entry(id: string, fields: seq<string>)

  type Listing = seq<Entry>

  function EntryId(e: Entry): string { e.id }

  /** A normalised list: one entry per identity, in order. */
  ghost predicate Normal(l: Listing) {
    Ascending(StringLess, KeysOf(EntryId, l))
  }

  /** The corpus: the graph's edges, and the other domains, assets first. */
  datatype SnapshotView = SnapshotView(edges: Listing, domains: seq<Listing>)

  /** normalizeSnapshot. */
  ghost predicate NormalSnapshot(v: SnapshotView) {
    Normal(v.edges) && forall i :: 0 <= i < |v.domains| ==> Normal(v.domains[i])
  }

  datatype View = View(snapshot: SnapshotView, prior: seq<PriorView>, config: map<string, string>)

  /** A detector returns findings, or fails (error, timeout, panic). */
  datatype Detection = Failing | Returned(findings: seq<Finding>)

  /** Everything outside the engine: the JSON forms of a finding and of a prior
      view, the canonical form check of the asset layer, the identities a corpus
      observes, and the detectors, one per rule fingerprint. */
  datatype World = World(
    json: Encoder,
    priorJson: PriorView -> string,
    canonical: Finding -> bool,
    observes: SnapshotView -> set<Identity>,
    detect: (Rule, View) -> Detection)

  /** The law of the prior view's JSON form, which is taken of the view as it
      would be read back. */
  ghost predicate Sound(w: World) {
    Injective(w.priorJson)
  }

  /** The declared metadata a rule fingerprint covers: all but Enabled. */
  function MetaOf(r: Rule): Rule {
    r.(enabled := false)
  }

  function ViewOfFinding(f: Finding): PriorView {
    PriorView(f.Key(), f.confidence, f.metadata)
  }

  function Views(prior: seq<Finding>): (vs: seq<PriorView>)
    ensures |vs| == |prior| && forall i :: 0 <= i < |vs| ==> vs[i] == ViewOfFinding(prior[i])
  {
    seq(|prior|, i requires 0 <= i < |prior| => ViewOfFinding(prior[i]))
  }

  function ViewOf(snapshot: SnapshotView, prior: seq<Finding>, config: map<string, string>): View {
    View(snapshot, Views(prior), config)
  }

  /** What one execution or cache lookup of a rule is given. */
  datatype Lookup = Lookup(rule: Rule, snapshot: SnapshotView, prior: seq<Finding>, config: map<string, string>)

  /** What the detector is shown. */
  function Shown(l: Lookup): (Rule, View) {
    (MetaOf(l.rule), ViewOf(l.snapshot, l.prior, l.config))
  }

  /** The engine gives a rule a normalised corpus and sorted findings. */
  ghost predicate Normalised(l: Lookup) {
    NormalSnapshot(l.snapshot) && Sorted(ByKey(FindingKey), l.prior)
  }
}
