# Verified model of RavenRecon's engine, cache, runner, identities and DNS replay

A Dafny 4.11 model of the five parts of RavenRecon whose correctness spans many
functions, with proofs over every input, every interleaving and every reachable
state.

- **Detection engine** (`schedule`, `registry`, `prepare`, `engine`, `progress`,
  `findingjson`, `views`, `keys`, `records`, `contract`, `retention`, `report`,
  `reference`, `following`, `equivalence`, `visible`, `outcomes`, `history`,
  `encoders`, `witness`, `graph`).
  Rules are scheduled in levels by layered Kahn elimination. The level loop, the
  workers, the barrier, cancellation, expired jobs and the final report are a
  transition system in which every step may come at any time. `reference` is a
  simple engine: level by level, no cache, no pool, no streaming cap. However its
  jobs interleave, a calm run (never cancelled, every job accepted by the pool and
  run within its deadline) reports what the reference computes, from a given cache
  exactly when each record its lookups find would serve what the rule finds, and
  after whatever earlier runs, while others store, exactly when each record they may
  store under the run's keys would. Keys lose what JSON loses, so this rests on which
  texts a key settles: all that are valid UTF-8. `outcomes` says how each rule of a
  run ends, by its declaration, its dependencies and what its detector returns.
- **Filesystem cache** (`cachefs`). Lock-free readers, writers that rename under a
  mutex, self-healing, maintenance, crashes and corruption interleave step by step
  on the path of one key.
- **Process runner and drain budget** (`runner`, `pipes`, `drain`). The bounded
  capture, the two-token protocol that ends both pipe copies, and a makespan bound
  for a rate-limited worker pool.
- **Canonical identities** (`identity`, `query`, `path`, `chunk`, `merging`,
  `certificate`, `finding`). Encodings that never blur, canonical forms that are
  fixed points, the chunk printer and parser, and capped merges that fold
  independently of order and grouping.
- **DNS answers and replay** (`dnsanswers`, `jsontext`, `dnsreplay`, `dnshost`,
  `dnsoutcome`, `dnsassemble`). Every raw answer has exactly one fate, SRV targets and
  ports stay paired, each question is reported as its reply says, and a host resolved
  again from the cache issues no query.

`wrappers`, `text` and `order` hold what these share: results, the string
functions of Go's library with their laws, sorting, and "the first k" of a set or
multiset.

## How the model stands for the program

- Strings are byte strings: one `char` is one byte. Integers are unbounded; the
  bounds the code checks (caps, ports, tag lengths, offsets) are written out.
  A confidence is a finite float64, counted in units of 2^-1074; times in the drain
  model are real numbers.
- What JSON makes of a text is modelled. A byte that is not part of valid UTF-8 is
  written as the escape of the replacement character, and comes back as that
  character; a replacement character is written as itself. So what is written tells
  more than what is read back. Digests hold what is written, cache records what will
  be read back. A time whose year has not four digits is not written. The rest of the
  forms is free: SHA-256 is a free constructor, and a finding's or a prior view's
  JSON form is a parameter with the law that it tells apart what JSON tells apart
  (`Marshals`, `Sound`). `Encoders.SoundWorldExists` builds forms that obey both laws.
- `url.Parse`, `netip`, host normalisation, detectors, resolvers, clocks and query
  unescaping are parameters. Where the code relies on a law of theirs, the law is a
  named precondition (`Canonicalising`, `CanonicalFile`, `NeverZero`).
- A detector is a function of the declared rule metadata and of its view: the
  corpus, the prior findings' identity, confidence and metadata, and the
  configuration. Of the corpus it reads what the fingerprint covers: lists of
  elements, each an identity and further texts, sorted by identity. Which identities
  a corpus observes is a function of these lists.
- The order in which a map of rules is visited is a parameter.
- `sort.Slice` is modelled by a stable sort. It matters only among equal keys.
- A method that stands for a loop or an in-place algorithm is proved equal to a
  function of its inputs, and the properties are lemmas about that function.

## Where the code and its comments differ

The model follows the code. Each difference has a lemma.

- Finding metadata over its cap loses its smallest keys, although the comment at
  `internal/asset/finding.go:387-393` says the largest: the two agree exactly when
  nothing is cut (`Findings.CutKeepsSmallest`). When both values are set the second
  argument's wins, not the receiver's: the difference shows exactly when a key that
  is kept has two different non-empty values (`Findings.MetadataCommutes`,
  `Findings.MetadataOrderMatters`).
- `MergeTLSCertificates` is symmetric only under a condition on times and fields,
  and associates only under another (`Certificates.MergeCommutes`,
  `Certificates.ZeroTimeBreaksSymmetry`, `Certificates.MergeAssociatesIff`,
  `Certificates.PreferDoesNotAssociate`).
- The rule named by the cycle error reaches a cycle and lies on one exactly when no
  rule that only leads to a cycle is smaller than every rule on one
  (`Schedule.NamedRuleOnCycleIff`, `Schedule.NamedRuleMayBeOffTheCycle`).
- The chunk parser accepts leading zeros, so printing what was parsed need not give
  the text back (`Chunks.LeadingZeroAccepted`, `Chunks.ParseThenBuildIsIdentity`).
- An empty write to a full capture raises the truncation flag
  (`Runner.EmptyWriteTruncates`, `Runner.CaptureIsPrefix`).
- `internal/dns/cache.go:48-50` promises that answers are served back exactly as
  stored. TXT strings are arbitrary bytes, and JSON replaces each byte that is not
  part of valid UTF-8, so a replay is exact if and only if every text is valid
  UTF-8 (`DnsReplay.ReplayIffValid`, `DnsReplay.InvalidTextChanges`).
- `Validate` names the first rule with an unregistered dependency in the order of
  the map: the smallest, as its comment promises, in every order exactly when there
  is one such rule at most (`Registries.SmallestNamedIff`).
- `internal/detect/finding.go:201-208` calls the finding rank total on distinct
  findings. Two findings tie exactly when the compared fields and what JSON tells
  about them agree, as when they differ in one byte that is not UTF-8
  (`Retention.FindingRankIsTotal`, `Retention.InvalidTextsTie`). A run that is served
  nothing adds one finding per identity, so no two tie and what is retained never
  depends on the order of completion (`Retention.BatchOrderIrrelevant`); of findings
  at large it does exactly when a tie is cut (`Retention.CutDecides`).
- `betterResult` promises that the winning result never depends on the order of
  processing: the status never does, the whole result exactly when no rule has two
  different results of its greatest rank (`Retention.MergeOrderIrrelevant`).
- `internal/detect/record.go:155-159` promises that equal fingerprints mean
  identical findings, and `internal/detect/engine.go:713-722` serves a hit in place
  of an execution. Rule names, metadata, configuration and provenance texts and
  identity values are not checked to be UTF-8, and one invalid byte is written as
  another. So one key may stand for different views: it settles the view exactly when
  every text is valid UTF-8, but for identities and configuration names that their
  neighbours in the sorted list hold in place (`RuleKeys.SameKeyIff`,
  `RuleKeys.KeySettlesIff`, `RuleKeys.CrowdIsLone`).
- A hit under a key that settles the view is the fresh result exactly when its texts
  are valid UTF-8 (`CacheHistory.HitIsFresh`). A warm run reports what a cold one
  does exactly when each record its lookups find would serve what the rule finds
  (`CacheVisibility.ShowsIff`); after every sequence of earlier runs, and whatever
  others store meanwhile, exactly when all they may store under its keys would
  (`CacheHistory.InvisibleIff`); if its keys settle the views, exactly when whatever
  it could be served again is valid UTF-8 (`CacheHistory.SettledInvisibleIff`). Valid
  inputs and detectors that return valid texts are enough
  (`CacheHistory.ValidTextsSuffice`); one byte of metadata, or of the configuration,
  breaks it (`CacheWitness.InvalidMetadataShows`,
  `CacheWitness.InvalidConfigShows`).
- A job whose deadline passes before it is run, while it waits for a start token or
  when a worker takes it, never signals the level's barrier, which then waits until
  the run is cancelled: a run can complete by itself exactly when its level has lost
  no job (`Progress.CompletesIff`, `Progress.ExpiryBlocks`). Without a rate limit no
  job waits (`Progress.UnlimitedCompletes`).

## Model

| member | source | states |
|---|---|---|
| `Schedule.ScheduleLevels` | internal/detect/registry.go:149-193 | the schedule succeeds if and only if the dependency graph is acyclic, and is then the layered one; otherwise it names the smallest rule that reaches a cycle |
| `Schedule.CountDependencies` | internal/detect/registry.go:150-161 | the indegrees count each rule's dependencies and the dependents map inverts the graph |
| `Schedule.NextRound` | internal/detect/registry.go:162-182 | one round schedules exactly the rules whose dependencies are all scheduled, sorted |
| `Schedule.SmallestLeft` | internal/detect/registry.go:183-190 | the scan finds the smallest unscheduled rule |
| `Schedule.LevelsPartition` | internal/detect/registry.go:143-148 | the levels partition the rules, each dependency lies in an earlier level, and a rule's level is its longest dependency chain |
| `Schedule.LeftOver` | internal/detect/registry.go:183-190 | a rule is left unscheduled for good exactly when it reaches a cycle |
| `Schedule.CyclicIsReached` | internal/detect/registry.go:183-190 | some rule reaches a cycle if and only if the graph has one |
| `Schedule.NamedRuleOnCycleIff` | internal/detect/registry.go:183-190 | the named rule lies on a cycle exactly when no rule that merely leads to a cycle is smaller than every rule on one |
| `Schedule.NamedRuleMayBeOffTheCycle` | internal/detect/registry.go:183-190 | a graph whose reported rule lies on no cycle |
| `Registries.Registry.Register` | internal/detect/registry.go:52-82 | the exact condition of acceptance and of each error, all checks of ValidateRule included, in their order of precedence, and that a rejection changes nothing |
| `Registries.Registry.Seal` | internal/detect/registry.go:86-90 | sealing keeps the rules and stops later registration |
| `Registries.Registry.Validate` | internal/detect/registry.go:126-141 | no error if and only if every dependency is registered and the graph is acyclic; otherwise the first offender of the map order, or the smallest rule that reaches a cycle |
| `Registries.SmallestNamedIff` | internal/detect/registry.go:123-136 | the smallest offending rule is named in every map order exactly when one rule at most offends |
| `Registries.NamesUnique` | internal/detect/registry.go:72-80 | no two rules share a name, whatever its ASCII case |
| `Preparation.RunIsWellLeveled` | internal/detect/engine.go:503-525 | scheduling, selection and pruning leave each selected rule once, never in or before a dependency's level |
| `RuleOutcomes.UnselectedSkipped` | internal/detect/engine.go:503-525 | however a run goes, a disabled rule is skipped as disabled, and an enabled one for the first of its required kinds that the corpus lacks |
| `RuleOutcomes.UnselectedNeverStarts` | internal/detect/engine.go:503-525 | and no such rule ever starts, in any run |
| `Engine.PruneLevelsLoop` | internal/detect/engine.go:656-670 | the pruning loop keeps the selected rules in order and drops emptied levels |
| `Engine.GateMeansCompleted` | internal/detect/engine.go:640-652 | the gate opens exactly when every dependency holds a completed result |
| `Engine.StepKeepsInv` | internal/detect/engine.go:534-609 | every step of any thread keeps the run's invariant, and a result once present stands |
| `Engine.StartsAfterDependencies` | internal/detect/engine.go:551-586 | with cancellation possible at any step, a rule starts only when every dependency has completed, and those results stand for good |
| `Engine.ReportCoversRegistry` | internal/detect/engine.go:600-609 | however a run ends, the report holds one result per registered rule and the four counts sum to the registry size |
| `RuleOutcomes.ReportedWork` | internal/detect/engine.go:600-609 | however a run ends, only rules that started completed or failed, and the rules that added findings are the completed ones, each as many as its result says |
| `RuleOutcomes.ResultsExplained` | internal/detect/engine.go:503-609 | in any run a rule reported skipped was disabled, lacked a kind or named a dependency that did not complete, and its result says which |
| `Progress.StepUsesWork` | internal/detect/engine.go:534-598 | every step but cancellation and cache loss uses up work |
| `Progress.RunsAreBounded` | internal/detect/engine.go:534-609 | a run takes at most as many steps as it has work |
| `Engine.StepConserves` | internal/detect/engine.go:561-586 | every job submitted in a level has signalled, is under way or is lost, so the barrier opens only when none is under way or lost |
| `Progress.NextStep` | internal/detect/engine.go:534-609 | until the report is made some calm step of the run's own is enabled, unless a lost job holds up the barrier of a run not cancelled |
| `Progress.CompletesIff` | internal/detect/engine.go:580-586 | calm steps lead to a report exactly when no job of the current level was lost or the run is cancelled |
| `Progress.NoReportWithoutCancel` | internal/detect/engine.go:580-586 | once a job is lost, no sequence of steps without cancellation reports |
| `Progress.ExpiryBlocks` | internal/runtime/pool.go:452-488 | once a worker has taken a job, its deadline passing on the entry check, or under a rate limit while it waits for a token, leads by calm steps to a barrier waiting for ever |
| `Progress.UnlimitedCompletes` | internal/runtime/pool.go:475-488 | without a rate limit, a run never cancelled and never late at an entry check loses no job and can complete from every state |
| `Progress.BlockedIsStuck` | internal/detect/engine.go:580-586 | nothing but cancellation or cache loss can happen there |
| `Reports.BuildReport` | internal/detect/engine.go:676-711 | one row per rule in rule order, findings in identity order, exact counts that sum, and the outcome by its priority order |
| `Reports.OutcomeMeans` | internal/detect/engine.go:697-710 | cancelled exactly when some rule was; else incomplete exactly when findings were cut or some rule failed and some completed; else failed exactly when some rule failed; else completed |
| `Reports.StatusesPartition` | internal/detect/engine.go:679-690 | the four statuses partition the results |
| `Reports.CountStatuses` | internal/detect/engine.go:679-690 | the counting loop counts the listed rules of each status |
| `FindingJson.FindingSurvives` | internal/detect/finding.go:162-170 | a finding is read back as written exactly when its unchecked texts are valid UTF-8 |
| `Retention.FindingRankIsTotal` | internal/detect/finding.go:201-226 | of two findings exactly one ranks before the other, precisely when a compared field or what JSON tells about them differs |
| `Retention.ValidFindingsRank` | internal/detect/finding.go:201-226 | distinct findings of valid texts never tie |
| `Retention.InvalidTextsTie` | internal/detect/finding.go:205-208 | two distinct findings that tie |
| `Retention.HeldIsBest` | internal/detect/engine.go:337-347 | after any sequence of merges a rule holds one of the results it was given, and none of those beats it |
| `Retention.HeldStatus` | internal/detect/engine.go:399-413 | the held status is completed exactly when some result given was, else failed exactly when some was, else cancelled, else skipped |
| `Retention.MergeOrderIrrelevant` | internal/detect/engine.go:399-413 | the held status is the same in every order, the held result exactly when no rule has two different results of its greatest rank |
| `Retention.ResultAccumulator.AddFindings` | internal/detect/engine.go:360-383 | a batch that fits is appended, one that overflows leaves the top of both by rank and the flag set |
| `Retention.ResultAccumulator.Snapshot` | internal/detect/engine.go:385-397 | results listed once per rule in rule order, findings by identity |
| `Retention.AddKeepsTop` | internal/detect/engine.go:360-383 | one batch keeps: the retained findings are the first 4096 by rank of all added, the flag says whether there were more |
| `Retention.StreamingTop` | internal/detect/engine.go:360-383 | the same after any sequence of batches |
| `Retention.RetainedRankFirst` | internal/detect/finding.go:209-226 | after any batches no finding that was cut is more confident than a retained one, nor at equal confidence of smaller category, then priority, rule, subject and JSON text |
| `Retention.RetainedCount` | internal/detect/engine.go:360-383 | all are retained up to 4096 and just 4096 of more, which is what the flag says |
| `Retention.BatchOrderIrrelevant` | internal/detect/engine.go:360-366 | with one finding per identity, as whenever none is served, the retained findings and the flag do not depend on completion order |
| `Retention.CutDecides` | internal/detect/engine.go:360-366 | every order and grouping of the same findings retains the same ones, exactly when no two that tie fall on both sides of the cut |
| `Retention.TwoOrders` | internal/detect/engine.go:360-366 | otherwise two orders, one finding at a time, that retain different ones |
| `RuleRecords.MergeFindingList` | internal/detect/finding.go:174-191 | the loop with its index map merges each finding into the one of its identity |
| `RuleRecords.ExecuteBatch` | internal/detect/engine.go:801-829 | what a rule adds is sorted by identity, one finding each, all its own |
| `RuleContracts.FailsIff` | internal/detect/engine.go:785-812 | executing a rule fails exactly when its detector fails, returns more than 256 findings, or returns one that breaks the output contract |
| `RuleContracts.BreaksIff` | internal/detect/finding.go:113-160 | the contract, clause by clause: canonical, the rule's own labels, known priority and status, nothing unobserved, the rule's version |
| `RuleContracts.MergeObeys` | internal/detect/finding.go:174-191 | merging two findings that obey the contract gives one that does |
| `RuleContracts.BatchCondenses` | internal/detect/engine.go:801-829 | what a rule adds has exactly the identities its detector returned, once each and in order, obeys the contract, and is what was returned where no identity came twice |
| `RuleContracts.DecodeMeans` | internal/detect/record.go:485-514 | a record is served exactly when it is a completed one of this operation, rule and format, of at most 256 findings that all obey the contract |
| `RuleContracts.StoredIsServed` | internal/detect/record.go:485-514 | what an execution stored is served again exactly when, as JSON reads it back, it still obeys the contract |
| `RuleOutcomes.DetectorDecides` | internal/detect/engine.go:551-586 | in every calm run from an empty cache: a selected rule is skipped for its first dependency that did not complete; if all did, it failed exactly when its detector failed, returned too much or broke the contract, and otherwise completed with the identities returned |
| `RuleOutcomes.PriorMeans` | internal/detect/engine.go:587-592 | the prior findings a level reads are those that rules of earlier levels added, in identity order, or the first 4096 of them by rank |
| `RuleOutcomes.ReportMeans` | internal/detect/engine.go:385-397 | the report lists the findings its rules added, or the first 4096 by rank, and says truncated exactly when it leaves one out |
| `RuleOutcomes.OnlyCompletedStored` | internal/detect/engine.go:814-880 | from an empty cache, however the run ends, the cache holds just what completed rules added, as it will be read back, and no result came from it |
| `RuleKeys.PairsInOrder` | internal/cache/key.go:113-121 | the parts of a key are listed in the order of their names, the configuration's first |
| `RuleKeys.RuleKeyIff` | internal/detect/record.go:436-456 | two cache keys are equal exactly when what JSON writes of the rule metadata, both fingerprints and the configuration is |
| `RuleKeys.SameKeyIff` | internal/detect/record.go:323-364 | exactly what two lookups under one key have in common, prior judgments included |
| `JsonText.AloneIffValid` | internal/cache/key.go:127 | JSON writes no other text alike exactly when the text is valid UTF-8 |
| `JsonText.WrittenIsRead` | internal/dns/run.go:736-740 | what is read back is settled by what is written |
| `JsonText.ReplacementIsApart` | internal/cache/key.go:127 | but an invalid byte and the replacement character, read back alike, are written apart |
| `FindingJson.FindingTold` | internal/detect/finding.go:162-170 | a finding of valid texts is told from every other by what is written of it |
| `RuleKeys.LoneSame` | internal/detect/context.go:471-475 | a sorted list of valid texts, identities held in place excepted, is the only sorted list JSON writes alike |
| `RuleKeys.KeySettlesIff` | internal/detect/record.go:155-159 | every lookup under the key shows the detector the same rule and view, exactly when every text of rule, corpus, prior metadata and configuration is valid UTF-8, but for identities and names that no other one written alike could replace in their order |
| `RuleKeys.SecondLookup` | internal/detect/record.go:155-159 | otherwise a second lookup under the key, with another view |
| `RuleKeys.CrowdIsLone` | internal/cache/key.go:118-120 | an invalid name between two neighbours that is told apart, so not every invalid text blurs a key |
| `CacheHistory.HitIsFresh` | internal/detect/record.go:485-514 | under a settled key, a hit on what any earlier run stored serves what executing the rule would produce as JSON reads it back, the same findings exactly when their texts are valid UTF-8 |
| `CacheHistory.LeftIsStorable` | internal/detect/engine.go:859-880 | every record in a cache that runs left, however they ended and whatever others stored meanwhile, was stored by an execution in some run |
| `CacheHistory.StorableIsLeft` | internal/detect/engine.go:859-880 | and whatever an execution in some run may store is in some such cache |
| `Equivalence.RunMeetsReference` | internal/detect/engine.go:433-616 | from any cache that agrees on its lookups, and if other runs store nothing else meanwhile, a calm run, in any interleaving, reports the results, findings and truncation of the cache-free level-by-level reference |
| `Equivalence.WarmEqualsCold` | internal/detect/engine.go:723-741 | from such a cache a run and one without report the same, but for the cached flags |
| `CacheVisibility.ShowsIff` | internal/detect/engine.go:748-776 | for every cache: all calm runs from it report what the reference does, if and only if each record that a lookup of the run finds would serve, if anything, what the rule finds |
| `CacheVisibility.RecordShows` | internal/detect/engine.go:748-776 | whatever a lookup finds and decodes is served in some calm run, and reported |
| `CacheHistory.InvisibleIff` | internal/detect/engine.go:748-776 | after any sequence of earlier runs, with other runs storing at any step, all calm runs report what the reference does, if and only if each record any run may store under one of this run's keys would serve what the rule finds here |
| `CacheHistory.SettledInvisibleIff` | internal/detect/engine.go:748-776 | where the run's keys settle the views, if and only if whatever it could be served again is valid UTF-8 |
| `CacheHistory.LoneInvisibleIff` | internal/detect/record.go:155-159 | so it is for every run of valid texts, identities and names held in place excepted |
| `CacheHistory.InvalidRecordShows` | internal/detect/engine.go:748-776 | in any run, findings of invalid texts that could be served again make its cache show |
| `CacheHistory.ValidDetectorsSuffice` | internal/detect/finding.go:113-160 | where no detector returns invalid texts, rules, corpus and configuration that a key settles are enough for no cache to show |
| `CacheHistory.ValidTextsSuffice` | internal/detect/record.go:155-159 | valid rules, corpus and configuration, and detectors that return valid texts: no cache shows, after whatever earlier runs |
| `CacheWitness.InvalidMetadataShows` | internal/asset/finding.go:196-203 | a run of valid rules, corpus and configuration whose cache shows, for one byte of metadata |
| `CacheWitness.InvalidConfigShows` | internal/detect/context.go:713-727 | a run of valid rules, corpus and findings whose cache shows, for one invalid byte of its configuration, where another run had another |
| `Encoders.SoundWorldExists` | internal/detect/finding.go:162-170 | JSON forms that obey the assumed laws exist for any detectors |
| `Equivalence.LevelSeesOnePrior` | internal/detect/engine.go:587-592 | the prior findings each level sees do not depend on the run |
| `Equivalence.StepTracks` | internal/detect/engine.go:534-598 | every calm step, a hit if it serves what the rule finds, keeps the run on the reference; so does what other runs store |
| `Following.BarrierMeets` | internal/detect/engine.go:580-592 | at the barrier the results, batches, retained findings and next prior view are the reference's |
| `Reference.RetainedAlike` | internal/detect/engine.go:360-397 | batches added in any order retain and list what the whole retains at once |
| `GraphViews.NewGraphView` | internal/detect/context.go:280-298 | the index holds exactly the observed relationships, grouped by source and sorted |
| `GraphViews.EdgesAreObserved` | internal/detect/context.go:280-312 | an edge exists if and only if such a relationship was observed |
| `GraphViews.Path` | internal/detect/context.go:319-372 | a returned path is a walk with the fewest edges, and of those the first in the order of the relationship IDs; none is returned exactly when an endpoint is zero or unobserved or no walk exists |
| `GraphViews.FirstShortestUnique` | internal/detect/context.go:128-132 | so the view settles which path is returned |
| `GraphViews.FollowedIsFirst` | internal/detect/context.go:332-360 | the path along the parents of the search is the first of the shortest walks |
| `GraphViews.Search` | internal/detect/context.go:332-360 | the breadth-first loop finds a least-edge parent chain, discovered in the order of parents and relationships, or shows that none exists |
| `GraphViews.Reconstruct` | internal/detect/context.go:349-356 | following parents backwards and reversing gives the walk |
| `CacheFiles.LookupsAreAtomic` | internal/cache/cache.go:185-218 | every lookup that answers without an I/O error answers what the path held at one moment between call and return |
| `CacheFiles.AnswersMean` | internal/cache/cache.go:185-218 | which answer that is, for each: a hit exactly when the object is a completed record and the lifetime is zero or not exceeded, and likewise expired, incomplete, miss, incompatible and corrupt |
| `CacheFiles.FailuresAreErrors` | internal/cache/cache.go:185-218 | a lookup fails only by an I/O error |
| `CacheFiles.LookupAlone` | internal/cache/cache.go:185-218 | an undisturbed lookup of a record hits exactly when it is completed and not expired |
| `CacheFiles.PutThenGet` | internal/cache/cache.go:244-311 | an undisturbed Put installs its record, and a lookup then hits it |
| `CacheFiles.DeleteAlone` | internal/cache/cache.go:353-391 | an undisturbed Delete or Clear leaves nothing |
| `CacheFiles.HealsBeforeAnswering` | internal/cache/cache.go:537-559 | no lookup answers about an unusable entry before it has tried to remove it or seen it gone |
| `CacheFiles.LookupHeals` | internal/cache/cache.go:537-559 | and an undisturbed one does remove it |
| `CacheFiles.SweepAlone` | internal/cache/cache.go:400-470 | undisturbed maintenance removes what is no entry and leaves an entry |
| `CacheFiles.HitsAreWhole` | internal/cache/cache.go:185-218 | a hit is a whole record given to some Put, completed, unexpired, and the entry at one moment of the call |
| `CacheFiles.PathChanges` | internal/cache/cache.go:244-311 | every way the path can change: a Put installs its own whole record in one step, healing and maintenance remove only what is no entry, a crash changes nothing |
| `CacheFiles.EntriesLeaveOnlyOnPurpose` | internal/cache/cache.go:537-559 | a valid entry leaves its path only through Put, Delete, Clear or corruption |
| `CacheFiles.NeverPartial` | internal/cache/cache.go:220-243 | without corruption the path never holds anything but nothing or a whole record, whatever crashes |
| `CacheFiles.SweepSparesWriters` | internal/cache/cache.go:392-399 | the residue sweep never removes the temporary file of a Put still writing |
| `CacheFiles.RenameInstalls` | internal/cache/cache.go:275-302 | a Put at its rename still has its whole file, so only a directory in the way keeps the record out |
| `CacheFiles.StepKeepsInv` | internal/cache/cache.go:185-559 | every step of every thread keeps the mutex, the answers in progress and the re-check sound |
| `Runner.CaptureIsPrefix` | internal/discovery/runner.go:368-402 | the capture is the first max bytes of all writes, and the exact condition of the flag |
| `Runner.TruncatedMeansMore` | internal/discovery/runner.go:368-402 | without empty writes the flag means more than max bytes came |
| `Runner.EmptyWriteTruncates` | internal/discovery/runner.go:398-400 | an empty write to a full sink raises the flag |
| `PipeCopies.ReturnsQuiescent` | internal/discovery/runner.go:342-366 | on every path exactly two tokens are received, none is left, both copies have ended and both read ends are shut |
| `PipeCopies.NeverOverReceives` | internal/discovery/runner.go:271-323 | no path receives a third token |
| `PipeCopies.CaptureIsFinal` | internal/discovery/runner.go:273-277 | once a copy has ended its capture never changes |
| `PipeCopies.CaptureIsHead` | internal/discovery/runner.go:249-265 | on return the capture is the first max bytes the copy read, flagged exactly when it read more, and a copy that saw the end read everything sent |
| `PipeCopies.CleanExitCapturesAll` | internal/discovery/runner.go:298-323 | where the drain bound did not expire and the run was not cancelled, both copies saw the end: each capture is the first max bytes of all that was sent, flagged exactly when more was |
| `PipeCopies.CleanExitComes` | internal/discovery/runner.go:348-353 | once the child is reaped and nothing holds the write ends, such steps do lead to a clean exit |
| `PipeCopies.WritingThenExit` | internal/discovery/runner.go:342-353 | so whatever the child writes, some run captures it |
| `PipeCopies.EndingMeans` | internal/discovery/runner.go:342-366 | an exit is reported of a reaped child only, an unkillable child only after a cancellation |
| `PipeCopies.ReceiveNeverBlocks` | internal/discovery/runner.go:310-321 | with the read ends closed, a waiting receive has its token or a copy can move towards sending it |
| `PipeCopies.ForcedMakesProgress` | internal/discovery/runner.go:310-321 | and only finitely many such moves remain |
| `PipeCopies.NeverStuck` | internal/discovery/runner.go:342-366 | past its first select waitCommand can always move |
| `Drain.EveryJobFinishes` | internal/discovery/pipeline.go:56-72 | every one of n jobs on c workers, submitted at any times up to some time, taken and granted tokens in any order, finishes by ceil(n/c) timeouts after it plus the time the tokens beyond the burst take |
| `Drain.QueueIsScheduled` | internal/discovery/pipeline.go:56-72 | first come, first served is one such order, whenever the jobs are submitted |
| `Drain.BudgetCoversDrain` | internal/discovery/pipeline.go:73-93 | called whenever all jobs are submitted, with any of them running and any part of the burst spent, the budget covers every clean completion of jobs with a deadline |
| `Drain.NoDeadlineWindow` | internal/discovery/pipeline.go:65-76 | without a deadline the budget is three minutes |
| `Drain.BudgetIsNoMore` | internal/discovery/pipeline.go:73-93 | with one it exceeds the bound by fifteen seconds, to the nanosecond |
| `Drain.WavesAttained` | internal/discovery/pipeline.go:60-64 | without a rate limit some schedule takes all of the bound |
| `Drain.TokensAttained` | internal/discovery/pipeline.go:60-64 | so it does under one, with a worker for each job |
| `Drain.NeverOversold` | internal/runtime/rate.go:86-103 | by any start at most burst plus the refill since the beginning have started |
| `Drain.JobKeepsTimely` | internal/runtime/rate.go:112-150 | the next start, whichever waiter gets the token, is within its share of the bound, with tokens to spare for those after it |
| `Identities.PercentEncodeLoop` | internal/asset/service.go:52-67 | the byte loop computes the triplet form |
| `Identities.PercentDecodes` | internal/asset/service.go:49-67 | unescaping undoes percentEncode |
| `Identities.PercentUnchanged` | internal/asset/service.go:49-67 | a string stays as it is exactly when it is letters and digits |
| `Identities.PercentInjective` | internal/asset/service.go:49-67 | equal encodings only of equal strings |
| `Identities.EncodeIdentityLoop` | internal/asset/relationship.go:160-177 | the byte loop computes encodeIdentity |
| `Identities.IdentityDecodes` | internal/asset/relationship.go:153-177 | unescaping undoes encodeIdentity |
| `Identities.IdentityUnchanged` | internal/asset/relationship.go:153-177 | a string stays as it is exactly when it has no "%" and nothing unprintable |
| `Identities.IdentityPrintable` | internal/asset/relationship.go:153-177 | nothing unprintable is left |
| `Identities.EncodeIdentityInjective` | internal/asset/relationship.go:153-177 | equal encodings only of equal strings |
| `Identities.IdentityStringInjective` | internal/asset/identity.go:62-72 | kind and value are recovered from the string of a valid identity |
| `Identities.RelationshipIDInjective` | internal/asset/relationship.go:183-185 | relationship IDs agree only when source, kind and target do |
| `Identities.FindingIdentityInjective` | internal/asset/finding.go:306-311 | finding identities agree only when rule and subject do |
| `Identities.EvidenceIdentityInjective` | internal/asset/evidence.go:179-185 | evidence identities agree only when all four components do |
| `Identities.ServiceIdentityInjective` | internal/asset/service.go:42-44 | service identities agree only when port and name do |
| `Identities.KnownIdentitiesInjective` | internal/asset/identity.go:40-72 | assets of the implemented kinds never share an identity string |
| `Identities.KnownEvidenceInjective` | internal/asset/evidence.go:179-185 | nor do evidence records of the implemented methods |
| `Identities.KnownEdgesInjective` | internal/asset/relationship.go:183-185 | nor do edges of the implemented kinds between such assets |
| `Query.SortQuery` | internal/asset/url.go:345-399 | the two loops and the stable sort compute the canonical query |
| `Query.EscapeRawQuery` | internal/asset/url.go:401-438 | the byte loop escapes exactly the corrupting bytes |
| `Query.EscapeMeans` | internal/asset/url.go:401-438 | space, "#", "&", "=" and bytes beyond ASCII are replaced, and nothing else |
| `Query.EscapeDecodes` | internal/asset/url.go:401-438 | each by the triplet that names it |
| `Query.CanonicalIsClean` | internal/asset/url.go:345-399 | no canonical query holds a space, a "#" or a byte beyond ASCII |
| `Query.CanonicalPairs` | internal/asset/url.go:345-399 | it has the pairs of the query, none lost or made up, by ascending decoded key |
| `Query.CanonicalIsFixedPoint` | internal/asset/url.go:329-345 | the canonical query of a canonical query is itself |
| `Query.SameIdentity` | internal/asset/url.go:329-345 | two queries share a canonical form exactly when their escaped non-empty pairs, stably sorted by decoded key, are equal |
| `Query.EmptyValueIsNotBareKey` | internal/asset/url.go:336-344 | "k=" never merges with "k" |
| `Query.SameKeyKeepsOrder` | internal/asset/url.go:376-384 | pairs with one sort key keep their order |
| `DotSegments.RemoveDotSegments` | internal/asset/url.go:305-327 | the stack loop computes the removal |
| `DotSegments.AbsoluteResolution` | internal/asset/url.go:299-327 | an absolute path keeps exactly the segments, empty ones included, that no later ".." removes |
| `DotSegments.CanonicalIsFixedPoint` | internal/asset/url.go:272-275 | canonicalising a path twice changes nothing |
| `DotSegments.NoDotSegments` | internal/asset/url.go:299-304 | no "." or ".." segment is left |
| `Chunks.ValidateTag` | internal/asset/javascript.go:171-207 | the tag scanner accepts exactly the valid tags |
| `Chunks.TagShape` | internal/asset/javascript.go:164-207 | a tag is valid exactly when it is w, -o and -v with digits, at most 32 bytes |
| `Chunks.AtoiBoundedLoop` | internal/asset/javascript.go:298-341 | the digit loop accepts exactly the in-range numerals and returns their value |
| `Chunks.FormatDecimal` | internal/asset/javascript.go:345-372 | the buffer loop prints the decimal |
| `Chunks.BuildMeans` | internal/asset/javascript.go:122-160 | which chunks have an identity, and its text |
| `Chunks.BuildThenParse` | internal/asset/javascript.go:122-290 | parsing a built identity gives the same fields back |
| `Chunks.BuildInjective` | internal/asset/javascript.go:122-160 | two chunks share an identity only when file string and all fields agree |
| `Chunks.ParseThenBuild` | internal/asset/javascript.go:222-290 | every accepted text yields values the builder accepts, and building then parsing again changes nothing |
| `Chunks.ParseThenBuildIsIdentity` | internal/asset/javascript.go:222-290 | the text itself comes back exactly when no number has a leading zero |
| `Chunks.LeadingZeroAccepted` | internal/asset/javascript.go:298-318 | a second text for every chunk |
| `Merging.EarliestProvCommutes` | internal/asset/merge.go:18-29 | provenance merges symmetrically exactly when the times differ or the values agree |
| `Merging.EarliestProvMeans` | internal/asset/merge.go:18-29 | the earlier of the dated ones is kept, and the first of two of one time |
| `Merging.DedupeEarliest` | internal/asset/finding.go:240-260 | every element left of sorting and merging carries the earliest provenance of its key |
| `Merging.CappedMerge` | internal/asset/finding.go:357-377 | a capped merge keeps the smallest keys of the union in order and cuts exactly when there are more |
| `Certificates.MergeNames` | internal/asset/tls_certificate.go:479-501 | the set, sort and slice keep the smallest names of the union |
| `Certificates.MergedFields` | internal/asset/tls_certificate.go:365-454 | each field comes of its own two observations: unset only when both are, and of two different set ones the dated earlier wins |
| `Certificates.MergedSelfSigned` | internal/asset/tls_certificate.go:456-468 | the earlier observation decides whether the certificate is self-signed, the first one without two dates |
| `Certificates.MergeCommutes` | internal/asset/tls_certificate.go:361-390 | the exact condition under which merging is symmetric |
| `Certificates.PreferCommutes` | internal/asset/tls_certificate.go:395-475 | the exact condition for one field |
| `Certificates.ZeroTimeBreaksSymmetry` | internal/asset/tls_certificate.go:361-364 | two observations with different times that do not merge symmetrically |
| `Certificates.PreferAssociatesIff` | internal/asset/tls_certificate.go:395-475 | the exact condition under which one field does not show the grouping of three observations |
| `Certificates.MergeAssociatesIff` | internal/asset/tls_certificate.go:361-390 | three observations merge alike in either grouping exactly when no field shows it |
| `Certificates.PreferDoesNotAssociate` | internal/asset/tls_certificate.go:404-418 | three observations whose grouping shows |
| `Certificates.FoldKeepsSmallest` | internal/asset/tls_certificate.go:365-390 | any order and grouping keeps the smallest names of all, with the exact flag |
| `Certificates.FoldOrderIndependent` | internal/asset/tls_certificate.go:365-390 | names, flag and chain depth depend only on the set of observations |
| `Findings.DedupeEvidence` | internal/asset/finding.go:240-260 | the loop merges adjacent equal identities of the sorted list |
| `Findings.DedupeIdentities` | internal/asset/finding.go:264-280 | likewise for related assets |
| `Findings.DedupeRelationships` | internal/asset/finding.go:284-299 | likewise for relationships |
| `Findings.MergeMetadata` | internal/asset/finding.go:394-420 | the union cut to its largest keys, and when it is cut |
| `Findings.MetadataCommutes` | internal/asset/finding.go:387-420 | metadata merges symmetrically, and keeps the receiver's values, exactly when no key with fewer than 16 keys of the union after it has two different non-empty values |
| `Findings.CutKeepsSmallest` | internal/asset/finding.go:387-420 | the cut drops the largest keys, as its comment says, exactly when the union has at most 16 |
| `Findings.MetadataOrderMatters` | internal/asset/finding.go:394-420 | two observations whose order shows |
| `Findings.MergeFindings` | internal/asset/finding.go:342-389 | the branches compute labels, times, lists, metadata and flag of the merge |
| `Findings.MergeLabels` | internal/asset/finding.go:347-356 | the nested comparison picks the first by confidence and labels |
| `Findings.FoldKeepsFirst` | internal/asset/finding.go:320-389 | any order and grouping keeps the first keys of each union, the best labels and times, with the exact flag |
| `Findings.FoldLabels` | internal/asset/finding.go:347-356 | whatever the order and grouping, the labels and confidence are those of one observation, none is more confident, and at equal confidence none has smaller labels |
| `Findings.EvidenceEarliest` | internal/asset/finding.go:240-260 | each merged evidence record carries the earliest provenance of its identity |
| `Findings.FoldOrderIndependent` | internal/asset/finding.go:320-389 | what a fold reports depends only on the set of observations |
| `DnsAnswers.NormalizeAnswers` | internal/dns/run.go:592-709 | the loop, the sorts and the caps fill the list of the record type with the retained answers, hosts and ports paired |
| `DnsAnswers.SortPairs` | internal/dns/run.go:667-686 | the index sort orders hosts and ports together |
| `DnsAnswers.KeepsSmallest` | internal/dns/run.go:567-591 | the retained answers ascend strictly and are the 64 smallest distinct ones, cut exactly when there are more |
| `DnsAnswers.AnswersAreConserved` | internal/dns/run.go:567-591 | each raw answer is exactly one of malformed, self-target, duplicate, retained and cut, and the reported counts are theirs |
| `DnsAnswers.SRVRoundTrip` | internal/dns/resolver.go:257-285 | formatting an SRV answer and parsing it back loses nothing |
| `JsonText.SurvivesIffValid` | internal/dns/run.go:736-740 | a string survives being stored exactly when it is valid UTF-8 |
| `JsonText.ValidMeans` | internal/dns/run.go:736-740 | valid texts are the encodings of sequences of Unicode scalar values |
| `DnsReplay.ReplayExact` | internal/dns/run.go:718-760 | a stored result is served exactly when it completed untruncated and its texts still fit, and what is then served |
| `DnsReplay.ReplayIffValid` | internal/dns/cache.go:47-50 | it is served unchanged exactly when it also is all valid UTF-8 |
| `DnsReplay.InvalidTextChanges` | internal/dns/cache.go:47-50 | a TXT record that is served back changed |
| `DnsReplay.NothingPartialServed` | internal/dns/cache.go:153-176 | no truncated, failed, timed-out or cancelled result is ever served |
| `DnsOutcomes.QuestionTells` | internal/dns/run.go:445-560 | what a question not in the cache is reported as: completed exactly when the resolver answers or knows no such name, NXDOMAIN exactly in the latter case, timed out, cancelled and failed each for its own errors; one query exactly when the resolver is reached |
| `DnsOutcomes.FailureIsAskedAgain` | internal/dns/run.go:445-483 | after any other reply the cache serves nothing for the question, and it is asked again |
| `DnsOutcomes.DoneAsksNothing` | internal/dns/run.go:363-369 | once the context is done not even the cache is asked |
| `DnsOutcomes.ServedIsWellFormed` | internal/dns/cache.go:83-151 | whatever is in the cache, only a completed record of this operation, host and type is served, with canonical answers that its type can have |
| `DnsOutcomes.StoredStatus` | internal/dns/run.go:718-760 | what is stored is completed exactly when nothing was cut and the query completed, and touches no other entry |
| `DnsOutcomes.AnswersReported` | internal/dns/run.go:567-709 | the answers of each record type that are reported: all that were given but the host itself, or the 64 smallest by name and port |
| `DnsOutcomes.MalformedMeans` | internal/dns/run.go:567-709 | the malformed count is the number of answers that stand for nothing |
| `DnsHosts.CollectTargets` | internal/dns/run.go:407-427 | the nested loops and the sort compute the closure targets |
| `DnsHosts.ClosureMeans` | internal/dns/run.go:398-427 | they are the distinct non-self targets of completed host-target answers, in name order |
| `DnsHosts.ResolveHostLoop` | internal/dns/run.go:359-391 | the loops, down to the answers of each query, compute the run over the host's types and its targets' addresses |
| `DnsOutcomes.QuestionsAsked` | internal/dns/run.go:40-50 | the questions of a host: its seven types, then A and AAAA of each other name that a completed CNAME, MX, NS or SRV result names, in name order |
| `DnsOutcomes.RunTells` | internal/dns/run.go:359-391 | from an empty cache each of them is reported as its own reply says |
| `DnsOutcomes.FailureCostsAQuery` | internal/dns/run.go:359-391 | and one that failed, timed out or was cancelled makes a later run issue a query |
| `DnsHosts.RunCovers` | internal/dns/run.go:445-483 | what every question of a run finds in the cache the run leaves, and when nothing, with any write failing |
| `DnsHosts.ResolvedAgain` | internal/dns/run.go:352-391 | with every question found, resolving again issues no query and gives what is served, whatever the resolver would say |
| `DnsHosts.NoQueryIff` | internal/dns/run.go:352-391 | resolving again issues no query exactly when every result was cached, or was stored and completed uncut with texts that still fit |
| `DnsAssembly.Assemble` | internal/dns/run.go:783-834 | the loop computes the merged assets and the sorted edges |
| `DnsAssembly.EdgesAreObserved` | internal/dns/run.go:759-782 | the edges are exactly the retained answers of completed queries, once each, in identity order |
| `DnsAssembly.EdgeMeans` | internal/dns/run.go:783-834 | an edge is assembled exactly when a completed result of its type has its end: addresses for A and AAAA, and one kind each for CNAME, MX, NS and SRV |
| `DnsAssembly.AddressesAreObserved` | internal/dns/run.go:759-782 | the addresses are exactly those observed, one asset each |
| `DnsAssembly.TargetsAreObserved` | internal/dns/run.go:783-834 | the targets are exactly the names that completed CNAME, MX, NS and SRV results hold |
| `DnsAssembly.MergedNames` | internal/dns/observe.go:222-256 | one asset per name in name order and no name lost |
| `DnsAssembly.MergedEarliest` | internal/dns/observe.go:222-256 | each asset carries the earliest provenance of its name |
| `DnsAssembly.ReplayedHostAssemblesAlike` | internal/dns/run.go:352-391 | a replayed host yields the same addresses, targets and edges without a query, whether its texts are valid UTF-8 or not |

## Left out

- Progress reports, metrics, logs, emit hooks, error texts and diagnostics of every
  stage; the CLI, configuration, HTTP, external tools and report rendering.
- The bodies of detectors, `net/url.Parse`, `netip`, host normalisation, JSON and
  SHA-256: parameters or free constructors, with the laws the code relies on as
  preconditions; of JSON, what it does to texts and times is modelled. Infinite
  provenance confidences, which JSON cannot write, are not.
- `normalizeSnapshot` and the corpus merges of scripts, technologies and
  endpoints, whose tie-breaks are neither symmetric nor associative.
- The rejection of a rule without a detector: a modelled rule always has one.
- What a detector may read of a corpus beyond its fingerprint, such as a chunk
  script's fragment or provenance times; the bounds on corpora and configurations.
- The worker pool's own queue and goroutines: a submitted job is taken and started
  once, ended unrun when its deadline passes first, or dropped after cancellation.
- Cache reads that fail, and entries that expire, between two resolutions of a host.
- Timeouts of detectors: a detector returns findings or fails, as a function of what
  it may read.
- Wall-clock effects: fsync durability, grace periods as durations, late timers, and
  the rounding of token waits to whole nanoseconds and of the budget's quotient in
  floating point.
- Cache paths other than one key's, directory creation, and other processes that
  write valid entries into the same directory: the mutex is per process.
- Which provenance survives among evidence or assets of one identity observed at one
  time.
