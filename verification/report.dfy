/** The run report: status counts and the aggregate outcome
    (internal/detect/engine.go, buildReport). */
module Reports {
  import opened Order
  import opened Merging
  import opened Findings
  import opened Retention

  datatype RunOutcome = RunCompleted | RunIncomplete | RunFailed | RunCancelled

  datatype Report = Report(
    rules: seq<RuleResult>, findings: seq<Finding>, findingsTruncated: bool,
    completed: nat, failed: nat, cancelled: nat, skipped: nat, levels: nat, outcome: RunOutcome)

  /** The rules of a map with a status. */
  ghost function WithStatus(results: map<string, RuleResult>, st: Status): set<string> {
    set id | id in results && results[id].status == st
  }

  /** Cancelled rules win; a cut findings list forces incomplete; failures
      count as incomplete next to completions and as failed alone. */
  ghost function OutcomeFor(results: map<string, RuleResult>, truncated: bool): RunOutcome {
    if WithStatus(results, Cancelled) != {} then RunCancelled
    else if truncated || (WithStatus(results, Failed) != {} && WithStatus(results, Completed) != {}) then RunIncomplete
    else if WithStatus(results, Failed) != {} then RunFailed
    else RunCompleted
  }

  ghost function ListedWith(rs: seq<RuleResult>, st: Status): set<string> {
    set r | r in rs && r.status == st :: r.ruleId
  }

  /** How many of the first i listed results have a status. */
  ghost function CountTo(rs: seq<RuleResult>, i: nat, st: Status): nat
    requires i <= |rs|
  {
    |ListedWith(rs[..i], st)|
  }

  lemma CountNext(rs: seq<RuleResult>, i: nat, st: Status)
    requires i < |rs| && Ascending(StringLess, KeysOf(ResultKey, rs))
    ensures CountTo(rs, i + 1, st) == CountTo(rs, i, st) + (if rs[i].status == st then 1 else 0)
  {
    assert rs[..i + 1] == rs[..i] + [rs[i]];
    ListedAppend(rs[..i], rs[i], st);
    forall r | r in rs[..i] ensures r.ruleId != rs[i].ruleId {
      var j :| 0 <= j < i && rs[j] == r;
      LaterDiffers(rs, j, i);
    }
    assert rs[i].ruleId !in ListedWith(rs[..i], st);
  }

  lemma LaterDiffers(rs: seq<RuleResult>, j: nat, i: nat)
    requires j < i < |rs| && Ascending(StringLess, KeysOf(ResultKey, rs))
    ensures rs[j].ruleId != rs[i].ruleId
  {
    var ks := KeysOf(ResultKey, rs);
    assert StringLess(ks[j], ks[i]);
    StringLessIrreflexive(ks[i]);
  }

  lemma ListedAppend(rs: seq<RuleResult>, r: RuleResult, st: Status)
    ensures ListedWith(rs + [r], st) == ListedWith(rs, st) + (if r.status == st then {r.ruleId} else {})
  {
    forall id ensures id in ListedWith(rs + [r], st) <==> id in ListedWith(rs, st) || (r.status == st && id == r.ruleId) {
      if id in ListedWith(rs, st) {
        var x :| x in rs && x.status == st && x.ruleId == id;
        assert x in rs + [r];
      }
      if r.status == st && id == r.ruleId {
        assert r in rs + [r];
      }
    }
  }

  lemma ListedIsHeld(results: map<string, RuleResult>, rs: seq<RuleResult>, st: Status)
    requires IsResultListing(results, rs)
    ensures ListedWith(rs, st) == WithStatus(results, st)
  {
    forall id | id in WithStatus(results, st) ensures id in ListedWith(rs, st) {
      assert id in Elements(KeysOf(ResultKey, rs));
      var i :| 0 <= i < |rs| && KeysOf(ResultKey, rs)[i] == id;
      assert rs[i] in rs;
    }
  }

  /** Each held result has one of the four statuses. */
  lemma {:induction false} StatusesPartition(results: map<string, RuleResult>)
    ensures |results| == |WithStatus(results, Completed)| + |WithStatus(results, Failed)|
                       + |WithStatus(results, Cancelled)| + |WithStatus(results, Skipped)|
  {
    var c, f, n, k := WithStatus(results, Completed), WithStatus(results, Failed),
                      WithStatus(results, Cancelled), WithStatus(results, Skipped);
    assert results.Keys == c + f + n + k;
    assert c !! f && (c + f) !! n && (c + f + n) !! k;
  }

  lemma NoneListed(rs: seq<RuleResult>)
    ensures forall st :: CountTo(rs, 0, st) == 0
  {
    forall st ensures CountTo(rs, 0, st) == 0 {
      assert ListedWith(rs[..0], st) == {};
    }
  }

  method CountStatuses(rs: seq<RuleResult>) returns (completed: nat, failed: nat, cancelled: nat, skipped: nat)
    requires Ascending(StringLess, KeysOf(ResultKey, rs))
    ensures completed == |ListedWith(rs, Completed)| && failed == |ListedWith(rs, Failed)|
    ensures cancelled == |ListedWith(rs, Cancelled)| && skipped == |ListedWith(rs, Skipped)|
  {
    completed, failed, cancelled, skipped := 0, 0, 0, 0;
    NoneListed(rs);
    for i := 0 to |rs|
      invariant CountsTo(rs, i, completed, failed, cancelled, skipped)
    {
      completed, failed, cancelled, skipped := CountOne(rs, i, completed, failed, cancelled, skipped);
    }
    assert rs[..|rs|] == rs;
  }

  /** The four counts of the first i results. */
  ghost predicate CountsTo(rs: seq<RuleResult>, i: nat, completed: nat, failed: nat, cancelled: nat, skipped: nat) {
    && i <= |rs|
    && completed == CountTo(rs, i, Completed) && failed == CountTo(rs, i, Failed)
    && cancelled == CountTo(rs, i, Cancelled) && skipped == CountTo(rs, i, Skipped)
  }

  method CountOne(rs: seq<RuleResult>, i: nat, c: nat, f: nat, n: nat, k: nat)
    returns (completed: nat, failed: nat, cancelled: nat, skipped: nat)
    requires i < |rs| && Ascending(StringLess, KeysOf(ResultKey, rs))
    requires CountsTo(rs, i, c, f, n, k)
    ensures CountsTo(rs, i + 1, completed, failed, cancelled, skipped)
  {
    completed, failed, cancelled, skipped := c, f, n, k;
    match rs[i].status {
      case Completed => completed := completed + 1;
      case Failed => failed := failed + 1;
      case Cancelled => cancelled := cancelled + 1;
      case Skipped => skipped := skipped + 1;
    }
    CountNext(rs, i, Completed);
    CountNext(rs, i, Failed);
    CountNext(rs, i, Cancelled);
    CountNext(rs, i, Skipped);
  }

  /** Some rule ended so. */
  ghost predicate SomeRule(results: map<string, RuleResult>, st: Status) {
    exists id :: id in results && results[id].status == st
  }

  /** What each outcome says of the rules and of the findings list. */
  lemma OutcomeMeans(results: map<string, RuleResult>, truncated: bool)
    ensures var outcome := OutcomeFor(results, truncated);
      && (outcome == RunCancelled <==> SomeRule(results, Cancelled))
      && (outcome == RunIncomplete <==> (!SomeRule(results, Cancelled)
            && (truncated || (SomeRule(results, Failed) && SomeRule(results, Completed)))))
      && (outcome == RunFailed <==> (!SomeRule(results, Cancelled) && !truncated
            && SomeRule(results, Failed) && !SomeRule(results, Completed)))
      && (outcome == RunCompleted <==> !SomeRule(results, Cancelled) && !truncated && !SomeRule(results, Failed))
  {
    forall st: Status ensures WithStatus(results, st) != {} <==> SomeRule(results, st) {
      if id :| id in results && results[id].status == st {
        assert id in WithStatus(results, st);
      }
      if id :| id in WithStatus(results, st) {
        assert results[id].status == st;
      }
    }
  }

  method BuildReport(acc: ResultAccumulator, levels: nat) returns (rep: Report)
    requires forall id :: id in acc.results ==> acc.results[id].ruleId == id
    ensures IsResultListing(acc.results, rep.rules)
    ensures rep.findings == Sort(ByKey(FindingKey), acc.findings) && rep.findingsTruncated == acc.truncated
    ensures rep.completed == |WithStatus(acc.results, Completed)| && rep.failed == |WithStatus(acc.results, Failed)|
    ensures rep.cancelled == |WithStatus(acc.results, Cancelled)| && rep.skipped == |WithStatus(acc.results, Skipped)|
    ensures rep.completed + rep.failed + rep.cancelled + rep.skipped == |acc.results|
    ensures rep.outcome == OutcomeFor(acc.results, acc.truncated) && rep.levels == levels
  {
    var rs, fs, cut := acc.Snapshot();
    var completed, failed, cancelled, skipped := CountStatuses(rs);
    ListedIsHeld(acc.results, rs, Completed);
    ListedIsHeld(acc.results, rs, Failed);
    ListedIsHeld(acc.results, rs, Cancelled);
    ListedIsHeld(acc.results, rs, Skipped);
    StatusesPartition(acc.results);
    var outcome :=
      if cancelled > 0 then RunCancelled
      else if cut then RunIncomplete
      else if failed > 0 && completed > 0 then RunIncomplete
      else if failed > 0 then RunFailed
      else RunCompleted;
    rep := Report(rs, fs, cut, completed, failed, cancelled, skipped, levels, outcome);
  }
}
