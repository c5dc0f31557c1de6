/** From a valid registry to the levels a run executes
    (internal/detect/engine.go, Run; registry.go). */
module Preparation {
  import opened Order
  import opened Schedule
  import opened Registries
  import opened RuleRecords
  import opened Engine

  function SelectedIds(rules: map<string, Rule>, kinds: set<string>): set<string> {
    set id | id in rules && Selected(rules[id], kinds)
  }

  lemma SelectedMembers(rules: map<string, Rule>, kinds: set<string>)
    ensures forall id :: id in SelectedIds(rules, kinds) <==> id in rules && Selected(rules[id], kinds)
  {
  }

  lemma {:induction false} KeptIds(level: seq<string>, keep: set<string>)
    requires Distinct(level)
    ensures Elements(KeepIds(level, keep)) == Elements(level) * keep && Distinct(KeepIds(level, keep))
  {
    if level != [] {
      var rest := KeepIds(level[1..], keep);
      KeptIds(level[1..], keep);
      assert Elements(level) == {level[0]} + Elements(level[1..]);
      assert level[0] !in level[1..];
      assert Elements([level[0]] + rest) == {level[0]} + Elements(rest);
      assert forall i :: 0 <= i < |rest| ==> rest[i] in Elements(rest);
    }
  }

  /** from says which level each pruned level comes from; no level with a kept
      rule is lost. */
  ghost predicate ComesFrom(pruned: seq<seq<string>>, levels: seq<seq<string>>, keep: set<string>, from: seq<nat>) {
    && |from| == |pruned|
    && (forall k :: 0 <= k < |from| ==> from[k] < |levels| && pruned[k] == KeepIds(levels[from[k]], keep))
    && (forall j, k :: 0 <= j < k < |from| ==> from[j] < from[k])
    && (forall m :: 0 <= m < |levels| && KeepIds(levels[m], keep) != [] ==> m in from)
  }

  lemma {:induction false} PrunedFrom(levels: seq<seq<string>>, keep: set<string>) returns (from: seq<nat>)
    ensures ComesFrom(PruneLevels(levels, keep), levels, keep, from)
  {
    if levels == [] {
      from := [];
    } else {
      var rest := PrunedFrom(levels[1..], keep);
      var pruned := PruneLevels(levels[1..], keep);
      var shifted := Shift(rest);
      ShiftedFrom(pruned, levels, keep, rest, shifted);
      if |KeepIds(levels[0], keep)| > 0 {
        from := [0] + shifted;
        HeadFrom(pruned, levels, keep, shifted);
      } else {
        from := shifted;
      }
    }
  }

  function Shift(from: seq<nat>): (r: seq<nat>)
    ensures |r| == |from| && forall i :: 0 <= i < |r| ==> r[i] == from[i] + 1
  {
    seq(|from|, i requires 0 <= i < |from| => from[i] + 1)
  }

  lemma ShiftedFrom(pruned: seq<seq<string>>, levels: seq<seq<string>>, keep: set<string>, rest: seq<nat>, shifted: seq<nat>)
    requires levels != [] && ComesFrom(pruned, levels[1..], keep, rest) && shifted == Shift(rest)
    ensures |shifted| == |pruned|
    ensures forall k :: 0 <= k < |shifted| ==> 0 < shifted[k] < |levels| && pruned[k] == KeepIds(levels[shifted[k]], keep)
    ensures forall j, k :: 0 <= j < k < |shifted| ==> shifted[j] < shifted[k]
    ensures forall m :: 0 < m < |levels| && KeepIds(levels[m], keep) != [] ==> m in shifted
  {
    forall m | 0 < m < |levels| && KeepIds(levels[m], keep) != [] ensures m in shifted {
      assert levels[1..][m - 1] == levels[m];
      var i :| 0 <= i < |rest| && rest[i] == m - 1;
      assert shifted[i] == m;
    }
  }

  lemma HeadFrom(pruned: seq<seq<string>>, levels: seq<seq<string>>, keep: set<string>, shifted: seq<nat>)
    requires levels != [] && |shifted| == |pruned|
    requires forall k :: 0 <= k < |shifted| ==> 0 < shifted[k] < |levels| && pruned[k] == KeepIds(levels[shifted[k]], keep)
    requires forall j, k :: 0 <= j < k < |shifted| ==> shifted[j] < shifted[k]
    requires forall m :: 0 < m < |levels| && KeepIds(levels[m], keep) != [] ==> m in shifted
    ensures ComesFrom([KeepIds(levels[0], keep)] + pruned, levels, keep, [0] + shifted)
  {
    var from := [0] + shifted;
    forall m | 0 <= m < |levels| && KeepIds(levels[m], keep) != [] ensures m in from {
      assert from[0] == 0;
    }
  }

  /** levels is a schedule of all the rules. */
  ghost predicate IsSchedule(g: Graph, levels: seq<seq<string>>) {
    IsLevels(g, levels) && Below(g, |levels|) == g.Keys
  }

  lemma LevelDistinct(g: Graph, levels: seq<seq<string>>, k: nat)
    requires IsSchedule(g, levels) && k < |levels|
    ensures Distinct(levels[k]) && forall id :: id in levels[k] ==> id in g
  {
    var level := levels[k];
    BelowMonotone(g, k);
    assert Elements(level) <= Below(g, k + 1);
    forall i, j | 0 <= i < j < |level| ensures level[i] != level[j] {
      assert StringLess(level[i], level[j]);
      StringLessIrreflexive(level[i]);
    }
    forall id | id in level ensures id in g {
      assert id in Elements(level);
    }
  }

  lemma OneLevel(g: Graph, levels: seq<seq<string>>, k: nat, m: nat, id: string)
    requires AllRegistered(g) && IsSchedule(g, levels) && k < m < |levels| && id in levels[k]
    ensures id !in levels[m]
  {
    LevelDistinct(g, levels, k);
    LevelsPartition(g, levels, id);
  }

  lemma DependencyEarlier(g: Graph, levels: seq<seq<string>>, k: nat, m: nat, id: string, d: string)
    requires AllRegistered(g) && IsSchedule(g, levels) && k <= m < |levels| && id in levels[k] && id in g && d in g[id]
    ensures d !in levels[m]
  {
    LevelsPartition(g, levels, id);
    var n :| 0 <= n < k && d in levels[n];
    OneLevel(g, levels, n, m, d);
  }

  lemma KeptMember(levels: seq<seq<string>>, keep: set<string>, k: nat, id: string)
    requires k < |levels| && Distinct(levels[k])
    ensures id in KeepIds(levels[k], keep) <==> id in levels[k] && id in keep
  {
    KeptIds(levels[k], keep);
    assert id in Elements(KeepIds(levels[k], keep)) <==> id in KeepIds(levels[k], keep);
    assert id in Elements(levels[k]) <==> id in levels[k];
  }

  /** What a rule of a pruned level is. */
  lemma PrunedMember(g: Graph, schedule: seq<seq<string>>, keep: set<string>, levels: seq<seq<string>>, from: seq<nat>, k: nat, id: string)
    requires IsSchedule(g, schedule) && ComesFrom(levels, schedule, keep, from) && k < |levels|
    ensures id in levels[k] <==> id in schedule[from[k]] && id in keep
    ensures Distinct(levels[k])
  {
    LevelDistinct(g, schedule, from[k]);
    KeptMember(schedule, keep, from[k], id);
    KeptIds(schedule[from[k]], keep);
  }

  lemma KeptSomewhere(g: Graph, schedule: seq<seq<string>>, keep: set<string>, levels: seq<seq<string>>, from: seq<nat>, id: string)
    requires AllRegistered(g) && IsSchedule(g, schedule) && ComesFrom(levels, schedule, keep, from) && id in keep && id in g
    ensures exists k :: 0 <= k < |levels| && id in levels[k]
  {
    LevelsPartition(g, schedule, id);
    var m :| 0 <= m < |schedule| && id in schedule[m];
    LevelDistinct(g, schedule, m);
    KeptMember(schedule, keep, m, id);
    var k :| 0 <= k < |from| && from[k] == m;
    assert id in levels[k];
  }

  lemma PrunedOnce(g: Graph, schedule: seq<seq<string>>, keep: set<string>, levels: seq<seq<string>>, from: seq<nat>,
                   k: nat, m: nat, id: string)
    requires AllRegistered(g) && IsSchedule(g, schedule) && ComesFrom(levels, schedule, keep, from)
    requires k < m < |levels| && id in levels[k]
    ensures id !in levels[m]
  {
    PrunedMember(g, schedule, keep, levels, from, k, id);
    PrunedMember(g, schedule, keep, levels, from, m, id);
    OneLevel(g, schedule, from[k], from[m], id);
  }

  lemma PrunedEarlier(g: Graph, schedule: seq<seq<string>>, keep: set<string>, levels: seq<seq<string>>, from: seq<nat>,
                      k: nat, m: nat, id: string, d: string)
    requires AllRegistered(g) && IsSchedule(g, schedule) && ComesFrom(levels, schedule, keep, from)
    requires k <= m < |levels| && id in levels[k] && id in g && d in g[id]
    ensures d !in levels[m]
  {
    PrunedMember(g, schedule, keep, levels, from, k, id);
    PrunedMember(g, schedule, keep, levels, from, m, d);
    DependencyEarlier(g, schedule, from[k], from[m], id, d);
  }

  lemma PrunedOrder(g: Graph, schedule: seq<seq<string>>, keep: set<string>, levels: seq<seq<string>>, from: seq<nat>)
    requires AllRegistered(g) && IsSchedule(g, schedule) && ComesFrom(levels, schedule, keep, from)
    ensures forall k, id :: 0 <= k < |levels| && id in levels[k] ==> id in g && id in keep
    ensures forall k :: 0 <= k < |levels| ==> Distinct(levels[k])
    ensures forall k, m, id :: 0 <= k < m < |levels| && id in levels[k] ==> id !in levels[m]
    ensures forall k, m, id, d :: 0 <= k <= m < |levels| && id in levels[k] && id in g && d in g[id] ==> d !in levels[m]
  {
    forall k, id | 0 <= k < |levels| && id in levels[k] ensures id in g && id in keep {
      PrunedMember(g, schedule, keep, levels, from, k, id);
      LevelDistinct(g, schedule, from[k]);
    }
    forall k | 0 <= k < |levels| ensures Distinct(levels[k]) {
      PrunedMember(g, schedule, keep, levels, from, k, "");
    }
    forall k, m, id | 0 <= k < m < |levels| && id in levels[k] ensures id !in levels[m] {
      PrunedOnce(g, schedule, keep, levels, from, k, m, id);
    }
    forall k, m, id, d | 0 <= k <= m < |levels| && id in levels[k] && id in g && d in g[id] ensures d !in levels[m] {
      PrunedEarlier(g, schedule, keep, levels, from, k, m, id, d);
    }
  }

  lemma LeveledSetup(s: Setup, g: Graph, keep: set<string>)
    requires g == GraphOf(s.rules)
    requires forall id :: id in keep <==> id in s.rules && Selected(s.rules[id], s.kinds)
    requires forall id :: id in s.rules ==> s.rules[id].id == id
    requires forall k, id :: 0 <= k < |s.levels| && id in s.levels[k] ==> id in g && id in keep
    requires forall k :: 0 <= k < |s.levels| ==> Distinct(s.levels[k])
    requires forall k, m, id :: 0 <= k < m < |s.levels| && id in s.levels[k] ==> id !in s.levels[m]
    requires forall k, m, id, d :: 0 <= k <= m < |s.levels| && id in s.levels[k] && id in g && d in g[id] ==> d !in s.levels[m]
    requires forall id :: id in keep ==> exists k :: 0 <= k < |s.levels| && id in s.levels[k]
    ensures WellLeveled(s)
  {
    forall k, m, id, d | 0 <= k <= m < |s.levels| && id in s.levels[k] && d in s.rules[id].dependencies ensures d !in s.levels[m] {
      assert d in g[id];
    }
  }

  /** The run's levels list the selected rules once each, and no rule depends
      on its own level or a later one. */
  lemma RunIsWellLeveled(s: Setup, schedule: seq<seq<string>>)
    requires forall id :: id in s.rules ==> s.rules[id].id == id
    requires AllRegistered(GraphOf(s.rules)) && IsSchedule(GraphOf(s.rules), schedule)
    requires s.levels == PruneLevels(schedule, SelectedIds(s.rules, s.kinds))
    ensures WellLeveled(s)
  {
    var g, keep := GraphOf(s.rules), SelectedIds(s.rules, s.kinds);
    var from := PrunedFrom(schedule, keep);
    PrunedOrder(g, schedule, keep, s.levels, from);
    forall id | id in keep ensures exists k :: 0 <= k < |s.levels| && id in s.levels[k] {
      KeptSomewhere(g, schedule, keep, s.levels, from, id);
    }
    SelectedMembers(s.rules, s.kinds);
    LeveledSetup(s, g, keep);
  }
}
