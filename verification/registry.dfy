/** Rules and their registration (internal/detect/rule.go, registry.go). */
module Registries {
  import opened Wrappers
  import opened Text
  import opened Order
  import opened Identities
  import opened Schedule

  const MAX_RULES := 4096

  datatype Rule = Rule(
    id: string, name: string, description: string, category: string, version: string,
    inputs: seq<string>, outputs: seq<string>, dependencies: seq<string>, kinds: seq<string>,
    cost: string, timeout: int, author: string, enabled: bool)

  const CATEGORIES: set<string> := {
    "information", "misconfiguration", "exposure", "authentication", "authorization", "configuration", "discovery",
    "cloud", "api", "javascript", "secrets", "infrastructure", "business_logic", "custom" }
  const INPUTS: set<string> := {
    "assets", "relationships", "evidence", "technology", "secrets", "javascript", "endpoints" }
  const OUTPUTS: set<string> := {"findings"}
  const COSTS: set<string> := {"low", "medium", "high"}

  const MAX_RULE_TIMEOUT := 600 * 1000000000

  predicate IsSlugChar(c: char) {
    'a' <= c <= 'z' || '0' <= c <= '9' || c == '.' || c == '-' || c == '_'
  }

  /** validateRuleID. */
  predicate IsRuleId(id: string) {
    0 < |id| <= 128 && forall i :: 0 <= i < |id| ==> IsSlugChar(id[i])
  }

  /** validateRuleVersion: three numerals of at most nine digits. */
  predicate IsVersion(v: string) {
    && 0 < |v| <= 32 && |Split(v, '.')| == 3
    && forall i :: 0 <= i < 3 ==> 0 < |Split(v, '.')[i]| <= 9 && AllDigits(Split(v, '.')[i])
  }

  /** A list without repetitions from a vocabulary. */
  predicate Lists(s: seq<string>, vocabulary: set<string>) {
    (forall i :: 0 <= i < |s| ==> s[i] in vocabulary) && Distinct(s)
  }

  /** The checks of ValidateRule, in its order; a rule always has a detector. */
  datatype Check = Id | Texts | Category | Version | Inputs | Outputs | Dependencies | Kinds | Cost | Timeout

  predicate Satisfies(r: Rule, check: Check) {
    match check
    case Id => IsRuleId(r.id)
    case Texts => 0 < |r.name| <= 256 && 0 < |r.description| <= 1024 && 0 < |r.author| <= 128
    case Category => r.category in CATEGORIES
    case Version => IsVersion(r.version)
    case Inputs => r.inputs != [] && Lists(r.inputs, INPUTS)
    case Outputs => r.outputs != [] && Lists(r.outputs, OUTPUTS)
    case Dependencies =>
      && |r.dependencies| <= 16 && r.id !in r.dependencies && Distinct(r.dependencies)
      && forall i :: 0 <= i < |r.dependencies| ==> IsRuleId(r.dependencies[i])
    case Kinds => forall i :: 0 <= i < |r.kinds| ==> r.kinds[i] in KINDS
    case Cost => r.cost in COSTS
    case Timeout => 0 < r.timeout <= MAX_RULE_TIMEOUT
  }

  predicate WellFormed(r: Rule) {
    forall check: Check :: Satisfies(r, check)
  }

  function LowerChar(c: char): char {
    if 'A' <= c <= 'Z' then (c as int + 32) as char else c
  }

  /** lowerASCII, the duplicate-name fold. */
  function Lower(s: string): (r: string)
    ensures |r| == |s| && forall i :: 0 <= i < |s| ==> r[i] == LowerChar(s[i])
  {
    seq(|s|, i requires 0 <= i < |s| => LowerChar(s[i]))
  }

  datatype RegisterError = Sealed | Invalid | Full | DuplicateId | DuplicateName(owner: string)

  datatype ValidateError = Unregistered(rule: string, dependency: string) | Cyclic(smallest: string)

  function GraphOf(rules: map<string, Rule>): (g: Graph)
    ensures g.Keys == rules.Keys
  {
    map id | id in rules :: rules[id].dependencies
  }

  ghost predicate Filed(rules: map<string, Rule>) {
    forall id :: id in rules ==> rules[id].id == id && WellFormed(rules[id])
  }

  lemma IdNotEmpty(r: Rule)
    requires WellFormed(r)
    ensures r.id != ""
  {
    assert Satisfies(r, Id);
  }

  lemma NoEmptyId(rules: map<string, Rule>)
    requires Filed(rules)
    ensures "" !in rules
  {
    forall id | id in rules ensures id != "" {
      IdNotEmpty(rules[id]);
    }
  }

  lemma FiledRule(rules: map<string, Rule>, rule: Rule)
    requires Filed(rules) && WellFormed(rule)
    ensures Filed(rules[rule.id := rule])
  {
  }

  ghost predicate Owns(rules: map<string, Rule>, names: map<string, string>) {
    && (forall id :: id in rules ==> Lower(rules[id].name) in names && names[Lower(rules[id].name)] == id)
    && (forall n :: n in names ==> names[n] in rules && Lower(rules[names[n]].name) == n)
  }

  /** A registered rule has the name, whatever its ASCII case. */
  ghost predicate NameTaken(rules: map<string, Rule>, name: string) {
    exists id :: id in rules && Lower(rules[id].name) == Lower(name)
  }

  lemma TakenMeans(rules: map<string, Rule>, names: map<string, string>, name: string)
    requires Owns(rules, names)
    ensures NameTaken(rules, name) <==> Lower(name) in names
  {
  }

  lemma AddedRule(rules: map<string, Rule>, names: map<string, string>, rule: Rule)
    requires Owns(rules, names) && rule.id !in rules && Lower(rule.name) !in names
    ensures Owns(rules[rule.id := rule], names[Lower(rule.name) := rule.id])
    ensures |rules[rule.id := rule]| == |rules| + 1
  {
    assert rules[rule.id := rule].Keys == rules.Keys + {rule.id};
    assert |rules[rule.id := rule]| == |rules[rule.id := rule].Keys| && |rules| == |rules.Keys|;
  }

  class Registry {
    var rules: map<string, Rule>
    var names: map<string, string>
    var readonly: bool

    /** Rules are filed under their own id, and names owns exactly their
        folded names. */
    ghost predicate Valid()
      reads this
    {
      |rules| <= MAX_RULES && Filed(rules) && Owns(rules, names)
    }

    constructor ()
      ensures Valid() && rules == map[] && !readonly
    {
      rules, names, readonly := map[], map[], false;
    }

    /** Each rejection leaves the registry as it was; an accepted rule is
        added under its id and no other rule changes. */
    method Register(rule: Rule) returns (err: Option<RegisterError>)
      requires Valid()
      modifies this
      ensures Valid() && readonly == old(readonly)
      ensures rules == if err.None? then old(rules)[rule.id := rule] else old(rules)
      ensures err.None? <==>
        !readonly && WellFormed(rule) && |old(rules)| < MAX_RULES && rule.id !in old(rules) && !NameTaken(old(rules), rule.name)
      ensures err == Some(Sealed) <==> readonly
      ensures err == Some(Invalid) <==> !readonly && !WellFormed(rule)
      ensures err == Some(Full) <==> !readonly && WellFormed(rule) && |old(rules)| == MAX_RULES
      ensures err == Some(DuplicateId) <==>
        !readonly && WellFormed(rule) && |old(rules)| < MAX_RULES && rule.id in old(rules)
      ensures err.Some? && err.value.DuplicateName? ==>
        err.value.owner in rules && Lower(rules[err.value.owner].name) == Lower(rule.name)
    {
      if readonly {
        return Some(Sealed);
      }
      if !WellFormed(rule) {
        return Some(Invalid);
      }
      if |rules| >= MAX_RULES {
        return Some(Full);
      }
      if rule.id in rules {
        return Some(DuplicateId);
      }
      var nameKey := Lower(rule.name);
      TakenMeans(rules, names, rule.name);
      if nameKey in names {
        return Some(DuplicateName(names[nameKey]));
      }
      FiledRule(rules, rule);
      AddedRule(rules, names, rule);
      rules := rules[rule.id := rule];
      names := names[nameKey := rule.id];
      return None;
    }

    /** Once sealed, every later Register is rejected. */
    method Seal()
      requires Valid()
      modifies this
      ensures Valid() && readonly && rules == old(rules)
    {
      readonly := true;
    }

    /** Validate; order is the one in which the runtime visits the map of rules.
        There is no error exactly when every dependency is registered and the graph
        is acyclic; a missing dependency is reported first. */
    method Validate(order: seq<string>) returns (err: Option<ValidateError>)
      requires Valid() && IsOrder(rules, order)
      ensures err.None? <==> AllRegistered(GraphOf(rules)) && !Schedule.Cyclic(GraphOf(rules))
      ensures err.Some? && err.value.Unregistered? <==> !AllRegistered(GraphOf(rules))
      ensures FirstOffence(rules, order).Some? ==> err == FirstOffence(rules, order)
      ensures err.Some? && err.value.Cyclic? ==>
        err.value.smallest in rules && ReachesCycle(GraphOf(rules), err.value.smallest)
        && forall id :: id in rules && ReachesCycle(GraphOf(rules), id) ==> !StringLess(id, err.value.smallest)
    {
      err := FindOffence(order);
      OffenceMeans(rules, order);
      if err.Some? {
        return;
      }
      NoEmptyId(rules);
      var levels := ScheduleLevels(GraphOf(rules));
      match levels {
        case Ok(_) => return None;
        case Err(Cycle(smallest)) => return Some(ValidateError.Cyclic(smallest));
      }
    }

    /** The loop over the rules. */
    method FindOffence(order: seq<string>) returns (err: Option<ValidateError>)
      requires IsOrder(rules, order)
      ensures err == FirstOffence(rules, order)
    {
      for i := 0 to |order|
        invariant FirstOffence(rules, order) == FirstOffence(rules, order[i..])
      {
        assert order[i] in Elements(order) && order[i..][1..] == order[i + 1..];
        var missing := FindUnregistered(rules[order[i]].dependencies);
        if missing.Some? {
          return Some(Unregistered(order[i], missing.value));
        }
      }
      return None;
    }

    method FindUnregistered(deps: seq<string>) returns (missing: Option<string>)
      ensures missing == FirstUnregistered(rules, deps)
    {
      for i := 0 to |deps|
        invariant FirstUnregistered(rules, deps) == FirstUnregistered(rules, deps[i..])
      {
        assert deps[i..][1..] == deps[i + 1..];
        if deps[i] !in rules {
          return Some(deps[i]);
        }
      }
      return None;
    }
  }

  // ----- which missing dependency is named

  ghost predicate IsOrder(rules: map<string, Rule>, order: seq<string>) {
    Distinct(order) && Elements(order) == rules.Keys
  }

  function FirstUnregistered(rules: map<string, Rule>, deps: seq<string>): Option<string> {
    if deps == [] then None
    else if deps[0] !in rules then Some(deps[0])
    else FirstUnregistered(rules, deps[1..])
  }

  /** What the first loop of Validate reports. */
  function FirstOffence(rules: map<string, Rule>, order: seq<string>): Option<ValidateError> {
    if order == [] then None
    else if order[0] in rules && FirstUnregistered(rules, rules[order[0]].dependencies).Some? then
      Some(Unregistered(order[0], FirstUnregistered(rules, rules[order[0]].dependencies).value))
    else FirstOffence(rules, order[1..])
  }

  /** The rule depends on one that is not registered. */
  predicate Offends(rules: map<string, Rule>, id: string) {
    id in rules && exists d :: d in rules[id].dependencies && d !in rules
  }

  lemma {:induction false} UnregisteredMeans(rules: map<string, Rule>, deps: seq<string>)
    ensures FirstUnregistered(rules, deps).Some? <==> exists d :: d in deps && d !in rules
    ensures FirstUnregistered(rules, deps).Some? ==>
      FirstUnregistered(rules, deps).value in deps && FirstUnregistered(rules, deps).value !in rules
  {
    if deps != [] {
      UnregisteredMeans(rules, deps[1..]);
      assert deps == [deps[0]] + deps[1..];
    }
  }

  lemma {:induction false} FirstOffends(rules: map<string, Rule>, order: seq<string>)
    ensures FirstOffence(rules, order).Some? <==> exists id :: id in order && Offends(rules, id)
    ensures FirstOffence(rules, order).Some? ==> var e := FirstOffence(rules, order).value;
      e.Unregistered? && e.rule in order && Offends(rules, e.rule)
  {
    if order != [] {
      FirstOffends(rules, order[1..]);
      assert order == [order[0]] + order[1..];
      if order[0] in rules {
        UnregisteredMeans(rules, rules[order[0]].dependencies);
      }
      if FirstOffence(rules, order).None? {
        forall id | id in order ensures !Offends(rules, id) {
          assert id == order[0] || id in order[1..];
        }
      } else {
        assert order[0] in order && forall id :: id in order[1..] ==> id in order;
        assert FirstOffence(rules, order).value.rule in order && Offends(rules, FirstOffence(rules, order).value.rule);
      }
    }
  }

  lemma OffenceMeans(rules: map<string, Rule>, order: seq<string>)
    requires IsOrder(rules, order)
    ensures FirstOffence(rules, order).None? <==> AllRegistered(GraphOf(rules))
    ensures FirstOffence(rules, order).Some? ==> FirstOffence(rules, order).value.Unregistered?
  {
    FirstOffends(rules, order);
    forall id | Offends(rules, id) ensures id in order {
      assert id in Elements(order);
    }
    var g := GraphOf(rules);
    assert forall id :: id in g ==> g[id] == rules[id].dependencies;
  }

  /** The rule named when id is visited first, if it offends. */
  lemma VisitedFirst(rules: map<string, Rule>, id: string) returns (order: seq<string>)
    requires Offends(rules, id)
    ensures IsOrder(rules, order) && FirstOffence(rules, order).Some?
    ensures FirstOffence(rules, order).value.Unregistered? && FirstOffence(rules, order).value.rule == id
  {
    var rest := InOrder(rules.Keys - {id});
    order := [id] + rest;
    assert id !in rest by {
      assert id !in Elements(rest);
    }
    AscendingIsDistinct(rest);
    assert Elements(order) == {id} + Elements(rest);
    UnregisteredMeans(rules, rules[id].dependencies);
  }

  /** The rule named is the smallest offender. */
  ghost predicate NamesSmallest(rules: map<string, Rule>, order: seq<string>) {
    FirstOffence(rules, order).Some? && FirstOffence(rules, order).value.Unregistered?
    && forall id :: Offends(rules, id) ==> !StringLess(id, FirstOffence(rules, order).value.rule)
  }

  /** Validate promises to name the smallest offending rule, whatever the order of
      the map: it does exactly when one rule at most offends. */
  lemma SmallestNamedIff(rules: map<string, Rule>)
    ensures (forall order :: IsOrder(rules, order) && FirstOffence(rules, order).Some? ==> NamesSmallest(rules, order))
       <==> forall a, b :: Offends(rules, a) && Offends(rules, b) ==> a == b
  {
    if forall a, b :: Offends(rules, a) && Offends(rules, b) ==> a == b {
      forall order | IsOrder(rules, order) && FirstOffence(rules, order).Some? ensures NamesSmallest(rules, order) {
        FirstOffends(rules, order);
        StringLessIrreflexive(FirstOffence(rules, order).value.rule);
      }
    }
    if a, b :| Offends(rules, a) && Offends(rules, b) && a != b {
      StringLessConnected(a, b);
      var order := VisitedFirst(rules, if StringLess(a, b) then b else a);
      assert !NamesSmallest(rules, order);
    }
  }

  /** No two registered rules share a name, whatever its ASCII case. */
  lemma NamesUnique(r: Registry, a: string, b: string)
    requires r.Valid() && a in r.rules && b in r.rules
    requires Lower(r.rules[a].name) == Lower(r.rules[b].name)
    ensures a == b
  {
    assert r.names[Lower(r.rules[a].name)] == a;
  }
}
