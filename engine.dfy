/** The rule engine: a registry of executable rules keyed by their metadata ID, and the execution
    counters `EvaluateEvent` updates as it runs every registered rule on one event. */
module Engine {
  import opened Wrappers
  import opened Tally
  import opened Entity
  import opened Conditions
  import opened Rules

  /** What the engine reports for a rule that matched. */
  datatype RuleResult = RuleResult(ruleId: string, ruleName: string, severity: string, category: string, matched: bool)

  /** The engine's own counters (the `RuleMetrics` struct of the engine; the per-rule statistics
      collector of the same name is `RuleStats.RuleMetrics`). */
  datatype EngineMetrics = EngineMetrics(
    totalExecutions: int,
    matchedExecutions: int,
    executionTimes: seq<real>,
    ruleMatchCounts: map<string, int>)

  /** The result reported for a matching rule with this metadata. */
  function ResultFor(md: RuleMetadata): (r: RuleResult)
    ensures r.matched
    ensures r.ruleId == md.id && r.ruleName == md.name
    ensures r.severity == md.severity && r.category == md.category
  {
    RuleResult(md.id, md.name, md.severity, md.category, true)
  }

  /** Every object the rules of a registry read when evaluated. */
  function RulesFootprint(rules: map<string, Rule>): set<object> {
    set id | id in rules && rules[id].Composite? :: rules[id].composite as object
  }

  /** The IDs of the registered rules that match `e`. */
  function Matching(rules: map<string, Rule>, e: SecurityEvent, re: RegexEngine): set<string>
    reads RulesFootprint(rules)
  {
    set id | id in rules && EvaluateRule(rules[id], e, re)
  }

  class RuleEngine {
    var rules: map<string, Rule>
    var totalExecutions: int
    var matchedExecutions: int
    var executionTimes: seq<real>
    var ruleMatchCounts: map<string, int>

    /** Every rule is filed under its own metadata ID; matches never exceed executions; the matched
        counter is the sum of the per-rule match counts. */
    ghost predicate Valid()
      reads this
    {
      (forall id :: id in rules ==> GetMetadata(rules[id]).id == id)
      && 0 <= matchedExecutions <= totalExecutions
      && matchedExecutions == Sum(ruleMatchCounts)
    }

    /** `NewEngine`: no rules, zero counters. */
    constructor ()
      ensures Valid()
      ensures rules == map[] && ruleMatchCounts == map[] && executionTimes == []
      ensures totalExecutions == 0 && matchedExecutions == 0
    {
      rules := map[];
      totalExecutions := 0;
      matchedExecutions := 0;
      executionTimes := [];
      ruleMatchCounts := map[];
    }

    /** Files the rule under its metadata ID, replacing any rule with that ID. */
    method AddRule(rule: Rule)
      requires Valid()
      modifies this
      ensures Valid()
      ensures rules == old(rules)[GetMetadata(rule).id := rule]
      ensures GetRuleById(GetMetadata(rule).id) == Some(rule)
      ensures forall id :: id != GetMetadata(rule).id ==> GetRuleById(id) == old(GetRuleById(id))
      ensures totalExecutions == old(totalExecutions) && matchedExecutions == old(matchedExecutions)
      ensures ruleMatchCounts == old(ruleMatchCounts) && executionTimes == old(executionTimes)
    {
      rules := rules[GetMetadata(rule).id := rule];
    }

    /** Deletes the rule with that ID; an absent ID changes nothing. */
    method RemoveRule(ruleId: string)
      requires Valid()
      modifies this
      ensures Valid()
      ensures rules == old(rules) - {ruleId}
      ensures GetRuleById(ruleId) == None
      ensures ruleId !in old(rules) ==> rules == old(rules)
      ensures totalExecutions == old(totalExecutions) && matchedExecutions == old(matchedExecutions)
      ensures ruleMatchCounts == old(ruleMatchCounts) && executionTimes == old(executionTimes)
    {
      rules := rules - {ruleId};
    }

    /** `GetRuleByID`: the rule and `true` exactly when the ID is registered. */
    function GetRuleById(ruleId: string): (r: Option<Rule>)
      reads this
      ensures r.Some? <==> ruleId in rules
      ensures r.Some? ==> r.value == rules[ruleId]
    {
      if ruleId in rules then Some(rules[ruleId]) else None
    }

    /** `GetMetrics`: a snapshot of the counters without the execution times. */
    function GetMetrics(): (m: EngineMetrics)
      reads this
      ensures m.totalExecutions == totalExecutions && m.matchedExecutions == matchedExecutions
      ensures m.ruleMatchCounts == ruleMatchCounts && m.executionTimes == []
      ensures Valid() ==> 0 <= m.matchedExecutions <= m.totalExecutions
      ensures Valid() ==> m.matchedExecutions == Sum(m.ruleMatchCounts)
    {
      EngineMetrics(totalExecutions, matchedExecutions, [], ruleMatchCounts)
    }

    /** Runs every registered rule once, in an unspecified order, and returns one result per
        matching rule. */
    method EvaluateEvent(e: SecurityEvent, re: RegexEngine) returns (results: seq<RuleResult>)
      requires Valid()
      modifies this
      ensures Valid()
      ensures rules == old(rules) && executionTimes == old(executionTimes)
      ensures totalExecutions == old(totalExecutions) + |rules|
      ensures matchedExecutions == old(matchedExecutions) + |results|
      ensures |results| == |old(Matching(rules, e, re))|
      ensures forall id :: id in old(Matching(rules, e, re)) ==> ResultFor(GetMetadata(old(rules)[id])) in results
      ensures forall r :: r in results ==>
        exists id :: id in old(Matching(rules, e, re)) && r == ResultFor(GetMetadata(old(rules)[id]))
      ensures forall id :: (Get(ruleMatchCounts, id) ==
        Get(old(ruleMatchCounts), id) + (if id in old(Matching(rules, e, re)) then 1 else 0))
    {
      var executed, counts;
      ghost var order;
      ghost var matching := Matching(rules, e, re);
      results, executed, counts, order := RunRules(rules, e, re, ruleMatchCounts);
      ReportsSpec(rules, order, matching);
      SumBumpAll(ruleMatchCounts, order);
      forall id ensures Get(counts, id) == Get(ruleMatchCounts, id) + (if id in matching then 1 else 0) {
        BumpAllDistinct(ruleMatchCounts, order, id);
      }
      totalExecutions := totalExecutions + executed;
      matchedExecutions := matchedExecutions + |results|;
      ruleMatchCounts := counts;
    }
  }

  /** The results reported for the rules filed under `ids`, in that order. */
  function Reports(rs: map<string, Rule>, ids: seq<string>): (r: seq<RuleResult>)
    requires forall i :: 0 <= i < |ids| ==> ids[i] in rs
    ensures |r| == |ids|
    decreases |ids|
  {
    if ids == [] then [] else Reports(rs, ids[..|ids| - 1]) + [ResultFor(GetMetadata(rs[ids[|ids| - 1]]))]
  }

  /** Reporting the matching rules once each, in some order, gives one result per matching rule. */
  lemma {:induction false} ReportsSpec(rs: map<string, Rule>, ids: seq<string>, matching: set<string>)
    requires forall i :: 0 <= i < |ids| ==> ids[i] in rs
    requires Distinct(ids) && forall id :: id in ids <==> id in matching
    ensures |Reports(rs, ids)| == |matching|
    ensures forall id :: id in matching ==> ResultFor(GetMetadata(rs[id])) in Reports(rs, ids)
    ensures forall r :: r in Reports(rs, ids) ==>
      exists id :: id in matching && r == ResultFor(GetMetadata(rs[id]))
  {
    DistinctCard(ids);
    assert matching == set id | id in ids;
    ReportsMembers(rs, ids);
  }

  lemma {:induction false} ReportsMembers(rs: map<string, Rule>, ids: seq<string>)
    requires forall i :: 0 <= i < |ids| ==> ids[i] in rs
    ensures forall id :: id in ids ==> ResultFor(GetMetadata(rs[id])) in Reports(rs, ids)
    ensures forall r :: r in Reports(rs, ids) ==> exists id :: id in ids && r == ResultFor(GetMetadata(rs[id]))
    decreases |ids|
  {
    if ids != [] {
      var front := ids[..|ids| - 1];
      ReportsMembers(rs, front);
      assert forall id :: id in ids ==> id in front || id == ids[|ids| - 1];
      assert forall id :: id in front ==> id in ids;
    }
  }

  /** What the loop of `EvaluateEvent` knows once the rules outside `remaining` have run: `order`
      lists, once each, those of them that matched, and results and counts follow it. */
  ghost predicate Visited(rs: map<string, Rule>, e: SecurityEvent, re: RegexEngine, counts0: map<string, int>,
                          remaining: set<string>, order: seq<string>, results: seq<RuleResult>, counts: map<string, int>)
    reads RulesFootprint(rs)
  {
    remaining <= rs.Keys
    && (forall i :: 0 <= i < |order| ==> order[i] in rs && order[i] !in remaining)
    && Distinct(order)
    && (forall id :: id in rs && id !in remaining ==> (id in order <==> EvaluateRule(rs[id], e, re)))
    && results == Reports(rs, order)
    && counts == BumpAll(counts0, order)
  }

  /** Running the rule filed under `id` keeps `Visited`. */
  lemma VisitOne(rs: map<string, Rule>, e: SecurityEvent, re: RegexEngine, counts0: map<string, int>,
                 remaining: set<string>, order: seq<string>, results: seq<RuleResult>, counts: map<string, int>, id: string)
    requires Visited(rs, e, re, counts0, remaining, order, results, counts)
    requires id in remaining && GetMetadata(rs[id]).id == id
    ensures EvaluateRule(rs[id], e, re) ==>
      Visited(rs, e, re, counts0, remaining - {id}, order + [id],
              results + [ResultFor(GetMetadata(rs[id]))], Bump(counts, id))
    ensures !EvaluateRule(rs[id], e, re) ==>
      Visited(rs, e, re, counts0, remaining - {id}, order, results, counts)
  {
    if EvaluateRule(rs[id], e, re) {
      VisitMatched(rs, e, re, counts0, remaining, order, results, counts, id);
    } else {
      VisitUnmatched(rs, e, re, counts0, remaining, order, results, counts, id);
    }
  }

  /** A rule that matches joins the order, its result the results and its ID the counts. */
  lemma VisitMatched(rs: map<string, Rule>, e: SecurityEvent, re: RegexEngine, counts0: map<string, int>,
                     remaining: set<string>, order: seq<string>, results: seq<RuleResult>, counts: map<string, int>, id: string)
    requires Visited(rs, e, re, counts0, remaining, order, results, counts)
    requires id in remaining && GetMetadata(rs[id]).id == id && EvaluateRule(rs[id], e, re)
    ensures Visited(rs, e, re, counts0, remaining - {id}, order + [id],
                    results + [ResultFor(GetMetadata(rs[id]))], Bump(counts, id))
  {
    var order' := order + [id];
    assert order'[..|order|] == order;
    assert forall i :: 0 <= i < |order'| ==> order'[i] in rs && order'[i] !in remaining - {id};
    assert id !in order;
    assert Distinct(order');
    assert Reports(rs, order') == results + [ResultFor(GetMetadata(rs[id]))];
    assert BumpAll(counts0, order') == Bump(counts, id);
  }

  /** A rule that does not match changes nothing but what remains to run. */
  lemma VisitUnmatched(rs: map<string, Rule>, e: SecurityEvent, re: RegexEngine, counts0: map<string, int>,
                       remaining: set<string>, order: seq<string>, results: seq<RuleResult>, counts: map<string, int>, id: string)
    requires Visited(rs, e, re, counts0, remaining, order, results, counts)
    requires id in remaining && !EvaluateRule(rs[id], e, re)
    ensures Visited(rs, e, re, counts0, remaining - {id}, order, results, counts)
  {
  }

  /** The loop of `EvaluateEvent`: every rule of `rs` is run once, in an order the map leaves open,
      counting the executions and each rule's matches into `counts0`. `order` lists the matching
      rules as the loop met them. */
  method RunRules(rs: map<string, Rule>, e: SecurityEvent, re: RegexEngine, counts0: map<string, int>)
    returns (results: seq<RuleResult>, executed: int, counts: map<string, int>, ghost order: seq<string>)
    requires forall id :: id in rs ==> GetMetadata(rs[id]).id == id
    ensures executed == |rs| && |results| <= executed
    ensures forall i :: 0 <= i < |order| ==> order[i] in rs
    ensures Distinct(order) && forall id :: id in order <==> id in Matching(rs, e, re)
    ensures results == Reports(rs, order)
    ensures counts == BumpAll(counts0, order)
  {
    results, executed, counts, order := [], 0, counts0, [];
    var remaining := rs.Keys;
    while remaining != {}
      invariant Visited(rs, e, re, counts0, remaining, order, results, counts)
      invariant executed + |remaining| == |rs| && |results| <= executed
      decreases |remaining|
    {
      var id :| id in remaining;
      var md := GetMetadata(rs[id]);
      var matched := EvaluateRule(rs[id], e, re);
      VisitOne(rs, e, re, counts0, remaining, order, results, counts, id);
      executed := executed + 1;
      if matched {
        counts := Bump(counts, md.id);
        results := results + [ResultFor(md)];
        order := order + [id];
      }
      remaining := remaining - {id};
    }
  }
}
