/** The rule manager: validating rule definitions, converting a stored definition into an
    executable rule, importing a list of definitions into the store and the engine, and dry-running
    a rule on labelled test events with a confusion-matrix summary. */
module RuleManagement {
  import opened Wrappers
  import opened Clock
  import opened Entity
  import opened Conditions
  import opened Rules
  import opened Engine
  import opened RuleStorage
  import opened RuleStats

  // ---- Validation and conversion ----

  /** `ValidateRule`: the ID is checked first, then the name; nothing else is checked. */
  function ValidateRule(def: RuleDefinition): (r: Outcome)
    ensures r.Fail? <==> def.id == "" || def.name == ""
    ensures def.id == "" ==> r == Fail("规则ID不能为空")
    ensures def.id != "" && def.name == "" ==> r == Fail("规则名称不能为空")
  {
    if def.id == "" then Fail("规则ID不能为空")
    else if def.name == "" then Fail("规则名称不能为空")
    else Pass
  }

  /** The engine metadata of a definition: the six descriptive fields; times, version and author
      keep their zero values. */
  function DefinitionMetadata(def: RuleDefinition): RuleMetadata {
    RuleMetadata(def.id, def.name, def.description, def.severity, def.category, def.tags,
                 ZeroTime, ZeroTime, "", "")
  }

  /** Why `ConvertToEngineRule` refuses a rule type; `None` for the one type it converts. */
  function ConversionError(ruleType: string): Option<string> {
    if ruleType == "composite" then None
    else if ruleType == "ml" then Some("ML规则类型暂不支持")
    else Some("未知的规则类型: " + ruleType)
  }

  /** Only "composite" converts; "ml" and every other type are refused, the latter naming the type. */
  lemma ConversionErrorSpec(ruleType: string)
    ensures ConversionError(ruleType).None? <==> ruleType == "composite"
    ensures ruleType == "ml" ==> ConversionError(ruleType) == Some("ML规则类型暂不支持")
    ensures ruleType != "ml" && ruleType != "composite" ==>
      ConversionError(ruleType) == Some("未知的规则类型: " + ruleType)
  {
  }

  /** `ConvertToEngineRule`. A composite definition becomes a new composite rule with the
      definition's metadata and operator; the loop over the configured conditions has an empty
      body, so the rule has no conditions. */
  method ConvertToEngineRule(def: RuleDefinition) returns (r: Result<Rule>)
    ensures ConversionError(def.config.ruleType).Some? ==> r == Err(ConversionError(def.config.ruleType).value)
    ensures ConversionError(def.config.ruleType).None? ==>
      r.Ok? && r.value.Composite? && fresh(r.value.composite)
      && r.value.composite.metadata == DefinitionMetadata(def)
      && r.value.composite.operator == def.config.operator
      && r.value.composite.conditions == []
  {
    var err := ConversionError(def.config.ruleType);
    if err.Some? {
      return Err(err.value);
    }
    var rule := new CompositeRule(DefinitionMetadata(def), def.config.operator);
    r := Ok(Composite(rule));
  }

  /** A converted rule never matches any event, whatever its operator. */
  lemma ConvertedNeverMatches(c: CompositeRule, e: SecurityEvent, re: RegexEngine)
    requires c.conditions == []
    ensures !EvaluateRule(Composite(c), e, re)
  {
    CompositeSpec(c.conditions, c.operator, e, re);
  }

  // ---- Import ----

  /** The IDs of the first `n` definitions. */
  function Ids(rules: seq<RuleDefinition>, n: nat): set<string>
    requires n <= |rules|
  {
    set j | 0 <= j < n :: rules[j].id
  }

  lemma IdsSnoc(rules: seq<RuleDefinition>, n: nat)
    requires n < |rules|
    ensures Ids(rules, n + 1) == Ids(rules, n) + {rules[n].id}
  {
    forall x | x in Ids(rules, n + 1)
      ensures x in Ids(rules, n) + {rules[n].id}
    {
      var j :| 0 <= j < n + 1 && rules[j].id == x;
      if j < n {
        assert x in Ids(rules, n);
      }
    }
  }

  /** The last of the first `n` definitions with ID `id`: the one a sequential import leaves in place. */
  function LastWith(rules: seq<RuleDefinition>, n: nat, id: string): Option<RuleDefinition>
    requires n <= |rules|
  {
    if n == 0 then None
    else if rules[n - 1].id == id then Some(rules[n - 1])
    else LastWith(rules, n - 1, id)
  }

  /** There is a last definition with an ID exactly when one of the first `n` has it; it is one of
      them, and no later one of them has that ID. */
  lemma {:induction false} LastWithSpec(rules: seq<RuleDefinition>, n: nat, id: string)
    requires n <= |rules|
    ensures LastWith(rules, n, id).Some? <==> id in Ids(rules, n)
    ensures LastWith(rules, n, id).Some? ==>
      exists j :: 0 <= j < n && rules[j] == LastWith(rules, n, id).value
        && rules[j].id == id && forall k :: j < k < n ==> rules[k].id != id
    decreases n
  {
    if n > 0 {
      LastWithSpec(rules, n - 1, id);
      IdsSnoc(rules, n - 1);
      if rules[n - 1].id == id {
        assert rules[n - 1] == LastWith(rules, n, id).value;
      } else if LastWith(rules, n, id).Some? {
        var j :| 0 <= j < n - 1 && rules[j] == LastWith(rules, n - 1, id).value
          && rules[j].id == id && forall k :: j < k < n - 1 ==> rules[k].id != id;
        assert forall k :: j < k < n ==> rules[k].id != id;
      }
    }
  }

  /** A definition with another ID does not change which one is last. */
  lemma LastWithSkip(rules: seq<RuleDefinition>, i: nat, id: string)
    requires i < |rules| && rules[i].id != id
    ensures LastWith(rules, i + 1, id) == LastWith(rules, i, id)
  {
  }

  /** `m` is `m0` with at most the keys `ids` added or replaced, all of which are present. */
  ghost predicate UpdatedOnly<T>(m0: map<string, T>, m: map<string, T>, ids: set<string>) {
    ids <= m.Keys && forall id :: id !in ids ==> (id in m <==> id in m0) && (id in m ==> m[id] == m0[id])
  }

  lemma UpdatedOnlyKeys<T>(m0: map<string, T>, m: map<string, T>, ids: set<string>)
    requires UpdatedOnly(m0, m, ids)
    ensures m.Keys == m0.Keys + ids
  {
  }

  /** Writing one more key keeps `UpdatedOnly` with that key added. */
  lemma UpdatedOnlyStep<T>(m0: map<string, T>, m: map<string, T>, m': map<string, T>, ids: set<string>, k: string)
    requires UpdatedOnly(m0, m, ids)
    requires k in m' && m' == m[k := m'[k]]
    ensures UpdatedOnly(m0, m', ids + {k})
  {
  }

  /** The error importing `def` reports when the "rules" index holds the IDs `stored`, in the
      order the steps run: validation, saving, conversion. `None` when all three succeed. */
  function StepError(def: RuleDefinition, stored: set<string>, faults: WriteFaults): Option<string> {
    if ValidateRule(def).Fail? then Some("规则验证失败 [" + def.id + "]: " + ValidateRule(def).error)
    else if SaveFault(stored, def, faults).Some? then
      Some("保存规则失败 [" + def.id + "]: " + SaveFault(stored, def, faults).value)
    else if ConversionError(def.config.ruleType).Some? then
      Some("转换规则失败 [" + def.id + "]: " + ConversionError(def.config.ruleType).value)
    else None
  }

  /** Whether the import of `def` got as far as writing it to the store. */
  predicate StepSaves(def: RuleDefinition, stored: set<string>, faults: WriteFaults) {
    ValidateRule(def).Pass? && SaveFault(stored, def, faults).None?
  }

  /** An import step fails exactly at the step that reports the error: a definition that does not
      convert has already been saved, and one that saves and converts is imported. */
  lemma StepErrorSpec(def: RuleDefinition, stored: set<string>, faults: WriteFaults)
    ensures StepError(def, stored, faults).None? <==>
      StepSaves(def, stored, faults) && def.config.ruleType == "composite"
    ensures StepError(def, stored, faults).Some? && ConversionError(def.config.ruleType).None? ==>
      !StepSaves(def, stored, faults)
  {
    ConversionErrorSpec(def.config.ruleType);
  }

  // ---- Dry runs ----

  datatype TestEvent = TestEvent(id: string, event: SecurityEvent, expectedResult: bool)

  datatype TestEventResult = TestEventResult(eventId: string, expected: bool, actual: bool, matchedRule: bool)

  datatype TestStats = TestStats(
    totalTests: int,
    totalSuccess: int,
    totalFailure: int,
    falsePositive: int,
    falseNegative: int,
    accuracy: real,
    precision: real,
    recall: real)

  const ZeroStats := TestStats(0, 0, 0, 0, 0, 0.0, 0.0, 0.0)

  predicate IsSuccess(r: TestEventResult) { r.expected == r.actual }
  predicate IsFailure(r: TestEventResult) { r.expected != r.actual }
  predicate IsFalsePositive(r: TestEventResult) { r.actual && !r.expected }
  predicate IsFalseNegative(r: TestEventResult) { !r.actual && r.expected }
  predicate IsTruePositive(r: TestEventResult) { r.actual && r.expected }
  predicate IsTrueNegative(r: TestEventResult) { !r.actual && !r.expected }

  /** How many results satisfy `p`. */
  function CountIf(rs: seq<TestEventResult>, p: TestEventResult -> bool): nat
    decreases |rs|
  {
    if rs == [] then 0
    else CountIf(rs[..|rs| - 1], p) + (if p(rs[|rs| - 1]) then 1 else 0)
  }

  /** `n / d` as `float64`, left at 0 when the denominator is not positive. */
  function Ratio(n: int, d: int): real {
    if d > 0 then n as real / d as real else 0.0
  }

  /** The statistics `CalculateStats` computes, with the true positives counted directly (see
      `StatsAsWritten` for the Go code's own count). */
  function StatsOf(rs: seq<TestEventResult>): TestStats {
    var success := CountIf(rs, IsSuccess);
    var fp := CountIf(rs, IsFalsePositive);
    var fn := CountIf(rs, IsFalseNegative);
    var tp := CountIf(rs, IsTruePositive);
    TestStats(|rs|, success, CountIf(rs, IsFailure), fp, fn,
              Ratio(success, |rs|), Ratio(tp, tp + fp), Ratio(tp, tp + fn))
  }

  /** Every result is a success or a failure; every failure a false positive or a false negative;
      every success a true positive or a true negative. */
  lemma {:induction false} CountsPartition(rs: seq<TestEventResult>)
    ensures CountIf(rs, IsSuccess) + CountIf(rs, IsFailure) == |rs|
    ensures CountIf(rs, IsFalsePositive) + CountIf(rs, IsFalseNegative) == CountIf(rs, IsFailure)
    ensures CountIf(rs, IsTruePositive) + CountIf(rs, IsTrueNegative) == CountIf(rs, IsSuccess)
    decreases |rs|
  {
    if rs != [] {
      CountsPartition(rs[..|rs| - 1]);
    }
  }

  /** A ratio of a count to a larger count lies in [0, 1]. */
  lemma RatioBounds(n: nat, d: nat)
    requires n <= d
    ensures 0.0 <= Ratio(n, d) <= 1.0
  {
    if d > 0 {
      assert n as real <= d as real;
      assert n as real / d as real <= d as real / d as real;
    }
  }

  /** The totals add up, and accuracy, precision and recall are proportions. */
  lemma StatsOfSpec(rs: seq<TestEventResult>)
    ensures StatsOf(rs).totalTests == |rs|
    ensures StatsOf(rs).totalSuccess + StatsOf(rs).totalFailure == StatsOf(rs).totalTests
    ensures StatsOf(rs).falsePositive + StatsOf(rs).falseNegative == StatsOf(rs).totalFailure
    ensures 0.0 <= StatsOf(rs).accuracy <= 1.0
    ensures 0.0 <= StatsOf(rs).precision <= 1.0
    ensures 0.0 <= StatsOf(rs).recall <= 1.0
  {
    CountsPartition(rs);
    var tp := CountIf(rs, IsTruePositive);
    RatioBounds(CountIf(rs, IsSuccess), |rs|);
    RatioBounds(tp, tp + CountIf(rs, IsFalsePositive));
    RatioBounds(tp, tp + CountIf(rs, IsFalseNegative));
  }

  /** The statistics AS WRITTEN: the true positives are taken to be `TotalSuccess - FalsePositive`
      for both precision and recall; the counts and the accuracy are those of `StatsOf`. */
  function StatsAsWritten(rs: seq<TestEventResult>): TestStats {
    var success := CountIf(rs, IsSuccess);
    var fp := CountIf(rs, IsFalsePositive);
    var fn := CountIf(rs, IsFalseNegative);
    var tp := success - fp;
    TestStats(|rs|, success, CountIf(rs, IsFailure), fp, fn,
              Ratio(success, |rs|), Ratio(tp, tp + fp), Ratio(tp, tp + fn))
  }

  /** As written, the counts and accuracy agree with the corrected statistics; the precision's
      denominator is the number of successes; and the "true positives" are the true positives plus
      the true negatives minus the false positives. */
  lemma StatsAsWrittenSpec(rs: seq<TestEventResult>)
    ensures var w, s := StatsAsWritten(rs), StatsOf(rs);
      w.totalTests == s.totalTests && w.totalSuccess == s.totalSuccess && w.totalFailure == s.totalFailure
      && w.falsePositive == s.falsePositive && w.falseNegative == s.falseNegative && w.accuracy == s.accuracy
    ensures StatsAsWritten(rs).precision ==
      Ratio(CountIf(rs, IsSuccess) - CountIf(rs, IsFalsePositive), CountIf(rs, IsSuccess))
    ensures CountIf(rs, IsSuccess) - CountIf(rs, IsFalsePositive) ==
      CountIf(rs, IsTruePositive) + CountIf(rs, IsTrueNegative) - CountIf(rs, IsFalsePositive)
  {
    CountsPartition(rs);
  }

  /** Results in which nothing matched have no true and no false positives. */
  lemma {:induction false} NoMatchCounts(rs: seq<TestEventResult>)
    requires forall i :: 0 <= i < |rs| ==> !rs[i].actual
    ensures CountIf(rs, IsTruePositive) == 0 && CountIf(rs, IsFalsePositive) == 0
    decreases |rs|
  {
    if rs != [] {
      NoMatchCounts(rs[..|rs| - 1]);
    }
  }

  /** When nothing matched (every dry run of `TestRule`), the corrected precision and recall are 0,
      while as written the precision is 1 as soon as one event was expected not to match, and the
      recall is the share of true negatives among true negatives and false negatives. */
  lemma StatsAsWrittenNoMatch(rs: seq<TestEventResult>)
    requires forall i :: 0 <= i < |rs| ==> !rs[i].actual
    ensures StatsOf(rs).precision == 0.0 && StatsOf(rs).recall == 0.0
    ensures StatsAsWritten(rs).precision == if CountIf(rs, IsTrueNegative) > 0 then 1.0 else 0.0
    ensures StatsAsWritten(rs).recall ==
      Ratio(CountIf(rs, IsTrueNegative), CountIf(rs, IsTrueNegative) + CountIf(rs, IsFalseNegative))
  {
    NoMatchCounts(rs);
    CountsPartition(rs);
    var tn, fn := CountIf(rs, IsTrueNegative), CountIf(rs, IsFalseNegative);
    var w := StatsAsWritten(rs);
    assert CountIf(rs, IsSuccess) == tn && CountIf(rs, IsFalsePositive) == 0;
    assert w.precision == Ratio(tn, tn) && w.recall == Ratio(tn, tn + fn);
    RatioSelf(tn);
    assert StatsOf(rs).precision == Ratio(0, 0) && StatsOf(rs).recall == Ratio(0, fn);
    RatioZero(fn);
  }

  /** A count over itself is 1, and 0 when there is none. */
  lemma RatioSelf(n: nat)
    ensures Ratio(n, n) == if n > 0 then 1.0 else 0.0
  {
  }

  /** Nothing over any count is 0. */
  lemma RatioZero(d: int)
    ensures Ratio(0, d) == 0.0
  {
  }

  /** One true negative and two false positives: as written the true positives come out as
      1 - 2 = -1 and the precision as -1.0, while there are no true positives and the precision is 0. */
  lemma PrecisionAsWrittenNegative()
    ensures var rs := [TestEventResult("a", false, false, false),
                       TestEventResult("b", false, true, true),
                       TestEventResult("c", false, true, true)];
      StatsAsWritten(rs).precision == -1.0 && StatsOf(rs).precision == 0.0
  {
    var rs := [TestEventResult("a", false, false, false),
               TestEventResult("b", false, true, true),
               TestEventResult("c", false, true, true)];
    var r1, r2 := rs[..1], rs[..2];
    assert r1[..0] == [] && r2[..1] == r1 && rs[..2] == r2;
    assert CountIf(r1, IsSuccess) == 1 && CountIf(r1, IsFalsePositive) == 0 && CountIf(r1, IsTruePositive) == 0;
    assert CountIf(r2, IsSuccess) == 1 && CountIf(r2, IsFalsePositive) == 1 && CountIf(r2, IsTruePositive) == 0;
    assert CountIf(rs, IsSuccess) == 1 && CountIf(rs, IsFalsePositive) == 2 && CountIf(rs, IsTruePositive) == 0;
  }

  /** The outcome of a dry run. Its creator appends the per-event results and `CalculateStats`
      writes the summary. */
  class TestResult {
    const ruleId: string
    const startTime: Time
    var endTime: Time
    var testResults: seq<TestEventResult>
    var stats: TestStats

    constructor (ruleId: string, startTime: Time)
      ensures this.ruleId == ruleId && this.startTime == startTime
      ensures endTime == ZeroTime && testResults == [] && stats == ZeroStats
    {
      this.ruleId := ruleId;
      this.startTime := startTime;
      endTime := ZeroTime;
      testResults := [];
      stats := ZeroStats;
    }

    /** `CalculateStats`: one pass over the results counting successes, failures, false positives
        and false negatives (and, as corrected, true positives), then the three ratios. */
    method CalculateStats()
      modifies this
      ensures stats == StatsOf(testResults)
      ensures testResults == old(testResults) && endTime == old(endTime)
    {
      var rs := testResults;
      var success, failure, fp, fn, tp := 0, 0, 0, 0, 0;
      var i := 0;
      while i < |rs|
        invariant 0 <= i <= |rs|
        invariant success == CountIf(rs[..i], IsSuccess) && failure == CountIf(rs[..i], IsFailure)
        invariant fp == CountIf(rs[..i], IsFalsePositive) && fn == CountIf(rs[..i], IsFalseNegative)
        invariant tp == CountIf(rs[..i], IsTruePositive)
      {
        assert rs[..i + 1][..i] == rs[..i];
        var r := rs[i];
        if r.expected == r.actual {
          success := success + 1;
          if r.actual {
            tp := tp + 1;
          }
        } else {
          failure := failure + 1;
          if r.actual && !r.expected {
            fp := fp + 1;
          } else if !r.actual && r.expected {
            fn := fn + 1;
          }
        }
        i := i + 1;
      }
      assert rs[..i] == rs;
      stats := TestStats(|rs|, success, failure, fp, fn, Ratio(success, |rs|), Ratio(tp, tp + fp), Ratio(tp, tp + fn));
    }
  }

  /** The per-event result of running `rule` on a test event. */
  function ResultOf(rule: Rule, t: TestEvent, re: RegexEngine): (r: TestEventResult)
    reads Footprint(rule)
    ensures r.eventId == t.id && r.expected == t.expectedResult
    ensures r.actual == r.matchedRule == EvaluateRule(rule, t.event, re)
  {
    var matched := EvaluateRule(rule, t.event, re);
    TestEventResult(t.id, t.expectedResult, matched, matched)
  }

  // ---- The manager ----

  class RuleManager {
    const store: RuleStore
    const engine: RuleEngine
    const metrics: RuleMetrics

    /** `NewRuleManager`: the given store and engine, and a new metrics collector. */
    constructor (store: RuleStore, engine: RuleEngine)
      ensures this.store == store && this.engine == engine && fresh(metrics)
    {
      this.store := store;
      this.engine := engine;
      metrics := new RuleMetrics();
    }

    /** One pass of the import loop: validate, save, convert, register, stopping at the first
        step that fails. */
    method ImportOne(def: RuleDefinition, now: Time, faults: WriteFaults) returns (result: Outcome)
      requires engine.Valid()
      modifies store, engine
      ensures engine.Valid()
      ensures var err := StepError(def, old(store.rules).Keys, faults);
        result == if err.None? then Pass else Fail(err.value)
      ensures StepSaves(def, old(store.rules).Keys, faults) ==>
        def.id in store.rules && store.rules == old(store.rules)[def.id := store.rules[def.id]]
        && store.rules[def.id].id == def.id
      ensures !StepSaves(def, old(store.rules).Keys, faults) ==> store.rules == old(store.rules)
      ensures result.Pass? ==>
        def.id in engine.rules && engine.rules == old(engine.rules)[def.id := engine.rules[def.id]]
        && engine.rules[def.id].Composite? && fresh(engine.rules[def.id].composite)
        && engine.rules[def.id].composite.metadata == DefinitionMetadata(def)
        && engine.rules[def.id].composite.operator == def.config.operator
        && engine.rules[def.id].composite.conditions == []
      ensures result.Fail? ==> engine.rules == old(engine.rules)
      ensures engine.GetMetrics() == old(engine.GetMetrics())
    {
      var valid := ValidateRule(def);
      if valid.Fail? {
        return Fail("规则验证失败 [" + def.id + "]: " + valid.error);
      }
      var saved, saveResult := store.SaveRule(def, now, faults);
      if saveResult.Fail? {
        return Fail("保存规则失败 [" + def.id + "]: " + saveResult.error);
      }
      var converted := ConvertToEngineRule(saved);
      if converted.Err? {
        return Fail("转换规则失败 [" + def.id + "]: " + converted.error);
      }
      engine.AddRule(converted.value);
      result := Pass;
    }

    /** The engine holds, under `id`, the converted form of the definition `def`: a composite rule
        with its metadata and operator and no conditions. */
    ghost predicate ImportedAs(rs: map<string, Rule>, id: string, def: Option<RuleDefinition>)
      reads RulesFootprint(rs)
    {
      id in rs && def.Some? && rs[id].Composite?
      && rs[id].composite.metadata == DefinitionMetadata(def.value)
      && rs[id].composite.operator == def.value.config.operator
      && rs[id].composite.conditions == []
    }

    /** What the import loop knows once the first `i` definitions are imported, starting from
        the store's rules `s0` and the engine's rules `e0`. */
    ghost predicate ImportedPrefix(rules: seq<RuleDefinition>, i: nat, s0: map<string, RuleDefinition>,
                                   e0: map<string, Rule>, faults: nat -> WriteFaults)
      reads store, engine, RulesFootprint(engine.rules)
    {
      i <= |rules|
      && (forall j :: 0 <= j < i ==> StepError(rules[j], s0.Keys + Ids(rules, j), faults(j)).None?)
      && UpdatedOnly(s0, store.rules, Ids(rules, i))
      && UpdatedOnly(e0, engine.rules, Ids(rules, i))
      && EngineImported(engine.rules, rules, i)
    }

    /** Each of the first `i` definitions' IDs holds the converted form of the last of them with
        that ID. */
    ghost predicate EngineImported(rs: map<string, Rule>, rules: seq<RuleDefinition>, i: nat)
      requires i <= |rules|
      reads RulesFootprint(rs)
    {
      forall id :: id in Ids(rules, i) ==> ImportedAs(rs, id, LastWith(rules, i, id))
    }

    /** Registering the `i`th definition's converted form keeps the imported IDs as they were and
        makes it the last one under its ID. */
    lemma EngineImportedStep(rs0: map<string, Rule>, rs: map<string, Rule>, rules: seq<RuleDefinition>, i: nat)
      requires i < |rules| && EngineImported(rs0, rules, i)
      requires rules[i].id in rs && rs == rs0[rules[i].id := rs[rules[i].id]]
      requires ImportedAs(rs, rules[i].id, Some(rules[i]))
      ensures EngineImported(rs, rules, i + 1)
    {
      IdsSnoc(rules, i);
      var n := i + 1;
      forall id | id in Ids(rules, n)
        ensures ImportedAs(rs, id, LastWith(rules, n, id))
      {
        if id != rules[i].id {
          LastWithSkip(rules, i, id);
          assert ImportedAs(rs0, id, LastWith(rules, i, id));
        }
      }
    }

    /** The loop body of `ImportRules` for the `i`th definition. */
    method ImportNext(rules: seq<RuleDefinition>, i: nat, clock: nat -> Time, faults: nat -> WriteFaults,
                      ghost s0: map<string, RuleDefinition>, ghost e0: map<string, Rule>)
      returns (result: Outcome)
      requires i < |rules| && engine.Valid() && ImportedPrefix(rules, i, s0, e0, faults)
      modifies store, engine
      ensures engine.Valid()
      ensures result.Pass? ==> ImportedPrefix(rules, i + 1, s0, e0, faults)
      ensures result.Fail? ==>
        StepError(rules[i], s0.Keys + Ids(rules, i), faults(i)) == Some(result.error)
        && engine.rules == old(engine.rules)
        && UpdatedOnly(s0, store.rules,
                       Ids(rules, i) + if StepSaves(rules[i], s0.Keys + Ids(rules, i), faults(i)) then {rules[i].id} else {})
    {
      UpdatedOnlyKeys(s0, store.rules, Ids(rules, i));
      ghost var rs0 := engine.rules;
      assert EngineImported(rs0, rules, i);
      label before:
      result := ImportOne(rules[i], clock(i), faults(i));
      IdsSnoc(rules, i);
      if result.Fail? {
        if StepSaves(rules[i], s0.Keys + Ids(rules, i), faults(i)) {
          UpdatedOnlyStep(s0, old@before(store.rules), store.rules, Ids(rules, i), rules[i].id);
        }
        return;
      }
      UpdatedOnlyStep(s0, old@before(store.rules), store.rules, Ids(rules, i), rules[i].id);
      UpdatedOnlyStep(e0, old@before(engine.rules), engine.rules, Ids(rules, i), rules[i].id);
      EngineImportedStep(rs0, engine.rules, rules, i);
    }

    /** `ImportRules` on the decoded definitions: each in turn is validated, saved, converted and
        registered, and the first failure ends the import with its error. `done` is how many
        definitions were imported; `clock(i)` and `faults(i)` are the time and the store's write
        failures during the `i`th save. Only the imported IDs change in the engine; only those,
        and the failing definition's ID when it was saved before failing, change in the store. */
    method ImportRules(rules: seq<RuleDefinition>, clock: nat -> Time, faults: nat -> WriteFaults)
      returns (result: Outcome, ghost done: nat)
      requires engine.Valid()
      modifies store, engine
      ensures engine.Valid()
      ensures done <= |rules|
      ensures forall j :: 0 <= j < done ==>
        StepError(rules[j], old(store.rules).Keys + Ids(rules, j), faults(j)).None?
      ensures result.Pass? <==> done == |rules|
      ensures result.Fail? ==>
        StepError(rules[done], old(store.rules).Keys + Ids(rules, done), faults(done)) == Some(result.error)
      ensures UpdatedOnly(old(engine.rules), engine.rules, Ids(rules, done))
      ensures result.Pass? ==> UpdatedOnly(old(store.rules), store.rules, Ids(rules, done))
      ensures result.Fail? ==>
        var failedSave := StepSaves(rules[done], old(store.rules).Keys + Ids(rules, done), faults(done));
        UpdatedOnly(old(store.rules), store.rules, Ids(rules, done) + if failedSave then {rules[done].id} else {})
      ensures EngineImported(engine.rules, rules, done)
    {
      var i := 0;
      result := Pass;
      while i < |rules|
        invariant 0 <= i <= |rules| && engine.Valid() && result == Pass
        invariant ImportedPrefix(rules, i, old(store.rules), old(engine.rules), faults)
      {
        result := ImportNext(rules, i, clock, faults, old(store.rules), old(engine.rules));
        if result.Fail? {
          done := i;
          return;
        }
        i := i + 1;
      }
      done := i;
    }

    /** `TestRule`: converts the definition, runs the rule on every test event in order, and
        summarises. A definition that does not convert yields its conversion error. */
    method TestRule(def: RuleDefinition, events: seq<TestEvent>, re: RegexEngine, start: Time, end: Time)
      returns (r: Result<TestResult>)
      ensures ConversionError(def.config.ruleType).Some? ==> r == Err(ConversionError(def.config.ruleType).value)
      ensures ConversionError(def.config.ruleType).None? ==>
        r.Ok? && fresh(r.value) && r.value.ruleId == def.id
        && r.value.startTime == start && r.value.endTime == end
        && |r.value.testResults| == |events|
        && (forall i :: 0 <= i < |events| ==>
              r.value.testResults[i] == TestEventResult(events[i].id, events[i].expectedResult, false, false))
        && r.value.stats == StatsOf(r.value.testResults)
    {
      var converted := ConvertToEngineRule(def);
      if converted.Err? {
        return Err(converted.error);
      }
      var rule := converted.value;
      var result := new TestResult(def.id, start);
      var i := 0;
      while i < |events|
        invariant 0 <= i <= |events|
        invariant rule.Composite? && rule.composite.conditions == []
        invariant |result.testResults| == i
        invariant forall k :: 0 <= k < i ==> result.testResults[k] == ResultOf(rule, events[k], re)
      {
        var matched := EvaluateRule(rule, events[i].event, re);
        result.testResults := result.testResults + [TestEventResult(events[i].id, events[i].expectedResult, matched, matched)];
        i := i + 1;
      }
      forall k | 0 <= k < |events|
        ensures result.testResults[k] == TestEventResult(events[k].id, events[k].expectedResult, false, false)
      {
        ConvertedNeverMatches(rule.composite, events[k].event, re);
      }
      result.endTime := end;
      result.CalculateStats();
      r := Ok(result);
    }
  }
}
