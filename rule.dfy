/** Executable rules: a composite rule owns an ordered list of conditions combined with "AND"
    (every one) or any other operator (some one), evaluated left to right with short-circuiting;
    an ML rule compares a model's score with a threshold. Both carry fixed metadata. */
module Rules {
  import opened Wrappers
  import opened Clock
  import opened Entity
  import opened Conditions

  datatype RuleMetadata = RuleMetadata(
    id: string,
    name: string,
    description: string,
    severity: string,
    category: string,
    tags: seq<string>,
    createdAt: Time,
    updatedAt: Time,
    version: string,
    author: string)

  /** The AND loop: true iff no condition is false, stopping at the first false one. */
  function AllHold(conds: seq<Condition>, e: SecurityEvent, re: RegexEngine): bool {
    if conds == [] then true else Evaluate(conds[0], e, re) && AllHold(conds[1..], e, re)
  }

  /** The OR loop: true iff some condition is true, stopping at the first true one. */
  function SomeHolds(conds: seq<Condition>, e: SecurityEvent, re: RegexEngine): bool {
    if conds == [] then false else Evaluate(conds[0], e, re) || SomeHolds(conds[1..], e, re)
  }

  /** `CompositeRule.Evaluate` on its conditions and operator. */
  function EvaluateComposite(conds: seq<Condition>, operator: string, e: SecurityEvent, re: RegexEngine): bool {
    if conds == [] then false
    else if operator == "AND" then AllHold(conds, e, re)
    else SomeHolds(conds, e, re)
  }

  /** How many conditions the AND loop evaluates before it returns. */
  function AndCalls(conds: seq<Condition>, e: SecurityEvent, re: RegexEngine): nat {
    if conds == [] then 0 else if !Evaluate(conds[0], e, re) then 1 else 1 + AndCalls(conds[1..], e, re)
  }

  /** How many conditions the OR loop evaluates before it returns. */
  function OrCalls(conds: seq<Condition>, e: SecurityEvent, re: RegexEngine): nat {
    if conds == [] then 0 else if Evaluate(conds[0], e, re) then 1 else 1 + OrCalls(conds[1..], e, re)
  }

  /** A composite rule. Its metadata and operator are fixed at construction; its condition list
      grows through `AddCondition`. */
  class CompositeRule {
    const metadata: RuleMetadata
    const operator: string
    var conditions: seq<Condition>

    /** `NewCompositeRule`: no conditions yet. */
    constructor (metadata: RuleMetadata, operator: string)
      ensures this.metadata == metadata && this.operator == operator
      ensures conditions == []
    {
      this.metadata := metadata;
      this.operator := operator;
      conditions := [];
    }

    /** Appends at the end; the earlier conditions keep their places. */
    method AddCondition(c: Condition)
      modifies this
      ensures conditions == old(conditions) + [c]
    {
      conditions := conditions + [c];
    }

    function Evaluate(e: SecurityEvent, re: RegexEngine): bool
      reads this
    {
      EvaluateComposite(conditions, operator, e, re)
    }
  }

  /** An ML rule: `model` is the model's `Predict`, `None` standing for an error. */
  datatype MlRule = MlRule(metadata: RuleMetadata, model: SecurityEvent -> Option<real>, threshold: real)

  /** `MLBasedRule.Evaluate`: a prediction error is no match; otherwise the score must exceed the
      threshold strictly. */
  function EvaluateMl(r: MlRule, e: SecurityEvent): (matched: bool)
    ensures r.model(e).None? ==> !matched
    ensures r.model(e).Some? ==> (matched <==> r.model(e).value > r.threshold)
  {
    match r.model(e)
    case None => false
    case Some(score) => score > r.threshold
  }

  /** The `Rule` interface: one of the two executable kinds. */
  datatype Rule = Composite(composite: CompositeRule) | MlBased(ml: MlRule)

  /** The heap a rule's evaluation depends on. */
  function Footprint(r: Rule): set<object> {
    if r.Composite? then {r.composite} else {}
  }

  /** `Rule.Evaluate`. */
  function EvaluateRule(r: Rule, e: SecurityEvent, re: RegexEngine): bool
    reads Footprint(r)
  {
    match r
    case Composite(c) => c.Evaluate(e, re)
    case MlBased(m) => EvaluateMl(m, e)
  }

  /** `Rule.GetMetadata`: the metadata the rule was built with. */
  function GetMetadata(r: Rule): RuleMetadata {
    match r
    case Composite(c) => c.metadata
    case MlBased(m) => m.metadata
  }

  // ---- Properties of composite evaluation ----

  lemma {:induction false} AllHoldIff(conds: seq<Condition>, e: SecurityEvent, re: RegexEngine)
    ensures AllHold(conds, e, re) <==> forall i :: 0 <= i < |conds| ==> Evaluate(conds[i], e, re)
  {
    if conds != [] {
      AllHoldIff(conds[1..], e, re);
      assert forall i :: 1 <= i < |conds| ==> conds[i] == conds[1..][i - 1];
    }
  }

  lemma {:induction false} SomeHoldsIff(conds: seq<Condition>, e: SecurityEvent, re: RegexEngine)
    ensures SomeHolds(conds, e, re) <==> exists i :: 0 <= i < |conds| && Evaluate(conds[i], e, re)
  {
    if conds != [] {
      SomeHoldsIff(conds[1..], e, re);
      assert forall i :: 1 <= i < |conds| ==> conds[i] == conds[1..][i - 1];
    }
  }

  /** An empty condition list never matches, whatever the operator; with conditions, "AND" (exactly)
      means every condition is true and any other operator ("OR", "or", "") means some is. */
  lemma CompositeSpec(conds: seq<Condition>, operator: string, e: SecurityEvent, re: RegexEngine)
    ensures conds == [] ==> !EvaluateComposite(conds, operator, e, re)
    ensures conds != [] && operator == "AND" ==>
      (EvaluateComposite(conds, operator, e, re) <==> forall i :: 0 <= i < |conds| ==> Evaluate(conds[i], e, re))
    ensures operator != "AND" ==>
      (EvaluateComposite(conds, operator, e, re) <==> exists i :: 0 <= i < |conds| && Evaluate(conds[i], e, re))
  {
    AllHoldIff(conds, e, re);
    SomeHoldsIff(conds, e, re);
  }

  /** The AND loop evaluates exactly the conditions up to and including the first false one:
      every condition before the last one it calls is true, and it stops early only on a false one. */
  lemma {:induction false} AndShortCircuits(conds: seq<Condition>, e: SecurityEvent, re: RegexEngine)
    ensures AndCalls(conds, e, re) <= |conds|
    ensures forall i :: 0 <= i < AndCalls(conds, e, re) - 1 ==> Evaluate(conds[i], e, re)
    ensures AndCalls(conds, e, re) < |conds| ==> !Evaluate(conds[AndCalls(conds, e, re) - 1], e, re)
    ensures AndCalls(conds, e, re) == |conds| && conds != [] ==>
      (AllHold(conds, e, re) <==> Evaluate(conds[|conds| - 1], e, re))
  {
    if conds != [] && Evaluate(conds[0], e, re) {
      AndShortCircuits(conds[1..], e, re);
      assert forall i :: 1 <= i < |conds| ==> conds[i] == conds[1..][i - 1];
      if AndCalls(conds, e, re) == |conds| {
        AllHoldIff(conds[1..], e, re);
        AllHoldIff(conds, e, re);
      }
    }
  }

  /** The OR loop evaluates exactly the conditions up to and including the first true one. */
  lemma {:induction false} OrShortCircuits(conds: seq<Condition>, e: SecurityEvent, re: RegexEngine)
    ensures OrCalls(conds, e, re) <= |conds|
    ensures forall i :: 0 <= i < OrCalls(conds, e, re) - 1 ==> !Evaluate(conds[i], e, re)
    ensures OrCalls(conds, e, re) < |conds| ==> Evaluate(conds[OrCalls(conds, e, re) - 1], e, re)
    ensures OrCalls(conds, e, re) == |conds| && conds != [] ==>
      (SomeHolds(conds, e, re) <==> Evaluate(conds[|conds| - 1], e, re))
  {
    if conds != [] && !Evaluate(conds[0], e, re) {
      OrShortCircuits(conds[1..], e, re);
      assert forall i :: 1 <= i < |conds| ==> conds[i] == conds[1..][i - 1];
      if OrCalls(conds, e, re) == |conds| {
        SomeHoldsIff(conds[1..], e, re);
        SomeHoldsIff(conds, e, re);
      }
    }
  }

  /** Three AND-ed conditions whose second is false: the rule is false and the third is never called. */
  lemma AndStopsAtSecond(c1: Condition, c2: Condition, c3: Condition, e: SecurityEvent, re: RegexEngine)
    requires Evaluate(c1, e, re) && !Evaluate(c2, e, re)
    ensures !EvaluateComposite([c1, c2, c3], "AND", e, re)
    ensures AndCalls([c1, c2, c3], e, re) == 2
  {
    assert [c1, c2, c3][1..] == [c2, c3];
    assert !AllHold([c2, c3], e, re);
  }

  /** A freshly built composite rule never matches until conditions are added. */
  method NewRuleNeverMatches(metadata: RuleMetadata, operator: string, e: SecurityEvent, re: RegexEngine)
    returns (r: CompositeRule, matched: bool)
    ensures fresh(r) && r.metadata == metadata && r.conditions == []
    ensures !matched && matched == r.Evaluate(e, re)
  {
    r := new CompositeRule(metadata, operator);
    matched := r.Evaluate(e, re);
  }
}
