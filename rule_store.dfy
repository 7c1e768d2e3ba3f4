/** The rule store: rule definitions filed by ID in a "rules" index, an append-only "rule_versions"
    index that archives the version a save replaces, and the search query built from a filter.
    The search engine behind it is modelled as the two indices themselves; a write it rejects is a
    `WriteFaults` input, and the clock is the `now` parameter. */
module RuleStorage {
  import opened Wrappers
  import opened Clock
  import opened Conditions

  datatype RuleAction = RuleAction(actionType: string, config: map<string, Value>)

  /** `Type` is "composite", "ml" or "simple"; `Operator` is "AND" or "OR". */
  datatype RuleConfig = RuleConfig(
    ruleType: string,
    conditions: seq<map<string, Value>>,
    operator: string,
    threshold: real,
    actions: seq<RuleAction>)

  datatype RuleDefinition = RuleDefinition(
    id: string,
    name: string,
    description: string,
    category: string,
    severity: string,
    version: int,
    status: string,
    config: RuleConfig,
    createdAt: Time,
    updatedAt: Time,
    createdBy: string,
    updatedBy: string,
    tags: seq<string>,
    metadata: map<string, Value>)

  datatype RuleVersion = RuleVersion(ruleId: string, version: int, createdAt: Time, createdBy: string, changeLog: string)

  /** Empty strings, an empty tag list and zero times mean "no constraint". */
  datatype RuleFilter = RuleFilter(
    category: string,
    severity: string,
    status: string,
    tags: seq<string>,
    dateFrom: Time,
    dateTo: Time)

  /** One entry of a bool query's `must` array: a `term`, a `terms` or a `range` query. The range
      bounds are the times the query writes in RFC 3339 form. */
  datatype Clause =
    | Term(field: string, value: string)
    | Terms(field: string, values: seq<string>)
    | Range(field: string, gte: Option<Time>, lte: Option<Time>)

  /** `{"query": {"bool": {"must": [...]}}}`. */
  datatype Query = Query(must: seq<Clause>)

  /** Which of the two writes of one `SaveRule` the store rejects. */
  datatype WriteFaults = WriteFaults(archiveFails: bool, indexFails: bool)

  const NoFaults := WriteFaults(false, false)

  /** The error `SaveRule` reports for `rule` when the "rules" index holds the IDs `stored`; `None`
      when both writes it makes go through. Only an update of a stored rule whose version is not 0
      writes to the archive. */
  function SaveFault(stored: set<string>, rule: RuleDefinition, faults: WriteFaults): Option<string> {
    if rule.version != 0 && rule.id in stored && faults.archiveFails then Some("saving the rule version failed")
    else if faults.indexFails then Some("indexing the rule failed")
    else None
  }

  // ---- Query building ----

  /** `buildRuleQuery` AS WRITTEN: the clauses are appended to a local copy of the empty `must`
      slice that is never stored back into the query map, so the query always has no clauses. */
  function BuildRuleQueryAsWritten(filter: RuleFilter): Query {
    Query([])
  }

  /** A clause the builder appends only when `wanted` holds. */
  datatype Candidate = Candidate(wanted: bool, clause: Clause)

  /** The creation-date range: a lower bound iff `DateFrom` is set, an upper bound iff `DateTo` is. */
  function DateRange(filter: RuleFilter): Clause {
    Range("created_at",
          if !IsZero(filter.dateFrom) then Some(filter.dateFrom) else None,
          if !IsZero(filter.dateTo) then Some(filter.dateTo) else None)
  }

  /** The five `if` blocks of `buildRuleQuery`, in order: category, severity, status, tags, and the
      creation-date range when either bound is set. */
  function Candidates(filter: RuleFilter): seq<Candidate> {
    [Candidate(filter.category != "", Term("category", filter.category)),
     Candidate(filter.severity != "", Term("severity", filter.severity)),
     Candidate(filter.status != "", Term("status", filter.status)),
     Candidate(|filter.tags| > 0, Terms("tags", filter.tags)),
     Candidate(!IsZero(filter.dateFrom) || !IsZero(filter.dateTo), DateRange(filter))]
  }

  /** `must = append(must, c)` for each wanted candidate in turn. */
  function Keep(cands: seq<Candidate>): seq<Clause>
    decreases |cands|
  {
    if cands == [] then []
    else
      var last := cands[|cands| - 1];
      Keep(cands[..|cands| - 1]) + (if last.wanted then [last.clause] else [])
  }

  /** The clauses `buildRuleQuery` appends. */
  function RuleClauses(filter: RuleFilter): seq<Clause> {
    Keep(Candidates(filter))
  }

  /** `buildRuleQuery` as intended: the appended clauses end up in the query. */
  function BuildRuleQuery(filter: RuleFilter): Query {
    Query(RuleClauses(filter))
  }

  /** The keyword field a `term` clause names; `None` for a field rule definitions do not have. */
  function KeywordField(r: RuleDefinition, field: string): Option<string> {
    if field == "category" then Some(r.category)
    else if field == "severity" then Some(r.severity)
    else if field == "status" then Some(r.status)
    else None
  }

  /** Whether a stored definition satisfies one clause. */
  predicate ClauseHolds(c: Clause, r: RuleDefinition) {
    match c
    case Term(field, value) => KeywordField(r, field) == Some(value)
    case Terms(field, values) => field == "tags" && exists t :: t in r.tags && t in values
    case Range(field, gte, lte) =>
      field == "created_at"
      && (gte.Some? ==> NotAfter(gte.value, r.createdAt))
      && (lte.Some? ==> NotAfter(r.createdAt, lte.value))
  }

  /** A bool query with only `must` clauses selects the documents satisfying all of them. */
  predicate Selects(q: Query, r: RuleDefinition) {
    forall i :: 0 <= i < |q.must| ==> ClauseHolds(q.must[i], r)
  }

  /** What a filter asks for, field by field: each set field must agree, a rule must carry one of
      the listed tags, and its creation time must lie within the bounds that are set. */
  predicate FilterAccepts(filter: RuleFilter, r: RuleDefinition) {
    (filter.category != "" ==> r.category == filter.category)
    && (filter.severity != "" ==> r.severity == filter.severity)
    && (filter.status != "" ==> r.status == filter.status)
    && (|filter.tags| > 0 ==> exists t :: t in r.tags && t in filter.tags)
    && (!IsZero(filter.dateFrom) ==> NotAfter(filter.dateFrom, r.createdAt))
    && (!IsZero(filter.dateTo) ==> NotAfter(r.createdAt, filter.dateTo))
  }

  /** Appending a clause to a `must` list adds that clause to what the query demands. */
  lemma SnocSelects(m: seq<Clause>, c: Clause, r: RuleDefinition)
    ensures Selects(Query(m + [c]), r) <==> Selects(Query(m), r) && ClauseHolds(c, r)
  {
    var k := m + [c];
    assert forall i :: 0 <= i < |m| ==> k[i] == m[i];
    assert k[|m|] == c;
  }

  /** Every wanted candidate's clause holds of `r`. */
  predicate WantedHold(cands: seq<Candidate>, r: RuleDefinition) {
    forall i :: 0 <= i < |cands| && cands[i].wanted ==> ClauseHolds(cands[i].clause, r)
  }

  lemma WantedHoldSnoc(cands: seq<Candidate>, r: RuleDefinition)
    requires cands != []
    ensures WantedHold(cands, r) <==>
      WantedHold(cands[..|cands| - 1], r)
      && (cands[|cands| - 1].wanted ==> ClauseHolds(cands[|cands| - 1].clause, r))
  {
    var front := cands[..|cands| - 1];
    assert forall i :: 0 <= i < |front| ==> front[i] == cands[i];
  }

  /** The kept clauses demand exactly the wanted candidates. */
  lemma {:induction false} KeepSelects(cands: seq<Candidate>, r: RuleDefinition)
    ensures Selects(Query(Keep(cands)), r) <==> WantedHold(cands, r)
    decreases |cands|
  {
    if cands != [] {
      var front := cands[..|cands| - 1];
      var last := cands[|cands| - 1];
      KeepSelects(front, r);
      WantedHoldSnoc(cands, r);
      if last.wanted {
        assert Keep(cands) == Keep(front) + [last.clause];
        SnocSelects(Keep(front), last.clause, r);
      } else {
        assert Keep(cands) == Keep(front);
      }
    }
  }

  /** The intended query selects exactly the definitions the filter accepts. */
  lemma BuildRuleQuerySpec(filter: RuleFilter, r: RuleDefinition)
    ensures Selects(BuildRuleQuery(filter), r) <==> FilterAccepts(filter, r)
  {
    var cs := Candidates(filter);
    KeepSelects(cs, r);
    assert WantedHold(cs, r) <==>
      (cs[0].wanted ==> ClauseHolds(cs[0].clause, r)) && (cs[1].wanted ==> ClauseHolds(cs[1].clause, r))
      && (cs[2].wanted ==> ClauseHolds(cs[2].clause, r)) && (cs[3].wanted ==> ClauseHolds(cs[3].clause, r))
      && (cs[4].wanted ==> ClauseHolds(cs[4].clause, r));
  }

  /** Where each clause goes in the builder's order; 5 for a clause it never builds. */
  function ClauseRank(c: Clause): nat {
    match c
    case Term(field, _) => if field == "category" then 0 else if field == "severity" then 1 else if field == "status" then 2 else 5
    case Terms(_, _) => 3
    case Range(_, _, _) => 4
  }

  /** Clauses in strictly increasing rank, each below `k`. */
  predicate RankedBelow(cs: seq<Clause>, k: nat) {
    (forall i, j :: 0 <= i < j < |cs| ==> ClauseRank(cs[i]) < ClauseRank(cs[j]))
    && forall i :: 0 <= i < |cs| ==> ClauseRank(cs[i]) < k
  }

  predicate HasRank(cs: seq<Clause>, k: nat) {
    exists i :: 0 <= i < |cs| && ClauseRank(cs[i]) == k
  }

  /** Appending a clause of rank `n` to clauses ranked below `n`. */
  lemma SnocRanks(m: seq<Clause>, c: Clause, n: nat)
    requires RankedBelow(m, n) && ClauseRank(c) == n
    ensures RankedBelow(m + [c], n + 1)
    ensures forall x: nat :: HasRank(m + [c], x) <==> HasRank(m, x) || x == n
  {
    var k := m + [c];
    assert forall i :: 0 <= i < |m| ==> k[i] == m[i];
    assert k[|m|] == c;
    forall x: nat
      ensures HasRank(k, x) <==> HasRank(m, x) || x == n
    {
      if HasRank(k, x) {
        var i :| 0 <= i < |k| && ClauseRank(k[i]) == x;
        if i < |m| {
          assert ClauseRank(m[i]) == x;
        }
      }
      if HasRank(m, x) {
        var i :| 0 <= i < |m| && ClauseRank(m[i]) == x;
        assert ClauseRank(k[i]) == x;
      }
    }
  }

  /** Clauses ranked below `n` have no clause of rank `n` or more. */
  lemma BelowLacks(m: seq<Clause>, n: nat)
    requires RankedBelow(m, n)
    ensures forall x: nat :: HasRank(m, x) ==> x < n
  {
    forall x: nat | HasRank(m, x)
      ensures x < n
    {
      var i :| 0 <= i < |m| && ClauseRank(m[i]) == x;
    }
  }

  /** The candidate at position `i` builds a clause of rank `i`. */
  predicate RankedByPosition(cands: seq<Candidate>) {
    forall i :: 0 <= i < |cands| ==> ClauseRank(cands[i].clause) == i
  }

  /** Keeping some of a list of candidates ranked by position keeps them in that order. */
  lemma {:induction false} KeepOrdered(cands: seq<Candidate>)
    requires RankedByPosition(cands)
    ensures RankedBelow(Keep(cands), |cands|)
    decreases |cands|
  {
    if cands != [] {
      var front := cands[..|cands| - 1];
      var last := cands[|cands| - 1];
      assert RankedByPosition(front) by {
        assert forall i :: 0 <= i < |front| ==> front[i] == cands[i];
      }
      KeepOrdered(front);
      if last.wanted {
        assert Keep(cands) == Keep(front) + [last.clause];
        SnocRanks(Keep(front), last.clause, |front|);
      } else {
        assert Keep(cands) == Keep(front);
      }
    }
  }

  /** A rank is present among the kept clauses iff the candidate at that position is wanted. */
  lemma {:induction false} KeepPresence(cands: seq<Candidate>)
    requires RankedByPosition(cands)
    ensures forall k: nat :: HasRank(Keep(cands), k) <==> k < |cands| && cands[k].wanted
    decreases |cands|
  {
    if cands != [] {
      var front := cands[..|cands| - 1];
      var last := cands[|cands| - 1];
      assert RankedByPosition(front) by {
        assert forall i :: 0 <= i < |front| ==> front[i] == cands[i];
      }
      KeepPresence(front);
      KeepOrdered(front);
      var m := Keep(front);
      if last.wanted {
        assert Keep(cands) == m + [last.clause];
        SnocRanks(m, last.clause, |front|);
      } else {
        assert Keep(cands) == m;
        BelowLacks(m, |front|);
      }
      forall k: nat
        ensures HasRank(Keep(cands), k) <==> k < |cands| && cands[k].wanted
      {
        if k < |front| {
          assert cands[k] == front[k];
        }
      }
    }
  }

  /** The clauses come in the order category, severity, status, tags, date range (ranks 0 to 4),
      one for each filter field that is set. */
  lemma RuleClausesOrder(filter: RuleFilter)
    ensures var cs := RuleClauses(filter);
      RankedBelow(cs, 5)
      && (HasRank(cs, 0) <==> filter.category != "")
      && (HasRank(cs, 1) <==> filter.severity != "")
      && (HasRank(cs, 2) <==> filter.status != "")
      && (HasRank(cs, 3) <==> |filter.tags| > 0)
      && (HasRank(cs, 4) <==> !IsZero(filter.dateFrom) || !IsZero(filter.dateTo))
  {
    KeepOrdered(Candidates(filter));
    KeepPresence(Candidates(filter));
  }

  /** The query as written has no clauses and selects every definition in the index, whatever the
      filter says. */
  lemma QueryAsWrittenSelectsAll(filter: RuleFilter, r: RuleDefinition)
    ensures BuildRuleQueryAsWritten(filter).must == []
    ensures Selects(BuildRuleQueryAsWritten(filter), r)
  {
  }

  /** A category filter that a stored rule does not meet: the query as written still selects it. */
  lemma QueryAsWrittenIgnoresCategory(r: RuleDefinition)
    requires r.category == "web"
    ensures var filter := RuleFilter("network", "", "", [], ZeroTime, ZeroTime);
      Selects(BuildRuleQueryAsWritten(filter), r) && !Selects(BuildRuleQuery(filter), r)
  {
    BuildRuleQuerySpec(RuleFilter("network", "", "", [], ZeroTime, ZeroTime), r);
  }

  // ---- Version lookups ----

  /** The archived versions of `ruleId` numbered `version`, in archive order. */
  function VersionHits(versions: seq<RuleVersion>, ruleId: string, version: int): seq<RuleVersion>
    decreases |versions|
  {
    if versions == [] then []
    else
      var rest := VersionHits(versions[1..], ruleId, version);
      if versions[0].ruleId == ruleId && versions[0].version == version then [versions[0]] + rest else rest
  }

  predicate IsHit(v: RuleVersion, ruleId: string, version: int) {
    v.ruleId == ruleId && v.version == version
  }

  /** The hits are empty iff no archived entry matches, and otherwise the first hit is the earliest
      matching entry. */
  lemma {:induction false} VersionHitsSpec(versions: seq<RuleVersion>, ruleId: string, version: int)
    ensures var hits := VersionHits(versions, ruleId, version);
      (hits == [] <==> forall i :: 0 <= i < |versions| ==> !IsHit(versions[i], ruleId, version))
      && (hits != [] ==> exists i :: (0 <= i < |versions| && versions[i] == hits[0] && IsHit(versions[i], ruleId, version)
                                      && forall j :: 0 <= j < i ==> !IsHit(versions[j], ruleId, version)))
    decreases |versions|
  {
    if versions != [] {
      VersionHitsSpec(versions[1..], ruleId, version);
      assert forall i :: 1 <= i < |versions| ==> versions[i] == versions[1..][i - 1];
      if !IsHit(versions[0], ruleId, version) && VersionHits(versions, ruleId, version) != [] {
        var hits := VersionHits(versions, ruleId, version);
        var k :| 0 <= k < |versions[1..]| && versions[1..][k] == hits[0] && IsHit(versions[1..][k], ruleId, version)
                 && forall j :: 0 <= j < k ==> !IsHit(versions[1..][j], ruleId, version);
        assert versions[k + 1] == hits[0];
        forall j | 0 <= j < k + 1
          ensures !IsHit(versions[j], ruleId, version)
        {
          if j > 0 {
            assert versions[j] == versions[1..][j - 1];
          }
        }
      }
    }
  }

  /** A version document decoded as a rule definition: only the fields whose JSON names the two
      types share (`version`, `created_at`, `created_by`) are filled in; the rest keep Go's zero values. */
  function VersionAsDefinition(v: RuleVersion): (d: RuleDefinition)
    ensures d.version == v.version && d.createdAt == v.createdAt && d.createdBy == v.createdBy
    ensures d.id == "" && d.name == "" && d.config.ruleType == "" && d.tags == []
  {
    RuleDefinition("", "", "", "", "", v.version, "", RuleConfig("", [], "", 0.0, []),
                   v.createdAt, ZeroTime, v.createdBy, "", [], map[])
  }

  class RuleStore {
    /** The "rules" index: documents by rule ID. */
    var rules: map<string, RuleDefinition>
    /** The "rule_versions" index, in the order entries were archived. */
    var versions: seq<RuleVersion>

    constructor ()
      ensures rules == map[] && versions == []
    {
      rules := map[];
      versions := [];
    }

    /** `GetRule`: the stored definition; a lookup error when there is none. */
    function GetRule(ruleId: string): (r: Option<RuleDefinition>)
      reads this
      ensures r.Some? <==> ruleId in rules
      ensures r.Some? ==> r.value == rules[ruleId]
    {
      if ruleId in rules then Some(rules[ruleId]) else None
    }

    /** `SaveRule`. `saved` is the caller's definition after the call: the version and update time
        the Go code writes through the pointer, even when a write then fails. */
    method SaveRule(rule: RuleDefinition, now: Time, faults: WriteFaults) returns (saved: RuleDefinition, result: Outcome)
      modifies this
      ensures rule.version == 0 ==>
        saved == rule.(version := 1, updatedAt := now) && versions == old(versions)
      ensures rule.version != 0 && rule.id !in old(rules) ==>
        saved == rule.(updatedAt := now) && versions == old(versions)
      ensures rule.version != 0 && rule.id in old(rules) && faults.archiveFails ==>
        saved == rule && result.Fail? && versions == old(versions)
      ensures rule.version != 0 && rule.id in old(rules) && !faults.archiveFails ==>
        var prev := old(rules)[rule.id];
        versions == old(versions) + [RuleVersion(rule.id, prev.version, prev.updatedAt, prev.updatedBy, "")]
        && saved == rule.(version := prev.version + 1, updatedAt := now)
      ensures result == if SaveFault(old(rules).Keys, rule, faults).None? then Pass
                        else Fail(SaveFault(old(rules).Keys, rule, faults).value)
      ensures result.Pass? ==> rules == old(rules)[rule.id := saved]
      ensures result.Fail? ==> rules == old(rules)
    {
      saved := rule;
      if rule.version == 0 {
        saved := saved.(version := 1);
      } else if rule.id in rules {
        var prev := rules[rule.id];
        if faults.archiveFails {
          return saved, Fail("saving the rule version failed");
        }
        versions := versions + [RuleVersion(rule.id, prev.version, prev.updatedAt, prev.updatedBy, "")];
        saved := saved.(version := prev.version + 1);
      }
      saved := saved.(updatedAt := now);
      if faults.indexFails {
        return saved, Fail("indexing the rule failed");
      }
      rules := rules[rule.id := saved];
      result := Pass;
    }

    /** `GetRuleVersion`: the first hit of the term query on rule ID and version, decoded as a
        definition, or "rule version not found". */
    function GetRuleVersion(ruleId: string, version: int): (r: Result<RuleDefinition>)
      reads this
      ensures r.Err? <==> forall i :: 0 <= i < |versions| ==> !IsHit(versions[i], ruleId, version)
      ensures r.Err? ==> r.error == "rule version not found"
      ensures r.Ok? ==> exists i :: (0 <= i < |versions| && IsHit(versions[i], ruleId, version)
        && r.value == VersionAsDefinition(versions[i])
        && forall j :: 0 <= j < i ==> !IsHit(versions[j], ruleId, version))
    {
      VersionHitsSpec(versions, ruleId, version);
      var hits := VersionHits(versions, ruleId, version);
      if |hits| == 0 then Err("rule version not found") else Ok(VersionAsDefinition(hits[0]))
    }

    /** `ListRules` with the intended query: the stored definitions it selects. */
    function ListRules(filter: RuleFilter): (listed: set<RuleDefinition>)
      reads this
      ensures forall r :: r in listed <==> r in rules.Values && FilterAccepts(filter, r)
    {
      var q := BuildRuleQuery(filter);
      assert forall r :: Selects(q, r) <==> FilterAccepts(filter, r) by {
        forall r ensures Selects(q, r) <==> FilterAccepts(filter, r) {
          BuildRuleQuerySpec(filter, r);
        }
      }
      set r | r in rules.Values && Selects(q, r)
    }
  }

  /** Saving a definition whose version is 0 stores it as version 1 and archives nothing; saving
      it again (now with version 1) archives version 1 and stores version 2. */
  method SaveTwice(store: RuleStore, rule: RuleDefinition, t1: Time, t2: Time)
    returns (first: RuleDefinition, second: RuleDefinition)
    requires rule.version == 0
    modifies store
    ensures first.version == 1 && second.version == 2
    ensures rule.id in store.rules && store.rules[rule.id] == second && second.updatedAt == t2
    ensures store.versions == old(store.versions) + [RuleVersion(rule.id, 1, t1, rule.updatedBy, "")]
  {
    var r1, r2;
    first, r1 := store.SaveRule(rule, t1, NoFaults);
    second, r2 := store.SaveRule(first, t2, NoFaults);
  }
}
