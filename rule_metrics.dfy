/** The per-rule statistics collector (`RuleMetrics` of the rule package's metrics file): execution
    and match counters, the history of execution times, daily match tables, the slowest time per
    rule and a copy of the match counters used for the top-N view. Durations are integer
    nanoseconds (`time.Duration`); the clock is the `today`/`now` parameter. */
module RuleStats {
  import opened Wrappers
  import opened Tally
  import opened Clock
  import opened Ranking

  /** `GetRuleStats`: the two counters, and the average time in milliseconds and the match rate,
      each present only when its denominator is positive. */
  datatype Stats = Stats(totalExecutions: int, totalMatches: int, avgExecutionTimeMs: Option<real>, matchRate: Option<real>)

  datatype RuleCount = RuleCount(ruleId: string, matches: int)

  datatype RuleTime = RuleTime(ruleId: string, executionTimeMs: real)

  const NanosPerMilli: real := 1000000.0

  /** A duration in nanoseconds as fractional milliseconds. */
  function Millis(ns: int): real {
    ns as real / NanosPerMilli
  }

  /** Converting to milliseconds keeps the order of durations. */
  lemma MillisMonotone(a: int, b: int)
    requires a <= b
    ensures Millis(a) <= Millis(b)
  {
  }

  /** `m[k]` for a table of lists: the empty list when absent. */
  function History(m: map<string, seq<int>>, k: string): seq<int> {
    if k in m then m[k] else []
  }

  /** `m[k]` for a table of tables: the empty table when absent. */
  function DayTable(m: map<string, map<string, int>>, k: string): map<string, int> {
    if k in m then m[k] else map[]
  }

  class RuleMetrics {
    var ruleExecutions: map<string, int>
    var ruleMatches: map<string, int>
    var ruleExecutionTime: map<string, seq<int>>
    var dailyMatches: map<string, map<string, int>>
    var slowestRules: map<string, int>
    var topMatchingRules: map<string, int>

    /** The invariants the collector keeps (`Consistent` on its tables). */
    ghost predicate Valid()
      reads this
    {
      Consistent(ruleExecutions, ruleMatches, ruleExecutionTime, slowestRules) && topMatchingRules == ruleMatches
    }

    /** `NewRuleMetrics`: every table empty. */
    constructor ()
      ensures Valid()
      ensures ruleExecutions == map[] && ruleMatches == map[] && ruleExecutionTime == map[]
      ensures dailyMatches == map[] && slowestRules == map[] && topMatchingRules == map[]
    {
      ruleExecutions := map[];
      ruleMatches := map[];
      ruleExecutionTime := map[];
      dailyMatches := map[];
      slowestRules := map[];
      topMatchingRules := map[];
    }

    /** Records one execution of `ruleId` that took `duration` on the day `today`. */
    method TrackRuleExecution(ruleId: string, duration: int, matched: bool, today: Date)
      requires Valid()
      modifies this
      ensures Valid()
      ensures ruleExecutions == Bump(old(ruleExecutions), ruleId)
      ensures ruleMatches == (if matched then Bump(old(ruleMatches), ruleId) else old(ruleMatches))
      ensures ruleExecutionTime == old(ruleExecutionTime)[ruleId := History(old(ruleExecutionTime), ruleId) + [duration]]
      ensures var day := FormatDate(today);
        dailyMatches == old(dailyMatches)[day :=
          if matched then Bump(DayTable(old(dailyMatches), day), ruleId) else DayTable(old(dailyMatches), day)]
      ensures slowestRules == (if ruleId !in old(slowestRules) || duration > old(slowestRules)[ruleId]
                               then old(slowestRules)[ruleId := duration] else old(slowestRules))
      ensures topMatchingRules == ruleMatches
    {
      var executions := Bump(ruleExecutions, ruleId);
      var matches := if matched then Bump(ruleMatches, ruleId) else ruleMatches;
      var times := ruleExecutionTime[ruleId := History(ruleExecutionTime, ruleId) + [duration]];
      var day := FormatDate(today);
      var daily := dailyMatches[day :=
        if matched then Bump(DayTable(dailyMatches, day), ruleId) else DayTable(dailyMatches, day)];
      var slowest := if ruleId !in slowestRules || duration > slowestRules[ruleId]
                     then slowestRules[ruleId := duration] else slowestRules;
      var top := if matched then Bump(topMatchingRules, ruleId) else topMatchingRules;
      TrackKeepsConsistent(ruleExecutions, ruleMatches, ruleExecutionTime, slowestRules, ruleId, duration, matched);
      ruleExecutions, ruleMatches, ruleExecutionTime := executions, matches, times;
      dailyMatches, slowestRules, topMatchingRules := daily, slowest, top;
    }

    /** `GetRuleStats`; the loop adds up the history of `ruleId`. */
    method GetRuleStats(ruleId: string) returns (s: Stats)
      ensures s.totalExecutions == Get(ruleExecutions, ruleId)
      ensures s.totalMatches == Get(ruleMatches, ruleId)
      ensures s.avgExecutionTimeMs.Some? <==> History(ruleExecutionTime, ruleId) != []
      ensures s.avgExecutionTimeMs.Some? ==>
        var h := History(ruleExecutionTime, ruleId);
        s.avgExecutionTimeMs.value == SeqSum(h) as real / |h| as real / NanosPerMilli
      ensures s.matchRate.Some? <==> Get(ruleExecutions, ruleId) > 0
      ensures s.matchRate.Some? ==>
        s.matchRate.value == Get(ruleMatches, ruleId) as real / Get(ruleExecutions, ruleId) as real
      ensures Valid() && s.matchRate.Some? ==> 0.0 <= s.matchRate.value <= 1.0
    {
      var times := History(ruleExecutionTime, ruleId);
      var total := 0;
      var i := 0;
      while i < |times|
        invariant 0 <= i <= |times|
        invariant total == SeqSum(times[..i])
      {
        assert times[..i + 1][..i] == times[..i];
        total := total + times[i];
        i := i + 1;
      }
      assert times[..|times|] == times;
      var avg := if |times| > 0 then Some(total as real / |times| as real / NanosPerMilli) else None;
      var executions := Get(ruleExecutions, ruleId);
      var matches := Get(ruleMatches, ruleId);
      var rate := if executions > 0 then Some(matches as real / executions as real) else None;
      if Valid() && executions > 0 {
        RateBounded(matches, executions);
      }
      s := Stats(executions, matches, avg, rate);
    }

    /** `GetTopMatchingRules`: the `limit` rules with the most matches (all of them when fewer),
        most first. A negative limit makes the Go code's `make` panic, so it is excluded. */
    method GetTopMatchingRules(limit: int) returns (result: seq<RuleCount>)
      requires limit >= 0
      ensures |result| == Min(limit, |topMatchingRules|)
      ensures forall i :: 0 <= i < |result| ==>
        result[i].ruleId in topMatchingRules && topMatchingRules[result[i].ruleId] == result[i].matches
      ensures forall i, j :: 0 <= i < j < |result| ==> result[i].matches >= result[j].matches
      ensures forall i, j :: 0 <= i < j < |result| ==> result[i].ruleId != result[j].ruleId
      ensures forall id :: id in topMatchingRules && (forall i :: 0 <= i < |result| ==> result[i].ruleId != id) ==>
        forall i :: 0 <= i < |result| ==> topMatchingRules[id] <= result[i].matches
    {
      var ranked := TopEntries(topMatchingRules, limit);
      result := [];
      var i := 0;
      while i < |ranked|
        invariant 0 <= i <= |ranked| && |result| == i
        invariant forall k :: 0 <= k < i ==> result[k] == RuleCount(ranked[k].id, ranked[k].value)
      {
        result := result + [RuleCount(ranked[i].id, ranked[i].value)];
        i := i + 1;
      }
      forall i, j | 0 <= i < j < |result|
        ensures result[i].matches >= result[j].matches && result[i].ruleId != result[j].ruleId
      {
        assert result[i].ruleId == ranked[i].id && result[j].ruleId == ranked[j].id;
      }
      forall id | id in topMatchingRules && (forall i :: 0 <= i < |result| ==> result[i].ruleId != id)
        ensures forall i :: 0 <= i < |result| ==> topMatchingRules[id] <= result[i].matches
      {
        assert forall k :: 0 <= k < |ranked| ==> ranked[k].id != id;
      }
    }

    /** `GetSlowestRules`: the `limit` rules with the longest single execution, slowest first, in
        milliseconds. A negative limit is excluded as above. */
    method GetSlowestRules(limit: int) returns (result: seq<RuleTime>)
      requires limit >= 0
      ensures |result| == Min(limit, |slowestRules|)
      ensures forall i :: 0 <= i < |result| ==>
        result[i].ruleId in slowestRules && result[i].executionTimeMs == Millis(slowestRules[result[i].ruleId])
      ensures forall i, j :: 0 <= i < j < |result| ==> result[i].executionTimeMs >= result[j].executionTimeMs
      ensures forall i, j :: 0 <= i < j < |result| ==> result[i].ruleId != result[j].ruleId
      ensures forall id :: id in slowestRules && (forall i :: 0 <= i < |result| ==> result[i].ruleId != id) ==>
        forall i :: 0 <= i < |result| ==> Millis(slowestRules[id]) <= result[i].executionTimeMs
    {
      var ranked := TopEntries(slowestRules, limit);
      result := [];
      var i := 0;
      while i < |ranked|
        invariant 0 <= i <= |ranked| && |result| == i
        invariant forall k :: 0 <= k < i ==> result[k] == RuleTime(ranked[k].id, Millis(ranked[k].value))
      {
        result := result + [RuleTime(ranked[i].id, Millis(ranked[i].value))];
        i := i + 1;
      }
      forall i, j | 0 <= i < j < |result|
        ensures result[i].executionTimeMs >= result[j].executionTimeMs
      {
        MillisMonotone(ranked[j].value, ranked[i].value);
      }
      forall id, i | id in slowestRules && (forall k :: 0 <= k < |result| ==> result[k].ruleId != id) && 0 <= i < |result|
        ensures Millis(slowestRules[id]) <= result[i].executionTimeMs
      {
        assert forall k :: 0 <= k < |ranked| ==> ranked[k].id != id;
        MillisMonotone(slowestRules[id], ranked[i].value);
      }
    }

    /** `GetDailyStats(days)`: the match tables that exist for the last `days` days, today
        included (none when `days` is not positive). */
    method GetDailyStats(days: int, now: Date) returns (stats: map<string, map<string, int>>)
      ensures forall d :: d in stats <==>
        d in dailyMatches && exists i :: 0 <= i < days && d == FormatDate(DaysBack(now, i))
      ensures forall d :: d in stats ==> stats[d] == dailyMatches[d]
    {
      stats := map[];
      ghost var keys: seq<string> := [];
      var i := 0;
      while i < days
        invariant 0 <= i && (days >= 0 ==> i <= days) && (days < 0 ==> i == 0)
        invariant |keys| == i && forall k :: 0 <= k < i ==> keys[k] == FormatDate(DaysBack(now, k))
        invariant forall d :: d in stats <==> d in dailyMatches && d in keys
        invariant forall d :: d in stats ==> stats[d] == dailyMatches[d]
      {
        var date := FormatDate(DaysBack(now, i));
        if date in dailyMatches {
          stats := stats[date := dailyMatches[date]];
        }
        keys := keys + [date];
        i := i + 1;
      }
      forall d | d in keys
        ensures exists k :: 0 <= k < days && d == FormatDate(DaysBack(now, k))
      {
        var k :| 0 <= k < |keys| && keys[k] == d;
      }
    }
  }

  /** The tables the collector keeps consistent: a rule has a history exactly when it has run, as
      many times as it has run, and its slowest time is the largest in it; matches never exceed
      executions. */
  ghost predicate Consistent(executions: map<string, int>, matches: map<string, int>,
                             times: map<string, seq<int>>, slowest: map<string, int>)
  {
    times.Keys == executions.Keys == slowest.Keys
    && matches.Keys <= executions.Keys
    && (forall id :: id in times ==>
          times[id] != [] && |times[id]| == executions[id] && slowest[id] == MaxOf(times[id]))
    && (forall id :: id in matches ==> 0 <= matches[id] <= executions[id])
  }

  /** One `TrackRuleExecution` keeps the tables consistent. */
  lemma TrackKeepsConsistent(executions: map<string, int>, matches: map<string, int>,
                             times: map<string, seq<int>>, slowest: map<string, int>,
                             ruleId: string, duration: int, matched: bool)
    requires Consistent(executions, matches, times, slowest)
    ensures Consistent(
      Bump(executions, ruleId),
      if matched then Bump(matches, ruleId) else matches,
      times[ruleId := History(times, ruleId) + [duration]],
      if ruleId !in slowest || duration > slowest[ruleId] then slowest[ruleId := duration] else slowest)
  {
    if ruleId in times {
      MaxOfSnoc(times[ruleId], duration);
    }
  }

  /** Keeping the first `limit` entries of a table sorted by value keeps `limit` of them (all when
      fewer), each a real entry, still sorted, and no entry left out has a larger value than one kept. */
  lemma RankedTable(m: map<string, int>, sorted: seq<Entry>, limit: nat)
    requires forall e :: e in sorted <==> e.id in m && m[e.id] == e.value
    requires |sorted| == |m| && SortedDesc(sorted) && DistinctIds(sorted)
    ensures var top := sorted[..Min(limit, |m|)];
      SortedDesc(top) && DistinctIds(top)
      && (forall i :: 0 <= i < |top| ==> top[i].id in m && m[top[i].id] == top[i].value)
      && (forall id :: id in m && (forall i :: 0 <= i < |top| ==> top[i].id != id) ==>
            forall i :: 0 <= i < |top| ==> m[id] <= top[i].value)
  {
    var k := Min(limit, |m|);
    var top := sorted[..k];
    assert forall i :: 0 <= i < k ==> top[i] == sorted[i];
    forall id | id in m && (forall i :: 0 <= i < |top| ==> top[i].id != id)
      ensures forall i :: 0 <= i < |top| ==> m[id] <= top[i].value
    {
      assert Entry(id, m[id]) in sorted;
      var j :| 0 <= j < |sorted| && sorted[j] == Entry(id, m[id]);
      assert j >= k;
    }
  }

  /** The shared part of the two top-N getters: the table's entries, `sort.Slice` by value, most
      first, and the first `limit` of them. */
  method TopEntries(m: map<string, int>, limit: nat) returns (ranked: seq<Entry>)
    ensures |ranked| == Min(limit, |m|) && SortedDesc(ranked) && DistinctIds(ranked)
    ensures forall i :: 0 <= i < |ranked| ==> ranked[i].id in m && m[ranked[i].id] == ranked[i].value
    ensures forall id :: id in m && (forall i :: 0 <= i < |ranked| ==> ranked[i].id != id) ==>
      forall i :: 0 <= i < |ranked| ==> m[id] <= ranked[i].value
  {
    var entries := EntriesOf(m);
    var sorted := SortSlice(entries);
    SameElements(entries, sorted);
    RankedTable(m, sorted, limit);
    ranked := sorted[..Min(limit, |entries|)];
  }

  /** A match rate lies between 0 and 1. */
  lemma RateBounded(matches: int, executions: int)
    requires 0 <= matches <= executions && executions > 0
    ensures 0.0 <= matches as real / executions as real <= 1.0
  {
  }

  /** The entries of a table, each once, in an order the map leaves open. */
  method EntriesOf(m: map<string, int>) returns (es: seq<Entry>)
    ensures forall e :: e in es <==> e.id in m && m[e.id] == e.value
    ensures |es| == |m| && DistinctIds(es)
  {
    es := [];
    var remaining := m.Keys;
    while remaining != {}
      invariant remaining <= m.Keys
      invariant forall e :: e in es ==> e.id in m && m[e.id] == e.value && e.id !in remaining
      invariant forall id :: id in m && id !in remaining ==> Entry(id, m[id]) in es
      invariant |es| + |remaining| == |m|
      invariant DistinctIds(es)
      decreases |remaining|
    {
      var id :| id in remaining;
      es := es + [Entry(id, m[id])];
      remaining := remaining - {id};
    }
  }
}
