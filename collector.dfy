/** The metrics collector: running totals of events and anomalies, per-key tallies of them, the
    anomaly scores and the processing times, with read-only snapshots. Each per-key tally of the
    events adds up to the event total and the anomaly tally to the anomaly total, from the empty
    collector onward. */
module Metrics {
  import opened Clock
  import opened Entity
  import opened Tally
  import opened Wrappers

  /** What `GetStats` reports. */
  datatype Stats = Stats(
    totalEvents: int,
    eventsByType: map<string, int>,
    eventsBySeverity: map<string, int>,
    totalAnomalies: int,
    anomaliesByType: map<string, int>,
    hourlyDistribution: map<int, int>,
    dailyDistribution: map<string, int>)

  /** What `GetPerformanceStats` reports; the average of no samples, a NaN in the Go code, is
      `None`. */
  datatype PerformanceStats = PerformanceStats(averageProcessingTimeMs: Option<real>, totalProcessed: int)

  /** Nanoseconds per millisecond. */
  const Millisecond: int := 1000000

  /** The mean of `samples` in milliseconds, given in nanoseconds; undefined for no samples. */
  function AverageMs(samples: seq<int>): Option<real> {
    if samples == [] then None else Some(SeqSum(samples) as real / |samples| as real / Millisecond as real)
  }

  /** Samples between `lo` and `hi` add up to between `|s| * lo` and `|s| * hi`. */
  lemma {:induction false} SeqSumBounds(s: seq<int>, lo: int, hi: int)
    requires forall i :: 0 <= i < |s| ==> lo <= s[i] <= hi
    ensures |s| * lo <= SeqSum(s) <= |s| * hi
    decreases |s|
  {
    if s != [] {
      var n := |s| - 1;
      SeqSumBounds(s[..n], lo, hi);
      assert |s| * lo == n * lo + lo && |s| * hi == n * hi + hi;
    }
  }

  /** The mean of samples between `lo` and `hi` nanoseconds lies between the same bounds in
      milliseconds. */
  lemma AverageWithin(samples: seq<int>, lo: int, hi: int)
    requires samples != []
    requires forall i :: 0 <= i < |samples| ==> lo <= samples[i] <= hi
    ensures AverageMs(samples).Some?
    ensures lo as real / Millisecond as real <= AverageMs(samples).value <= hi as real / Millisecond as real
  {
    SeqSumBounds(samples, lo, hi);
    var n := |samples| as real;
    var total := SeqSum(samples) as real;
    assert n * lo as real <= total <= n * hi as real;
    assert lo as real <= total / n <= hi as real by {
      assert total / n * n == total;
    }
  }

  /** Each of the four event tallies adds up to the event total. */
  ghost predicate EventTallies(total: int, byType: map<string, int>, bySeverity: map<string, int>,
                               hourly: map<int, int>, daily: map<string, int>)
  {
    Sum(byType) == total && Sum(bySeverity) == total && Sum(hourly) == total && Sum(daily) == total
  }

  /** Counting one more event in all four tallies and the total keeps the tallies adding up. */
  lemma EventKeepsTallies(total: int, byType: map<string, int>, bySeverity: map<string, int>,
                          hourly: map<int, int>, daily: map<string, int>,
                          action: string, severity: string, hour: int, date: string)
    requires EventTallies(total, byType, bySeverity, hourly, daily)
    ensures EventTallies(total + 1, Bump(byType, action), Bump(bySeverity, severity), Bump(hourly, hour),
                         Bump(daily, date))
  {
    SumBump(byType, action);
    SumBump(bySeverity, severity);
    SumBump(hourly, hour);
    SumBump(daily, date);
  }

  /** `Collector`. */
  class Collector {
    var totalEvents: int
    var eventsByType: map<string, int>
    var eventsBySeverity: map<string, int>
    var totalAnomalies: int
    var anomaliesByType: map<string, int>
    var anomalyScores: seq<real>
    var processingTimes: seq<int>
    var hourlyEvents: map<int, int>
    var dailyEvents: map<string, int>

    /** Every event tally adds up to the event total; the anomaly tally and the score list agree
        with the anomaly total. */
    ghost predicate Valid()
      reads this
    {
      && EventTallies(totalEvents, eventsByType, eventsBySeverity, hourlyEvents, dailyEvents)
      && Sum(anomaliesByType) == totalAnomalies
      && |anomalyScores| == totalAnomalies
    }

    /** `NewCollector`: everything empty. */
    constructor ()
      ensures Valid()
      ensures totalEvents == 0 && totalAnomalies == 0
      ensures eventsByType == eventsBySeverity == anomaliesByType == dailyEvents == map[]
      ensures hourlyEvents == map[] && anomalyScores == [] && processingTimes == []
    {
      totalEvents := 0;
      eventsByType := map[];
      eventsBySeverity := map[];
      totalAnomalies := 0;
      anomaliesByType := map[];
      anomalyScores := [];
      processingTimes := [];
      hourlyEvents := map[];
      dailyEvents := map[];
    }

    /** `TrackEvent`: one more event, counted once under its action, its severity, its hour and
        its date. */
    method TrackEvent(e: SecurityEvent)
      requires Valid()
      modifies this
      ensures Valid()
      ensures totalEvents == old(totalEvents) + 1
      ensures eventsByType == Bump(old(eventsByType), e.action)
      ensures eventsBySeverity == Bump(old(eventsBySeverity), e.severity)
      ensures hourlyEvents == Bump(old(hourlyEvents), HourOf(e.timestamp))
      ensures dailyEvents == Bump(old(dailyEvents), FormatDate(e.timestamp.date))
      ensures totalAnomalies == old(totalAnomalies) && anomaliesByType == old(anomaliesByType)
      ensures anomalyScores == old(anomalyScores) && processingTimes == old(processingTimes)
    {
      var hour := HourOf(e.timestamp);
      var date := FormatDate(e.timestamp.date);
      var byType := Bump(eventsByType, e.action);
      var bySeverity := Bump(eventsBySeverity, e.severity);
      var hourly := Bump(hourlyEvents, hour);
      var daily := Bump(dailyEvents, date);
      EventKeepsTallies(totalEvents, eventsByType, eventsBySeverity, hourlyEvents, dailyEvents,
                        e.action, e.severity, hour, date);
      totalEvents, eventsByType, eventsBySeverity := totalEvents + 1, byType, bySeverity;
      hourlyEvents, dailyEvents := hourly, daily;
    }

    /** `TrackAnomaly`: one more anomaly, counted under its type, its score appended. */
    method TrackAnomaly(a: AnomalyResult)
      requires Valid()
      modifies this
      ensures Valid()
      ensures totalAnomalies == old(totalAnomalies) + 1
      ensures anomaliesByType == Bump(old(anomaliesByType), a.anomalyType)
      ensures anomalyScores == old(anomalyScores) + [a.score]
      ensures totalEvents == old(totalEvents) && eventsByType == old(eventsByType)
      ensures eventsBySeverity == old(eventsBySeverity) && hourlyEvents == old(hourlyEvents)
      ensures dailyEvents == old(dailyEvents) && processingTimes == old(processingTimes)
    {
      var byType := Bump(anomaliesByType, a.anomalyType);
      SumBump(anomaliesByType, a.anomalyType);
      totalAnomalies, anomaliesByType, anomalyScores := totalAnomalies + 1, byType, anomalyScores + [a.score];
    }

    /** `TrackProcessingTime`: one more sample, in nanoseconds. */
    method TrackProcessingTime(duration: int)
      modifies this
      ensures processingTimes == old(processingTimes) + [duration]
      ensures totalEvents == old(totalEvents) && eventsByType == old(eventsByType)
      ensures eventsBySeverity == old(eventsBySeverity) && hourlyEvents == old(hourlyEvents)
      ensures dailyEvents == old(dailyEvents) && totalAnomalies == old(totalAnomalies)
      ensures anomaliesByType == old(anomaliesByType) && anomalyScores == old(anomalyScores)
    {
      processingTimes := processingTimes + [duration];
    }

    /** `GetStats`: a snapshot of the counters; in a valid collector each event tally of the
        snapshot adds up to its event total and the anomaly tally to its anomaly total. */
    method GetStats() returns (r: Stats)
      ensures r.totalEvents == totalEvents && r.totalAnomalies == totalAnomalies
      ensures r.eventsByType == eventsByType && r.eventsBySeverity == eventsBySeverity
      ensures r.anomaliesByType == anomaliesByType
      ensures r.hourlyDistribution == hourlyEvents && r.dailyDistribution == dailyEvents
      ensures Valid() ==> Sum(r.eventsByType) == Sum(r.eventsBySeverity) == r.totalEvents
      ensures Valid() ==> Sum(r.hourlyDistribution) == Sum(r.dailyDistribution) == r.totalEvents
      ensures Valid() ==> Sum(r.anomaliesByType) == r.totalAnomalies
    {
      r := Stats(totalEvents, eventsByType, eventsBySeverity, totalAnomalies, anomaliesByType,
                 hourlyEvents, dailyEvents);
    }

    /** `GetPerformanceStats`: the number of samples and their mean in milliseconds, which is
        undefined when there are none. */
    method GetPerformanceStats() returns (r: PerformanceStats)
      ensures r.totalProcessed == |processingTimes|
      ensures r.averageProcessingTimeMs == AverageMs(processingTimes)
      ensures r.averageProcessingTimeMs.None? <==> processingTimes == []
    {
      var totalTime := 0;
      for i := 0 to |processingTimes|
        invariant totalTime == SeqSum(processingTimes[..i])
      {
        assert processingTimes[..i + 1][..i] == processingTimes[..i];
        totalTime := totalTime + processingTimes[i];
      }
      assert processingTimes[..|processingTimes|] == processingTimes;
      if |processingTimes| == 0 {
        r := PerformanceStats(None, 0);
      } else {
        var avgTime := totalTime as real / |processingTimes| as real;
        r := PerformanceStats(Some(avgTime / Millisecond as real), |processingTimes|);
      }
    }
  }
}
