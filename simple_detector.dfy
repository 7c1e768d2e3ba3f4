/** The heuristic anomaly detector: counts the events of a batch per source address and reports
    each address seen more than ten times, linked to its first event. The detector has no state;
    the analysis time is an input. */
module SimpleDetection {
  import opened Wrappers
  import opened Text
  import opened Entity
  import opened Tally

  /** An address must occur more than this many times in one batch. */
  const Threshold: int := 10

  /** The source address of each event, in order. */
  function SourceIps(events: seq<SecurityEvent>): seq<string>
    decreases |events|
  {
    if events == [] then [] else SourceIps(events[..|events| - 1]) + [events[|events| - 1].sourceIp]
  }

  lemma {:induction false} SourceIpsSpec(events: seq<SecurityEvent>)
    ensures |SourceIps(events)| == |events|
    ensures forall i :: 0 <= i < |events| ==> SourceIps(events)[i] == events[i].sourceIp
    decreases |events|
  {
    if events != [] {
      SourceIpsSpec(events[..|events| - 1]);
    }
  }

  /** The per-address counts the first loop builds, the empty address included. */
  function IpCounts(events: seq<SecurityEvent>): map<string, int> {
    BumpAll(map[], SourceIps(events))
  }

  /** The addresses the detector reports. */
  function HeavyIps(events: seq<SecurityEvent>): set<string> {
    set ip | ip in IpCounts(events) && IpCounts(events)[ip] > Threshold
  }

  /** An address is reported exactly when it occurs more than ten times, so at most a tenth of
      the batch, rounded down, can be reported and a batch of ten events or fewer reports none. */
  lemma HeavyIpsSpec(events: seq<SecurityEvent>, ip: string)
    ensures ip in HeavyIps(events) <==> Occurrences(SourceIps(events), ip) > Threshold
    ensures ip in HeavyIps(events) ==> |events| > Threshold
  {
    BumpAllCounts(map[], SourceIps(events), ip);
    OccurrencesBounds(SourceIps(events), ip);
    SourceIpsSpec(events);
  }

  /** The ID of the first event from `ip`, or "" when there is none. */
  function FirstId(events: seq<SecurityEvent>, ip: string): string
    decreases |events|
  {
    if events == [] then ""
    else if events[0].sourceIp == ip then events[0].id
    else FirstId(events[1..], ip)
  }

  /** The first event from `ip` gives the ID. */
  lemma {:induction false} FirstIdSpec(events: seq<SecurityEvent>, ip: string, i: nat)
    requires i < |events| && events[i].sourceIp == ip
    requires forall j :: 0 <= j < i ==> events[j].sourceIp != ip
    ensures FirstId(events, ip) == events[i].id
    decreases |events|
  {
    if i > 0 {
      FirstIdSpec(events[1..], ip, i - 1);
    }
  }

  /** The text reporting `count` events from `ip`. */
  function Description(ip: string, count: nat): string {
    "Potential anomaly: Source IP " + ip + " appeared " + NatToString(count) + " times in the batch."
  }

  /** The analysis reported for address `ip`. */
  function AnomalyFor(events: seq<SecurityEvent>, ip: string, nowUnix: int): SecurityAnalysis {
    var count := if ip in IpCounts(events) && IpCounts(events)[ip] >= 0 then IpCounts(events)[ip] else 0;
    NewSecurityAnalysis("", nowUnix).(
      eventType := "SimpleAnomalyDetection",
      description := Description(ip, count),
      severity := "Medium",
      source := "SimpleAnomalyDetector",
      eventId := FirstId(events, ip))
  }

  /** Every report is a "Medium" "SimpleAnomalyDetection" from "SimpleAnomalyDetector", linked to
      the first event of its address, which exists. */
  lemma AnomalyForSpec(events: seq<SecurityEvent>, ip: string, nowUnix: int)
    requires ip in HeavyIps(events)
    ensures var a := AnomalyFor(events, ip, nowUnix);
      a.severity == "Medium" && a.eventType == "SimpleAnomalyDetection" && a.source == "SimpleAnomalyDetector"
      && a.timestamp == nowUnix
      && (exists i :: 0 <= i < |events| && events[i].sourceIp == ip && a.eventId == events[i].id
            && (forall j :: 0 <= j < i ==> events[j].sourceIp != ip))
  {
    HeavyIpsSpec(events, ip);
    OccurrencesBounds(SourceIps(events), ip);
    SourceIpsSpec(events);
    var k :| 0 <= k < |events| && SourceIps(events)[k] == ip;
    var i := FirstFrom(events, ip, k);
    FirstIdSpec(events, ip, i);
  }

  /** An index of the first event from `ip`, given any event from it. */
  lemma {:induction false} FirstFrom(events: seq<SecurityEvent>, ip: string, k: nat) returns (i: nat)
    requires k < |events| && events[k].sourceIp == ip
    ensures i <= k && events[i].sourceIp == ip
    ensures forall j :: 0 <= j < i ==> events[j].sourceIp != ip
    decreases k
  {
    if exists j :: 0 <= j < k && events[j].sourceIp == ip {
      var j :| 0 <= j < k && events[j].sourceIp == ip;
      i := FirstFrom(events, ip, j);
    } else {
      i := k;
    }
  }

  /** `ProcessEvents`. The reports come in map iteration order, so the method promises one report
      per reported address in some order, given by `ips`; it never fails. */
  method ProcessEvents(events: seq<SecurityEvent>, nowUnix: int) returns (r: Result<seq<SecurityAnalysis>>, ghost ips: seq<string>)
    ensures r.Ok?
    ensures Distinct(ips) && (set ip | ip in ips) == HeavyIps(events)
    ensures |r.value| == |ips|
    ensures forall i :: 0 <= i < |ips| ==> r.value[i] == AnomalyFor(events, ips[i], nowUnix)
  {
    var ipCounts: map<string, int> := map[];
    for i := 0 to |events|
      invariant ipCounts == IpCounts(events[..i])
    {
      assert events[..i + 1][..i] == events[..i];
      ipCounts := ipCounts[events[i].sourceIp := Get(ipCounts, events[i].sourceIp) + 1];
    }
    assert events[..|events|] == events;
    var anomalies: seq<SecurityAnalysis> := [];
    var remaining := ipCounts.Keys;
    ghost var visited: seq<string> := [];
    ips := [];
    while remaining != {}
      invariant remaining <= ipCounts.Keys
      invariant forall ip :: ip in visited ==> ip in ipCounts && ip !in remaining
      invariant forall ip :: ip in ipCounts && ip !in remaining ==> ip in visited
      invariant Distinct(ips)
      invariant forall ip :: ip in ips <==> ip in visited && ipCounts[ip] > Threshold
      invariant |anomalies| == |ips|
      invariant forall i :: 0 <= i < |ips| ==> anomalies[i] == AnomalyFor(events, ips[i], nowUnix)
      decreases remaining
    {
      var ip :| ip in remaining;
      var count := ipCounts[ip];
      if count > Threshold {
        var anomaly := NewSecurityAnalysis("", nowUnix);
        anomaly := anomaly.(eventType := "SimpleAnomalyDetection");
        anomaly := anomaly.(description := Description(ip, count));
        anomaly := anomaly.(severity := "Medium");
        anomaly := anomaly.(source := "SimpleAnomalyDetector");
        var eventId := FindFirst(events, ip);
        anomaly := anomaly.(eventId := eventId);
        anomalies := anomalies + [anomaly];
        ips := ips + [ip];
      }
      visited := visited + [ip];
      remaining := remaining - {ip};
    }
    r := Ok(anomalies);
  }

  /** The inner loop: the ID of the first event from `ip`, or "" when there is none. */
  method FindFirst(events: seq<SecurityEvent>, ip: string) returns (id: string)
    ensures id == FirstId(events, ip)
  {
    id := "";
    var i := 0;
    while i < |events|
      invariant i <= |events|
      invariant FirstId(events, ip) == FirstId(events[i..], ip)
    {
      assert events[i..][1..] == events[i + 1..];
      if events[i].sourceIp == ip {
        id := events[i].id;
        return;
      }
      i := i + 1;
    }
  }
}
