/** The client of the external security language model: it sends one event's connection fields
    to the model's API, turns the reply into a security analysis, and reports as anomalies the
    events the model grades at or above "medium". The HTTP exchange is the function `callApi`,
    fixed when the client is made. */
module SecurityModel {
  import opened Wrappers
  import opened Text
  import opened Clock
  import opened Entity

  /** The request body: the task name and the event's connection fields. */
  datatype ModelInput = ModelInput(
    eventType: string,
    timestamp: Time,
    sourceIp: string,
    destIp: string,
    protocol: string,
    port: int,
    action: string,
    status: string,
    user: string)

  /** The model's reply. */
  datatype ApiResponse = ApiResponse(
    threatLevel: string,
    threatType: string,
    recommendation: string,
    confidence: real)

  /** The request sent for `e`. */
  function InputOf(e: SecurityEvent): (r: ModelInput)
    ensures r.eventType == "security_analysis"
    ensures r.timestamp == e.timestamp && r.sourceIp == e.sourceIp && r.destIp == e.destIp
    ensures r.protocol == e.protocol && r.port == e.port && r.action == e.action
    ensures r.status == e.status && r.user == e.user
  {
    ModelInput("security_analysis", e.timestamp, e.sourceIp, e.destIp, e.protocol, e.port,
               e.action, e.status, e.user)
  }

  /** The filter as written: the threat level compared with "medium" as a string, byte by byte. */
  predicate FlagsAsWritten(a: SecurityAnalysis) {
    AtLeast(a.threatLevel, "medium")
  }

  /** The filter as intended: the threat level is "medium" or above on the model's scale. */
  predicate Flags(a: SecurityAnalysis) {
    IsMediumRisk(a) || IsHighRisk(a)
  }

  /** The intended filter keeps exactly the three upper levels. */
  lemma FlagsSpec(a: SecurityAnalysis)
    ensures Flags(a) <==> a.threatLevel in {"medium", "high", "critical"}
  {
  }

  /** The string comparison keeps "medium" and "unknown" but drops "high" and "critical", which
      sort before "medium", together with "low". */
  lemma FlagsAsWrittenLevels(a: SecurityAnalysis)
    ensures a.threatLevel == "medium" ==> FlagsAsWritten(a)
    ensures a.threatLevel == "unknown" ==> FlagsAsWritten(a)
    ensures a.threatLevel in {"high", "critical", "low"} ==> !FlagsAsWritten(a)
  {
    var m := "medium";
    if a.threatLevel == m {
      LessIrreflexive(m);
    } else if a.threatLevel == "unknown" {
      FirstCharDecides("unknown", m);
    } else if a.threatLevel in {"high", "critical", "low"} {
      assert a.threatLevel[0] < m[0];
    }
  }

  /** No string is below itself. */
  lemma {:induction false} LessIrreflexive(s: string)
    ensures !Less(s, s)
    decreases |s|
  {
    if s != [] {
      LessIrreflexive(s[1..]);
    }
  }

  /** The anomaly reported for event `e` whose analysis is `a`: its ID is `id`, its score the
      model's confidence, its type the threat type and its description the recommendation. */
  function AnomalyOf(e: SecurityEvent, a: SecurityAnalysis, id: string, now: Time): (r: AnomalyResult)
    ensures r.id == id && r.eventId == e.id && r.score == a.confidence
    ensures r.anomalyType == a.threatType && r.description == a.recommendation
    ensures r.timestamp == r.createdAt == now && r.rules == [] && r.confidence == 0.0
  {
    NewAnomalyResult(id, e.id, a.confidence, now).(anomalyType := a.threatType, description := a.recommendation)
  }

  /** `SecurityLLM`. */
  class SecurityLlm {
    const apiEndpoint: string
    const apiKey: string
    const callApi: ModelInput -> Result<ApiResponse>

    constructor (apiEndpoint: string, apiKey: string, callApi: ModelInput -> Result<ApiResponse>)
      ensures this.apiEndpoint == apiEndpoint && this.apiKey == apiKey && this.callApi == callApi
    {
      this.apiEndpoint := apiEndpoint;
      this.apiKey := apiKey;
      this.callApi := callApi;
    }

    /** `AnalyzeSecurityEvent`: a failed call is wrapped in an error; a reply becomes an analysis of
        the event carrying the reply's four fields and nothing else. */
    function Analyze(e: SecurityEvent): (r: Result<SecurityAnalysis>)
      ensures r.Err? <==> callApi(InputOf(e)).Err?
      ensures r.Err? ==> r.error == "failed to call security LLM API: " + callApi(InputOf(e)).error
      ensures r.Ok? ==> var reply := callApi(InputOf(e)).value;
        r.value.eventId == e.id && r.value.threatLevel == reply.threatLevel
        && r.value.threatType == reply.threatType && r.value.recommendation == reply.recommendation
        && r.value.confidence == reply.confidence
      ensures r.Ok? ==> (r.value.timestamp == 0
        && r.value.eventType == r.value.description == r.value.severity == r.value.source == "")
    {
      match callApi(InputOf(e))
      case Err(msg) => Err("failed to call security LLM API: " + msg)
      case Ok(reply) =>
        Ok(SecurityAnalysis(e.id, reply.threatLevel, reply.threatType, reply.recommendation,
                            reply.confidence, 0, "", "", "", ""))
    }

    /** What the `i`-th event contributes under filter `flag`: an anomaly when its analysis
        succeeds and passes, nothing otherwise. */
    function Candidate(events: seq<SecurityEvent>, flag: SecurityAnalysis -> bool, ids: nat -> string, now: Time): nat -> Option<AnomalyResult>
    {
      (i: nat) =>
        if i < |events| && Analyze(events[i]).Ok? && flag(Analyze(events[i]).value)
        then Some(AnomalyOf(events[i], Analyze(events[i]).value, ids(i), now))
        else None
    }

    /** The anomalies reported for `events` under filter `flag`, in event order; the `i`-th event's
        anomaly takes the ID `ids(i)`. */
    function Detected(events: seq<SecurityEvent>, flag: SecurityAnalysis -> bool, ids: nat -> string, now: Time): seq<AnomalyResult>
    {
      Kept(Candidate(events, flag, ids, now), |events|)
    }

    /** At most one anomaly per event, and an anomaly is reported exactly when some event's analysis
        succeeds, passes the filter and yields it: failed calls are skipped, never reported. */
    lemma DetectedSpec(events: seq<SecurityEvent>, flag: SecurityAnalysis -> bool, ids: nat -> string, now: Time, x: AnomalyResult)
      ensures |Detected(events, flag, ids, now)| <= |events|
      ensures x in Detected(events, flag, ids, now) <==>
        exists i: nat :: i < |events| && Analyze(events[i]).Ok? && flag(Analyze(events[i]).value)
          && x == AnomalyOf(events[i], Analyze(events[i]).value, ids(i), now)
    {
      var f := Candidate(events, flag, ids, now);
      KeptSpec(f, |events|, x);
      if x in Detected(events, flag, ids, now) {
        var i: nat :| i < |events| && f(i) == Some(x);
        assert Analyze(events[i]).Ok? && flag(Analyze(events[i]).value)
          && x == AnomalyOf(events[i], Analyze(events[i]).value, ids(i), now);
      }
      if exists i: nat :: i < |events| && Analyze(events[i]).Ok? && flag(Analyze(events[i]).value)
          && x == AnomalyOf(events[i], Analyze(events[i]).value, ids(i), now) {
        var i: nat :| i < |events| && Analyze(events[i]).Ok? && flag(Analyze(events[i]).value)
          && x == AnomalyOf(events[i], Analyze(events[i]).value, ids(i), now);
        assert f(i) == Some(x);
      }
    }

    /** `DetectAnomalies` with the intended filter: it never fails and returns the anomalies of
        the events the model grades "medium", "high" or "critical", in event order. */
    method DetectAnomalies(events: seq<SecurityEvent>, ids: nat -> string, now: Time) returns (r: Result<seq<AnomalyResult>>)
      ensures r == Ok(Detected(events, Flags, ids, now))
    {
      var anomalies: seq<AnomalyResult> := [];
      var i := 0;
      while i < |events|
        invariant i <= |events|
        invariant anomalies == Detected(events[..i], Flags, ids, now)
      {
        ghost var f := Candidate(events, Flags, ids, now);
        ghost var g := Candidate(events[..i + 1], Flags, ids, now);
        KeptAgree(f, Candidate(events[..i], Flags, ids, now), i);
        KeptAgree(f, g, i + 1);
        var analysis := Analyze(events[i]);
        if analysis.Ok? && Flags(analysis.value) {
          var anomaly := NewAnomalyResult(ids(i), events[i].id, analysis.value.confidence, now);
          anomaly := anomaly.(anomalyType := analysis.value.threatType);
          anomaly := anomaly.(description := analysis.value.recommendation);
          anomalies := anomalies + [anomaly];
        }
        i := i + 1;
      }
      assert events[..i] == events;
      r := Ok(anomalies);
    }

    /** A reply graded "high" is reported by the intended filter and dropped by the comparison as
        written. */
    lemma AsWrittenDropsHigh(e: SecurityEvent, ids: nat -> string, now: Time)
      requires callApi(InputOf(e)).Ok? && callApi(InputOf(e)).value.threatLevel == "high"
      ensures Detected([e], FlagsAsWritten, ids, now) == []
      ensures |Detected([e], Flags, ids, now)| == 1
    {
      FlagsAsWrittenLevels(Analyze(e).value);
      assert Kept(Candidate([e], FlagsAsWritten, ids, now), 0) == [];
      assert Kept(Candidate([e], Flags, ids, now), 0) == [];
    }
  }
}
