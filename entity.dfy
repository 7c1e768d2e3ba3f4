/** The domain entities of the pipeline: a security event, an anomaly found in one, and the
    security model's analysis of one, with their constructors' fixed defaults and the risk-level
    predicates of an analysis. Identifiers (`uuid.New`) and the clock (`time.Now`) are inputs. */
module Entity {
  import opened Clock

  /** One security occurrence. `eventType` and `description` are the two fields the log parser
      fills in and the deduplication key reads (they are absent from the struct declaration). */
  datatype SecurityEvent = SecurityEvent(
    id: string,
    timestamp: Time,
    sourceIp: string,
    destIp: string,
    protocol: string,
    port: int,
    action: string,
    status: string,
    user: string,
    rawData: string,
    severity: string,
    labels: seq<string>,
    createdAt: Time,
    updatedAt: Time,
    eventType: string,
    description: string)

  /** An anomaly detected in one event. `description` is the field the security model's detector
      sets (absent from the struct declaration). */
  datatype AnomalyResult = AnomalyResult(
    id: string,
    eventId: string,
    score: real,
    timestamp: Time,
    anomalyType: string,
    confidence: real,
    rules: seq<string>,
    createdAt: Time,
    description: string)

  /** The security model's verdict on one event. `eventType`, `description`, `severity` and `source`
      are the fields the per-IP heuristic detector fills in (absent from the struct declaration). */
  datatype SecurityAnalysis = SecurityAnalysis(
    eventId: string,
    threatLevel: string,
    threatType: string,
    recommendation: string,
    confidence: real,
    timestamp: int,
    eventType: string,
    description: string,
    severity: string,
    source: string)

  /** `NewSecurityEvent` with `id` for the fresh UUID and `now` for the clock. */
  function NewSecurityEvent(id: string, now: Time): (e: SecurityEvent)
    ensures e.id == id
    ensures e.timestamp == e.createdAt == e.updatedAt == now
    ensures e.severity == "info" && e.labels == []
    ensures e.sourceIp == e.destIp == e.protocol == e.action == e.status == e.user == e.rawData == ""
    ensures e.eventType == e.description == "" && e.port == 0
  {
    SecurityEvent(id, now, "", "", "", 0, "", "", "", "", "info", [], now, now, "", "")
  }

  /** `NewAnomalyResult(eventID, score)` with `id` for the fresh UUID and `now` for the clock. */
  function NewAnomalyResult(id: string, eventId: string, score: real, now: Time): (a: AnomalyResult)
    ensures a.id == id && a.eventId == eventId && a.score == score
    ensures a.timestamp == a.createdAt == now
    ensures a.rules == [] && a.anomalyType == "" && a.confidence == 0.0 && a.description == ""
  {
    AnomalyResult(id, eventId, score, now, "", 0.0, [], now, "")
  }

  /** `NewSecurityAnalysis(eventID)` with `nowUnix` for `time.Now().Unix()`. */
  function NewSecurityAnalysis(eventId: string, nowUnix: int): (a: SecurityAnalysis)
    ensures a.eventId == eventId && a.timestamp == nowUnix
    ensures a.threatLevel == a.threatType == a.recommendation == ""
    ensures a.eventType == a.description == a.severity == a.source == ""
    ensures a.confidence == 0.0
  {
    SecurityAnalysis(eventId, "", "", "", 0.0, nowUnix, "", "", "", "")
  }

  predicate IsHighRisk(a: SecurityAnalysis) {
    a.threatLevel == "high" || a.threatLevel == "critical"
  }

  predicate IsMediumRisk(a: SecurityAnalysis) {
    a.threatLevel == "medium"
  }

  predicate IsLowRisk(a: SecurityAnalysis) {
    a.threatLevel == "low"
  }

  /** The three risk bands are disjoint, and a level outside the four named ones is in none. */
  lemma RiskBandsExclusive(a: SecurityAnalysis)
    ensures !(IsHighRisk(a) && IsMediumRisk(a))
    ensures !(IsHighRisk(a) && IsLowRisk(a))
    ensures !(IsMediumRisk(a) && IsLowRisk(a))
    ensures (IsHighRisk(a) || IsMediumRisk(a) || IsLowRisk(a))
            <==> a.threatLevel in {"critical", "high", "medium", "low"}
  {
  }

  /** An analysis fresh from the constructor carries no threat level, so it is in no risk band. */
  lemma FreshAnalysisHasNoRisk(eventId: string, nowUnix: int)
    ensures var a := NewSecurityAnalysis(eventId, nowUnix);
      !IsHighRisk(a) && !IsMediumRisk(a) && !IsLowRisk(a)
  {
  }
}
