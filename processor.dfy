/** The log processor: a raw log line is parsed into an event, enriched, checked against the
    deduplication cache, run through the anomaly detector, filed, marked in the cache, and its
    anomalies filed; a batch of lines is parsed and enriched line by line and the survivors go to
    the detector together. JSON decoding and RFC 3339 timestamp parsing (section 5.6 of RFC 3339)
    are functions given to the processor; fresh IDs, the clock and the outcome of the user step
    of the enrichment are inputs. */
module LogProcessing {
  import opened Wrappers
  import opened Clock
  import opened Entity
  import opened Repositories
  import opened Enrichment
  import opened AnomalyDetection

  /** The JSON fields a log line may carry; absent fields decode as empty strings. */
  datatype LogData = LogData(
    timestamp: string,
    sourceIp: string,
    destIp: string,
    protocol: string,
    eventType: string,
    description: string)

  /** How long a deduplication mark lasts: five minutes, in nanoseconds. */
  const CacheTtl: int := 5 * 60 * 1000000000

  /** `parseLog`: `decoded` is what decoding `raw` as JSON gives and `parseTime` parses an
      RFC 3339 timestamp. A fresh event keeps its creation time when the timestamp does not
      parse. */
  function ParseLog(raw: string, decoded: Result<LogData>, parseTime: string -> Option<Time>, id: string, now: Time): (r: Result<SecurityEvent>)
    ensures r.Err? <==> decoded.Err?
    ensures r.Err? ==> r.error == decoded.error
    ensures r.Ok? ==>
      var e := r.value;
      var d := decoded.value;
      e.id == id && e.rawData == raw
      && e.timestamp == (if parseTime(d.timestamp).Some? then parseTime(d.timestamp).value else now)
      && e.sourceIp == d.sourceIp && e.destIp == d.destIp && e.protocol == d.protocol
      && e.eventType == d.eventType && e.description == d.description
      && e.createdAt == e.updatedAt == now && e.severity == "info" && e.labels == []
      && e.port == 0 && e.action == e.status == e.user == ""
  {
    match decoded
    case Err(msg) => Err(msg)
    case Ok(d) =>
      var blank := NewSecurityEvent(id, now).(rawData := raw);
      var stamped := if parseTime(d.timestamp).Some? then blank.(timestamp := parseTime(d.timestamp).value) else blank;
      Ok(stamped.(sourceIp := d.sourceIp, destIp := d.destIp, protocol := d.protocol,
                  eventType := d.eventType, description := d.description))
  }

  /** `generateCacheKey`: the addresses, protocol and event type, and the time to the minute. */
  function CacheKey(e: SecurityEvent): string {
    "event:" + e.sourceIp + ":" + e.destIp + ":" + e.protocol + ":" + e.eventType + ":" + FormatMinute(e.timestamp)
  }

  /** Events that agree on the addresses, protocol and event type within one minute share a key,
      whatever their other fields. */
  lemma CacheKeyShared(a: SecurityEvent, b: SecurityEvent)
    requires a.sourceIp == b.sourceIp && a.destIp == b.destIp
    requires a.protocol == b.protocol && a.eventType == b.eventType
    requires SameMinute(a.timestamp, b.timestamp)
    ensures CacheKey(a) == CacheKey(b)
  {
  }

  /** Enrichment never changes the key: it touches only labels and severity. */
  lemma EnrichKeepsKey(enricher: LogEnricher, e: SecurityEvent, user: Outcome)
    ensures CacheKey(enricher.EnrichOutcome(e, user).0) == CacheKey(e)
  {
    enricher.EnrichSpec(e, user);
    if enricher.EnrichOutcome(e, user).1.Fail? {
      enricher.EnrichErrors(e, user);
    }
  }

  /** Two lines whose decoded fields agree but for the description, with timestamps parsing to
      the same minute, give the same key, however different the lines are. */
  lemma ParsedDuplicates(raw1: string, raw2: string, d1: LogData, d2: LogData, parseTime: string -> Option<Time>,
                         id1: string, id2: string, now: Time)
    requires d1.sourceIp == d2.sourceIp && d1.destIp == d2.destIp
    requires d1.protocol == d2.protocol && d1.eventType == d2.eventType
    requires parseTime(d1.timestamp).Some? && parseTime(d2.timestamp).Some?
    requires SameMinute(parseTime(d1.timestamp).value, parseTime(d2.timestamp).value)
    ensures CacheKey(ParseLog(raw1, Ok(d1), parseTime, id1, now).value) == CacheKey(ParseLog(raw2, Ok(d2), parseTime, id2, now).value)
  {
    CacheKeyShared(ParseLog(raw1, Ok(d1), parseTime, id1, now).value, ParseLog(raw2, Ok(d2), parseTime, id2, now).value);
  }

  /** What one `ProcessLog` did: its result, the event handed to the detector, the event filed,
      the key marked in the cache, and the anomalies the processor filed. */
  datatype Progress = Progress(
    result: Outcome,
    detected: Option<SecurityEvent>,
    savedEvent: Option<SecurityEvent>,
    cacheKey: Option<string>,
    filed: seq<AnomalyResult>)

  class LogProcessor {
    const detector: AnomalyDetector
    const repository: EventRepository
    const cache: CacheRepository
    const enricher: LogEnricher
    /** `json.Unmarshal` into the log fields. */
    const decode: string -> Result<LogData>
    /** `time.Parse(time.RFC3339, _)`. */
    const parseTime: string -> Option<Time>

    /** `NewLogProcessor`. */
    constructor (detector: AnomalyDetector, repository: EventRepository, cache: CacheRepository, enricher: LogEnricher,
                 decode: string -> Result<LogData>, parseTime: string -> Option<Time>)
      ensures this.detector == detector && this.repository == repository
      ensures this.cache == cache && this.enricher == enricher
      ensures this.decode == decode && this.parseTime == parseTime
    {
      this.detector := detector;
      this.repository := repository;
      this.cache := cache;
      this.enricher := enricher;
      this.decode := decode;
      this.parseTime := parseTime;
    }

    function Parse(raw: string, id: string, now: Time): Result<SecurityEvent> {
      ParseLog(raw, decode(raw), parseTime, id, now)
    }

    /** Filing the first `k` of `found` one by one through the processor's repository: those
        filed, and the error of the first rejected one. */
    function FileRun(found: seq<AnomalyResult>, k: nat): (seq<AnomalyResult>, Option<string>)
      requires k <= |found|
    {
      if k == 0 then ([], None)
      else
        var (filed, err) := FileRun(found, k - 1);
        if err.Some? then (filed, err)
        else if repository.anomalyFault(found[k - 1]).Some? then (filed, repository.anomalyFault(found[k - 1]))
        else (filed + [found[k - 1]], None)
    }

    /** The run files a prefix of `found`, all of it when no write is rejected. */
    lemma {:induction false} FileRunPrefix(found: seq<AnomalyResult>, k: nat)
      requires k <= |found|
      ensures FileRun(found, k).0 <= found[..k]
      ensures FileRun(found, k).1.None? ==> FileRun(found, k).0 == found[..k]
    {
      if k > 0 {
        FileRunPrefix(found, k - 1);
        assert found[..k] == found[..k - 1] + [found[k - 1]];
      }
    }

    /** Once a write has been rejected, the rest of the run changes nothing. */
    lemma {:induction false} FileRunStops(found: seq<AnomalyResult>, i: nat, k: nat)
      requires i <= k <= |found|
      requires FileRun(found, i).1.Some?
      ensures FileRun(found, k) == FileRun(found, i)
      decreases k
    {
      if k > i {
        FileRunStops(found, i, k - 1);
      }
    }

    /** What `ProcessLog` does with `raw` when the cache holds `cached`. */
    function Process(raw: string, id: string, now: Time, anomalyIds: nat -> string, user: Outcome,
                     cached: map<string, bool>): Progress
      requires detector.ModelShape()
    {
      match Parse(raw, id, now)
      case Err(msg) => Progress(Fail(msg), None, None, None, [])
      case Ok(parsed) =>
        var (e, enriched) := enricher.EnrichOutcome(parsed, user);
        if enriched.Fail? then Progress(enriched, None, None, None, [])
        else if CacheKey(e) in cached then Progress(Pass, None, None, None, [])
        else AfterMiss(e, anomalyIds, now)
    }

    /** What `ProcessLog` does with the enriched event `e` once the cache has missed: detect, file
        the event, mark the cache, file the anomalies. */
    function AfterMiss(e: SecurityEvent, anomalyIds: nat -> string, now: Time): Progress
      requires detector.ModelShape()
    {
      match detector.Detect([e], anomalyIds, now)
      case Err(msg) => Progress(Fail(msg), Some(e), None, None, [])
      case Ok(found) =>
        if repository.eventFault(e).Some? then Progress(Fail(repository.eventFault(e).value), Some(e), None, None, [])
        else
          var (filed, err) := FileRun(found, |found|);
          Progress(if err.Some? then Fail(err.value) else Pass, Some(e), Some(e), Some(CacheKey(e)), filed)
    }

    /** The state a run recorded as `p` leaves behind: the cache marked when the mark was
        attempted and accepted, the event filed when saved, and the detector's and the
        processor's filings, which land in one index when the two share a repository. */
    twostate predicate Effects(p: Progress, anomalyIds: nat -> string, now: Time)
      requires detector.ModelShape()
      reads cache, repository, detector.repository, detector.vectorRepo
    {
      && cache.entries == (if p.cacheKey.Some? && cache.setFault(p.cacheKey.value).None?
                           then old(cache.entries)[p.cacheKey.value := true] else old(cache.entries))
      && repository.events == (if p.savedEvent.Some? then old(repository.events)[p.savedEvent.value.id := p.savedEvent.value]
                               else old(repository.events))
      && detector.vectorRepo.vectors ==
           (if p.detected.Some?
            then FileVectors(old(detector.vectorRepo.vectors), detector.DetectTrace([p.detected.value], anomalyIds, now).vectors)
            else old(detector.vectorRepo.vectors))
      && var afterDetection :=
           if p.detected.Some?
           then FileAnomalies(old(detector.repository.anomalies), detector.DetectTrace([p.detected.value], anomalyIds, now).filed)
           else old(detector.repository.anomalies);
         if repository == detector.repository then repository.anomalies == FileAnomalies(afterDetection, p.filed)
         else
           repository.anomalies == FileAnomalies(old(repository.anomalies), p.filed)
           && detector.repository.anomalies == afterDetection
           && detector.repository.events == old(detector.repository.events)
    }

    /** Each step after a cache miss runs only when every earlier one succeeded: the save only
        after a successful detection, the cache mark only after the save, and anomalies only
        after the mark. */
    lemma AfterMissOrder(e: SecurityEvent, anomalyIds: nat -> string, now: Time)
      requires detector.ModelShape()
      ensures var p := AfterMiss(e, anomalyIds, now);
        p.detected == Some(e)
        && (p.filed != [] ==> p.cacheKey.Some?)
        && (p.cacheKey.Some? ==> p.savedEvent == Some(e) && p.cacheKey == Some(CacheKey(e)))
        && (p.savedEvent.Some? ==> detector.Detect([e], anomalyIds, now).Ok? && repository.eventFault(e).None?)
    {
      var p := AfterMiss(e, anomalyIds, now);
      if p.filed != [] {
        var found := detector.Detect([e], anomalyIds, now).value;
        assert p.filed == FileRun(found, |found|).0;
      }
    }

    /** The detector runs only on a cache miss after a good parse and enrichment, on the enriched
        event; a parse or enrichment error, or a cache hit, ends the run before the detector, the
        repository or the cache is reached, and a hit is a success. */
    lemma ProcessOrder(raw: string, id: string, now: Time, anomalyIds: nat -> string, user: Outcome, cached: map<string, bool>)
      requires detector.ModelShape()
      ensures var p := Process(raw, id, now, anomalyIds, user, cached);
        var parsed := Parse(raw, id, now);
        (parsed.Err? ==> p == Progress(Fail(parsed.error), None, None, None, []))
        && (parsed.Ok? ==>
              var (e, enriched) := enricher.EnrichOutcome(parsed.value, user);
              (enriched.Fail? ==> p == Progress(enriched, None, None, None, []))
              && (enriched.Pass? && CacheKey(e) in cached ==> p == Progress(Pass, None, None, None, []))
              && (enriched.Pass? && CacheKey(e) !in cached ==> p == AfterMiss(e, anomalyIds, now)))
    {
    }

    /** A successful run past the cache files the event and every anomaly the detector found, in
        the detector's order; an unsuccessful one files a prefix of them. */
    lemma AfterMissFilesFound(e: SecurityEvent, anomalyIds: nat -> string, now: Time)
      requires detector.ModelShape()
      ensures var p := AfterMiss(e, anomalyIds, now);
        p.savedEvent.Some? ==>
          var found := detector.Detect([e], anomalyIds, now).value;
          p.filed <= found && (p.result.Pass? ==> p.filed == found)
    {
      var p := AfterMiss(e, anomalyIds, now);
      if p.savedEvent.Some? {
        var found := detector.Detect([e], anomalyIds, now).value;
        FileRunPrefix(found, |found|);
        assert found[..|found|] == found;
      }
    }

    /** When the processor and the detector share one repository, a successful run files each
        anomaly twice, and the index ends as if it had been filed once. */
    lemma SharedRepositoryDoubleSave(e: SecurityEvent, anomalyIds: nat -> string, now: Time, m: map<string, AnomalyResult>)
      requires detector.ModelShape()
      requires AfterMiss(e, anomalyIds, now).result.Pass?
      ensures detector.Detect([e], anomalyIds, now).Ok?
      ensures FileAnomalies(FileAnomalies(m, detector.DetectTrace([e], anomalyIds, now).filed), AfterMiss(e, anomalyIds, now).filed)
              == FileAnomalies(m, detector.Detect([e], anomalyIds, now).value)
    {
      var found := detector.Detect([e], anomalyIds, now).value;
      AfterMissFilesFound(e, anomalyIds, now);
      assert detector.DetectTrace([e], anomalyIds, now).filed == found;
      FileAnomaliesTwice(m, found);
    }

    /** `ProcessLog`. */
    method ProcessLog(raw: string, id: string, now: Time, anomalyIds: nat -> string, user: Outcome) returns (result: Outcome)
      requires enricher.Valid() && detector.ModelShape()
      modifies enricher, cache, repository, detector.repository, detector.vectorRepo
      ensures enricher.Valid()
      ensures result == Process(raw, id, now, anomalyIds, user, old(cache.entries)).result
      ensures Effects(Process(raw, id, now, anomalyIds, user, old(cache.entries)), anomalyIds, now)
    {
      var parsed := Parse(raw, id, now);
      if parsed.Err? {
        return Fail(parsed.error);
      }
      var event, enriched := enricher.Enrich(parsed.value, user);
      if enriched.Fail? {
        return enriched;
      }
      var key := CacheKey(event);
      var hit := cache.Get(key);
      if hit.Ok? {
        return Pass;
      }
      result := HandleMiss(event, anomalyIds, now);
    }

    /** `ProcessLog` after a cache miss. The result of marking the cache is ignored. */
    method HandleMiss(event: SecurityEvent, anomalyIds: nat -> string, now: Time) returns (result: Outcome)
      requires detector.ModelShape()
      modifies cache, repository, detector.repository, detector.vectorRepo
      ensures result == AfterMiss(event, anomalyIds, now).result
      ensures Effects(AfterMiss(event, anomalyIds, now), anomalyIds, now)
    {
      var detected := detector.ProcessEvents([event], anomalyIds, now);
      if detected.Err? {
        return Fail(detected.error);
      }
      var saved := repository.SaveEvent(event);
      if saved.Fail? {
        return saved;
      }
      var ignored := cache.Set(CacheKey(event), true, CacheTtl);
      var anomalies := detected.value;
      result := SaveAllAnomalies(anomalies);
    }

    /** The loop filing the detected anomalies; the first rejected save ends it. */
    method SaveAllAnomalies(found: seq<AnomalyResult>) returns (result: Outcome)
      modifies repository
      ensures var (filed, err) := FileRun(found, |found|);
        result == (if err.Some? then Fail(err.value) else Pass)
        && repository.anomalies == FileAnomalies(old(repository.anomalies), filed)
      ensures repository.events == old(repository.events)
    {
      var i := 0;
      ghost var filed: seq<AnomalyResult> := [];
      while i < |found|
        invariant i <= |found|
        invariant FileRun(found, i) == (filed, None)
        invariant repository.anomalies == FileAnomalies(old(repository.anomalies), filed)
        invariant repository.events == old(repository.events)
      {
        var saved := repository.SaveAnomaly(found[i]);
        if saved.Fail? {
          FileRunStops(found, i + 1, |found|);
          return saved;
        }
        assert (filed + [found[i]])[..|filed|] == filed;
        filed := filed + [found[i]];
        i := i + 1;
      }
      result := Pass;
    }

    /** Line `raw` with fresh ID `id` and user-step outcome `user`, parsed and enriched, when
        both succeed. */
    function Survivor(raw: string, id: string, now: Time, user: Outcome): Option<SecurityEvent> {
      match Parse(raw, id, now)
      case Err(_) => None
      case Ok(parsed) =>
        var (e, enriched) := enricher.EnrichOutcome(parsed, user);
        if enriched.Pass? then Some(e) else None
    }

    /** Line `i` of the batch, parsed and enriched, when both succeed; line `i` gets the fresh
        ID `ids(i)` and the user-step outcome `users(i)`. */
    function SurvivorAt(raws: seq<string>, ids: nat -> string, now: Time, users: nat -> Outcome): nat -> Option<SecurityEvent> {
      (i: nat) => if i < |raws| then Survivor(raws[i], ids(i), now, users(i)) else None
    }

    /** The survivors of the batch, in line order. */
    function Survivors(raws: seq<string>, ids: nat -> string, now: Time, users: nat -> Outcome): seq<SecurityEvent> {
      Kept(SurvivorAt(raws, ids, now, users), |raws|)
    }

    /** The survivors are exactly the enriched lines whose parse and enrichment succeed, at most
        one per line. */
    lemma SurvivorsSpec(raws: seq<string>, ids: nat -> string, now: Time, users: nat -> Outcome, e: SecurityEvent)
      ensures |Survivors(raws, ids, now, users)| <= |raws|
      ensures e in Survivors(raws, ids, now, users) <==>
        exists i: nat :: i < |raws| && Survivor(raws[i], ids(i), now, users(i)) == Some(e)
    {
      var f := SurvivorAt(raws, ids, now, users);
      KeptSpec(f, |raws|, e);
      if e in Survivors(raws, ids, now, users) {
        var i: nat :| i < |raws| && f(i) == Some(e);
        assert Survivor(raws[i], ids(i), now, users(i)) == Some(e);
      }
      if exists i: nat :: i < |raws| && Survivor(raws[i], ids(i), now, users(i)) == Some(e) {
        var i: nat :| i < |raws| && Survivor(raws[i], ids(i), now, users(i)) == Some(e);
        assert f(i) == Some(e);
      }
    }

    /** The loop of `BatchProcessLogs` that parses and enriches each line, keeping those that
        succeed. */
    method CollectSurvivors(raws: seq<string>, ids: nat -> string, now: Time, users: nat -> Outcome)
      returns (events: seq<SecurityEvent>)
      requires enricher.Valid()
      modifies enricher
      ensures enricher.Valid()
      ensures events == Survivors(raws, ids, now, users)
    {
      ghost var f := SurvivorAt(raws, ids, now, users);
      events := [];
      for i := 0 to |raws|
        invariant enricher.Valid()
        invariant events == Kept(f, i)
      {
        var parsed := Parse(raws[i], ids(i), now);
        if parsed.Err? {
          assert f(i) == None;
          continue;
        }
        var event, enriched := enricher.Enrich(parsed.value, users(i));
        if enriched.Fail? {
          assert f(i) == None;
          continue;
        }
        assert f(i) == Some(event);
        events := events + [event];
      }
    }

    /** `BatchProcessLogs`. The survivors go to one detector call, and none is made when there are
        none; the cache and the processor's repository are not touched, and no event is filed. */
    method BatchProcessLogs(raws: seq<string>, ids: nat -> string, now: Time, anomalyIds: nat -> string,
                            users: nat -> Outcome) returns (result: Outcome)
      requires enricher.Valid() && detector.ModelShape()
      modifies enricher, detector.repository, detector.vectorRepo
      ensures enricher.Valid()
      ensures var s := Survivors(raws, ids, now, users);
        result == if s == [] then Pass
                  else match detector.Detect(s, anomalyIds, now)
                       case Err(msg) => Fail(msg)
                       case Ok(_) => Pass
      ensures var s := Survivors(raws, ids, now, users);
        detector.repository.anomalies ==
          if s == [] then old(detector.repository.anomalies)
          else FileAnomalies(old(detector.repository.anomalies), detector.DetectTrace(s, anomalyIds, now).filed)
      ensures var s := Survivors(raws, ids, now, users);
        detector.vectorRepo.vectors ==
          if s == [] then old(detector.vectorRepo.vectors)
          else FileVectors(old(detector.vectorRepo.vectors), detector.DetectTrace(s, anomalyIds, now).vectors)
      ensures detector.repository.events == old(detector.repository.events)
    {
      var events := CollectSurvivors(raws, ids, now, users);
      result := Pass;
      if |events| > 0 {
        var detected := detector.ProcessEvents(events, anomalyIds, now);
        if detected.Err? {
          result := Fail(detected.error);
        }
      }
    }
  }
}
