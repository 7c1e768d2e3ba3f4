/** The storage interfaces the pipeline writes through: security events and anomalies filed by
    their IDs (the search index's document IDs), event vectors filed by event ID, and a key-value
    cache. Each store is its maps; a write the backend rejects is given by a fault function of
    the write, fixed when the store is made. */
module Repositories {
  import opened Wrappers
  import opened Entity

  /** The outcome of a write whose fault is `fault`. */
  function WriteOutcome(fault: Option<string>): (r: Outcome)
    ensures r.Pass? <==> fault.None?
    ensures r.Fail? ==> r.error == fault.value
  {
    if fault.None? then Pass else Fail(fault.value)
  }

  /** The anomaly index after `written` have been filed one after another: a later anomaly with
      the same ID replaces an earlier one. */
  function FileAnomalies(m: map<string, AnomalyResult>, written: seq<AnomalyResult>): map<string, AnomalyResult>
    decreases |written|
  {
    if written == [] then m
    else
      var last := written[|written| - 1];
      FileAnomalies(m, written[..|written| - 1])[last.id := last]
  }

  /** The latest anomaly of `written` with ID `id`, if any. */
  function LatestWith(written: seq<AnomalyResult>, id: string): Option<AnomalyResult>
    decreases |written|
  {
    if written == [] then None
    else if written[|written| - 1].id == id then Some(written[|written| - 1])
    else LatestWith(written[..|written| - 1], id)
  }

  /** Filing a sequence leaves each ID with its latest anomaly in the sequence, or with what the
      index held before when the sequence has none. */
  lemma {:induction false} FileAnomaliesLookup(m: map<string, AnomalyResult>, written: seq<AnomalyResult>, id: string)
    ensures LatestWith(written, id).Some? ==>
      id in FileAnomalies(m, written) && FileAnomalies(m, written)[id] == LatestWith(written, id).value
    ensures LatestWith(written, id).None? ==>
      (id in FileAnomalies(m, written) <==> id in m)
      && (id in m ==> FileAnomalies(m, written)[id] == m[id])
    decreases |written|
  {
    if written != [] {
      FileAnomaliesLookup(m, written[..|written| - 1], id);
    }
  }

  /** Filing the same anomalies a second time changes nothing: the double save of an anomaly by
      the detector and then by the processor, when both share one repository, is harmless. */
  lemma FileAnomaliesTwice(m: map<string, AnomalyResult>, written: seq<AnomalyResult>)
    ensures FileAnomalies(FileAnomalies(m, written), written) == FileAnomalies(m, written)
  {
    var once := FileAnomalies(m, written);
    var twice := FileAnomalies(once, written);
    forall id
      ensures (id in twice <==> id in once) && (id in once ==> twice[id] == once[id])
    {
      FileAnomaliesLookup(m, written, id);
      FileAnomaliesLookup(once, written, id);
    }
  }

  /** The vector index after the (event ID, vector) pairs `written` have been filed in order. */
  function FileVectors(m: map<string, seq<real>>, written: seq<(string, seq<real>)>): map<string, seq<real>>
    decreases |written|
  {
    if written == [] then m
    else
      var last := written[|written| - 1];
      FileVectors(m, written[..|written| - 1])[last.0 := last.1]
  }

  /** `EventRepository`: `SaveEvent` and `SaveAnomaly`. */
  class EventRepository {
    var events: map<string, SecurityEvent>
    var anomalies: map<string, AnomalyResult>
    const eventFault: SecurityEvent -> Option<string>
    const anomalyFault: AnomalyResult -> Option<string>

    constructor (eventFault: SecurityEvent -> Option<string>, anomalyFault: AnomalyResult -> Option<string>)
      ensures events == map[] && anomalies == map[]
      ensures this.eventFault == eventFault && this.anomalyFault == anomalyFault
    {
      events := map[];
      anomalies := map[];
      this.eventFault := eventFault;
      this.anomalyFault := anomalyFault;
    }

    /** Files the event under its ID unless the backend rejects it. */
    method SaveEvent(e: SecurityEvent) returns (r: Outcome)
      modifies this
      ensures r == WriteOutcome(eventFault(e))
      ensures events == if r.Pass? then old(events)[e.id := e] else old(events)
      ensures anomalies == old(anomalies)
    {
      r := WriteOutcome(eventFault(e));
      if r.Pass? {
        events := events[e.id := e];
      }
    }

    /** Files the anomaly under its ID unless the backend rejects it. */
    method SaveAnomaly(a: AnomalyResult) returns (r: Outcome)
      modifies this
      ensures r == WriteOutcome(anomalyFault(a))
      ensures anomalies == if r.Pass? then FileAnomalies(old(anomalies), [a]) else old(anomalies)
      ensures events == old(events)
    {
      r := WriteOutcome(anomalyFault(a));
      if r.Pass? {
        anomalies := anomalies[a.id := a];
        assert [a][..0] == [];
      }
    }
  }

  /** `VectorRepository`: `SaveEventVector`. */
  class VectorRepository {
    var vectors: map<string, seq<real>>
    const vectorFault: (string, seq<real>) -> Option<string>

    constructor (vectorFault: (string, seq<real>) -> Option<string>)
      ensures vectors == map[] && this.vectorFault == vectorFault
    {
      vectors := map[];
      this.vectorFault := vectorFault;
    }

    /** Files the vector under the event's ID unless the backend rejects it. */
    method SaveEventVector(eventId: string, vector: seq<real>) returns (r: Outcome)
      modifies this
      ensures r == WriteOutcome(vectorFault(eventId, vector))
      ensures vectors == if r.Pass? then FileVectors(old(vectors), [(eventId, vector)]) else old(vectors)
    {
      r := WriteOutcome(vectorFault(eventId, vector));
      if r.Pass? {
        vectors := vectors[eventId := vector];
        assert [(eventId, vector)][..0] == [];
      }
    }
  }

  /** `CacheRepository`: `Get` and `Set`. The stored values are the flags the processor writes;
      expiry is not part of this model, so an entry stays until it is overwritten. */
  class CacheRepository {
    var entries: map<string, bool>
    const setFault: string -> Option<string>

    constructor (setFault: string -> Option<string>)
      ensures entries == map[] && this.setFault == setFault
    {
      entries := map[];
      this.setFault := setFault;
    }

    /** A stored key gives its value; a missing one an error. */
    method Get(key: string) returns (r: Result<bool>)
      ensures r.Ok? <==> key in entries
      ensures r.Ok? ==> r.value == entries[key]
      ensures r.Err? ==> r.error == "cache miss"
    {
      if key in entries {
        r := Ok(entries[key]);
      } else {
        r := Err("cache miss");
      }
    }

    /** Stores `value` under `key` for `expiration` nanoseconds unless the backend rejects it. */
    method Set(key: string, value: bool, expiration: int) returns (r: Outcome)
      modifies this
      ensures r == WriteOutcome(setFault(key))
      ensures entries == if r.Pass? then old(entries)[key := value] else old(entries)
    {
      r := WriteOutcome(setFault(key));
      if r.Pass? {
        entries := entries[key := value];
      }
    }
  }
}
