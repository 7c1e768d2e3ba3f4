/** The model-based anomaly detector: one batch prediction over the features of a batch of
    events, then a pass over the predictions that keeps the scored ones, turns those above the
    threshold into anomalies and files each anomaly, and then the event's vector. The model, the
    logistic confidence curve, fresh IDs and the clock are inputs. */
module AnomalyDetection {
  import opened Wrappers
  import opened Clock
  import opened Entity
  import opened Repositories

  /** The model's input for one event. `timestamp` is `Stamp` of the event time, standing in for
      Unix seconds. */
  datatype Features = Features(
    timestamp: int,
    sourceIp: string,
    destIp: string,
    protocol: string,
    port: int,
    action: string,
    status: string,
    user: string)

  /** The model's output for one event: `anomaly_score` and `event_vector`, each present only
      when the output holds a value of the expected type. */
  datatype Prediction = Prediction(score: Option<real>, vector: Option<seq<real>>)

  function FeaturesOf(e: SecurityEvent): Features {
    Features(Stamp(e.timestamp), e.sourceIp, e.destIp, e.protocol, e.port, e.action, e.status, e.user)
  }

  /** The batch `ProcessEvents` hands to the model: one input per event, in order. */
  function Batch(events: seq<SecurityEvent>): seq<Features> {
    seq(|events|, i requires 0 <= i < |events| => FeaturesOf(events[i]))
  }

  /** `determineAnomalyType`: four bands of the score, strict lower bounds, and "unknown" when
      there is no score. */
  function AnomalyType(score: Option<real>): string {
    if score.None? then "unknown"
    else if score.value > 0.9 then "critical"
    else if score.value > 0.7 then "high"
    else if score.value > 0.5 then "medium"
    else "low"
  }

  lemma AnomalyTypeBands(score: Option<real>)
    ensures AnomalyType(score) == "unknown" <==> score.None?
    ensures AnomalyType(score) == "critical" <==> score.Some? && score.value > 0.9
    ensures AnomalyType(score) == "high" <==> score.Some? && 0.7 < score.value <= 0.9
    ensures AnomalyType(score) == "medium" <==> score.Some? && 0.5 < score.value <= 0.7
    ensures AnomalyType(score) == "low" <==> score.Some? && score.value <= 0.5
  {
  }

  /** `findRelatedRules`: not implemented in the Go code, so always empty. */
  function RelatedRules(e: SecurityEvent, score: real): seq<string> {
    []
  }

  /** What one pass over the predictions did: the anomalies filed, the (event ID, vector) pairs
      filed, and the error that stopped it, if any. */
  datatype Trace = Trace(filed: seq<AnomalyResult>, vectors: seq<(string, seq<real>)>, error: Option<string>)

  class AnomalyDetector {
    const model: seq<Features> -> Result<seq<Prediction>>
    const repository: EventRepository
    const vectorRepo: VectorRepository
    const threshold: real
    const batchSize: int
    /** `calculateConfidence` as a function of score minus threshold. */
    const confidence: real -> real

    /** `NewAnomalyDetector` once the model is loaded. */
    constructor (model: seq<Features> -> Result<seq<Prediction>>, repository: EventRepository,
                 vectorRepo: VectorRepository, threshold: real, batchSize: int, confidence: real -> real)
      ensures this.model == model && this.repository == repository && this.vectorRepo == vectorRepo
      ensures this.threshold == threshold && this.batchSize == batchSize && this.confidence == confidence
    {
      this.model := model;
      this.repository := repository;
      this.vectorRepo := vectorRepo;
      this.threshold := threshold;
      this.batchSize := batchSize;
      this.confidence := confidence;
    }

    /** A prediction the pass handles without looking at an event: unscored, or scored at most
        the threshold and without a vector. */
    predicate Inert(p: Prediction) {
      p.score.None? || (p.score.value <= threshold && p.vector.None?)
    }

    /** Every prediction the model gives past the last input is inert; any other one makes the
        pass index past the end of the events and panic. */
    ghost predicate ModelShape() {
      forall b, i :: model(b).Ok? && |b| <= i < |model(b).value| ==> Inert(model(b).value[i])
    }

    /** How many predictions have an event of their own. */
    function Paired(events: seq<SecurityEvent>, preds: seq<Prediction>): (n: nat)
      ensures n <= |events| && n <= |preds| && (n == |events| || n == |preds|)
    {
      if |preds| <= |events| then |preds| else |events|
    }

    /** The anomaly for a score above the threshold. */
    function NewAnomaly(e: SecurityEvent, score: real, id: string, now: Time): (a: AnomalyResult)
      ensures a.eventId == e.id && a.score == score && a.id == id
      ensures a.anomalyType == AnomalyType(Some(score)) && a.rules == []
      ensures a.confidence == confidence(score - threshold) && a.timestamp == a.createdAt == now
    {
      NewAnomalyResult(id, e.id, score, now).(
        anomalyType := AnomalyType(Some(score)),
        confidence := confidence(score - threshold),
        rules := RelatedRules(e, score))
    }

    /** One prediction: skipped without a score; otherwise an anomaly filed when the score is
        above the threshold, then the vector filed when present; a rejected write stops. */
    function Step(t: Trace, e: SecurityEvent, p: Prediction, id: string, now: Time): Trace {
      if t.error.Some? || p.score.None? then t
      else
        var score := p.score.value;
        var t1 :=
          if score > threshold then
            var a := NewAnomaly(e, score, id, now);
            if repository.anomalyFault(a).Some? then t.(error := repository.anomalyFault(a))
            else t.(filed := t.filed + [a])
          else t;
        if t1.error.Some? || p.vector.None? then t1
        else if vectorRepo.vectorFault(e.id, p.vector.value).Some? then t1.(error := vectorRepo.vectorFault(e.id, p.vector.value))
        else t1.(vectors := t1.vectors + [(e.id, p.vector.value)])
    }

    /** The pass over the first `k` predictions; prediction `i` belongs to event `i` and gets
        `ids(i)` as its anomaly's ID. */
    function Run(events: seq<SecurityEvent>, preds: seq<Prediction>, ids: nat -> string, now: Time, k: nat): Trace
      requires k <= |preds| && k <= |events|
    {
      if k == 0 then Trace([], [], None)
      else Step(Run(events, preds, ids, now, k - 1), events[k - 1], preds[k - 1], ids(k - 1), now)
    }

    /** Once a write has failed, the rest of the pass changes nothing. */
    lemma {:induction false} RunStops(events: seq<SecurityEvent>, preds: seq<Prediction>, ids: nat -> string, now: Time, i: nat, k: nat)
      requires i <= k <= |preds| && k <= |events|
      requires Run(events, preds, ids, now, i).error.Some?
      ensures Run(events, preds, ids, now, k) == Run(events, preds, ids, now, i)
      decreases k
    {
      if k > i {
        RunStops(events, preds, ids, now, i, k - 1);
      }
    }

    /** The anomalies the first `k` predictions call for, in order, when no write fails. */
    function Expected(events: seq<SecurityEvent>, preds: seq<Prediction>, ids: nat -> string, now: Time, k: nat): seq<AnomalyResult>
      requires k <= |preds| && k <= |events|
    {
      if k == 0 then []
      else
        var p := preds[k - 1];
        Expected(events, preds, ids, now, k - 1)
          + if p.score.Some? && p.score.value > threshold then [NewAnomaly(events[k - 1], p.score.value, ids(k - 1), now)] else []
    }

    /** The vectors the first `k` predictions carry, in order: those of the scored ones. */
    function ExpectedVectors(events: seq<SecurityEvent>, preds: seq<Prediction>, k: nat): seq<(string, seq<real>)>
      requires k <= |preds| && k <= |events|
    {
      if k == 0 then []
      else
        var p := preds[k - 1];
        ExpectedVectors(events, preds, k - 1)
          + if p.score.Some? && p.vector.Some? then [(events[k - 1].id, p.vector.value)] else []
    }

    /** Prediction `i` calls for anomaly `a`: it is scored above the threshold, strictly, and
        `a` is the anomaly for its event and score. */
    predicate CallsFor(events: seq<SecurityEvent>, preds: seq<Prediction>, ids: nat -> string, now: Time, i: nat, a: AnomalyResult) {
      i < |preds| && i < |events| && preds[i].score.Some? && preds[i].score.value > threshold
      && a == NewAnomaly(events[i], preds[i].score.value, ids(i), now)
    }

    /** The anomaly prediction `i` calls for, if any. */
    function CallAt(events: seq<SecurityEvent>, preds: seq<Prediction>, ids: nat -> string, now: Time): nat -> Option<AnomalyResult> {
      (i: nat) =>
        if i < |preds| && i < |events| && preds[i].score.Some? && preds[i].score.value > threshold
        then Some(NewAnomaly(events[i], preds[i].score.value, ids(i), now))
        else None
    }

    /** The expected anomalies are those the predictions call for, in order. */
    lemma {:induction false} ExpectedKept(events: seq<SecurityEvent>, preds: seq<Prediction>, ids: nat -> string, now: Time, k: nat)
      requires k <= |preds| && k <= |events|
      ensures Expected(events, preds, ids, now, k) == Kept(CallAt(events, preds, ids, now), k)
    {
      if k > 0 {
        ExpectedKept(events, preds, ids, now, k - 1);
      }
    }

    /** Exactly the anomalies some prediction calls for are expected. */
    lemma ExpectedSpec(events: seq<SecurityEvent>, preds: seq<Prediction>, ids: nat -> string, now: Time, k: nat, a: AnomalyResult)
      requires k <= |preds| && k <= |events|
      ensures a in Expected(events, preds, ids, now, k) <==>
        exists i: nat :: i < k && CallsFor(events, preds, ids, now, i, a)
    {
      var f := CallAt(events, preds, ids, now);
      ExpectedKept(events, preds, ids, now, k);
      KeptSpec(f, k, a);
      if a in Expected(events, preds, ids, now, k) {
        var i: nat :| i < k && f(i) == Some(a);
        assert CallsFor(events, preds, ids, now, i, a);
      }
      if exists i: nat :: i < k && CallsFor(events, preds, ids, now, i, a) {
        var i: nat :| i < k && CallsFor(events, preds, ids, now, i, a);
        assert f(i) == Some(a);
      }
    }

    /** A vector is filed exactly for a scored prediction that carries one, anomalous or not. */
    lemma {:induction false} ExpectedVectorsSpec(events: seq<SecurityEvent>, preds: seq<Prediction>, k: nat, id: string, v: seq<real>)
      requires k <= |preds| && k <= |events|
      ensures (id, v) in ExpectedVectors(events, preds, k) <==>
        exists i :: 0 <= i < k && preds[i].score.Some? && preds[i].vector == Some(v) && id == events[i].id
    {
      if k > 0 {
        ExpectedVectorsSpec(events, preds, k - 1, id, v);
      }
    }

    /** What one step adds to the expected anomalies and vectors. */
    function ExpectedStep(e: SecurityEvent, p: Prediction, id: string, now: Time): (seq<AnomalyResult>, seq<(string, seq<real>)>) {
      (if p.score.Some? && p.score.value > threshold then [NewAnomaly(e, p.score.value, id, now)] else [],
       if p.score.Some? && p.vector.Some? then [(e.id, p.vector.value)] else [])
    }

    /** A trace that has filed a prefix of `as` and `vs`, all of them when it has no error. */
    predicate FiledPrefix(t: Trace, anoms: seq<AnomalyResult>, vecs: seq<(string, seq<real>)>) {
      t.filed <= anoms && t.vectors <= vecs && (t.error.None? ==> t.filed == anoms && t.vectors == vecs)
    }

    lemma StepFiledPrefix(t: Trace, e: SecurityEvent, p: Prediction, id: string, now: Time,
                          anoms: seq<AnomalyResult>, vecs: seq<(string, seq<real>)>)
      requires FiledPrefix(t, anoms, vecs)
      ensures FiledPrefix(Step(t, e, p, id, now), anoms + ExpectedStep(e, p, id, now).0, vecs + ExpectedStep(e, p, id, now).1)
    {
    }

    /** The pass files a prefix of what is called for, and all of it when no write fails. */
    lemma {:induction false} RunFilesExpected(events: seq<SecurityEvent>, preds: seq<Prediction>, ids: nat -> string, now: Time, k: nat)
      requires k <= |preds| && k <= |events|
      ensures FiledPrefix(Run(events, preds, ids, now, k), Expected(events, preds, ids, now, k), ExpectedVectors(events, preds, k))
    {
      if k > 0 {
        RunFilesExpected(events, preds, ids, now, k - 1);
        StepFiledPrefix(Run(events, preds, ids, now, k - 1), events[k - 1], preds[k - 1], ids(k - 1), now,
                        Expected(events, preds, ids, now, k - 1), ExpectedVectors(events, preds, k - 1));
      }
    }

    /** The result of `ProcessEvents` on `events`: the model's error, the first rejected write,
        or the anomalies filed. */
    function Detect(events: seq<SecurityEvent>, ids: nat -> string, now: Time): Result<seq<AnomalyResult>>
      requires ModelShape()
    {
      match model(Batch(events))
      case Err(msg) => Err(msg)
      case Ok(preds) =>
        var t := Run(events, preds, ids, now, Paired(events, preds));
        if t.error.Some? then Err(t.error.value) else Ok(t.filed)
    }

    /** The pass the model's predictions for `events` lead to; no pass when the model fails. */
    function DetectTrace(events: seq<SecurityEvent>, ids: nat -> string, now: Time): Trace
      requires ModelShape()
    {
      match model(Batch(events))
      case Err(_) => Trace([], [], None)
      case Ok(preds) => Run(events, preds, ids, now, Paired(events, preds))
    }

    /** A successful detection returns exactly the anomalies the predictions call for. */
    lemma DetectSpec(events: seq<SecurityEvent>, ids: nat -> string, now: Time, a: AnomalyResult)
      requires ModelShape() && Detect(events, ids, now).Ok?
      ensures model(Batch(events)).Ok?
      ensures a in Detect(events, ids, now).value <==>
        exists i: nat :: i < |events| && CallsFor(events, model(Batch(events)).value, ids, now, i, a)
    {
      var preds := model(Batch(events)).value;
      RunFilesExpected(events, preds, ids, now, Paired(events, preds));
      ExpectedSpec(events, preds, ids, now, Paired(events, preds), a);
    }

    /** The body of the pass for one prediction, writing through the two repositories. */
    method HandlePrediction(t: Trace, e: SecurityEvent, p: Prediction, id: string, now: Time,
                            ghost anomalies0: map<string, AnomalyResult>, ghost vectors0: map<string, seq<real>>)
      returns (t': Trace)
      requires t.error.None?
      requires repository.anomalies == FileAnomalies(anomalies0, t.filed)
      requires vectorRepo.vectors == FileVectors(vectors0, t.vectors)
      modifies repository, vectorRepo
      ensures t' == Step(t, e, p, id, now)
      ensures repository.anomalies == FileAnomalies(anomalies0, t'.filed)
      ensures repository.events == old(repository.events)
      ensures vectorRepo.vectors == FileVectors(vectors0, t'.vectors)
    {
      t' := t;
      if p.score.None? {
        return;
      }
      var score := p.score.value;
      if score > threshold {
        var anomaly := NewAnomalyResult(id, e.id, score, now);
        anomaly := anomaly.(anomalyType := AnomalyType(p.score));
        anomaly := anomaly.(confidence := confidence(score - threshold));
        anomaly := anomaly.(rules := RelatedRules(e, score));
        var saved := repository.SaveAnomaly(anomaly);
        if saved.Fail? {
          return t.(error := Some(saved.error));
        }
        assert (t.filed + [anomaly])[..|t.filed|] == t.filed;
        t' := t.(filed := t.filed + [anomaly]);
      }
      if p.vector.Some? {
        var saved := vectorRepo.SaveEventVector(e.id, p.vector.value);
        if saved.Fail? {
          return t'.(error := Some(saved.error));
        }
        assert (t'.vectors + [(e.id, p.vector.value)])[..|t'.vectors|] == t'.vectors;
        t' := t'.(vectors := t'.vectors + [(e.id, p.vector.value)]);
      }
    }

    /** The feature loop of `ProcessEvents`: one input per event, in order. */
    static method BuildBatch(events: seq<SecurityEvent>) returns (batch: seq<Features>)
      ensures batch == Batch(events)
    {
      batch := [];
      for j := 0 to |events|
        invariant |batch| == j
        invariant forall m :: 0 <= m < j ==> batch[m] == FeaturesOf(events[m])
      {
        batch := batch + [FeaturesOf(events[j])];
      }
    }

    /** The result loop of `ProcessEvents`: every prediction in turn, those with an event handled
        as the pass says, the inert ones past the last event skipped, up to the first rejected write. */
    method FilePredictions(events: seq<SecurityEvent>, preds: seq<Prediction>, ids: nat -> string, now: Time)
      returns (t: Trace)
      requires forall i :: |events| <= i < |preds| ==> Inert(preds[i])
      modifies repository, vectorRepo
      ensures t == Run(events, preds, ids, now, Paired(events, preds))
      ensures repository.anomalies == FileAnomalies(old(repository.anomalies), t.filed)
      ensures repository.events == old(repository.events)
      ensures vectorRepo.vectors == FileVectors(old(vectorRepo.vectors), t.vectors)
    {
      var n := Paired(events, preds);
      t := Trace([], [], None);
      var i := 0;
      while i < |preds|
        invariant i <= |preds|
        invariant Run(events, preds, ids, now, if i <= n then i else n) == t && t.error.None?
        invariant repository.anomalies == FileAnomalies(old(repository.anomalies), t.filed)
        invariant repository.events == old(repository.events)
        invariant vectorRepo.vectors == FileVectors(old(vectorRepo.vectors), t.vectors)
      {
        if i >= |events| {
          // Past the last event the prediction is inert: the pass only reads its fields.
          assert Inert(preds[i]);
          i := i + 1;
          continue;
        }
        t := HandlePrediction(t, events[i], preds[i], ids(i), now, old(repository.anomalies), old(vectorRepo.vectors));
        i := i + 1;
        if t.error.Some? {
          RunStops(events, preds, ids, now, i, n);
          return;
        }
      }
    }

    /** `ProcessEvents`. The anomalies and vectors filed are those of the pass over the
        predictions, up to the first rejected write. */
    method ProcessEvents(events: seq<SecurityEvent>, ids: nat -> string, now: Time) returns (r: Result<seq<AnomalyResult>>)
      requires ModelShape()
      modifies repository, vectorRepo
      ensures r == Detect(events, ids, now)
      ensures repository.anomalies == FileAnomalies(old(repository.anomalies), DetectTrace(events, ids, now).filed)
      ensures repository.events == old(repository.events)
      ensures vectorRepo.vectors == FileVectors(old(vectorRepo.vectors), DetectTrace(events, ids, now).vectors)
    {
      var batch := BuildBatch(events);
      var results := model(batch);
      if results.Err? {
        return Err(results.error);
      }
      var preds := results.value;
      assert forall i :: |events| <= i < |preds| ==> Inert(preds[i]);
      var t := FilePredictions(events, preds, ids, now);
      r := if t.error.Some? then Err(t.error.value) else Ok(t.filed);
    }
  }
}
