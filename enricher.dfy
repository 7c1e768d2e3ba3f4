/** The log enricher: geolocation and threat-intelligence labels for the source and destination
    addresses of an event, looked up through a per-address cache, followed by a severity computed
    from the reputation labels and the action. The two databases are functions from an address to
    a record or an error; an event is a value, and each step returns the updated event. */
module Enrichment {
  import opened Wrappers
  import opened Text
  import opened Clock
  import opened Entity

  datatype GeoData = GeoData(
    country: string,
    city: string,
    region: string,
    asn: string,
    asnOrg: string,
    latitude: real,
    longitude: real,
    updatedAt: Time)

  datatype ThreatInfo = ThreatInfo(
    score: real,
    categories: seq<string>,
    firstSeen: Time,
    lastSeen: string,
    references: seq<string>,
    confidence: real)

  /** What the enricher keeps about one address. */
  datatype IpInfo = IpInfo(
    country: string,
    city: string,
    asn: string,
    reputation: real,
    categories: seq<string>,
    lastSeen: string)

  /** The cache key of an address. */
  function IpKey(ip: string): string {
    "ip:" + ip
  }

  /** The two lookups for one address, geolocation first, combined into one record; the first
      error wins. */
  function Lookup(geo: string -> Result<GeoData>, threat: string -> Result<ThreatInfo>, ip: string): Result<IpInfo> {
    match geo(ip)
    case Err(e) => Err(e)
    case Ok(g) =>
      match threat(ip)
      case Err(e) => Err(e)
      case Ok(t) => Ok(IpInfo(g.country, g.city, g.asn, t.score, t.categories, t.lastSeen))
  }

  // ---- Labels ----

  /** The labels `applyIPInfo` appends for `direction` ("source" or "dest"): country, city, ASN,
      then one per category in order. */
  function IpLabels(direction: string, info: IpInfo): seq<string> {
    var prefix := direction + "_";
    [prefix + "country:" + info.country, prefix + "city:" + info.city, prefix + "asn:" + info.asn]
    + seq(|info.categories|, i requires 0 <= i < |info.categories| => prefix + "category:" + info.categories[i])
  }

  /** The event with the labels for `direction` appended. */
  function WithIpLabels(e: SecurityEvent, info: IpInfo, direction: string): SecurityEvent {
    e.(labels := e.labels + IpLabels(direction, info))
  }

  /** The three fixed labels and one per category, each starting with the direction and "_". */
  lemma IpLabelsSpec(direction: string, info: IpInfo)
    ensures |IpLabels(direction, info)| == 3 + |info.categories|
    ensures forall l :: l in IpLabels(direction, info) ==> HasPrefix(l, direction + "_")
    ensures forall i :: 0 <= i < |info.categories| ==>
      IpLabels(direction, info)[3 + i] == direction + "_category:" + info.categories[i]
  {
    var ls := IpLabels(direction, info);
    var prefix := direction + "_";
    forall l | l in ls
      ensures HasPrefix(l, prefix)
    {
      var i :| 0 <= i < |ls| && ls[i] == l;
      if i >= 3 {
        assert l == prefix + ("category:" + info.categories[i - 3]);
      } else if i == 0 {
        assert l == prefix + ("country:" + info.country);
      } else if i == 1 {
        assert l == prefix + ("city:" + info.city);
      } else {
        assert l == prefix + ("asn:" + info.asn);
      }
    }
    forall i | 0 <= i < |info.categories|
      ensures ls[3 + i] == direction + "_category:" + info.categories[i]
    {
      assert ls[3 + i] == prefix + "category:" + info.categories[i];
    }
  }

  /** `event.Labels[key]`, reading the label list as `key:value` entries: the value of the first
      label that starts with `key` and a colon, or "" when there is none. */
  function LabelValue(labels: seq<string>, key: string): string
    decreases |labels|
  {
    if labels == [] then ""
    else if HasPrefix(labels[0], key + ":") then labels[0][|key| + 1..]
    else LabelValue(labels[1..], key)
  }

  /** Appending labels none of which is a `key` entry does not change its value. */
  lemma {:induction false} LabelValueAppend(labels: seq<string>, extra: seq<string>, key: string)
    requires forall l :: l in extra ==> !HasPrefix(l, key + ":")
    ensures LabelValue(labels + extra, key) == LabelValue(labels, key)
    decreases |labels|
  {
    if labels == [] {
      assert labels + extra == extra;
      LabelValueNone(extra, key);
    } else {
      assert (labels + extra)[0] == labels[0];
      assert (labels + extra)[1..] == labels[1..] + extra;
      LabelValueAppend(labels[1..], extra, key);
    }
  }

  lemma {:induction false} LabelValueNone(labels: seq<string>, key: string)
    requires forall l :: l in labels ==> !HasPrefix(l, key + ":")
    ensures LabelValue(labels, key) == ""
    decreases |labels|
  {
    if labels != [] {
      LabelValueNone(labels[1..], key);
    }
  }

  /** A label made of a direction, "_" and a text not starting with 'r' is not a reputation entry. */
  lemma NotReputation(direction: string, rest: string)
    requires direction == "source" || direction == "dest"
    requires rest != [] && rest[0] != 'r'
    ensures !HasPrefix(direction + "_" + rest, "source_reputation:")
    ensures !HasPrefix(direction + "_" + rest, "dest_reputation:")
  {
    var l := direction + "_" + rest;
    assert l[|direction| + 1] == rest[0];
    assert l[0] == direction[0];
    if direction == "source" {
      assert "source_reputation:"[7] == 'r';
    } else {
      assert "dest_reputation:"[5] == 'r';
    }
  }

  /** The enrichment labels are never reputation entries: every one continues the direction and
      "_" with "country:", "city:", "asn:" or "category:". */
  lemma NoReputationLabels(direction: string, info: IpInfo)
    requires direction == "source" || direction == "dest"
    ensures forall l :: l in IpLabels(direction, info) ==>
      !HasPrefix(l, "source_reputation:") && !HasPrefix(l, "dest_reputation:")
  {
    var ls := IpLabels(direction, info);
    forall l | l in ls
      ensures !HasPrefix(l, "source_reputation:") && !HasPrefix(l, "dest_reputation:")
    {
      var i :| 0 <= i < |ls| && ls[i] == l;
      IpLabelNotReputation(direction, info, i);
    }
  }

  /** The `i`-th enrichment label is not a reputation entry. */
  lemma IpLabelNotReputation(direction: string, info: IpInfo, i: nat)
    requires direction == "source" || direction == "dest"
    requires i < |IpLabels(direction, info)|
    ensures var l := IpLabels(direction, info)[i];
      !HasPrefix(l, "source_reputation:") && !HasPrefix(l, "dest_reputation:")
  {
    var rest := if i == 0 then "country:" + info.country
      else if i == 1 then "city:" + info.city
      else if i == 2 then "asn:" + info.asn
      else "category:" + info.categories[i - 3];
    assert IpLabels(direction, info)[i] == direction + "_" + rest;
    NotReputation(direction, rest);
  }

  // ---- Severity ----

  /** The weight of the action in tenths: 2 for block, deny and alert, 1 for warning, matched
      without regard to ASCII case. */
  function ActionWeight(action: string): nat {
    var a := ToLower(action);
    if a == "block" || a == "deny" || a == "alert" then 2 else if a == "warning" then 1 else 0
  }

  predicate SourceMalicious(e: SecurityEvent) {
    Contains(LabelValue(e.labels, "source_reputation"), "malicious")
  }

  predicate DestMalicious(e: SecurityEvent) {
    Contains(LabelValue(e.labels, "dest_reputation"), "malicious")
  }

  /** The score `calculateSeverity` adds up, in tenths: 4 for a malicious source reputation, 3 for
      a malicious destination reputation, and the action's weight. */
  function SeverityScore(e: SecurityEvent): nat {
    (if SourceMalicious(e) then 4 else 0) + (if DestMalicious(e) then 3 else 0) + ActionWeight(e.action)
  }

  /** The thresholds 0.7, 0.5 and 0.3 in tenths. */
  function SeverityFor(score: nat): string {
    if score >= 7 then "critical" else if score >= 5 then "high" else if score >= 3 then "medium" else "low"
  }

  /** The severity as a truth table: critical iff both reputations are malicious; high iff only
      the source is and the action weighs something, or only the destination is and the action
      weighs 2; medium iff only the source is and the action weighs nothing, or only the
      destination is and the action weighs at most 1; low iff neither is. Never "info". */
  lemma SeverityTable(e: SecurityEvent)
    ensures SeverityFor(SeverityScore(e)) in {"critical", "high", "medium", "low"}
    ensures SeverityFor(SeverityScore(e)) == "critical" <==> SourceMalicious(e) && DestMalicious(e)
    ensures SeverityFor(SeverityScore(e)) == "high" <==>
      (SourceMalicious(e) && !DestMalicious(e) && ActionWeight(e.action) >= 1)
      || (!SourceMalicious(e) && DestMalicious(e) && ActionWeight(e.action) == 2)
    ensures SeverityFor(SeverityScore(e)) == "medium" <==>
      (SourceMalicious(e) && !DestMalicious(e) && ActionWeight(e.action) == 0)
      || (!SourceMalicious(e) && DestMalicious(e) && ActionWeight(e.action) <= 1)
    ensures SeverityFor(SeverityScore(e)) == "low" <==> !SourceMalicious(e) && !DestMalicious(e)
  {
    assert ActionWeight(e.action) <= 2;
  }

  /** The score reads only the labels and the action, so recomputing the severity of an event
      whose severity was just computed gives the same severity. */
  lemma SeverityIdempotent(e: SecurityEvent)
    ensures var e1 := e.(severity := SeverityFor(SeverityScore(e)));
      SeverityFor(SeverityScore(e1)) == e1.severity
  {
  }

  /** `calculateSeverity`: the score is accumulated step by step, then thresholded. */
  method CalculateSeverity(e: SecurityEvent) returns (r: SecurityEvent)
    ensures r == e.(severity := SeverityFor(SeverityScore(e)))
  {
    var score := 0;
    if Contains(LabelValue(e.labels, "source_reputation"), "malicious") {
      score := score + 4;
    }
    if Contains(LabelValue(e.labels, "dest_reputation"), "malicious") {
      score := score + 3;
    }
    var action := ToLower(e.action);
    if action == "block" || action == "deny" || action == "alert" {
      score := score + 2;
    } else if action == "warning" {
      score := score + 1;
    }
    var severity;
    if score >= 7 {
      severity := "critical";
    } else if score >= 5 {
      severity := "high";
    } else if score >= 3 {
      severity := "medium";
    } else {
      severity := "low";
    }
    r := e.(severity := severity);
  }

  /** `applyIPInfo`: the three fixed labels, then a loop appending one per category. */
  method ApplyIpInfo(e: SecurityEvent, info: IpInfo, direction: string) returns (r: SecurityEvent)
    ensures r == WithIpLabels(e, info, direction)
  {
    var prefix := direction + "_";
    var labels := e.labels + [prefix + "country:" + info.country, prefix + "city:" + info.city, prefix + "asn:" + info.asn];
    var i := 0;
    while i < |info.categories|
      invariant 0 <= i <= |info.categories|
      invariant labels == e.labels + IpLabels(direction, info)[..3 + i]
    {
      assert IpLabels(direction, info)[..3 + i + 1] == IpLabels(direction, info)[..3 + i] + [prefix + "category:" + info.categories[i]];
      labels := labels + [prefix + "category:" + info.categories[i]];
      i := i + 1;
    }
    assert IpLabels(direction, info)[..3 + i] == IpLabels(direction, info);
    r := e.(labels := labels);
  }

  /** Adding the enrichment labels of either direction leaves the severity score alone, so the
      severity an enriched event gets depends only on the labels it came with and its action. */
  lemma EnrichmentKeepsScore(e: SecurityEvent, info: IpInfo, direction: string)
    requires direction == "source" || direction == "dest"
    ensures SeverityScore(WithIpLabels(e, info, direction)) == SeverityScore(e)
  {
    NoReputationLabels(direction, info);
    LabelValueAppend(e.labels, IpLabels(direction, info), "source_reputation");
    LabelValueAppend(e.labels, IpLabels(direction, info), "dest_reputation");
  }

  class LogEnricher {
    const geoIpDb: string -> Result<GeoData>
    const reputationDb: string -> Result<ThreatInfo>
    var cache: map<string, IpInfo>

    /** Every cached record is what the two lookups give for its address. */
    ghost predicate Valid()
      reads this
    {
      forall k :: k in cache ==> HasPrefix(k, "ip:") && Lookup(geoIpDb, reputationDb, k[3..]) == Ok(cache[k])
    }

    /** `NewLogEnricher`: an empty cache. */
    constructor (geoIpDb: string -> Result<GeoData>, reputationDb: string -> Result<ThreatInfo>)
      ensures this.geoIpDb == geoIpDb && this.reputationDb == reputationDb
      ensures cache == map[] && Valid()
    {
      this.geoIpDb := geoIpDb;
      this.reputationDb := reputationDb;
      cache := map[];
    }

    /** The outcome of one direction's enrichment when the lookups give `found`: an error leaves
        the event as it is. */
    function IpStep(e: SecurityEvent, found: Result<IpInfo>, direction: string): (SecurityEvent, Outcome) {
      match found
      case Err(msg) => (e, Fail(msg))
      case Ok(info) => (WithIpLabels(e, info, direction), Pass)
    }

    /** `enrichIPInfo`. A cached record is applied without a lookup; otherwise both lookups run,
        the first error is returned with nothing changed, and a combined record is cached and
        applied. The cache only answers what the lookups would. */
    method EnrichIpInfo(e: SecurityEvent, ip: string, direction: string) returns (r: SecurityEvent, result: Outcome)
      requires Valid()
      modifies this
      ensures Valid()
      ensures IpKey(ip) in old(cache) ==>
        r == WithIpLabels(e, old(cache)[IpKey(ip)], direction) && result == Pass && cache == old(cache)
      ensures IpKey(ip) !in old(cache) ==>
        cache == match Lookup(geoIpDb, reputationDb, ip)
                 case Ok(info) => old(cache)[IpKey(ip) := info]
                 case Err(_) => old(cache)
      ensures (r, result) == IpStep(e, Lookup(geoIpDb, reputationDb, ip), direction)
    {
      var key := IpKey(ip);
      assert key[3..] == ip;
      if key in cache {
        r := ApplyIpInfo(e, cache[key], direction);
        return r, Pass;
      }
      var geoData := geoIpDb(ip);
      if geoData.Err? {
        return e, Fail(geoData.error);
      }
      var threatInfo := reputationDb(ip);
      if threatInfo.Err? {
        return e, Fail(threatInfo.error);
      }
      var info := IpInfo(geoData.value.country, geoData.value.city, geoData.value.asn,
                         threatInfo.value.score, threatInfo.value.categories, threatInfo.value.lastSeen);
      cache := cache[key := info];
      r := ApplyIpInfo(e, info, direction);
      result := Pass;
    }

    /** What `Enrich` does to `e`: the source address, then the destination address, each only
        when set; `user` is the outcome of the user step, whose body is not part of this model;
        the first error is returned with the event as far as it got, and only a run without
        errors recomputes the severity. */
    function EnrichOutcome(e: SecurityEvent, user: Outcome): (SecurityEvent, Outcome) {
      var (e1, r1) := if e.sourceIp != "" then IpStep(e, Lookup(geoIpDb, reputationDb, e.sourceIp), "source") else (e, Pass);
      if r1.Fail? then (e1, r1)
      else
        var (e2, r2) := if e.destIp != "" then IpStep(e1, Lookup(geoIpDb, reputationDb, e.destIp), "dest") else (e1, Pass);
        if r2.Fail? then (e2, r2)
        else if e.user != "" && user.Fail? then (e2, user)
        else (e2.(severity := SeverityFor(SeverityScore(e2))), Pass)
    }

    /** `Enrich`. */
    method Enrich(e: SecurityEvent, user: Outcome) returns (r: SecurityEvent, result: Outcome)
      requires Valid()
      modifies this
      ensures Valid()
      ensures (r, result) == EnrichOutcome(e, user)
      ensures forall k :: k in old(cache) ==> k in cache && cache[k] == old(cache)[k]
    {
      r, result := e, Pass;
      if e.sourceIp != "" {
        r, result := EnrichIpInfo(r, e.sourceIp, "source");
        if result.Fail? {
          return;
        }
      }
      if e.destIp != "" {
        r, result := EnrichIpInfo(r, e.destIp, "dest");
        if result.Fail? {
          return;
        }
      }
      if e.user != "" && user.Fail? {
        return r, user;
      }
      r := CalculateSeverity(r);
    }

    /** A successful enrichment appends the labels of each set address, source first, keeps every
        other field but the severity, and sets the severity from the labels the event came with. */
    lemma EnrichSpec(e: SecurityEvent, user: Outcome)
      ensures var (r, result) := EnrichOutcome(e, user);
        result.Pass? ==>
          (exists extra :: r.labels == e.labels + extra)
          && r == e.(labels := r.labels, severity := r.severity)
          && r.severity == SeverityFor(SeverityScore(e))
          && r.severity in {"critical", "high", "medium", "low"}
    {
      var (r, result) := EnrichOutcome(e, user);
      if result.Pass? {
        var e1 := if e.sourceIp != "" then WithIpLabels(e, Lookup(geoIpDb, reputationDb, e.sourceIp).value, "source") else e;
        if e.sourceIp != "" {
          EnrichmentKeepsScore(e, Lookup(geoIpDb, reputationDb, e.sourceIp).value, "source");
        }
        var e2 := if e.destIp != "" then WithIpLabels(e1, Lookup(geoIpDb, reputationDb, e.destIp).value, "dest") else e1;
        if e.destIp != "" {
          EnrichmentKeepsScore(e1, Lookup(geoIpDb, reputationDb, e.destIp).value, "dest");
        }
        assert r.severity == SeverityFor(SeverityScore(e2));
        SeverityTable(e);
        var extra := r.labels[|e.labels|..];
        assert r.labels == e.labels + extra;
      }
    }

    /** An error looking up the source address ends the enrichment with the event untouched; one
        looking up the destination leaves only the source labels added; neither recomputes the
        severity. */
    lemma EnrichErrors(e: SecurityEvent, user: Outcome)
      ensures e.sourceIp != "" && Lookup(geoIpDb, reputationDb, e.sourceIp).Err? ==>
        EnrichOutcome(e, user) == (e, Fail(Lookup(geoIpDb, reputationDb, e.sourceIp).error))
      ensures ((e.sourceIp == "" || Lookup(geoIpDb, reputationDb, e.sourceIp).Ok?)
               && e.destIp != "" && Lookup(geoIpDb, reputationDb, e.destIp).Err?) ==>
        var e1 := if e.sourceIp != "" then WithIpLabels(e, Lookup(geoIpDb, reputationDb, e.sourceIp).value, "source") else e;
        EnrichOutcome(e, user) == (e1, Fail(Lookup(geoIpDb, reputationDb, e.destIp).error))
        && EnrichOutcome(e, user).0.severity == e.severity
    {
    }
  }
}
