/** The alert manager: an ordered list of alert rules, each a condition on an event, and a fixed
    list of notifiers. Processing an event raises one alert per matching rule, in rule order, and
    offers each alert to every notifier, whatever the earlier notifiers answered. A notifier's
    delivery is a function of the alert giving success or an error; the manager keeps what each
    delivery answered so the order and completeness of the fan-out can be stated. */
module Alerts {
  import opened Wrappers
  import opened Clock
  import opened Entity
  import Conditions

  /** A raised alert; the unset resolution time is `None`. */
  datatype Alert = Alert(
    id: string,
    eventId: string,
    ruleId: string,
    title: string,
    description: string,
    severity: string,
    createdAt: Time,
    status: string,
    assignedTo: string,
    resolvedAt: Option<Time>,
    resolution: string)

  /** An alert rule; `throttle` is a duration in nanoseconds. */
  datatype AlertRule = AlertRule(
    id: string,
    name: string,
    description: string,
    severity: string,
    condition: SecurityEvent -> bool,
    throttle: int)

  /** A notification channel: `send` is its delivery of one alert. */
  datatype Notifier = Notifier(send: Alert -> Outcome)

  /** One call of a notifier's `send`: which notifier, which alert, and its answer. */
  datatype Delivery = Delivery(notifier: nat, alert: Alert, outcome: Outcome)

  const Minute: int := 60 * 1000000000

  /** `generateID` at instant `now`: the time to the second followed by the fixed random part, so
      every alert raised within the same second gets the same ID. */
  function GenerateId(now: Time): string {
    FormatSecond(now) + "123456"
  }

  /** The alert `rule` raises for `event` at `now`. */
  function AlertOf(rule: AlertRule, event: SecurityEvent, now: Time): (a: Alert)
    ensures a.eventId == event.id && a.ruleId == rule.id && a.title == rule.name
    ensures a.description == rule.description && a.severity == rule.severity
    ensures a.status == "new" && a.createdAt == now && a.id == GenerateId(now)
    ensures a.assignedTo == a.resolution == "" && a.resolvedAt.None?
  {
    Alert(GenerateId(now), event.id, rule.id, rule.name, rule.description, rule.severity, now,
          "new", "", None, "")
  }

  /** What the `i`-th rule contributes for `event`: its alert when its condition holds. */
  function RuleAlert(rules: seq<AlertRule>, event: SecurityEvent, now: Time): nat -> Option<Alert> {
    (i: nat) => if i < |rules| && rules[i].condition(event) then Some(AlertOf(rules[i], event, now)) else None
  }

  /** The alerts `rules` raise for `event`, in rule order. */
  function Raised(rules: seq<AlertRule>, event: SecurityEvent, now: Time): seq<Alert> {
    Kept(RuleAlert(rules, event, now), |rules|)
  }

  /** At most one alert per rule, and an alert is raised exactly when some rule's condition holds
      and the alert is that rule's. */
  lemma RaisedSpec(rules: seq<AlertRule>, event: SecurityEvent, now: Time, a: Alert)
    ensures |Raised(rules, event, now)| <= |rules|
    ensures a in Raised(rules, event, now) <==>
      exists i: nat :: i < |rules| && rules[i].condition(event) && a == AlertOf(rules[i], event, now)
  {
    var f := RuleAlert(rules, event, now);
    KeptSpec(f, |rules|, a);
    if a in Raised(rules, event, now) {
      var i: nat :| i < |rules| && f(i) == Some(a);
      assert rules[i].condition(event) && a == AlertOf(rules[i], event, now);
    }
    if exists i: nat :: i < |rules| && rules[i].condition(event) && a == AlertOf(rules[i], event, now) {
      var i: nat :| i < |rules| && rules[i].condition(event) && a == AlertOf(rules[i], event, now);
      assert f(i) == Some(a);
    }
  }

  /** One more rule adds its alert when its condition holds, and nothing otherwise. */
  lemma RaisedStep(rules: seq<AlertRule>, event: SecurityEvent, now: Time, i: nat)
    requires i < |rules|
    ensures Kept(RuleAlert(rules, event, now), i + 1) ==
      Kept(RuleAlert(rules, event, now), i) + if rules[i].condition(event) then [AlertOf(rules[i], event, now)] else []
  {
  }

  /** The throttles are never consulted: rules that differ only in their throttles raise the same
      alerts, so a rule that matches again within its throttle fires again. */
  lemma {:induction false} ThrottleIgnored(rules: seq<AlertRule>, others: seq<AlertRule>, event: SecurityEvent, now: Time)
    requires |others| == |rules|
    requires forall i :: 0 <= i < |rules| ==> others[i] == rules[i].(throttle := others[i].throttle)
    ensures Raised(others, event, now) == Raised(rules, event, now)
  {
    var f := RuleAlert(others, event, now);
    var g := RuleAlert(rules, event, now);
    forall i: nat | i < |rules|
      ensures f(i) == g(i)
    {
      assert others[i].condition == rules[i].condition;
      assert AlertOf(others[i], event, now) == AlertOf(rules[i], event, now);
    }
    KeptAgree(f, g, |rules|);
  }

  /** The calls made to offer `a` to each of `notifiers`, in notifier order. */
  function Offer(a: Alert, notifiers: seq<Notifier>): (r: seq<Delivery>)
    ensures |r| == |notifiers|
    ensures forall k :: 0 <= k < |r| ==> r[k] == Delivery(k, a, notifiers[k].send(a))
  {
    seq(|notifiers|, k requires 0 <= k < |notifiers| => Delivery(k, a, notifiers[k].send(a)))
  }

  /** The calls made to offer each of `alerts` in turn to every notifier. */
  function Fanout(alerts: seq<Alert>, notifiers: seq<Notifier>): seq<Delivery>
    decreases |alerts|
  {
    if alerts == [] then []
    else Fanout(alerts[..|alerts| - 1], notifiers) + Offer(alerts[|alerts| - 1], notifiers)
  }

  /** Raising one more alert appends its offers. */
  lemma FanoutSnoc(alerts: seq<Alert>, a: Alert, notifiers: seq<Notifier>)
    ensures Fanout(alerts + [a], notifiers) == Fanout(alerts, notifiers) + Offer(a, notifiers)
  {
    assert (alerts + [a])[..|alerts|] == alerts;
  }

  /** Offering `alerts` makes one call per alert and notifier. */
  lemma {:induction false} FanoutLength(alerts: seq<Alert>, notifiers: seq<Notifier>)
    ensures |Fanout(alerts, notifiers)| == |alerts| * |notifiers|
    decreases |alerts|
  {
    if alerts != [] {
      var n := |alerts| - 1;
      FanoutLength(alerts[..n], notifiers);
      assert (n + 1) * |notifiers| == n * |notifiers| + |notifiers|;
    }
  }

  /** Every alert reaches every notifier, alert after alert and notifier after notifier, whatever
      the earlier calls answered: the `k`-th notifier's call for the `j`-th alert comes at position
      `j * |notifiers| + k`. */
  lemma {:induction false} FanoutAt(alerts: seq<Alert>, notifiers: seq<Notifier>, j: nat, k: nat)
    requires j < |alerts| && k < |notifiers|
    ensures j * |notifiers| + k < |Fanout(alerts, notifiers)|
    ensures Fanout(alerts, notifiers)[j * |notifiers| + k] == Delivery(k, alerts[j], notifiers[k].send(alerts[j]))
    decreases |alerts|
  {
    var n := |alerts| - 1;
    var w := |notifiers|;
    var init := alerts[..n];
    FanoutLength(init, notifiers);
    FanoutLength(alerts, notifiers);
    assert Fanout(alerts, notifiers) == Fanout(init, notifiers) + Offer(alerts[n], notifiers);
    if j < n {
      FanoutAt(init, notifiers, j, k);
      RowBound(j, k, n, w);
    } else {
      assert j * w + k == |Fanout(init, notifiers)| + k;
    }
  }

  /** Row `j` of a table `w` wide lies before row `n` when `j < n`. */
  lemma RowBound(j: nat, k: nat, n: nat, w: nat)
    requires j < n && k < w
    ensures j * w + k < n * w
  {
    assert (j + 1) * w <= n * w;
  }

  /** `DefaultRules`: CRIT-001 for critical events and SEC-001 for events labelled as coming from
      a malicious address. */
  function DefaultRules(): (r: seq<AlertRule>)
    ensures |r| == 2
    ensures r[0].id == "CRIT-001" && r[0].severity == "critical" && r[0].throttle == 5 * Minute
    ensures r[1].id == "SEC-001" && r[1].severity == "high" && r[1].throttle == 15 * Minute
  {
    [AlertRule("CRIT-001", "严重异常行为检测", "检测到严重级别的异常行为", "critical",
               (e: SecurityEvent) => e.severity == "critical", 5 * Minute),
     AlertRule("SEC-001", "可疑IP访问检测", "检测到来自可疑IP地址的访问", "high",
               (e: SecurityEvent) => Conditions.HasLabel(e.labels, "source_reputation:malicious"), 15 * Minute)]
  }

  /** CRIT-001 matches exactly the critical events and SEC-001 exactly the events carrying the
      label "source_reputation:malicious". */
  lemma DefaultConditions(e: SecurityEvent)
    ensures DefaultRules()[0].condition(e) <==> e.severity == "critical"
    ensures DefaultRules()[1].condition(e) <==> "source_reputation:malicious" in e.labels
  {
    Conditions.HasLabelIff(e.labels, "source_reputation:malicious");
  }

  /** `AlertManager`. */
  class AlertManager {
    var rules: seq<AlertRule>
    const notifiers: seq<Notifier>

    /** `NewAlertManager`: no rules yet. */
    constructor (notifiers: seq<Notifier>)
      ensures rules == [] && this.notifiers == notifiers
    {
      rules := [];
      this.notifiers := notifiers;
    }

    /** `AddRule`: the rule goes last. */
    method AddRule(rule: AlertRule)
      modifies this
      ensures rules == old(rules) + [rule]
    {
      rules := rules + [rule];
    }

    /** `ProcessEvent` at instant `now`: raises the alerts of the matching rules, in rule order, and
        offers each to every notifier in order; a failed delivery is passed over. It always
        succeeds and changes nothing, the rule list included. `deliveries` lists the calls made. */
    method ProcessEvent(event: SecurityEvent, now: Time) returns (r: Outcome, deliveries: seq<Delivery>)
      ensures r == Pass
      ensures deliveries == Fanout(Raised(rules, event, now), notifiers)
    {
      ghost var f := RuleAlert(rules, event, now);
      ghost var alerts: seq<Alert> := [];
      deliveries := [];
      for i := 0 to |rules|
        invariant alerts == Kept(f, i)
        invariant deliveries == Fanout(alerts, notifiers)
      {
        RaisedStep(rules, event, now, i);
        var rule := rules[i];
        if rule.condition(event) {
          var alert := Alert(GenerateId(now), event.id, rule.id, rule.name, rule.description,
                             rule.severity, now, "new", "", None, "");
          var offered := SendAll(alert);
          FanoutSnoc(alerts, alert, notifiers);
          alerts := alerts + [alert];
          deliveries := deliveries + offered;
        }
      }
      r := Pass;
    }

    /** The inner loop: offers `alert` to each notifier in turn, carrying on after a failure. */
    method SendAll(alert: Alert) returns (offered: seq<Delivery>)
      ensures offered == Offer(alert, notifiers)
    {
      offered := [];
      for k := 0 to |notifiers|
        invariant |offered| == k
        invariant forall j :: 0 <= j < k ==> offered[j] == Delivery(j, alert, notifiers[j].send(alert))
      {
        var answer := notifiers[k].send(alert);
        offered := offered + [Delivery(k, alert, answer)];
      }
    }
  }
}
