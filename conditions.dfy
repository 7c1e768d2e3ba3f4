/** The atomic rule conditions: stateless predicates over one security event. A field condition
    compares the `%v` text of an event field with a value (eq, neq, contains, regex); an IP
    condition tests an address field against CIDR networks; a label condition tests the event's
    labels; a time-window condition tests the hour of the event's timestamp. */
module Conditions {
  import opened Wrappers
  import opened Text
  import opened Clock
  import opened Entity
  import IPv4

  /** A Go `interface{}` value as conditions meet it: what `getFieldValue` returns (a string, the
      port's int, or nil) and what a condition's `Value` holds. */
  datatype Value = Str(s: string) | Int(i: int) | Bool(b: bool) | Nil

  /** `fmt.Sprintf("%v", v)`. */
  function Show(v: Value): string {
    match v
    case Str(s) => s
    case Int(i) => IntToString(i)
    case Bool(b) => if b then "true" else "false"
    case Nil => "<nil>"
  }

  /** `regexp.MatchString(pattern, text)`: `None` when the pattern does not compile, otherwise
      whether it matches. The regular-expression engine itself is not modelled. */
  type RegexEngine = (string, string) -> Option<bool>

  datatype Condition =
    | FieldCondition(field: string, operator: string, value: Value)
    | IpCondition(field: string, networks: seq<string>)
    | LabelCondition(labels: seq<string>, matchAll: bool)
    | TimeWindowCondition(startHour: int, endHour: int)

  /** The eight field names `getFieldValue` knows. */
  const KnownFields: set<string> :=
    {"source_ip", "dest_ip", "protocol", "port", "action", "status", "user", "severity"}

  /** `getFieldValue`: the named event field, or nil for any other name. */
  function FieldValue(e: SecurityEvent, field: string): (v: Value)
    ensures v == Nil <==> field !in KnownFields
    ensures v.Int? <==> field == "port"
  {
    if field == "source_ip" then Str(e.sourceIp)
    else if field == "dest_ip" then Str(e.destIp)
    else if field == "protocol" then Str(e.protocol)
    else if field == "port" then Int(e.port)
    else if field == "action" then Str(e.action)
    else if field == "status" then Str(e.status)
    else if field == "user" then Str(e.user)
    else if field == "severity" then Str(e.severity)
    else Nil
  }

  /** `FieldCondition.Evaluate`. */
  function EvaluateField(field: string, operator: string, value: Value, e: SecurityEvent, re: RegexEngine): bool {
    var actual := Show(FieldValue(e, field));
    if operator == "eq" then actual == Show(value)
    else if operator == "neq" then actual != Show(value)
    else if operator == "contains" then Contains(actual, Show(value))
    else if operator == "regex" then value.Str? && re(value.s, actual) == Some(true)
    else false
  }

  /** The loop of `IPCondition.Evaluate` over the networks: malformed CIDRs are skipped, and the
      search stops at the first network that holds the address. */
  function AnyNetworkContains(networks: seq<string>, ip: IPv4.Address): bool {
    if networks == [] then false
    else match IPv4.ParseCidr(networks[0])
      case None => AnyNetworkContains(networks[1..], ip)
      case Some(n) => IPv4.NetworkContains(n, ip) || AnyNetworkContains(networks[1..], ip)
  }

  /** The search finds exactly the well-formed networks that hold the address. */
  lemma AnyNetworkContainsIff(networks: seq<string>, ip: IPv4.Address)
    ensures AnyNetworkContains(networks, ip) <==>
      exists i :: 0 <= i < |networks| && WellFormedHolds(networks[i], ip)
  {
    if AnyNetworkContains(networks, ip) {
      var i := HoldingNetwork(networks, ip);
    }
    forall i | 0 <= i < |networks| && WellFormedHolds(networks[i], ip)
      ensures AnyNetworkContains(networks, ip)
    {
      HoldingNetworkFound(networks, ip, i);
    }
  }

  /** A successful search has passed a well-formed network that holds the address. */
  lemma {:induction false} HoldingNetwork(networks: seq<string>, ip: IPv4.Address) returns (i: nat)
    requires AnyNetworkContains(networks, ip)
    ensures i < |networks| && WellFormedHolds(networks[i], ip)
  {
    if WellFormedHolds(networks[0], ip) {
      i := 0;
    } else {
      var j := HoldingNetwork(networks[1..], ip);
      i := j + 1;
    }
  }

  /** A well-formed network holding the address makes the search succeed. */
  lemma {:induction false} HoldingNetworkFound(networks: seq<string>, ip: IPv4.Address, i: nat)
    requires i < |networks| && WellFormedHolds(networks[i], ip)
    ensures AnyNetworkContains(networks, ip)
  {
    if i > 0 {
      HoldingNetworkFound(networks[1..], ip, i - 1);
    }
  }

  /** `network` parses as a CIDR block and that block holds `ip`. */
  predicate WellFormedHolds(network: string, ip: IPv4.Address) {
    IPv4.ParseCidr(network).Some? && IPv4.NetworkContains(IPv4.ParseCidr(network).value, ip)
  }

  /** `getFieldValue(event, c.Field).(string)` AS WRITTEN: the type assertion has no `ok` result,
      so for the int "port" field and for an unknown name (nil) it panics, shown here as `None`. */
  function IpFieldTextAsWritten(e: SecurityEvent, field: string): (r: Option<string>)
    ensures r.None? <==> !FieldValue(e, field).Str?
  {
    match FieldValue(e, field)
    case Str(s) => Some(s)
    case _ => None
  }

  /** `IPCondition.Evaluate` AS WRITTEN: `None` where the Go code panics. */
  function EvaluateIpAsWritten(field: string, networks: seq<string>, e: SecurityEvent): Option<bool> {
    match IpFieldTextAsWritten(e, field)
    case None => None
    case Some(text) =>
      match IPv4.ParseAddress(text)
      case None => Some(false)
      case Some(ip) => Some(AnyNetworkContains(networks, ip))
  }

  /** An IP condition on "port" crashes the evaluation instead of not matching. */
  lemma IpConditionOnPortPanics(networks: seq<string>, e: SecurityEvent)
    ensures EvaluateIpAsWritten("port", networks, e).None?
    ensures EvaluateIpAsWritten("no_such_field", networks, e).None?
  {
  }

  /** `IPCondition.Evaluate` as intended: a field that holds no string is an unparsable address,
      which never matches. */
  function EvaluateIp(field: string, networks: seq<string>, e: SecurityEvent): bool {
    match FieldValue(e, field)
    case Str(text) =>
      (match IPv4.ParseAddress(text)
       case None => false
       case Some(ip) => AnyNetworkContains(networks, ip))
    case _ => false
  }

  /** The corrected IP condition never fails, agrees with the code wherever the code does not
      panic, and matches iff the field parses and some well-formed network holds it. */
  lemma EvaluateIpSpec(field: string, networks: seq<string>, e: SecurityEvent)
    ensures EvaluateIpAsWritten(field, networks, e).Some? ==>
      EvaluateIpAsWritten(field, networks, e).value == EvaluateIp(field, networks, e)
    ensures EvaluateIp(field, networks, e) <==>
      FieldValue(e, field).Str? && IPv4.ParseAddress(FieldValue(e, field).s).Some? &&
      exists i :: 0 <= i < |networks| && WellFormedHolds(networks[i], IPv4.ParseAddress(FieldValue(e, field).s).value)
  {
    if FieldValue(e, field).Str? && IPv4.ParseAddress(FieldValue(e, field).s).Some? {
      AnyNetworkContainsIff(networks, IPv4.ParseAddress(FieldValue(e, field).s).value);
    }
  }

  /** The inner loop of the label condition: is `x` among the event's labels? */
  function HasLabel(labels: seq<string>, x: string): bool {
    if labels == [] then false else labels[0] == x || HasLabel(labels[1..], x)
  }

  lemma {:induction false} HasLabelIff(labels: seq<string>, x: string)
    ensures HasLabel(labels, x) <==> x in labels
  {
    if labels != [] {
      HasLabelIff(labels[1..], x);
      assert labels == [labels[0]] + labels[1..];
    }
  }

  /** The match-all loop: stops at the first wanted label that is missing. */
  function AllLabelsPresent(wanted: seq<string>, labels: seq<string>): bool {
    if wanted == [] then true else HasLabel(labels, wanted[0]) && AllLabelsPresent(wanted[1..], labels)
  }

  /** The match-any loop: stops at the first wanted label that is present. */
  function AnyLabelPresent(wanted: seq<string>, labels: seq<string>): bool {
    if wanted == [] then false else HasLabel(labels, wanted[0]) || AnyLabelPresent(wanted[1..], labels)
  }

  lemma {:induction false} AllLabelsPresentIff(wanted: seq<string>, labels: seq<string>)
    ensures AllLabelsPresent(wanted, labels) <==> forall l :: l in wanted ==> l in labels
  {
    if wanted != [] {
      HasLabelIff(labels, wanted[0]);
      AllLabelsPresentIff(wanted[1..], labels);
      assert wanted == [wanted[0]] + wanted[1..];
    }
  }

  lemma {:induction false} AnyLabelPresentIff(wanted: seq<string>, labels: seq<string>)
    ensures AnyLabelPresent(wanted, labels) <==> exists l :: l in wanted && l in labels
  {
    if wanted != [] {
      HasLabelIff(labels, wanted[0]);
      AnyLabelPresentIff(wanted[1..], labels);
      assert wanted == [wanted[0]] + wanted[1..];
    }
  }

  /** `LabelCondition.Evaluate`. */
  function EvaluateLabels(wanted: seq<string>, matchAll: bool, e: SecurityEvent): bool {
    if matchAll then AllLabelsPresent(wanted, e.labels) else AnyLabelPresent(wanted, e.labels)
  }

  /** `TimeWindowCondition.Evaluate` on the hour of the event. */
  function InWindow(startHour: int, endHour: int, hour: int): bool {
    if startHour <= endHour then startHour <= hour <= endHour
    else hour >= startHour || hour <= endHour
  }

  /** `Condition.Evaluate`, dispatched on the variant. An IP condition is evaluated as intended:
      where the Go code returns, the verdicts agree; where it panics, the condition does not match. */
  function Evaluate(c: Condition, e: SecurityEvent, re: RegexEngine): (r: bool)
    ensures c.IpCondition? && EvaluateIpAsWritten(c.field, c.networks, e).Some? ==>
      r == EvaluateIpAsWritten(c.field, c.networks, e).value
    ensures c.IpCondition? && EvaluateIpAsWritten(c.field, c.networks, e).None? ==> !r
  {
    match c
    case FieldCondition(field, operator, value) => EvaluateField(field, operator, value, e, re)
    case IpCondition(field, networks) =>
      EvaluateIpSpec(field, networks, e);
      EvaluateIp(field, networks, e)
    case LabelCondition(wanted, matchAll) => EvaluateLabels(wanted, matchAll, e)
    case TimeWindowCondition(startHour, endHour) => InWindow(startHour, endHour, HourOf(e.timestamp))
  }

  // ---- The truth table of each condition ----

  /** For the same field and value exactly one of "eq" and "neq" holds. */
  lemma EqNeqComplement(field: string, value: Value, e: SecurityEvent, re: RegexEngine)
    ensures Evaluate(FieldCondition(field, "eq", value), e, re) != Evaluate(FieldCondition(field, "neq", value), e, re)
  {
  }

  /** "contains" is substring search on the two `%v` texts, so an empty value always matches. */
  lemma ContainsIsSubstring(field: string, value: Value, e: SecurityEvent, re: RegexEngine)
    ensures Evaluate(FieldCondition(field, "contains", value), e, re)
      <==> exists i: nat :: OccursAt(Show(FieldValue(e, field)), Show(value), i)
    ensures Evaluate(FieldCondition(field, "contains", Str("")), e, re)
  {
    ContainsIff(Show(FieldValue(e, field)), Show(value));
  }

  /** Only eq, neq, contains and regex are implemented: every other operator, among them the "gt"
      and "lt" that the field's comment advertises, is false. */
  lemma OtherOperatorsAreFalse(field: string, operator: string, value: Value, e: SecurityEvent, re: RegexEngine)
    requires operator !in {"eq", "neq", "contains", "regex"}
    ensures !Evaluate(FieldCondition(field, operator, value), e, re)
  {
  }

  /** "regex" is false, without failing, for a non-string value or a pattern that does not compile,
      and otherwise is the engine's verdict on the field's text. */
  lemma RegexOutcomes(field: string, value: Value, e: SecurityEvent, re: RegexEngine)
    ensures !value.Str? ==> !Evaluate(FieldCondition(field, "regex", value), e, re)
    ensures value.Str? && re(value.s, Show(FieldValue(e, field))).None? ==>
      !Evaluate(FieldCondition(field, "regex", value), e, re)
    ensures value.Str? ==>
      (Evaluate(FieldCondition(field, "regex", value), e, re) <==> re(value.s, Show(FieldValue(e, field))) == Some(true))
  {
  }

  /** An unknown field name reads as nil, whose `%v` text is "<nil>"; the known names read the
      event fields they are named after. */
  lemma FieldTable(e: SecurityEvent, field: string)
    ensures field !in KnownFields ==> Show(FieldValue(e, field)) == "<nil>"
    ensures FieldValue(e, "source_ip") == Str(e.sourceIp) && FieldValue(e, "dest_ip") == Str(e.destIp)
    ensures FieldValue(e, "protocol") == Str(e.protocol) && FieldValue(e, "port") == Int(e.port)
    ensures FieldValue(e, "action") == Str(e.action) && FieldValue(e, "status") == Str(e.status)
    ensures FieldValue(e, "user") == Str(e.user) && FieldValue(e, "severity") == Str(e.severity)
  {
  }

  /** An address that does not parse never matches. */
  lemma UnparsableIpNeverMatches(field: string, networks: seq<string>, e: SecurityEvent, re: RegexEngine)
    requires FieldValue(e, field).Str? && IPv4.ParseAddress(FieldValue(e, field).s).None?
    ensures !Evaluate(IpCondition(field, networks), e, re)
  {
  }

  /** Match-all holds iff every wanted label is present (so vacuously for none); match-any holds
      iff some wanted label is present (so never for none). */
  lemma LabelConditionSpec(wanted: seq<string>, e: SecurityEvent, re: RegexEngine)
    ensures Evaluate(LabelCondition(wanted, true), e, re) <==> forall l :: l in wanted ==> l in e.labels
    ensures Evaluate(LabelCondition(wanted, false), e, re) <==> exists l :: l in wanted && l in e.labels
    ensures Evaluate(LabelCondition([], true), e, re) && !Evaluate(LabelCondition([], false), e, re)
  {
    AllLabelsPresentIff(wanted, e.labels);
    AnyLabelPresentIff(wanted, e.labels);
  }

  /** A window whose start is after its end wraps past midnight: it holds every hour except those
      strictly between the end and the start. */
  lemma TimeWindowSpec(startHour: int, endHour: int, e: SecurityEvent, re: RegexEngine)
    ensures startHour <= endHour ==>
      (Evaluate(TimeWindowCondition(startHour, endHour), e, re) <==> startHour <= HourOf(e.timestamp) <= endHour)
    ensures startHour > endHour ==>
      (Evaluate(TimeWindowCondition(startHour, endHour), e, re) <==> !(endHour < HourOf(e.timestamp) < startHour))
  {
  }
}
