# A verified model of the jinye security event pipeline

This project models the core of jinye, a security event pipeline written in Go, in Dafny.

The pipeline works in these stages:

- It parses raw log lines into security events.
- It enriches each event with geolocation and threat-intelligence labels for its addresses, then computes a weighted severity.
- It drops duplicates within a one-minute window through a cache key.
- It runs the events through anomaly detectors: a model-based scorer, a per-address counting heuristic and an external security language model.
- It files events, anomalies and event vectors in repositories.
- It raises alerts that are fanned out to notifiers, and it keeps running counters.

Beside the pipeline sits a rule subsystem:

- Field, CIDR, label and hour-window conditions.
- AND/OR composite rules and ML rules.
- A rule engine with execution counters.
- A per-rule statistics collector with top-N views.
- A versioned rule store with a filter query builder.
- A rule manager that validates, converts, imports and dry-runs rule definitions.

The model takes the Go code's own form:

- Structs that are passed around as values are datatypes.
- Objects whose fields the code updates in place are classes with `modifies` clauses.
- Loops are methods with invariants, each proved against a specification function.
- Collaborators are functions fixed when an object is built or passed as parameters. These are the neural model, the HTTP API, notifier transports, backend write faults, the clock, fresh IDs and the JSON decoder.
- Every error return of the Go code is a `Result` or `Outcome` value. A Go panic is either excluded by a `requires` (an index out of range, a negative `make` size) or, for the failed type assertion of the IP condition, replaced by the intended "no match" (see `Conditions.Evaluate` under "Left out" and the Findings).

Modules follow the packages:

| module | Go package |
|---|---|
| `Entity` | `domain/entity` |
| `Conditions`, `Rules`, `Engine`, `RuleStats`, `RuleManagement` | `rule` |
| `RuleStorage` | `storage/rule_store.go` |
| `Repositories` | the repository interfaces |
| `Enrichment`, `LogProcessing` | `service/log` |
| `AnomalyDetection`, `SimpleDetection` | `ai/anomaly` |
| `SecurityModel` | `ai/qianxin` |
| `Alerts` | `service/alert` |
| `Metrics` | `metrics` |

Small helper modules hold shared pieces:

- `Wrappers`: results and the order-preserving filter `Kept`.
- `Text`: string search and ordering.
- `Clock`: calendar times and formatting.
- `IPv4`: dotted quads and CIDR prefixes, after section 3.1 of RFC 4632.
- `Tally`: counter maps and their sums.
- `Ranking`: the descending sort behind the top-N views.

## Model

| member | source | states |
|---|---|---|
| Text.ContainsIff | internal/rule/conditions.go:36 | `strings.Contains` holds exactly when the substring occurs at some offset |
| Text.ContainsSuffix | internal/service/log/enricher.go:107 | text that contains a substring still contains it with anything put in front |
| Text.ToLower | internal/service/log/enricher.go:115 | lower-casing keeps the length; no character with an ASCII lower case (the capitals, U+0130, the Kelvin sign) remains, each of them becomes an ASCII lower-case letter, and every other character is kept |
| Text.ToLowerIdempotent | internal/service/log/enricher.go:115 | lower-casing a lower-cased string changes nothing |
| Text.ToLowerMatchesWord | internal/service/log/enricher.go:115-120 | a string lower-cases to a lower-case ASCII word exactly when it spells that word with any mix of its capitals, so the `switch` on the action names is case-insensitive |
| Text.LessAsymmetric | internal/ai/qianxin/security_llm.go:74 | Go's string order is strict: no two strings are each below the other |
| Text.FirstCharDecides | internal/ai/qianxin/security_llm.go:74 | a string whose first character sorts above the other string's first character is above that string |
| Clock.HourOf | internal/metrics/collector.go:59 | the hour of an instant is the number of whole hours it lies past the start of its day: below 24, and the instant's number of hours modulo 24 |
| Clock.StampHours | internal/metrics/collector.go:59 | the instant's number of whole hours is its day times 24 plus its hour of the day |
| Clock.PrevDay | internal/rule/metrics.go:189 | stepping back one day from a real calendar date gives a real calendar date, and a different one except at 0001-01-01 |
| Clock.PrevDayAdjacent | internal/rule/metrics.go:189 | for a real date other than 0001-01-01, the step back gives a date earlier in calendar order with no real date strictly in between: the calendar day before |
| IPv4.ParseOctet | internal/rule/conditions.go:64 | a component that parses is below 256 |
| IPv4.IndexOf | internal/rule/conditions.go:70 | the index found holds the first occurrence of the separator, and no index means no occurrence |
| IPv4.ParseCidr | internal/rule/conditions.go:70 | a network that parses has a prefix length of at most 32 |
| IPv4.HostNetwork | internal/rule/conditions.go:74 | a "/32" network holds exactly its own address |
| IPv4.Pow2Add | internal/rule/conditions.go:74 | powers of two multiply by adding exponents, the arithmetic behind prefix masks |
| IPv4.WholeSpace | internal/rule/conditions.go:74 | a "/0" network holds every address |
| IPv4.EmptyIsNoAddress | internal/rule/conditions.go:64-72 | the empty text, an event without that address, is neither an address nor a network |
| Tally.Bump | internal/metrics/collector.go:53 | `m[k]++` raises the count of `k` by one, starting from 0 when absent, and leaves every other count as it was |
| Tally.SumRemove | internal/metrics/collector.go:53 | the sum of a table is any one entry plus the sum of the rest |
| Tally.SumUpdate | internal/metrics/collector.go:53 | overwriting one entry changes the sum by the difference between the new and old counts |
| Tally.SumBump | internal/metrics/collector.go:53 | one `m[k]++` adds exactly one to the sum of the table |
| Tally.OccurrencesBounds | internal/ai/anomaly/simple_detector.go:33-35 | a key occurs at most once per element, and at least once exactly when it is an element |
| Tally.BumpAllCounts | internal/ai/anomaly/simple_detector.go:33-35 | counting every key of a list adds its number of occurrences to each count, and a key has an entry exactly when it had one or occurs in the list |
| Tally.BumpAllDistinct | internal/rule/engine.go:66-70 | counting distinct keys adds one to exactly those keys |
| Tally.SumBumpAll | internal/rule/engine.go:66-70 | counting a list adds its length to the sum of the table |
| Tally.DistinctCard | internal/rule/engine.go:59-82 | a list without repetitions has as many elements as its set of elements |
| Tally.MaxOfSpec | internal/rule/metrics.go:64-66 | the running maximum is an element and no element exceeds it |
| Tally.MaxOfSnoc | internal/rule/metrics.go:64-66 | one more value raises the maximum to it exactly when it is larger |
| Entity.NewSecurityEvent | internal/domain/entity/security_event.go:28-38 | a new event has the given ID, its three timestamps at the given instant, severity "info", no labels, and every other field at its zero value |
| Entity.NewAnomalyResult | internal/domain/entity/security_event.go:53-62 | a new anomaly carries the given ID, event ID and score, both timestamps at the given instant, no rules, and a zero type, confidence and description |
| Entity.NewSecurityAnalysis | internal/domain/entity/security_analysis.go:14-19 | a new analysis carries the event ID and the Unix time, and every other field at its zero value |
| Entity.RiskBandsExclusive | internal/domain/entity/security_analysis.go:22-34 | the high, medium and low bands are pairwise disjoint, and an analysis is in one of them exactly when its level is one of the four named levels |
| Entity.FreshAnalysisHasNoRisk | internal/domain/entity/security_analysis.go:14-34 | an analysis straight from the constructor is in no risk band |
| Conditions.FieldValue | internal/rule/conditions.go:146-167 | a field name reads as nil exactly when it is none of the eight known names, and as an integer exactly when it is "port" |
| Conditions.FieldTable | internal/rule/conditions.go:146-167 | each known name reads the event field it is named after; an unknown name prints as "<nil>" |
| Conditions.EqNeqComplement | internal/rule/conditions.go:31-34 | for the same field and value, exactly one of "eq" and "neq" holds |
| Conditions.ContainsIsSubstring | internal/rule/conditions.go:35-36 | "contains" holds exactly when the value's text occurs at some offset of the field's text; an empty value always matches |
| Conditions.RegexOutcomes | internal/rule/conditions.go:37-43 | "regex" is false for a value that is not a string and for a pattern that does not compile; otherwise it is the regex engine's verdict on the field's text |
| Conditions.OtherOperatorsAreFalse | internal/rule/conditions.go:30-46 | every operator other than eq, neq, contains and regex, including the advertised "gt" and "lt", is false |
| Conditions.AnyNetworkContainsIff | internal/rule/conditions.go:69-79 | the loop over the networks succeeds exactly when some network parses as a CIDR block that holds the address; malformed networks are skipped |
| Conditions.HoldingNetwork | internal/rule/conditions.go:69-79 | a successful search yields the index of a well-formed network that holds the address |
| Conditions.HoldingNetworkFound | internal/rule/conditions.go:69-79 | a well-formed network that holds the address makes the search succeed wherever it sits in the list |
| Conditions.IpFieldTextAsWritten | internal/rule/conditions.go:63 | the unchecked type assertion fails exactly when the field does not hold a string |
| Conditions.IpConditionOnPortPanics | internal/rule/conditions.go:63 | an IP condition on "port" or on an unknown field name fails (panics) instead of not matching |
| Conditions.Evaluate | internal/rule/conditions.go:27-143 | every condition kind is evaluated by its own rule; an IP condition agrees with the Go code wherever the Go code returns, and does not match where it panics |
| Conditions.EvaluateIpSpec | internal/rule/conditions.go:62-80 | the corrected IP condition agrees with the code wherever the code does not panic, and holds exactly when the field is a string that parses as an address held by some well-formed network |
| Conditions.UnparsableIpNeverMatches | internal/rule/conditions.go:64-67 | an address that does not parse never matches |
| Conditions.HasLabelIff | internal/rule/conditions.go:99-104 | the inner label scan finds the label exactly when it is among the event's labels |
| Conditions.AllLabelsPresentIff | internal/rule/conditions.go:96-110 | the match-all loop holds exactly when every wanted label is present |
| Conditions.AnyLabelPresentIff | internal/rule/conditions.go:113-120 | the match-any loop holds exactly when some wanted label is present |
| Conditions.LabelConditionSpec | internal/rule/conditions.go:95-121 | match-all holds iff every wanted label is present, match-any iff some is; with no wanted labels, match-all holds and match-any does not |
| Conditions.TimeWindowSpec | internal/rule/conditions.go:136-143 | a window with start not after end holds for the hours from start to end inclusive; a window with start after end wraps past midnight and holds for every hour except those strictly between end and start |
| Rules.CompositeRule.constructor | internal/rule/rule.go:44-50 | a new composite rule keeps its metadata and operator and has no conditions |
| Rules.CompositeRule.AddCondition | internal/rule/rule.go:52-54 | the condition goes last and the earlier ones keep their places |
| Rules.EvaluateMl | internal/rule/rule.go:103-110 | a prediction error is no match; otherwise the rule matches exactly when the score exceeds the threshold |
| Rules.AllHoldIff | internal/rule/rule.go:61-67 | the AND loop holds exactly when every condition holds |
| Rules.SomeHoldsIff | internal/rule/rule.go:71-76 | the OR loop holds exactly when some condition holds |
| Rules.CompositeSpec | internal/rule/rule.go:56-77 | no conditions never match; with conditions, "AND" means every condition holds and any other operator means some condition holds |
| Rules.AndShortCircuits | internal/rule/rule.go:61-67 | the AND loop calls the conditions up to and including the first false one, and stops early only on a false one |
| Rules.OrShortCircuits | internal/rule/rule.go:71-76 | the OR loop calls the conditions up to and including the first true one, and stops early only on a true one |
| Rules.AndStopsAtSecond | internal/rule/rule.go:61-67 | with three AND-ed conditions of which the second is false, the rule is false after two calls, so the third is never called |
| Rules.NewRuleNeverMatches | internal/rule/rule.go:44-59 | a newly built composite rule does not match any event |
| Engine.ResultFor | internal/rule/engine.go:74-80 | the result for a matching rule is marked matched and carries the rule's ID, name, severity and category |
| Engine.RuleEngine.constructor | internal/rule/engine.go:26-33 | a new engine has no rules and zero counters |
| Engine.RuleEngine.AddRule | internal/rule/engine.go:36-42 | the rule is filed under its metadata ID, replacing any rule with that ID; lookups of every other ID and the counters are unchanged |
| Engine.RuleEngine.RemoveRule | internal/rule/engine.go:45-50 | the ID is no longer registered, an absent ID changes nothing, and the counters are unchanged |
| Engine.RuleEngine.GetRuleById | internal/rule/engine.go:115-121 | a rule is found exactly when its ID is registered, and it is the rule filed under it |
| Engine.RuleEngine.GetMetrics | internal/rule/engine.go:97-106 | the snapshot carries the engine's execution count, matched count and per-rule match counts as they stand and no execution times; in a consistent engine its matched count is at most its execution count and equals the sum of the per-rule match counts |
| Engine.RuleEngine.EvaluateEvent | internal/rule/engine.go:53-85 | every registered rule runs once: executions rise by the number of rules; there is exactly one result per matching rule and no other; matched executions and each matching rule's count rise by one per match; the rules are unchanged |
| Engine.Reports | internal/rule/engine.go:73-81 | one result per reported rule |
| Engine.ReportsSpec | internal/rule/engine.go:59-84 | reporting each matching rule once, in any order, gives exactly one result per matching rule and nothing else |
| Engine.ReportsMembers | internal/rule/engine.go:59-84 | every listed rule's result is reported and every reported result belongs to a listed rule |
| Engine.VisitOne | internal/rule/engine.go:59-82 | running one more rule keeps the loop's record: a match appends its result and bumps its count, a miss changes nothing |
| Engine.RunRules | internal/rule/engine.go:59-84 | the loop runs every rule once and lists each matching rule once, with its result and its count |
| Ranking.InsertDescPerm | internal/rule/metrics.go:120-122 | inserting one entry adds exactly that entry |
| Ranking.InsertDescSorted | internal/rule/metrics.go:120-122 | inserting into a list in non-increasing order of value keeps it in that order |
| Ranking.ConsSorted | internal/rule/metrics.go:120-122 | an entry at least as large as every entry of a sorted list can go in front of it |
| Ranking.SortDesc | internal/rule/metrics.go:120-122 | the sort is a permutation of its input in non-increasing order of value |
| Ranking.SortSlice | internal/rule/metrics.go:120-122 | `sort.Slice` with "greater value first" returns a permutation of the entries in non-increasing order of value, and entries with distinct keys stay distinct |
| Ranking.PermDistinctIds | internal/rule/metrics.go:120-122 | reordering entries whose keys are distinct keeps the keys distinct |
| Ranking.SameElements | internal/rule/metrics.go:120-122 | a permutation has the same length and the same members |
| RuleStats.MillisMonotone | internal/rule/metrics.go:172 | converting durations to milliseconds keeps their order |
| RuleStats.RuleMetrics.constructor | internal/rule/metrics.go:27-36 | a new collector has all six tables empty |
| RuleStats.RuleMetrics.TrackRuleExecution | internal/rule/metrics.go:39-72 | the execution count rises by one; the match count rises by one exactly when the run matched; the duration is appended to the rule's history; today's match table is created and bumped for a match; the slowest time is replaced exactly when the rule is new or the run is slower; the top-matching table equals the match table; consistency is kept |
| RuleStats.RuleMetrics.GetRuleStats | internal/rule/metrics.go:75-101 | reports the rule's two counters (0 when absent); the average in milliseconds is present exactly when the rule has a history and is its mean; the match rate is present exactly when the rule has run and then lies between 0 and 1 |
| RuleStats.RuleMetrics.GetTopMatchingRules | internal/rule/metrics.go:104-139 | returns the smaller of the limit and the number of rules, each with its real match count, most matches first, no rule twice, and no rule left out has more matches than one returned |
| RuleStats.RuleMetrics.GetSlowestRules | internal/rule/metrics.go:142-177 | returns the smaller of the limit and the number of rules, each with its slowest time in milliseconds, slowest first, no rule twice, and no rule left out is slower than one returned |
| RuleStats.RuleMetrics.GetDailyStats | internal/rule/metrics.go:180-196 | a date is reported exactly when it has a match table and is one of the last `days` days counting back from today; each is reported with its own table |
| RuleStats.TrackKeepsConsistent | internal/rule/metrics.go:39-72 | one recorded execution keeps the tables consistent: a rule has a history exactly when it has run, as long as its run count, its slowest time is the largest in it, and matches never exceed runs |
| RuleStats.RankedTable | internal/rule/metrics.go:124-138 | the first `limit` entries of the sorted table are real entries, still sorted, with distinct keys, and none left out is larger than one kept |
| RuleStats.TopEntries | internal/rule/metrics.go:113-138 | the shared top-N step returns the smaller of the limit and the table size, sorted, real entries with distinct keys, none left out larger than one kept |
| RuleStats.RateBounded | internal/rule/metrics.go:96-98 | a match rate lies between 0 and 1 |
| RuleStats.EntriesOf | internal/rule/metrics.go:114-117 | the table turned into a list holds each entry once, no key twice, and nothing else |
| RuleStorage.SnocSelects | internal/infrastructure/storage/rule_store.go:175-220 | appending a clause to the `must` list adds exactly that clause to what the query demands |
| RuleStorage.WantedHoldSnoc | internal/infrastructure/storage/rule_store.go:175-220 | the wanted clauses of a longer candidate list hold exactly when those of its front hold and, if the last is wanted, its clause holds |
| RuleStorage.KeepSelects | internal/infrastructure/storage/rule_store.go:175-220 | the clauses kept from the candidates demand exactly the wanted candidates |
| RuleStorage.BuildRuleQuerySpec | internal/infrastructure/storage/rule_store.go:164-224 | the intended query selects a definition exactly when each set filter field agrees, it carries one of the listed tags, and its creation time lies within the set bounds |
| RuleStorage.SnocRanks | internal/infrastructure/storage/rule_store.go:175-220 | appending a clause of the next rank keeps the clauses in strictly increasing rank and adds that rank |
| RuleStorage.BelowLacks | internal/infrastructure/storage/rule_store.go:175-220 | clauses ranked below a bound have no clause of that rank or higher |
| RuleStorage.KeepOrdered | internal/infrastructure/storage/rule_store.go:175-220 | keeping some of the candidates keeps them in the builder's order |
| RuleStorage.KeepPresence | internal/infrastructure/storage/rule_store.go:175-220 | a clause rank is present among the kept clauses exactly when the candidate at that position is wanted |
| RuleStorage.RuleClausesOrder | internal/infrastructure/storage/rule_store.go:175-220 | the clauses come in the order category, severity, status, tags, date range, one for each filter field that is set |
| RuleStorage.QueryAsWrittenSelectsAll | internal/infrastructure/storage/rule_store.go:168-173 | the query as written has no clauses, so it selects every stored definition |
| RuleStorage.QueryAsWrittenIgnoresCategory | internal/infrastructure/storage/rule_store.go:173-181 | a rule of category "web" is selected by the as-written query for category "network", and not by the intended query |
| RuleStorage.VersionHitsSpec | internal/infrastructure/storage/rule_store.go:123-132 | there are no hits exactly when no archived entry has that rule ID and version; otherwise the first hit is the earliest matching entry |
| RuleStorage.VersionAsDefinition | internal/infrastructure/storage/rule_store.go:144-160 | a version document read as a rule definition fills in only the version, creation time and author it shares with one |
| RuleStorage.RuleStore.constructor | internal/infrastructure/storage/rule_store.go:22-27 | a new store has empty rule and version indices |
| RuleStorage.RuleStore.GetRule | internal/infrastructure/storage/rule_store.go:68-85 | a rule is found exactly when its ID is stored, and it is the stored definition |
| RuleStorage.RuleStore.SaveRule | internal/infrastructure/storage/rule_store.go:30-65 | version 0 becomes 1 and nothing is archived; an update of a stored rule archives the stored version, with its update time and author, and takes the next version; an update of an unknown ID keeps its version; the update time is set; a failed write is reported and leaves the index unchanged, a successful one stores the definition |
| RuleStorage.RuleStore.GetRuleVersion | internal/infrastructure/storage/rule_store.go:122-161 | fails with "rule version not found" exactly when no archived entry has that rule ID and version; otherwise returns the earliest such entry |
| RuleStorage.RuleStore.ListRules | internal/infrastructure/storage/rule_store.go:88-119 | lists exactly the stored definitions the filter accepts |
| RuleStorage.SaveTwice | internal/infrastructure/storage/rule_store.go:30-65 | saving a new definition twice stores version 2 and archives version 1 with the first save's time |
| RuleManagement.ValidateRule | internal/rule/manager.go:188-197 | a definition is refused exactly when its ID or its name is empty; the ID is checked first, each with its own message |
| RuleManagement.ConversionErrorSpec | internal/rule/manager.go:210-223 | only "composite" converts; "ml" is refused as unsupported and any other type as unknown, naming the type |
| RuleManagement.ConvertToEngineRule | internal/rule/manager.go:200-224 | a refused type yields its error; a composite definition yields a new composite rule with the definition's metadata and operator and no conditions, because the loop over the configured conditions does nothing |
| RuleManagement.ConvertedNeverMatches | internal/rule/manager.go:210-217 | a converted rule, having no conditions, never matches any event |
| RuleManagement.IdsSnoc | internal/rule/manager.go:43-59 | the IDs of one more definition are the earlier IDs plus its own |
| RuleManagement.UpdatedOnlyKeys | internal/rule/manager.go:43-59 | a table changed only at the given IDs, all present, has exactly its old keys plus those IDs |
| RuleManagement.UpdatedOnlyStep | internal/rule/manager.go:43-59 | writing one more key keeps the table changed only at the given IDs, that key added |
| RuleManagement.StepErrorSpec | internal/rule/manager.go:43-58 | an import step succeeds exactly when the definition validates, saves and is a composite; a definition that fails only at conversion has already been saved |
| RuleManagement.CountsPartition | internal/rule/manager.go:158-169 | every result is a success or a failure, every failure a false positive or a false negative, every success a true positive or a true negative |
| RuleManagement.RatioBounds | internal/rule/manager.go:171-182 | a count divided by a count at least as large lies between 0 and 1 |
| RuleManagement.StatsOfSpec | internal/rule/manager.go:153-185 | the totals add up, and accuracy, precision and recall each lie between 0 and 1 |
| RuleManagement.StatsAsWrittenSpec | internal/rule/manager.go:153-185 | as written, the counts and the accuracy are the corrected ones, the precision's denominator is the number of successes, and the "true positives" are true positives plus true negatives minus false positives |
| RuleManagement.StatsAsWrittenNoMatch | internal/rule/manager.go:175-182 | when nothing matched, the corrected precision and recall are 0, while as written the precision is 1 once an event was expected not to match and the recall is the share of true negatives among true and false negatives |
| RuleManagement.PrecisionAsWrittenNegative | internal/rule/manager.go:175-178 | with one true negative and two false positives, precision as written is -1 while the true precision is 0 |
| RuleManagement.TestResult.constructor | internal/rule/manager.go:94-98 | a new test result has the rule ID and start time, no per-event results and zero statistics |
| RuleManagement.TestResult.CalculateStats | internal/rule/manager.go:153-185 | the statistics become those of the per-event results (with true positives counted directly), the results themselves unchanged |
| RuleManagement.ResultOf | internal/rule/manager.go:100-107 | an event's test result carries its ID and expected outcome, and the rule's verdict as both the actual outcome and the match flag |
| RuleManagement.RuleManager.constructor | internal/rule/manager.go:23-29 | the manager keeps the given store and engine and gets a new metrics collector |
| RuleManagement.RuleManager.ImportOne | internal/rule/manager.go:43-58 | the error, if any, is that of the first failing step among validation, saving and conversion; the store changes only at the definition's ID and only when it was saved; the engine gains the converted rule, with the definition's metadata and operator and no conditions, only when every step succeeds; the engine's counters are unchanged |
| RuleManagement.RuleManager.ImportNext | internal/rule/manager.go:43-59 | one more pass of the import loop extends the record of imported definitions, or fails with that definition's step error, with the engine unchanged |
| RuleManagement.RuleManager.ImportRules | internal/rule/manager.go:32-62 | the definitions are imported in order up to the first failure, whose step error is returned; success exactly when all are imported; the engine changes only at the imported IDs, each holding the converted form (metadata, operator, no conditions) of the last imported definition with that ID; the store changes also at the failing ID when it was saved before failing |
| RuleManagement.RuleManager.EngineImportedStep | internal/rule/manager.go:56-58 | registering a definition's converted form under its ID makes it the last imported one there and leaves every other imported ID as it was |
| RuleManagement.LastWithSpec | internal/rule/manager.go:42-59 | the last of the first n definitions with an ID exists exactly when one of them has that ID, and no later one of them has it |
| RuleManagement.RuleManager.TestRule | internal/rule/manager.go:88-114 | a definition that does not convert yields its conversion error; otherwise there is one result per test event, in order, each reporting no match, with the start and end times and the statistics of those results |
| Enrichment.IpLabelsSpec | internal/service/log/enricher.go:146-163 | the enrichment adds three fixed labels and one per threat category, each starting with the direction and "_", the categories in order after the fixed three |
| Enrichment.LabelValueAppend | internal/service/log/enricher.go:107-112 | appending labels none of which is a `key:` entry leaves the value read for `key` unchanged |
| Enrichment.LabelValueNone | internal/service/log/enricher.go:107-112 | a label list without any `key:` entry reads as the empty value for `key` |
| Enrichment.NotReputation | internal/service/log/enricher.go:147-162 | a label made of "source" or "dest", "_" and a text not starting with 'r' is never a source or destination reputation entry |
| Enrichment.NoReputationLabels | internal/service/log/enricher.go:146-163 | no label the enrichment adds, in either direction, is a reputation entry |
| Enrichment.IpLabelNotReputation | internal/service/log/enricher.go:146-163 | the i-th label the enrichment adds is not a reputation entry |
| Enrichment.SeverityTable | internal/service/log/enricher.go:102-133 | the computed severity is one of critical, high, medium, low (never "info"); critical exactly when both reputations are malicious, low exactly when neither is, and high or medium by the action's weight otherwise |
| Enrichment.SeverityIdempotent | internal/service/log/enricher.go:102-133 | recomputing the severity of an event whose severity was just computed gives the same severity |
| Enrichment.CalculateSeverity | internal/service/log/enricher.go:102-133 | the step-by-step score (4 for a malicious source, 3 for a malicious destination, 2 or 1 for the action, case-insensitive) thresholded at 0.7, 0.5 and 0.3 gives the severity of the score specification, and nothing else of the event changes |
| Enrichment.ApplyIpInfo | internal/service/log/enricher.go:146-163 | the loop leaves the event with exactly the enrichment labels of the direction appended to its labels, all else unchanged |
| Enrichment.EnrichmentKeepsScore | internal/service/log/enricher.go:29-54 | adding the enrichment labels of either direction leaves the severity score unchanged |
| Enrichment.LogEnricher.constructor | internal/service/log/enricher.go:20-26 | a new enricher has the given lookups and an empty, consistent cache |
| Enrichment.LogEnricher.EnrichIpInfo | internal/service/log/enricher.go:57-99 | a cached record is applied with the cache unchanged; on a miss the first lookup error is returned with the event untouched and nothing cached, otherwise the combined record is cached and applied; the cache only ever holds what the lookups give |
| Enrichment.LogEnricher.Enrich | internal/service/log/enricher.go:29-54 | source then destination enrichment, each only for a set address, stopping at the first error with the event as far as it got; only a run without errors recomputes the severity; cached records are kept |
| Enrichment.LogEnricher.EnrichSpec | internal/service/log/enricher.go:29-54 | a successful enrichment only appends labels and sets the severity, and that severity is the one of the labels the event came with, one of the four levels |
| Enrichment.LogEnricher.EnrichErrors | internal/service/log/enricher.go:31-41 | a source lookup error returns the event untouched; a destination lookup error returns it with only the source labels added; neither changes the severity |
| Repositories.WriteOutcome | internal/infrastructure/storage/elasticsearch.go:30-43 | a write succeeds exactly when the backend reports no fault, and a failed write carries the backend's error |
| Repositories.FileAnomaliesLookup | internal/infrastructure/storage/elasticsearch.go:111-124 | after filing a sequence of anomalies by document ID, each ID holds the latest anomaly of the sequence with that ID, or what it held before when the sequence has none |
| Repositories.FileAnomaliesTwice | internal/infrastructure/storage/elasticsearch.go:111-124 | filing the same anomalies a second time leaves the index as it was after the first time |
| Repositories.EventRepository.constructor | internal/domain/repository/repository.go:11-26 | a new event store holds no events and no anomalies |
| Repositories.EventRepository.SaveEvent | internal/infrastructure/storage/elasticsearch.go:30-43 | the event is filed under its ID exactly when the write succeeds; the anomalies are unchanged |
| Repositories.EventRepository.SaveAnomaly | internal/infrastructure/storage/elasticsearch.go:111-124 | the anomaly is filed under its ID exactly when the write succeeds; the events are unchanged |
| Repositories.VectorRepository.constructor | internal/domain/repository/repository.go:29-41 | a new vector store holds no vectors |
| Repositories.VectorRepository.SaveEventVector | internal/domain/repository/repository.go:30-31 | the vector is filed under the event ID exactly when the write succeeds |
| Repositories.CacheRepository.constructor | internal/domain/repository/repository.go:44-53 | a new cache holds no entries |
| Repositories.CacheRepository.Get | internal/domain/repository/repository.go:48-49 | a stored key gives its value and a missing key an error |
| Repositories.CacheRepository.Set | internal/domain/repository/repository.go:45-46 | the value is stored under the key exactly when the write succeeds |
| AnomalyDetection.AnomalyTypeBands | internal/ai/anomaly/detector.go:107-123 | the anomaly type is "unknown" exactly without a score and otherwise critical, high, medium or low by the bands above 0.9, 0.7 and 0.5, strict lower bounds |
| AnomalyDetection.AnomalyDetector.constructor | internal/ai/anomaly/detector.go:24-46 | the detector keeps the given model, repositories, threshold, batch size and confidence curve |
| AnomalyDetection.AnomalyDetector.NewAnomaly | internal/ai/anomaly/detector.go:81-85 | an anomaly above the threshold carries the event's ID, the score, the score's band as its type, the confidence of score minus threshold and no related rules |
| AnomalyDetection.AnomalyDetector.RunStops | internal/ai/anomaly/detector.go:89-99 | once a write has been rejected, the rest of the pass over the predictions changes nothing |
| AnomalyDetection.AnomalyDetector.ExpectedKept | internal/ai/anomaly/detector.go:74-101 | the anomalies the first k predictions call for are those kept by the per-prediction rule, in prediction order |
| AnomalyDetection.AnomalyDetector.ExpectedSpec | internal/ai/anomaly/detector.go:74-93 | an anomaly is called for exactly when some prediction is scored strictly above the threshold and the anomaly is the one for its event and score |
| AnomalyDetection.AnomalyDetector.ExpectedVectorsSpec | internal/ai/anomaly/detector.go:76-79 | a vector is filed exactly for a scored prediction that carries one, whether or not it is anomalous, under its event's ID |
| AnomalyDetection.AnomalyDetector.StepFiledPrefix | internal/ai/anomaly/detector.go:76-100 | one prediction extends what has been filed by at most what it calls for, and by all of it when no write fails |
| AnomalyDetection.AnomalyDetector.RunFilesExpected | internal/ai/anomaly/detector.go:74-101 | the pass files a prefix of the called-for anomalies and vectors, and all of them when no write fails |
| AnomalyDetection.AnomalyDetector.DetectSpec | internal/ai/anomaly/detector.go:49-104 | a successful run means the model answered, and it returns exactly the anomalies the predictions call for |
| AnomalyDetection.AnomalyDetector.BuildBatch | internal/ai/anomaly/detector.go:51-65 | the batch holds one model input per event, in event order |
| AnomalyDetection.AnomalyDetector.FilePredictions | internal/ai/anomaly/detector.go:73-101 | the result loop ends in the state of the pass over the predictions that have an event, skipping the inert ones past the last event, and the stores hold what that pass filed |
| AnomalyDetection.AnomalyDetector.HandlePrediction | internal/ai/anomaly/detector.go:76-100 | one prediction's body: unscored ones are skipped, an anomaly above the threshold is saved and then the vector, a rejected save stops, and the two stores hold what the pass filed |
| AnomalyDetection.AnomalyDetector.ProcessEvents | internal/ai/anomaly/detector.go:49-104 | the model's error, the first rejected write, or the anomalies called for, predictions past the last event changing nothing; the anomaly and vector stores hold exactly what the pass filed and the event store is unchanged |
| LogProcessing.ParseLog | internal/service/log/processor.go:109-139 | a line fails exactly when its JSON does not decode, with the decoder's error; otherwise it is a fresh event carrying the raw line, the five decoded fields, the parsed timestamp or, when that does not parse, the creation time, and defaults elsewhere |
| LogProcessing.CacheKeyShared | internal/service/log/processor.go:142-146 | events that agree on the addresses, protocol and event type within one minute share a cache key, whatever their other fields |
| LogProcessing.EnrichKeepsKey | internal/service/log/processor.go:45-50 | enrichment never changes an event's cache key |
| LogProcessing.ParsedDuplicates | internal/service/log/processor.go:109-146 | two lines whose decoded fields agree but for the description, with timestamps in the same minute, get the same cache key |
| LogProcessing.LogProcessor.constructor | internal/service/log/processor.go:22-34 | the processor keeps the given detector, repository, cache and enricher |
| LogProcessing.LogProcessor.FileRunPrefix | internal/service/log/processor.go:71-77 | filing the anomalies one by one files a prefix of them, all of them when no save is rejected |
| LogProcessing.LogProcessor.FileRunStops | internal/service/log/processor.go:72-76 | once a save has been rejected, the loop files nothing more |
| LogProcessing.LogProcessor.AfterMissOrder | internal/service/log/processor.go:56-77 | after a cache miss, each step runs only when every earlier one succeeded: the save after detection, the cache mark after the save, the anomalies after the mark |
| LogProcessing.LogProcessor.ProcessOrder | internal/service/log/processor.go:37-54 | a parse or enrichment error ends the run with that error before the detector, repository or cache is reached; a cache hit ends it with success; only a miss goes on to the detector, with the enriched event |
| LogProcessing.LogProcessor.AfterMissFilesFound | internal/service/log/processor.go:57-77 | a run that saved the event files a prefix of the detector's anomalies in order, and all of them when it succeeds |
| LogProcessing.LogProcessor.SharedRepositoryDoubleSave | internal/service/log/processor.go:57-77 | when the processor and the detector share one repository, each anomaly is filed twice and the index ends as if it had been filed once |
| LogProcessing.LogProcessor.ProcessLog | internal/service/log/processor.go:37-80 | the result and every effect — the event filed, the cache mark, the detector's vectors and anomalies, the processor's anomalies — are those of the parse, enrich, cache check, detect, save, mark and file sequence, stopping at the first error |
| LogProcessing.LogProcessor.HandleMiss | internal/service/log/processor.go:56-79 | after a cache miss: detection, the event save, the cache mark whose result is ignored, and the anomaly saves, stopping at the first error |
| LogProcessing.LogProcessor.SaveAllAnomalies | internal/service/log/processor.go:71-77 | files the anomalies in order until the first rejected save, whose error it returns; the events are untouched |
| LogProcessing.LogProcessor.SurvivorsSpec | internal/service/log/processor.go:86-97 | a batch keeps at most one event per line, and exactly the lines whose parse and enrichment both succeed |
| LogProcessing.LogProcessor.CollectSurvivors | internal/service/log/processor.go:84-97 | the loop skips the lines that fail to parse or enrich and keeps the rest, enriched, in line order |
| LogProcessing.LogProcessor.BatchProcessLogs | internal/service/log/processor.go:83-106 | the surviving events go to one detector call, none when there are none; the result is the detector's error or success; no event is filed and the cache is not touched |
| SimpleDetection.SourceIpsSpec | internal/ai/anomaly/simple_detector.go:33-35 | the counted addresses are the events' source addresses, one per event, in order |
| SimpleDetection.HeavyIpsSpec | internal/ai/anomaly/simple_detector.go:38-39 | an address is reported exactly when it is the source of more than ten events of the batch, so a batch of ten events or fewer reports nothing |
| SimpleDetection.FirstIdSpec | internal/ai/anomaly/simple_detector.go:49-54 | the linked event ID is that of the first event from the address |
| SimpleDetection.AnomalyForSpec | internal/ai/anomaly/simple_detector.go:41-54 | every report is a "Medium" "SimpleAnomalyDetection" from "SimpleAnomalyDetector" at the analysis time, linked to the first event of its address, which exists |
| SimpleDetection.FirstFrom | internal/ai/anomaly/simple_detector.go:49-54 | any event from an address has a first event from that address at or before it |
| SimpleDetection.ProcessEvents | internal/ai/anomaly/simple_detector.go:28-61 | never fails, and returns one report per address seen more than ten times, each address once, in some order |
| SimpleDetection.FindFirst | internal/ai/anomaly/simple_detector.go:49-54 | the scan returns the ID of the first event from the address, or "" when there is none |
| SecurityModel.InputOf | internal/ai/qianxin/security_llm.go:31-43 | the request names the "security_analysis" task and carries the event's time and connection fields unchanged |
| SecurityModel.FlagsSpec | internal/ai/qianxin/security_llm.go:74 | the intended filter keeps exactly the threat levels medium, high and critical |
| SecurityModel.FlagsAsWrittenLevels | internal/ai/qianxin/security_llm.go:74 | the string comparison as written keeps "medium" and "unknown" and drops "high", "critical" and "low" |
| SecurityModel.LessIrreflexive | internal/ai/qianxin/security_llm.go:74 | no string sorts strictly before itself |
| SecurityModel.AnomalyOf | internal/ai/qianxin/security_llm.go:75-77 | the reported anomaly carries the event's ID, the model's confidence as its score, the threat type as its type and the recommendation as its description |
| SecurityModel.SecurityLlm.constructor | internal/ai/qianxin/security_llm.go:20-26 | the client keeps the given endpoint, key and API |
| SecurityModel.SecurityLlm.Analyze | internal/ai/qianxin/security_llm.go:29-61 | fails exactly when the API call does, wrapping its error; otherwise the analysis of the event carries the reply's threat level, type, recommendation and confidence and leaves every other field empty |
| SecurityModel.SecurityLlm.DetectedSpec | internal/ai/qianxin/security_llm.go:64-83 | at most one anomaly per event, and an anomaly is reported exactly when some event's analysis succeeds, passes the filter and yields it; failed calls are skipped |
| SecurityModel.SecurityLlm.DetectAnomalies | internal/ai/qianxin/security_llm.go:64-83 | never fails, and returns in event order the anomalies of the events graded medium, high or critical |
| SecurityModel.SecurityLlm.AsWrittenDropsHigh | internal/ai/qianxin/security_llm.go:74 | an event whose reply is graded "high" is reported by the intended filter and dropped by the comparison as written |
| Alerts.AlertOf | internal/service/alert/manager.go:71-80 | the alert carries the event's ID, the rule's ID, name, description and severity, status "new", the processing time and a generated ID, and is unassigned and unresolved |
| Alerts.RaisedSpec | internal/service/alert/manager.go:69-81 | at most one alert per rule, and an alert is raised exactly when some rule's condition holds and the alert is that rule's |
| Alerts.ThrottleIgnored | internal/service/alert/manager.go:25 | rules that differ only in their throttles raise the same alerts: the throttle is never consulted |
| Alerts.Offer | internal/service/alert/manager.go:83-88 | one delivery per notifier, in notifier order, each the notifier's answer for the alert |
| Alerts.FanoutLength | internal/service/alert/manager.go:69-89 | offering the alerts makes one call per alert and notifier |
| Alerts.FanoutAt | internal/service/alert/manager.go:69-89 | every alert reaches every notifier, alert after alert and notifier after notifier, whatever earlier calls answered |
| Alerts.DefaultRules | internal/service/alert/manager.go:96-124 | two rules: CRIT-001, critical, throttled for 5 minutes, and SEC-001, high, throttled for 15 minutes |
| Alerts.DefaultConditions | internal/service/alert/manager.go:96-124 | CRIT-001 matches exactly the critical events and SEC-001 exactly those labelled "source_reputation:malicious" |
| Alerts.AlertManager.constructor | internal/service/alert/manager.go:50-55 | a new manager has no rules and the given notifiers |
| Alerts.AlertManager.AddRule | internal/service/alert/manager.go:58-62 | the rule goes after the existing ones |
| Alerts.AlertManager.ProcessEvent | internal/service/alert/manager.go:65-93 | always succeeds, and the deliveries made are the fan-out of the alerts of the matching rules in rule order |
| Alerts.AlertManager.SendAll | internal/service/alert/manager.go:83-88 | the inner loop offers the alert to every notifier in order, carrying on after a failed delivery |
| Metrics.SeqSumBounds | internal/metrics/collector.go:110-113 | samples that all lie between two bounds add up to between the count times each bound |
| Metrics.AverageWithin | internal/metrics/collector.go:110-118 | the reported mean of samples between two bounds in nanoseconds lies between the same bounds in milliseconds |
| Metrics.EventKeepsTallies | internal/metrics/collector.go:50-63 | counting one more event under its action, severity, hour and date keeps each of the four tallies adding up to the event total |
| Metrics.Collector.constructor | internal/metrics/collector.go:34-42 | a new collector has zero totals and empty tallies, scores and samples, and every tally adds up to its total |
| Metrics.Collector.TrackEvent | internal/metrics/collector.go:45-64 | the event total rises by one; the action, severity, hour-of-day and "2006-01-02" date tallies each rise by one at the event's key; everything else is unchanged; the tallies keep adding up to the total |
| Metrics.Collector.TrackAnomaly | internal/metrics/collector.go:67-79 | the anomaly total rises by one, the tally of its type rises by one, its score is appended, the event counters are unchanged, and the tally keeps adding up to the total |
| Metrics.Collector.TrackProcessingTime | internal/metrics/collector.go:82-87 | the duration is appended to the samples and nothing else changes |
| Metrics.Collector.GetStats | internal/metrics/collector.go:90-103 | the snapshot reports the seven counters as they stand, and its tallies add up to its totals |
| Metrics.Collector.GetPerformanceStats | internal/metrics/collector.go:106-121 | reports the number of samples and their mean in milliseconds; the mean is undefined exactly when there are no samples |

## Left out

- Network and file I/O is not modelled: the Elasticsearch client, the HTTP call of the security language model (`callAPI`), the notifier transports (webhook, mail, DingTalk) and reading or writing rule files. Each is a function given to the model: a backend write fault, `callApi`, a notifier's `send`. Each fault is a fixed input, not a random event.
- `RuleManagement.RuleManager.ImportRules` starts from the list of definitions that `ImportRules` reads from its file with JSON decoding; the reading and decoding are not modelled.
- `ExportRules` (internal/rule/manager.go:65-85) is not modelled: it is a search followed by a file write, with no logic of its own.
- `LoadRuleFromJSON` (internal/rule/engine.go:109-112) is not modelled: its body is an unimplemented stub.
- JSON decoding of log lines and RFC 3339 timestamp parsing (section 5.6 of RFC 3339) are functions given to `LogProcessing.ParseLog`.
- The wire format of the rule store's search responses is not modelled. The rule and version indices are maps and sequences, and `GetRule`, `ListRules` and `GetRuleVersion` read them directly.
- The rule store's error texts for rejected writes are the backend's, given by the fault input; only the store's own messages, such as "rule version not found", are fixed strings.
- `Repositories.CacheRepository.Get`: the cache interface leaves the error of a missing key to the backend; the model uses "cache miss".
- Cache expiry is not modelled: an entry written with the five-minute lifetime stays until it is overwritten. The processor's deduplication therefore never forgets a key within the model.
- Every `sync.Mutex` and `sync.RWMutex` is left out: the model is sequential.
- Floating point: float32 and float64 values are exact reals, and the float divisions (averages, match rate, accuracy, precision, recall) are exact divisions of reals. The severity weights and thresholds are integer tenths, which gives the same outcomes.
- `AnomalyDetection.AnomalyDetector.NewAnomaly`: the confidence curve `1 / (1 + exp(-10 * (score - threshold)))` is the function `confidence`, given at construction, because `math.Exp` is not available.
- Integer overflow of Go's `int` and `int64` counters is not modelled: counters are unbounded.
- Time is a calendar value with hours, minutes and seconds. Time zones and sub-second precision are left out. `time.Now` is a parameter (`now`, or `today` for the rule statistics) that stays fixed for one call of `ProcessEvent`, `ProcessLog` or `TrackRuleExecution`.
- `NewAnomalyDetector` loading its model from a path, and the error it returns when loading fails, are not modelled. The detector is built with an already loaded model.
- `AnomalyDetection.AnomalyDetector.ProcessEvents` requires that every prediction past the last event is inert: unscored, or scored at most the threshold without a vector. Any other such prediction makes the Go code index past the end of the events and panic.
- `RuleStats.RuleMetrics.GetTopMatchingRules` and `RuleStats.RuleMetrics.GetSlowestRules` require a limit of zero or more. A negative limit makes the Go code's `make` panic.
- `Alerts.GenerateId`: the random part of the alert ID is the fixed text "123456", because randomness is not modelled. Within one second, every alert therefore gets the same ID.
- `Metrics.Collector.GetPerformanceStats`: the average of no samples, a NaN in the Go code, is `None`.
- `Metrics.Collector.GetStats` returns the maps as values (a snapshot), not as the shared references the Go code returns.
- `Engine.RuleEngine.GetMetrics` likewise returns the per-rule match counts as a value; the Go code hands out the engine's own map, so later executions show through it.
- `Entity.NewSecurityEvent`: the model's `SecurityEvent` has two fields the Go struct lacks, `eventType` and `description`, because processor.go sets both from the decoded log line and builds its cache key with `eventType`; they start empty.
- `Entity.NewAnomalyResult`: the model's `AnomalyResult` has a `description` field the Go struct lacks, because security_llm.go sets it; it starts empty.
- `Text.ToLower` keeps every character whose lower case is not ASCII (for example `Ä`), where Go's `strings.ToLower` lowers it too. Every character whose lower case is ASCII is modelled, so comparing the result with an ASCII word, the only use, comes out as in Go.
- `RuleManagement.TestResult.CalculateStats` computes the corrected precision and recall (true positives counted directly); the Go code's own values are `StatsAsWritten` (see Findings).
- `RuleManagement.RuleManager.TestRule` summarises its results with the corrected statistics, so its precision and recall are 0; as written, Go reports the values `StatsAsWrittenNoMatch` gives.
- Events, anomalies and analyses are values, not pointers. An operation that updates an event in place (`Enrich`, `applyIPInfo`, `calculateSeverity`) returns the updated event, so aliasing of one event between callers is not modelled.
- `Conditions.Evaluate` evaluates an IP condition whose field holds no string (the "port" field, or an unknown name) as not matching, where the Go code panics at conditions.go:63. The rules, the engine, the rule manager and the alert manager built on it therefore report "no match" for such an event; the code as written is `EvaluateIpAsWritten` (see Findings).
- `SecurityModel.SecurityLlm.DetectAnomalies` keeps the events graded "medium", "high" or "critical" (`Flags`). The Go code's byte-wise `ThreatLevel >= "medium"` is `FlagsAsWritten`, which keeps "medium" and "unknown" and drops "high" and "critical" (see Findings).
- `RuleStorage.RuleStore.ListRules` selects with the intended query `BuildRuleQuery` and returns every stored definition it accepts. The Go code's query as written carries no clauses (`BuildRuleQueryAsWritten`, `QueryAsWrittenSelectsAll`), so it lists every stored definition. The search also sets no size, so Elasticsearch returns at most its default page of 10 hits; the model has no such limit.
- `RuleStorage.RuleStore.SaveRule`: the archiving step `saveVersion` is not defined anywhere in the repository. The model appends the archived version to the version index, and a write fault (`archiveFails`) makes it fail.
- `Enrichment.LogEnricher.Enrich`: the user step `enrichUserInfo` is not defined anywhere in the repository, so its outcome is a parameter and it leaves the event unchanged.
- `Enrichment.LabelValue`: `Labels` is declared as a list of strings but indexed like a map in `calculateSeverity`. The model reads `Labels[k]` as the text after `k:` in the first label that starts with `k:`, or "" when there is none, as a missing map key gives "".
- `SimpleDetection.ProcessEvents`: simple_detector.go sets fields that the Go `SecurityAnalysis` lacks. The model gives the analysis the fields `eventType`, `description`, `severity` and `source`, and its time is the Unix timestamp the Go type declares.
- `Entity.NewSecurityAnalysis`: security_analysis.go uses `time` without importing it; the model uses the fields as declared.
- The engine's `RuleMetrics` struct and the statistics collector of the same name, both declared in package `rule`, are two types: `Engine.EngineMetrics` and `RuleStats.RuleMetrics`.
- `Rules.GetMetadata` has no contract of its own: the metadata is a constant field, which the constructors set and which `GetMetadata` returns unchanged.
- Regular-expression matching is a given function (`RegexEngine`), and IPv6 addresses are not modelled: they do not parse.
- The HTTP handlers, the server start-up, configuration loading, the neural network library and the stub security model (`qianxin/model.go`) are outside the modelled core.

## Findings

| source | as written | input that shows it | evidently intended | confidence | as-written member | corrected member |
|---|---|---|---|---|---|---|
| internal/rule/conditions.go:63 | `getFieldValue(event, c.Field).(string)` asserts a string for any field | an IP condition on "port" (an int) or on an unknown field (nil) | the condition is false, like an unparsable address | high; not executed | Conditions.IpConditionOnPortPanics | Conditions.EvaluateIpSpec |
| internal/infrastructure/storage/rule_store.go:173 | clauses are appended to a local copy `must`, never stored back into the query map | the filter with category "network" and a stored rule of category "web": the query still selects it | the serialised query carries one clause per set filter field | high; not executed | RuleStorage.QueryAsWrittenIgnoresCategory | RuleStorage.BuildRuleQuerySpec |
| internal/rule/manager.go:175 | `truePositive := stats.TotalSuccess - stats.FalsePositive`, where successes include true negatives | one true negative and two false positives: precision -1.0 | the true positives are counted directly, and precision lies between 0 and 1 | high; not executed | RuleManagement.PrecisionAsWrittenNegative | RuleManagement.StatsOfSpec |
| internal/rule/manager.go:175-182 | the same count of true positives feeds the recall, and every `TestRule` dry run reports no match | a dry run over one event expected not to match and one expected to match: precision 1.0 and recall 0.5 although nothing matched | with nothing matched, precision and recall are 0 | high; not executed | RuleManagement.StatsAsWrittenNoMatch | RuleManagement.StatsOfSpec |
| internal/ai/qianxin/security_llm.go:74 | `analysis.ThreatLevel >= "medium"` compares strings byte by byte | a reply graded "high" (or "critical") is dropped, while "unknown" is kept | medium, high and critical are reported | high; not executed | SecurityModel.SecurityLlm.AsWrittenDropsHigh | SecurityModel.FlagsSpec |
