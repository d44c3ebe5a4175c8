# ai-pip-core in Dafny

A verified model of the deterministic core of ai-pip-core. This is a content-security pipeline that sits between untrusted text and a language model. It has four layers:

- **CSL** (context segmentation layer): splits content into lines, classifies each source as trusted (TC), semi-trusted (STC) or untrusted (UC), and validates origins, trust levels, content hashes and lineage entries.
- **ISL** (instruction sanitization layer): holds the validated patterns, detections and detection results. It also covers:
  - the detection driver, with its total and per-pattern budgets and its pattern-then-match ordering;
  - risk-score aggregation and the three scoring strategies;
  - signal emission;
  - the sanitize pass-through and the ISL result;
  - the threat-tag serializer and registry.
- **AAL** (agent action layer): validates the policy thresholds and resolves ALLOW / WARN / BLOCK with inclusive boundaries. It builds the decision reason, the removal plan and the remediation plan. It also includes the redaction engine, which clamps, merges, fuses and excises ranges.
- **CPE and envelope metadata**: the signable-content serializers and the metadata value objects.

Each source file is one module:

- Code made of pure expressions becomes datatypes, functions and lemmas.
- Loops become methods, each proved against a specification function.
- Exceptions become `Result` values that name the check that failed.
- `Date.now()` becomes a `now` parameter.
- The regular-expression engine is an oracle parameter.

Shared modules:

- `Wrappers`: `Option` and `Result`.
- `Js`: the few JavaScript library behaviours the core relies on:
  - `String.prototype.trim` and its whitespace class;
  - ASCII case mapping;
  - decimal rendering of integers;
  - lexicographic string order;
  - `replaceAll` and `slice`.
- `SharedTypes`, `IslTypes`, `AalTypes` and `CslTypes`: the records the layers exchange.

## Model

| member | source | states |
|---|---|---|
| ActionDisplay.GetActionDisplayColor | src/AAL/constants.ts:12-23 | the colour of an action is its entry in the colour table, and the table has an entry for every action |
| ActionDisplay.DisplayColors | src/AAL/constants.ts:12-16 | ALLOW is green, WARN yellow, BLOCK red, and two actions with the same colour are the same action |
| AnomalyScores.CreateAnomalyScore | src/isl/value-objects/AnomalyScore.ts:14-24 | a score outside [0, 1] is refused first; otherwise the result is accepted exactly when the action is ALLOW, WARN or BLOCK, and then carries that score and action |
| AnomalyScores.AnyPairingAccepted | src/isl/value-objects/AnomalyScore.ts:14-24 | every in-range score is accepted with every action, with no consistency check between them |
| AnomalyScores.ExactlyOneRiskClass | src/isl/value-objects/AnomalyScore.ts:29-39 | exactly one of isHighRisk, isWarnRisk and isLowRisk holds for any anomaly score |
| BuildIslResult.BuildIslResult | src/isl/process/buildISLResult.ts:25-46 | segments and lineage are returned as given; total and sanitized counts both equal the number of segments; the processing time is present exactly when supplied and then equals it; no other counter is set |
| BuildIslResult.RebuildSanitized | src/isl/process/buildISLResult.ts:25-46 | rebuilding the sanitization pass's output keeps its segments, lineage and counts and leaves only the two zero counters unset |
| Classify.SourceOrigin | src/csl/classify.ts:32-37 | exactly the four sources SYSTEM, UI, API and DOM have an origin type |
| Classify.ClassifySource | src/csl/classify.ts:30-55 | SYSTEM gives TC, UI and API give STC, DOM gives UC, and every other source fails with a classification error naming it |
| Classify.ClassifyOrigin | src/csl/classify.ts:65-76 | every origin type has a table entry, and the result is the trust level of that entry |
| Classify.SourceAgreesWithOrigin | src/csl/classify.ts:30-76 | classifying a source gives the same trust level as classifying the origin it maps to |
| ContentHashes.ParseAlgorithm | src/csl/value-objects/ContentHash.ts:19-21 | exactly "sha256" and "sha512" name an algorithm, and the algorithm's name is the input |
| ContentHashes.CreateContentHash | src/csl/value-objects/ContentHash.ts:14-37 | a missing or empty value is refused first; a hash is created exactly when the value is non-empty hex of either case, the algorithm (default sha256) is sha256 or sha512, and the length is 64 or 128 accordingly; the stored value is the lower-cased input, of the right length and lower-case hex |
| ContentHashes.CaseInsensitive | src/csl/value-objects/ContentHash.ts:23-36 | the lower-cased spelling of an accepted digest creates the same hash |
| ContentHashes.RecreateIsIdentity | src/csl/value-objects/ContentHash.ts:14-37 | creating a hash from a created hash's value and algorithm gives that hash back |
| ContentHashes.ExactlyOneAlgorithm | src/csl/value-objects/ContentHash.ts:42-48 | exactly one of isSha256 and isSha512 holds |
| DecisionReasons.BuildDecisionReason | src/AAL/process/buildDecisionReason.ts:38-69 | BLOCK records the block threshold and WARN and ALLOW the warn threshold; action, score and hasThreats are copied; the detection count is the signal's; the threat-count sentence is present exactly when the signal has threats; the sentence kind follows the action |
| LineageEntries.CreateLineageEntry | src/csl/value-objects/LineageEntry.ts:20-33 | a blank step is refused first, then a negative or non-finite timestamp; an entry is created exactly when neither applies, with the step trimmed (so non-blank) and the timestamp unchanged |
| LineageEntries.ZeroTimestampAccepted | src/csl/value-objects/LineageEntry.ts:25-31 | a timestamp of 0 is accepted and stored |
| TrustLevels.CreateTrustLevel | src/csl/value-objects/TrustLevel.ts:13-18 | exactly the strings TC, STC and UC are accepted, and the stored value is the one named; any other string is refused and reported |
| TrustLevels.CreateTrustLevelRoundTrip | src/csl/value-objects/TrustLevel.ts:13-18 | creating a trust level from an enum value's name gives that value back |
| TrustLevels.ExactlyOneTrustClass | src/csl/value-objects/TrustLevel.ts:23-33 | exactly one of isTrusted, isSemiTrusted and isUntrusted holds |
| Origins.AllOriginTypesComplete | src/csl/value-objects/Origin.ts:13-18 | the list of enum values the constructor accepts holds every origin type |
| Origins.CreateOrigin | src/csl/value-objects/Origin.ts:13-18 | a name is accepted exactly when it is one of the eight origin type names, and the origin created has that type; any other name is refused and reported |
| Origins.ExternalOrigins | src/csl/value-objects/Origin.ts:23-52 | isExternal holds exactly when isNetworkFetched or isInjected does, and no origin is both DOM and external |
| OriginMap.MissingOriginTypes | src/csl/value-objects/Origin-map.ts:41-42 | the filtered list holds exactly the listed origin types the table has no entry for |
| OriginMap.ValidateOriginMap | src/csl/value-objects/Origin-map.ts:40-50 | validation passes exactly when every origin type has an entry; a failure names only missing types, and at least one |
| OriginMap.OriginMapIsComplete | src/csl/value-objects/Origin-map.ts:15-50 | validation passes for the shipped table |
| OriginMap.OriginMapTrust | src/csl/value-objects/Origin-map.ts:15-33 | all eight origin types are mapped; only SYSTEM_GENERATED is TC; exactly DOM_VISIBLE and DOM_ATTRIBUTE are STC; USER, DOM_HIDDEN, SCRIPT_INJECTED, NETWORK_FETCHED and UNKNOWN are UC |
| ResolveAgentAction.ActionForScore | src/AAL/process/resolveAgentAction.ts:29-40 | BLOCK exactly when the score reaches the block threshold, WARN exactly when it lies in [warn, block), ALLOW exactly when it is below both |
| ResolveAgentAction.ResolveBands | src/AAL/process/resolveAgentAction.ts:25-41 | under a policy with 0 <= warn < block <= 1, the three actions are exactly the bands [block, ...), [warn, block) and below warn |
| ResolveAgentAction.ActionMonotone | src/AAL/process/resolveAgentAction.ts:31-40 | raising the score never lowers the action in the order ALLOW < WARN < BLOCK |
| ResolveAgentAction.DefaultThresholdExamples | src/AAL/process/resolveAgentAction.ts:32-40 | with warn 0.3 and block 0.7, scores 0.2, 0.3, 0.5, 0.7, 0.8 give ALLOW, WARN, WARN, BLOCK, BLOCK (both boundaries inclusive), and these thresholds agree with the action derived from a detection score |
| ResolveAgentAction.ResolveAgentActionWithScore | src/AAL/process/resolveAgentAction.ts:50-56 | the result is accepted exactly when the signal's score is in [0, 1], and then pairs that score with the resolved action |
| ValidatePolicy.ValidateAgentPolicyThresholds | src/AAL/process/validatePolicy.ts:21-48 | passes exactly when both thresholds are numbers with 0 <= warn < block <= 1; missing or non-number thresholds are the type errors; otherwise a warn outside [0, 1] fails first, then a block outside [0, 1], then warn >= block |
| ValidatePolicy.EqualThresholdsRejected | src/AAL/process/validatePolicy.ts:43-47 | equal warn and block thresholds are rejected |
| ValidatePolicy.CheckThresholdsAsWritten | src/AAL/process/validatePolicy.ts:32-47 | on JavaScript numbers the three checks as written pass exactly when each threshold is NaN or in [0, 1], and warn < block when both are finite |
| ValidatePolicy.NaNThresholdsPass | src/AAL/process/validatePolicy.ts:29-47 | NaN thresholds, which are of type number but not in [0, 1], pass the checks as written |
| ValidatePolicy.CheckThresholds | src/AAL/process/validatePolicy.ts:12-15 | the intended checks pass exactly when both thresholds are numbers in [0, 1] with warn < block; a NaN warn fails the first check |
| ValidatePolicy.ChecksAgreeOnNumbers | src/AAL/process/validatePolicy.ts:32-47 | on finite numbers the checks as written, the intended checks and ValidateAgentPolicyThresholds agree |
| IslTypes.AllDetectionsAppend | src/isl/process/emitSignal.ts:50-54 | flattening a concatenation of segment lists concatenates the flattened detections, so segment order is kept |
| IslTypes.AllDetectionsMembers | src/isl/process/emitSignal.ts:50-54 | a detection is in the flattened list exactly when some segment carrying a detection result holds it |
| EmitSignal.NormalizeOptions | src/isl/process/emitSignal.ts:44-45 | a bare number stands for the options with that timestamp and nothing else; an options object is kept |
| EmitSignal.SignalRiskScore | src/isl/process/emitSignal.ts:57-61 | the risk score lies in [0, 1] and is 0 when there are no detections |
| EmitSignal.EmitSignal | src/isl/process/emitSignal.ts:40-65 | succeeds exactly when the timestamp in force (given, else now) is non-negative; the signal carries that timestamp, the aggregate of the flattened detections, hasThreats exactly when there are detections, and the normalised score of the chosen calculator (0 without detections) |
| EmitSignal.StrategyNotRecorded | src/isl/process/emitSignal.ts:63-64 | as written, the strategy is not recorded: without detections a severity-plus-volume signal equals the max-confidence one |
| EmitSignal.EmitRecordedSignal | src/isl/process/emitSignal.ts:38-64 | the documented behaviour: the same signal, with metadata.strategy the strategy in force (MAX_CONFIDENCE by default) |
| EmitSignal.RecordedStrategyDistinguishes | src/isl/process/emitSignal.ts:38 | with the metadata, signals scored by different strategies differ |
| EmitSignal.NoDetectionsNoRisk | src/isl/process/emitSignal.ts:50-61 | when no segment carries a detection the risk score is 0 and there are no threats, whatever the strategy |
| EmitSignal.DefaultStrategyIsMaxConfidence | src/isl/process/emitSignal.ts:31-61 | without a strategy option the score is the normalised maximum confidence |
| EmitSignal.NumericArgumentIsTimestamp | src/isl/process/emitSignal.ts:44-46 | a numeric second argument behaves exactly like options holding only that timestamp |
| Signals.CreateIslSignal | src/isl/signals.ts:78-103 | a non-finite score is refused first, then a score outside [0, 1]; the signal is created exactly when the score is finite in [0, 1] and the timestamp finite and non-negative, and then copies score, detection result and timestamp, with hasThreats equal to the result's detected flag |
| Signals.ZeroTimestampAccepted | src/isl/signals.ts:93-95 | a timestamp of 0 is accepted |
| Signals.ExactlyOneSignalBand | src/isl/signals.ts:112-141 | with the default thresholds 0.3 and 0.7 every signal is in exactly one of the low, medium and high bands |
| RiskScores.CreateRiskScore | src/isl/value-objects/RiskScore.ts:41-53 | a non-finite value is refused as not finite; otherwise the score is created exactly when the value lies in [0, 1], unchanged, and a value outside is refused with that value |
| RiskScores.NormalizeRiskScore | src/isl/value-objects/RiskScore.ts:61-67 | the result is always in [0, 1]: 0 for a non-finite value, the value itself inside the range, the nearer bound outside it |
| RiskScores.NormalizeIdempotent | src/isl/value-objects/RiskScore.ts:61-67 | normalising an already normalised score leaves it unchanged |
| RiskScores.NormalizeAgreesWithCreate | src/isl/value-objects/RiskScore.ts:41-67 | wherever the strict constructor accepts a value the normaliser returns the same value, and the constructor accepts every normalised value |
| RiskScores.ExactlyOneRiskBand | src/isl/value-objects/RiskScore.ts:76-105 | for ordered low and high thresholds every score is in exactly one of the low, medium and high bands |
| RiskScoreCalculators.Strategy | src/isl/riskScore/types.ts:9-13 | each calculator carries its own registered strategy name, and the three names tell the calculators apart |
| RiskScoreCalculators.MaxOf | src/isl/riskScore/calculators.ts:15 | the maximum of a non-empty list is one of its elements and no element exceeds it |
| RiskScoreCalculators.EmptyScoresZero | src/isl/riskScore/calculators.ts:13-42 | every calculator scores an empty detection list 0 |
| RiskScoreCalculators.MaxConfidenceIsMaximum | src/isl/riskScore/calculators.ts:11-17 | max-confidence returns the confidence of some detection and no detection has a larger one |
| RiskScoreCalculators.SeverityBounds | src/isl/riskScore/calculators.ts:20-27 | severity-plus-volume is the maximum confidence plus 0.1 per detection beyond the first, capped at 1, and never below max-confidence when that is at most 1 |
| RiskScoreCalculators.WeightedIsCappedMaximum | src/isl/riskScore/calculators.ts:33-44 | weighted-by-type is at most 1, at least every detection's capped weighted confidence (weight 1 for an unlisted type), and equal to one of them |
| RiskScoreCalculators.DefaultWeightIsOne | src/isl/riskScore/calculators.ts:47-53 | under the default weight table every pattern type weighs 1 |
| RiskScoreCalculators.DefaultWeightedEqualsMax | src/isl/riskScore/calculators.ts:47-57 | with the default weights and confidences of at most 1, weighted-by-type scores exactly as max-confidence does |
| RiskScoreCalculators.GetCalculator | src/isl/riskScore/index.ts:28-44 | a registered strategy name yields the calculator of that name, weighted-by-type with the supplied weights or the default table when none are given, and any other name yields max-confidence |
| PiDetections.CreatePiDetection | src/isl/value-objects/PiDetection.ts:16-72 | a blank pattern type is refused first; a detection is created exactly when the type is not blank, the matched text is non-empty, the offsets are finite with 0 <= start < end, the confidence is finite in [0, 1] and the text's length equals end - start; it then holds the trimmed type and the given text, offsets and confidence |
| PiDetections.DetectionLengthPositive | src/isl/value-objects/PiDetection.ts:77-79 | a constructed detection's length is positive and equals the length of its matched text |
| PiDetections.ExactlyOneConfidenceBand | src/isl/value-objects/PiDetection.ts:81-91 | every detection is in exactly one of the high, medium and low confidence bands |
| PiDetectionResults.Clamp01 | src/isl/value-objects/PiDetectionResult.ts:36 | the clamped value is in [0, 1] and a value already inside is unchanged |
| PiDetectionResults.CalculateAggregatedScore | src/isl/value-objects/PiDetectionResult.ts:18-37 | the loop returns 0 for no detections, the sole confidence for one, and otherwise 1 minus the product of the complements of all confidences, clamped into [0, 1] |
| PiDetectionResults.ProductBounds | src/isl/value-objects/PiDetectionResult.ts:30-33 | multiplying by a factor in [0, 1] keeps the running product in [0, 1] and below both factors |
| PiDetectionResults.ComplementProductBounds | src/isl/value-objects/PiDetectionResult.ts:30-33 | with confidences in [0, 1] the complementary product is in [0, 1] and at most the complement of each confidence |
| PiDetectionResults.AggregatedScoreBounds | src/isl/value-objects/PiDetectionResult.ts:18-37 | with confidences in [0, 1] the aggregated score is in [0, 1] and at least every single confidence |
| PiDetectionResults.DetermineActionFromScore | src/isl/value-objects/PiDetectionResult.ts:42-50 | BLOCK exactly from 0.7, WARN exactly on [0.3, 0.7), ALLOW exactly below 0.3 |
| PiDetectionResults.PatternTypes | src/isl/value-objects/PiDetectionResult.ts:84 | one pattern type per detection, in the detections' order, duplicates kept |
| PiDetectionResults.CreatePiDetectionResult | src/isl/value-objects/PiDetectionResult.ts:55-95 | the result is built exactly when no action is supplied or the supplied one equals the action derived from the aggregated score; an unknown action name is refused as invalid; a built result keeps the detections and is consistent (score, derived action, patterns, detected iff non-empty) |
| PiDetectionResults.HasDetectionsIffCount | src/isl/value-objects/PiDetectionResult.ts:100-109 | for a constructed result, hasDetections holds exactly when the count is positive |
| PiDetectionResults.DetectionsByType | src/isl/value-objects/PiDetectionResult.ts:111-116 | the filtered list holds exactly the detections of the given type and is no longer than the input |
| PiDetectionResults.DetectionsByTypeAppend | src/isl/value-objects/PiDetectionResult.ts:111-116 | filtering a concatenation is the concatenation of the filtered parts, so relative order is kept |
| PiDetectionResults.HighestConfidence | src/isl/value-objects/PiDetectionResult.ts:118-128 | none exactly for no detections; otherwise a detection whose confidence no other exceeds, and the first such one, since every earlier detection has a strictly lower confidence |
| Patterns.CreatePattern | src/isl/value-objects/Pattern.ts:82-112 | a blank pattern type is refused first; a pattern is created exactly when the type is not blank, the regex is a non-empty string or a RegExp, the base confidence is finite in [0, 1], a given description is a non-blank string, the source is at most 10000 characters and a string source compiles; it then holds the trimmed type, the confidence, the trimmed description (empty when absent), and the source compiled with flag `i` or the RegExp's own source and flags |
| Patterns.MatchesFrom | src/isl/value-objects/Pattern.ts:171-180 | the scan never returns more matches than its remaining budget, and none when the budget is spent |
| Patterns.MatchesFromShape | src/isl/value-objects/Pattern.ts:172-179 | each match's position starts at a non-negative offset and spans exactly its text, and only the last match can be zero-width |
| Patterns.MatchesFromUnfold | src/isl/value-objects/Pattern.ts:171-180 | one turn of the scan: no further match ends it; a match is kept, and the scan goes on after it unless it is zero-width |
| Patterns.MatchesFromSound | src/isl/value-objects/Pattern.ts:140-148 | with a sound regex engine the matches lie inside the content, in increasing order without overlap, each one's text being the content at its position |
| Patterns.FoundMatches | src/isl/value-objects/Pattern.ts:149-164 | empty content is refused first and content over 10000000 characters next, and nothing else is refused; a budget of 0 or less finds nothing, and otherwise at most the budget is returned, every position spanning its text |
| Patterns.FoundMatchesSound | src/isl/value-objects/Pattern.ts:139-182 | with a sound regex engine every match returned lies inside the content, in increasing order without overlap, each one's text being the content at its position |
| Patterns.FindAllMatches | src/isl/value-objects/Pattern.ts:149-182 | the exec loop returns exactly the specified scan: the same errors, the same matches in the same order, stopping at the budget, at no further match or after a zero-width match |
| Patterns.ScanNext | src/isl/value-objects/Pattern.ts:171-180 | one exec turn adds at most one match, and what is kept plus what the rest of the scan would find equals what the scan from the old cursor finds |
| Patterns.MatchesPattern | src/isl/value-objects/Pattern.ts:117-129 | empty and over-long content are refused as by findAllMatches; otherwise the answer is whether the engine finds a match from offset 0 |
| Patterns.FindMatch | src/isl/value-objects/Pattern.ts:184-210 | empty and over-long content are refused; otherwise the first match, if any, whose position spans its text |
| Patterns.FindMatchIsFirstOfAll | src/isl/value-objects/Pattern.ts:117-210 | the three queries refuse the same contents; matchesPattern is true exactly when findMatch finds something, and that is exactly the first match findAllMatches returns with a positive budget |
| Detect.ThreatTypesDistinct | src/isl/detect/detect.ts:19-25 | the taxonomy has five pairwise distinct, non-empty identifiers |
| Detect.DetectionOfFromPattern | src/isl/detect/detect.ts:394-401 | a detection built from a match of a pattern is valid and carries the pattern's trimmed type and its base confidence |
| Detect.DetectionOfSucceeds | src/isl/detect/detect.ts:394-401 | a non-empty match of a valid pattern whose position spans its text always becomes a detection |
| Detect.AddMatches | src/isl/detect/detect.ts:392-403 | the inner loop only appends, at most one detection per match, and stops at the total cap when it starts below it; it fails only when a match cannot become a detection |
| Detect.AddMatchesFromPattern | src/isl/detect/detect.ts:392-403 | every detection the inner loop appends comes from the pattern being scanned |
| Detect.DetectFrom | src/isl/detect/detect.ts:387-404 | the outer loop only appends, never holds more than the total cap when it starts within it, and never reports the content as not a string |
| Detect.DetectFromStep | src/isl/detect/detect.ts:388-403 | one pattern step: a scan error is the result, otherwise the inner loop's failure or the loop continuing from the detections it produced, with the per-pattern cap the smaller of maxPerPattern and what is left of the total |
| Detect.Detections | src/isl/detect/detect.ts:365-384 | a non-string content is refused and nothing else is refused as such; empty content, a non-positive total or no patterns give no detections; the result never exceeds the effective total min(maxTotal, 10000) |
| Detect.DetectionsBounded | src/isl/detect/detect.ts:369-372 | the result never exceeds 10000 detections, and never 2000 when no total is given |
| Detect.DetectFromFromPatterns | src/isl/detect/detect.ts:387-404 | every appended detection is valid, so not zero-width, and carries the type and base confidence of one of the patterns |
| Detect.AddMatchesInContent | src/isl/detect/detect.ts:392-403 | matches lying in the content become detections whose text is the content at their position |
| Detect.DetectFromInContent | src/isl/detect/detect.ts:387-404 | with a sound regex engine every detection's text is the content at its position |
| Detect.AddMatchesSucceeds | src/isl/detect/detect.ts:392-403 | with a valid pattern and matches that span their text, the inner loop never fails |
| Detect.DetectFromSucceeds | src/isl/detect/detect.ts:387-404 | with valid patterns and content of 1 to 10000000 characters the outer loop never fails |
| Detect.DetectionsSound | src/isl/detect/detect.ts:365-406 | on a string of allowed length with valid patterns, detectThreats does not throw, every detection comes from one of the patterns and, with a sound engine, lies in the content |
| Detect.NonEmptyMatches | src/isl/detect/detect.ts:393 | the matches that become detections: none zero-width, no more than the scan found |
| Detect.AddMatchesBlock | src/isl/detect/detect.ts:392-402 | starting below the total cap, the inner loop appends exactly min(non-empty matches, room left) detections, the j-th built from the j-th non-empty match |
| Detect.DetectFromOrder | src/isl/detect/detect.ts:386-405 | the outer loop appends one block per pattern in the patterns' order; each block is, one for one and in scan order, the detections of that pattern's non-empty matches from a scan capped at min(maxPerPattern, maxTotal - held), cut at maxTotal, and never longer than that cap; nothing is appended once maxTotal is held |
| Detect.DetectionsInPatternOrder | src/isl/detect/detect.ts:356-405 | on non-empty content detectThreats reports pattern by pattern in the patterns' order, each pattern's detections built from its non-empty matches in scan order, each pattern within min(maxPerPattern, what is left of the total) |
| Detect.AddMatchDetections | src/isl/detect/detect.ts:392-403 | the inner for-loop, with its skip of zero-width matches and its break at the total cap, computes exactly the specified inner loop |
| Detect.ScanPatterns | src/isl/detect/detect.ts:386-405 | the outer for-loop, with its break at the total cap and its remaining-budget computation, computes exactly the specified outer loop |
| Detect.DetectThreats | src/isl/detect/detect.ts:365-406 | detectThreats returns exactly the specified result, errors included |
| Lineage.AddLineageEntry | src/shared/lineage.ts:18-23 | the new lineage is one longer, keeps the old entries in place and ends with the added one |
| Lineage.AddLineageEntries | src/shared/lineage.ts:28-33 | the new lineage keeps the old entries in place and continues with all the added ones in order |
| Lineage.AddLineageEntriesUnits | src/shared/lineage.ts:18-33 | adding no entries changes nothing, and adding a one-entry list is adding that entry |
| Lineage.FilterLineageByStep | src/shared/lineage.ts:38-43 | an entry is kept exactly when it is in the lineage with the given step, and the result is no longer than the lineage |
| Lineage.FilterAppend | src/shared/lineage.ts:38-43 | filtering a concatenation is concatenating the filtered parts, so kept entries stay in lineage order |
| Lineage.FilterIdempotent | src/shared/lineage.ts:38-43 | filtering twice by the same step is filtering once |
| Lineage.GetLastLineageEntry | src/shared/lineage.ts:48-52 | absent exactly for an empty lineage, otherwise its last entry |
| Lineage.LastOfAdded | src/shared/lineage.ts:18-52 | after adding an entry, the last entry is the one added |
| IslLineage.BuildIslLineage | src/isl/lineage/buildISLLineage.ts:25-31 | succeeds exactly for a finite, non-negative timestamp; the previous lineage is kept and followed by one "ISL" entry with that timestamp |
| AalLineage.BuildAalLineage | src/AAL/lineage/buildAALLineage.ts:25-31 | succeeds exactly for a finite, non-negative timestamp; the previous lineage is kept and followed by one "AAL" entry with that timestamp |
| LineageEntries.CapitalStepValid | src/isl/lineage/buildISLLineage.ts:29 | a step made of capital letters, such as "ISL" or "AAL", is not blank and is its own trim, so the entry constructor keeps it as given |
| CslUtils.LastNewline | src/csl/utils.ts:26 | the index of the last newline of the text, with no newline after it, or -1 when there is none |
| CslUtils.SplitLines | src/csl/utils.ts:26 | at least one piece, and no piece contains a newline |
| CslUtils.SplitLinesJoin | src/csl/utils.ts:26 | joining the pieces with newlines gives the content back |
| CslUtils.NonBlankTrimmed | src/csl/utils.ts:27-28 | trimming and dropping blank lines never adds pieces |
| CslUtils.SplitByContextRules | src/csl/utils.ts:19-22 | empty content gives no pieces |
| CslUtils.TrimmedLineClean | src/csl/utils.ts:27 | trimming a non-blank line without newlines gives a non-empty piece with no whitespace at either end and no newline |
| CslUtils.NonBlankTrimmedPieces | src/csl/utils.ts:27-28 | every kept piece is clean, and the pieces are exactly the trimmed forms of the non-blank lines |
| CslUtils.NonBlankTrimmedClean | src/csl/utils.ts:27-28 | every kept piece is non-empty, has no whitespace at either end and no newline |
| CslUtils.NonBlankTrimmedMember | src/csl/utils.ts:27-28 | a piece is kept exactly when it is the trimmed form of some non-blank line |
| CslUtils.SplitByContextRulesPieces | src/csl/utils.ts:19-29 | every piece is clean, and for non-empty content the pieces are exactly the trimmed non-blank lines of the content |
| CslUtils.SingleLine | src/csl/utils.ts:19-29 | content without a newline is one piece, its trimmed self, unless it is blank, when there are none |
| CpeUtils.IndexedLine | src/cpe/utils.ts:13 | the line is "[", the index in decimal, "]:" and then exactly the segment's content |
| CpeUtils.IndexedLines | src/cpe/utils.ts:12-13 | one indexed line per segment, in segment order, each carrying its own index |
| CpeUtils.SerializeContent | src/cpe/utils.ts:11-15 | no segments serialise to the empty string |
| CpeUtils.SerializeContentSnoc | src/cpe/utils.ts:11-15 | serialising one more segment appends a newline (none before the first) and that segment's indexed line |
| CpeUtils.MetadataParts | src/cpe/utils.ts:32-44 | the timestamp, nonce and version parts come first in that order, then a csl part exactly when the csl signature is present and non-empty, then an isl part exactly when the isl signature is |
| CpeUtils.SerializeMetadata | src/cpe/utils.ts:23-47 | the pushes onto the parts list give exactly those parts joined with "\|" |
| CpeUtils.MetadataWithoutSignatures | src/cpe/utils.ts:23-47 | without previous signatures the serialisation is "timestamp:…\|nonce:…\|version:…" |
| CpeUtils.GenerateSignableContent | src/cpe/utils.ts:58-64 | the metadata comes first, then the separator, then the content, and the text ends with the algorithm name, each piece at its fixed offset |
| CpeUtils.SignableContentInjective | src/cpe/utils.ts:58-64 | with the same metadata and algorithm, two signable texts are equal exactly when their contents are |
| EnvelopeMetadata.CreateMetadataWithDefault | src/shared/envelope/value-objects/Metadata.ts:22-52 | a non-positive timestamp is refused first, then one more than five minutes past the clock reading; metadata is created exactly when the timestamp is in (0, now + 300000] and the given version, or the default when none is given, is a non-empty string; it then carries timestamp, nonce value, that version and the previous signatures |
| EnvelopeMetadata.CreateMetadata | src/shared/envelope/value-objects/Metadata.ts:12-52 | the envelope copy accepts exactly a timestamp in (0, now + 300000] with no version or a non-empty string version, refuses an empty version as invalid, and defaults the version to "0.1.4" |
| EnvelopeMetadata.CreatedValidIffLongNonce | src/shared/envelope/value-objects/Metadata.ts:57-66 | created metadata passes isValidMetadata exactly when its nonce has at least 16 characters |
| EnvelopeMetadata.FutureWindowEdge | src/shared/envelope/value-objects/Metadata.ts:32-35 | a timestamp exactly five minutes ahead of the clock is accepted and one millisecond more is refused as in the future |
| CpeMetadata.CreateMetadata | src/cpe/value-objects/Metadata.ts:12-60 | the CPE copy accepts exactly a timestamp in (0, now + 300000] with no version or a non-empty string version, and defaults the version to "1.0.0" |
| CpeMetadata.AgreesWithEnvelope | src/cpe/value-objects/Metadata.ts:24-60 | the CPE and envelope copies accept the same inputs and, when a version is given, return the same metadata |
| PolicyRules.CreatePolicyRule | src/isl/value-objects/PolicyRule.ts:34-93 | a missing or blank version is refused first; a policy is created exactly when the version is a non-blank string, the four lists are arrays, both configs are objects and the three flags are booleans; it then holds the trimmed version and copies of every list and flag |
| PolicyRules.QueriesMatchInputs | src/isl/value-objects/PolicyRule.ts:98-116 | on a policy created from a non-blank version, each membership query holds exactly when the value is in the list it was created from, and the leak-prevention query answers the enabled flag |
| PolicyRules.RecreateIsIdentity | src/isl/value-objects/PolicyRule.ts:81-92 | re-creating a policy from the fields of a created one gives the same policy |
| Sanitize.SanitizationLevelOf | src/isl/sanitize.ts:73-77 | minimal exactly for trusted content, moderate exactly for semi-trusted, aggressive exactly for untrusted |
| Sanitize.SanitizeContent | src/isl/sanitize.ts:82-92 | at every level the content comes back unchanged and nothing is reported removed |
| Sanitize.IslEntry | src/isl/sanitize.ts:44 | the entry has step "ISL" and the clock reading as its timestamp |
| Sanitize.IslEntryCreated | src/isl/sanitize.ts:44 | creating the "ISL" entry at any non-negative clock reading never fails and gives a valid entry |
| Sanitize.SanitizedSegment | src/isl/sanitize.ts:25-48 | the sanitized segment keeps id, trust and content as both original and sanitized content, extends its lineage with one "ISL" entry, takes the level of its trust, and has no detection, no anomaly score and no removed instructions |
| Sanitize.Sanitized | src/isl/sanitize.ts:17-68 | one sanitized segment per input segment in order; the run's lineage is kept and followed by one "ISL" entry per segment; the totals count the segments and the blocked and removed counters are 0 |
| Sanitize.SanitizeResult | src/isl/sanitize.ts:17-68 | the loop over the segments, pushing segments, appending each segment's newest entry to the run's lineage and summing removed instructions, returns exactly the specified result |
| Sanitize.SanitizeSegment | src/isl/sanitize.ts:24-55 | one turn of the loop yields the specified sanitized segment, its newest lineage entry is the "ISL" entry, and no instruction is removed |
| Sanitize.SanitizedPrefix | src/isl/sanitize.ts:23-56 | the first n segments, sanitized, are n segments |
| Sanitize.SegmentEntriesMatchRunLineage | src/isl/sanitize.ts:51-54 | each segment's newest lineage entry is the entry the pass appends to the run's lineage at that segment's position, and it is a valid "ISL" entry |
| Sanitize.SanitizePreservesContent | src/isl/sanitize.ts:17-68 | the pass changes no content and loses no segment: contents and ids carry over, the totals equal the segment count, and the run's "ISL" entries are the earlier ones followed by one per segment |
| Sanitize.AllIslKept | src/shared/lineage.ts:38-43 | filtering a run of "ISL" entries by the "ISL" step keeps them all |
| ThreatTags.TagTypeExamples | src/isl/tags/tag-registry.ts:13-22 | every taxonomy identifier is a valid tag type and there are five; the empty string, "prompt_injection" and "PROMPT-INJECTION" are not |
| ThreatTags.CreateThreatTag | src/isl/tags/threat-tag.ts:35-64 | a missing or blank segment id is refused first; a tag is created exactly when the id is a non-blank string, the start offset is finite and non-negative, the end offset finite and not before it, the type registered and the confidence finite in [0, 1]; it then holds the trimmed id and the given offsets, type and confidence |
| ThreatTags.ZeroLengthTagAccepted | src/isl/tags/threat-tag.ts:45-56 | a tag whose end equals its start is accepted, at confidence 0 and at confidence 1 |
| ThreatTags.OpenTag | src/isl/tags/serializer.ts:25-27 | the opening tag is "<", the namespace "aipip", ":", the tag type and ">" |
| ThreatTags.CloseTag | src/isl/tags/serializer.ts:35-37 | the closing tag is "</", the namespace "aipip", ":", the tag type and ">" |
| ThreatTags.WrapWithTag | src/isl/tags/serializer.ts:47-49 | the wrapped text is the opening tag, then the content unchanged, then the closing tag |
| ThreatTags.StripTag | src/isl/tags/serializer.ts:47-49 | whatever stripping returns wraps back to the text it was taken from |
| ThreatTags.StripWrap | src/isl/tags/serializer.ts:47-49 | stripping a wrapped content gives the content back |
| ThreatTags.WrapInjective | src/isl/tags/serializer.ts:25-49 | wrapping with one tag type is injective in the content, and the opening tag determines the tag type |
| ThreatTags.OpenIsNotClose | src/isl/tags/serializer.ts:25-37 | no opening tag is a closing tag |
| ThreatTags.WrapEmpty | src/isl/tags/serializer.ts:47-49 | wrapping the empty string gives the two tags back to back |
| BuildRemovalPlan.ToInstruction | src/AAL/process/buildRemovalPlan.ts:25-36 | the instruction carries the detection's pattern type, matched text and position, a description of type and confidence, and the segment id exactly when one is given |
| BuildRemovalPlan.RemovalEnabled | src/AAL/process/buildRemovalPlan.ts:49-57 | the policy is refused exactly when its removal settings or their enabled flag are missing or not a boolean; otherwise the answer is that flag |
| BuildRemovalPlan.SignalInstructions | src/AAL/process/buildRemovalPlan.ts:88-90 | one instruction per detection, in order, none with a segment id |
| BuildRemovalPlan.BuildRemovalPlan | src/AAL/process/buildRemovalPlan.ts:73-96 | refused exactly when the removal flag is not a boolean; disabled gives the empty disabled plan; no threats or no detections give the empty enabled plan; otherwise one instruction per detection in order; shouldRemove holds exactly when there are instructions |
| BuildRemovalPlan.SegmentInstructionsShape | src/AAL/process/buildRemovalPlan.ts:128-130 | a segment yields one instruction per detection, in order, each carrying the segment's id |
| BuildRemovalPlan.SegmentIds | src/AAL/process/buildRemovalPlan.ts:125-129 | one id per segment, in segment order |
| BuildRemovalPlan.ResultInstructionsShape | src/AAL/process/buildRemovalPlan.ts:124-131 | there is one instruction per detection of all segments, instruction k describes flattened detection k, and each carries the id of one of the segments |
| BuildRemovalPlan.ResultInstructionsAppend | src/AAL/process/buildRemovalPlan.ts:124-131 | instructions follow segment order: the instructions of concatenated segment lists are the concatenated instructions |
| BuildRemovalPlan.BuildRemovalPlanFromResult | src/AAL/process/buildRemovalPlan.ts:115-137 | the nested loop is refused exactly when the removal flag is not a boolean, gives the empty disabled plan when disabled, and otherwise all segments' instructions in order with shouldRemove exactly when there are any |
| BuildRemediationPlan.PatternTypeToGoal | src/AAL/process/buildRemediationPlan.ts:26-29 | the goal is `remove_` followed by the pattern type with each `-` turned into `_` and each other character lower-cased, character for character |
| BuildRemediationPlan.GoalShape | src/AAL/process/buildRemediationPlan.ts:27 | no goal contains a hyphen |
| BuildRemediationPlan.GoalsOf | src/AAL/process/buildRemediationPlan.ts:75-84 | the goal set holds no duplicates and holds exactly the goals of the detections' pattern types |
| BuildRemediationPlan.InsertSorted | src/AAL/process/buildRemediationPlan.ts:93 | insertion adds exactly the one element |
| BuildRemediationPlan.InsertSortedSorted | src/AAL/process/buildRemediationPlan.ts:93 | inserting a new element into a strictly increasing list keeps it strictly increasing |
| BuildRemediationPlan.SortStrings | src/AAL/process/buildRemediationPlan.ts:93 | sorting is a permutation |
| BuildRemediationPlan.SortStringsSorted | src/AAL/process/buildRemediationPlan.ts:93 | sorting a duplicate-free list gives a strictly increasing list |
| BuildRemediationPlan.TargetSegments | src/AAL/process/buildRemediationPlan.ts:77-80 | at most one target per segment, and no targets exactly when no segment has a detection |
| BuildRemediationPlan.TargetSegmentsMembers | src/AAL/process/buildRemediationPlan.ts:77-80 | an id is targeted exactly when some segment with that id carries a detection |
| BuildRemediationPlan.TargetedInSnoc | src/AAL/process/buildRemediationPlan.ts:77-80 | a segment list targets an id exactly when its prefix does or its last segment has that id and a detection |
| BuildRemediationPlan.RemediationEnabled | src/AAL/process/buildRemediationPlan.ts:49-52 | refused exactly when the remediation settings or their enabled flag are missing or not a boolean; otherwise the answer is that flag |
| BuildRemediationPlan.SortedGoals | src/AAL/process/buildRemediationPlan.ts:93 | the plan's goals are strictly increasing and are exactly the goals of the detections' types |
| BuildRemediationPlan.GoalsOfStep | src/AAL/process/buildRemediationPlan.ts:83 | adding a detection adds its goal at the end unless the set already holds it |
| BuildRemediationPlan.AddGoals | src/AAL/process/buildRemediationPlan.ts:81-84 | the inner loop leaves the goal set of all detections seen so far |
| BuildRemediationPlan.SegmentPrefixStep | src/AAL/process/buildRemediationPlan.ts:77-85 | one more segment adds its detections and, when it has any, its id |
| BuildRemediationPlan.BuildRemediationPlan | src/AAL/process/buildRemediationPlan.ts:64-98 | a non-boolean flag is refused first, then bad thresholds even when disabled; disabled or without detections gives the empty plan; otherwise the sorted goals, the default constraints and the targeted segments, with needsRemediation set |
| ApplyRemovalPlan.CoveredAppend | src/AAL/process/applyRemovalPlan.ts:33 | an offset is covered by a list with one more range exactly when the list or the new range covers it |
| ApplyRemovalPlan.SeparatedIsIncreasing | src/AAL/process/applyRemovalPlan.ts:86-87 | non-empty, non-overlapping, non-touching ranges are strictly increasing: each ends before every later one starts |
| ApplyRemovalPlan.ClampedRanges | src/AAL/process/applyRemovalPlan.ts:18-30 | clamping yields no more ranges than given, all non-empty and inside [0, len], and none at all when the content is empty |
| ApplyRemovalPlan.ClampRangesToContent | src/AAL/process/applyRemovalPlan.ts:18-30 | the loop clamps each range into the content and keeps those that stay non-empty, in order |
| ApplyRemovalPlan.ClampedCoverage | src/AAL/process/applyRemovalPlan.ts:14-17 | the clamped ranges cover exactly the covered offsets that lie inside the content |
| ApplyRemovalPlan.InsertByStart | src/AAL/process/applyRemovalPlan.ts:37 | insertion adds exactly the one range |
| ApplyRemovalPlan.InsertByStartSorted | src/AAL/process/applyRemovalPlan.ts:37 | inserting into a list sorted by start keeps it sorted by start |
| ApplyRemovalPlan.SortByStart | src/AAL/process/applyRemovalPlan.ts:37 | the sort is a permutation and its result is sorted by start |
| ApplyRemovalPlan.SortedCoverage | src/AAL/process/applyRemovalPlan.ts:37 | sorting does not change which offsets are covered |
| ApplyRemovalPlan.SortedKeepsShape | src/AAL/process/applyRemovalPlan.ts:37 | sorting keeps ranges non-empty and inside the content |
| ApplyRemovalPlan.MergeStep | src/AAL/process/applyRemovalPlan.ts:42-46 | a merge step never empties the merged list |
| ApplyRemovalPlan.MergedRanges | src/AAL/process/applyRemovalPlan.ts:35-49 | merging yields a non-empty list exactly for non-empty input, no longer than the input, with the ranges separated (none overlaps or touches the next) |
| ApplyRemovalPlan.MergedRangesStep | src/AAL/process/applyRemovalPlan.ts:39-47 | merging one more sorted range is one step of the merge loop |
| ApplyRemovalPlan.MergeRanges | src/AAL/process/applyRemovalPlan.ts:35-49 | the method sorts by start and then merges as the merge loop specifies |
| ApplyRemovalPlan.MergedShape | src/AAL/process/applyRemovalPlan.ts:35-49 | on sorted input, merged ranges stay non-empty and inside the content, and the last merged range starts no later than the last input range |
| ApplyRemovalPlan.MergeStepCoverage | src/AAL/process/applyRemovalPlan.ts:42-46 | a merge step covers exactly what the merged list covered plus the new range |
| ApplyRemovalPlan.MergedCoverage | src/AAL/process/applyRemovalPlan.ts:33-34 | merging sorted ranges covers exactly the offsets the input covers |
| ApplyRemovalPlan.OnlyPunctuationIff | src/AAL/process/applyRemovalPlan.ts:54-57 | a text passes the punctuation check exactly when each of its characters is whitespace or one of `.,;:!?'"-` |
| ApplyRemovalPlan.FuseStep | src/AAL/process/applyRemovalPlan.ts:70-81 | a fusing step ends the list at the new range's end and keeps its first start |
| ApplyRemovalPlan.FusedRanges | src/AAL/process/applyRemovalPlan.ts:63-84 | fusing yields no more ranges than given, with the same first start and last end |
| ApplyRemovalPlan.FusedUpTo | src/AAL/process/applyRemovalPlan.ts:68-82 | after n turns the fused list has between 1 and n ranges, from the first start to the n-th end |
| ApplyRemovalPlan.FusedShort | src/AAL/process/applyRemovalPlan.ts:67 | a list of at most one range is returned as it is |
| ApplyRemovalPlan.FusedUpToNext | src/AAL/process/applyRemovalPlan.ts:68-82 | the loop starts from the first range and each turn is one fusing step |
| ApplyRemovalPlan.FusedWhole | src/AAL/process/applyRemovalPlan.ts:68-83 | the loop ends with the whole list fused |
| ApplyRemovalPlan.MergeAdjacentByPunctuation | src/AAL/process/applyRemovalPlan.ts:63-84 | the method computes the fused ranges |
| ApplyRemovalPlan.FuseNext | src/AAL/process/applyRemovalPlan.ts:70-81 | the loop body stretches the last range over a gap of 1 to 10 punctuation or whitespace characters and otherwise appends the range |
| ApplyRemovalPlan.CoveredBelowStep | src/AAL/process/applyRemovalPlan.ts:33 | the first n ranges cover an offset exactly when the first n-1 do or the n-th does |
| ApplyRemovalPlan.InFusedGapBelowStep | src/AAL/process/applyRemovalPlan.ts:72-79 | an offset lies in a fused gap among the first n ranges exactly when it does among the first n-1 or in the fused gap before the n-th |
| ApplyRemovalPlan.FuseStepShape | src/AAL/process/applyRemovalPlan.ts:70-81 | a fusing step keeps ranges separated and non-empty and leaves no fusable gap |
| ApplyRemovalPlan.StretchLastShape | src/AAL/process/applyRemovalPlan.ts:77 | stretching the last range keeps the ranges separated and non-empty with no fusable gap |
| ApplyRemovalPlan.AppendShape | src/AAL/process/applyRemovalPlan.ts:81 | appending past a gap that cannot be fused keeps the ranges separated and non-empty with no fusable gap |
| ApplyRemovalPlan.FusedShape | src/AAL/process/applyRemovalPlan.ts:59-62 | on separated non-empty input, fused ranges are separated and non-empty, stay inside the content, and leave no gap that could still be fused |
| ApplyRemovalPlan.FusedUpToShape | src/AAL/process/applyRemovalPlan.ts:68-82 | the fusing loop keeps that shape after every turn |
| ApplyRemovalPlan.FuseStepCoverage | src/AAL/process/applyRemovalPlan.ts:70-81 | a fusing step covers what was covered, the new range, and the gap before it exactly when that gap is fused |
| ApplyRemovalPlan.FusedUpToCoverageStep | src/AAL/process/applyRemovalPlan.ts:69-82 | each turn keeps the loop's coverage invariant |
| ApplyRemovalPlan.FusedCoverage | src/AAL/process/applyRemovalPlan.ts:59-62 | fused ranges cover exactly the input's offsets plus the fused gaps |
| ApplyRemovalPlan.FusedFirstCoverage | src/AAL/process/applyRemovalPlan.ts:68 | before its first turn the loop covers exactly the first range |
| ApplyRemovalPlan.FusedUpToCoverage | src/AAL/process/applyRemovalPlan.ts:68-82 | after n turns the loop covers exactly the first n ranges plus their fused gaps |
| ApplyRemovalPlan.KeptPrefix | src/AAL/process/applyRemovalPlan.ts:89-99 | the kept characters among the first n are at most n |
| ApplyRemovalPlan.Kept | src/AAL/process/applyRemovalPlan.ts:89-99 | removal never lengthens the content |
| ApplyRemovalPlan.KeptUncovered | src/AAL/process/applyRemovalPlan.ts:94 | an uncovered stretch is kept verbatim |
| ApplyRemovalPlan.KeptCovered | src/AAL/process/applyRemovalPlan.ts:95 | a covered stretch contributes nothing |
| ApplyRemovalPlan.RemoveRanges | src/AAL/process/applyRemovalPlan.ts:89-99 | on well-formed ranges sorted by start, the loop keeps exactly the characters no range covers, in order |
| ApplyRemovalPlan.RemoveNext | src/AAL/process/applyRemovalPlan.ts:93-96 | one turn keeps the text up to the range's start and moves the position to the larger of itself and the range's end |
| ApplyRemovalPlan.UncoveredGap | src/AAL/process/applyRemovalPlan.ts:94 | with sorted ranges, nothing between the position and the next range's start is covered |
| ApplyRemovalPlan.CoveredStretch | src/AAL/process/applyRemovalPlan.ts:95 | offsets inside a range are covered |
| ApplyRemovalPlan.UncoveredTail | src/AAL/process/applyRemovalPlan.ts:97 | past every range's end nothing is covered |
| ApplyRemovalPlan.KeptNothing | src/AAL/process/applyRemovalPlan.ts:90 | with no ranges the content is returned unchanged |
| ApplyRemovalPlan.KeptLength | src/AAL/process/applyRemovalPlan.ts:89-99 | removal shortens the content by exactly the number of covered offsets |
| ApplyRemovalPlan.CoveredCountPositive | src/AAL/process/applyRemovalPlan.ts:89-99 | a covered offset makes the covered count positive |
| ApplyRemovalPlan.SeparatedIsSorted | src/AAL/process/applyRemovalPlan.ts:86-87 | separated non-empty ranges are sorted by start, as removal requires |
| ApplyRemovalPlan.FinalRangesShape | src/AAL/process/applyRemovalPlan.ts:147-151 | the ranges finally removed are sorted, separated, non-empty, inside the content and leave no fusable gap; there are none exactly when clamping leaves none |
| ApplyRemovalPlan.FusedGapIsPunctuation | src/AAL/process/applyRemovalPlan.ts:74-79 | every offset in a fused gap is inside the content and holds punctuation or whitespace |
| ApplyRemovalPlan.GapCharacter | src/AAL/process/applyRemovalPlan.ts:75-76 | each character of a gap that passes the check is punctuation or whitespace |
| ApplyRemovalPlan.FinalCoverage | src/AAL/process/applyRemovalPlan.ts:147-151 | an offset is removed exactly when the plan covers it inside the content or it lies in a fused gap, and anything removed beyond the plan is punctuation or whitespace |
| ApplyRemovalPlan.RedactedLength | src/AAL/process/applyRemovalPlan.ts:147-151 | the new content is shorter by exactly the number of removed offsets, and strictly shorter whenever some planned range overlaps the content |
| ApplyRemovalPlan.RedactSegment | src/AAL/process/applyRemovalPlan.ts:143-152 | only the segment's sanitized content may change, and the segment is unchanged when no planned range overlaps its content |
| ApplyRemovalPlan.RangesFor | src/AAL/process/applyRemovalPlan.ts:133-138 | a segment gets no ranges exactly when no instruction names it |
| ApplyRemovalPlan.RangesForMembers | src/AAL/process/applyRemovalPlan.ts:133-138 | a position is planned for a segment exactly when some instruction names that segment with that position |
| ApplyRemovalPlan.BuildRangeMap | src/AAL/process/applyRemovalPlan.ts:132-138 | the map holds exactly the ids some instruction names, each with its positions in plan order |
| ApplyRemovalPlan.RedactedSegments | src/AAL/process/applyRemovalPlan.ts:142-153 | one output segment per input segment |
| ApplyRemovalPlan.RedactedSegmentsStep | src/AAL/process/applyRemovalPlan.ts:142-153 | the segments are redacted one by one, in order |
| ApplyRemovalPlan.AppliedPlanNoOp | src/AAL/process/applyRemovalPlan.ts:128-140 | the result is the input when removal is off, the plan is empty or no instruction names a segment |
| ApplyRemovalPlan.AppliedPlanPreserves | src/AAL/process/applyRemovalPlan.ts:116-124 | segment count, order and every field but the sanitized content are kept, as are lineage and metadata; an unaddressed segment is unchanged; an addressed one holds the redacted content |
| ApplyRemovalPlan.EmptyMapNoSegmentIds | src/AAL/process/applyRemovalPlan.ts:140 | an empty map means no instruction names a segment |
| ApplyRemovalPlan.ApplyToSegment | src/AAL/process/applyRemovalPlan.ts:142-153 | the callback redacts one segment as specified |
| ApplyRemovalPlan.ApplyRemovalPlan | src/AAL/process/applyRemovalPlan.ts:125-160 | the method returns the applied plan: the input when nothing applies, otherwise each segment redacted with the ranges addressed to it |
| BuildRemovalPlan.ResultInstructionsSnoc | src/AAL/process/buildRemovalPlan.ts:125-130 | one more segment appends its own instructions after those of the earlier segments |
| SharedTypes.ParseAction | src/isl/value-objects/AnomalyScore.ts:19 | a name is accepted exactly when it is `ALLOW`, `WARN` or `BLOCK`, and an accepted name is the wire name of the action read |
| SharedTypes.ActionNameRoundTrip | src/isl/types.ts:18 | every action's wire name reads back as that action, so the three names are distinct |

## Left out

- The regular-expression engine is not modelled. It is an oracle `engine(regex, content, from)` that returns the first match at or after `from`, and the proofs that need it assume only that its matches lie inside the content. `findMatch` and `matchesPattern` query it from offset 0. The `lastIndex` state that a `RegExp` with the `g` flag carries between calls is not modelled.
- Regular-expression syntax errors in `createPattern` are not modelled. Whether a source string compiles is a boolean parameter.
- The 287 default detection patterns in src/isl/detect/detect.ts are not transcribed. `detectThreats` takes the default corpus as a parameter. The module-level cache of compiled default patterns is left out because it does not change results.
- JavaScript numbers are not modelled as IEEE doubles. Confidences, scores, thresholds and weights are mathematical reals, so rounding in `1 − Π(1 − cᵢ)` and in the weighted sums is not modelled. Non-finite values are kept only where the source tests `Number.isFinite`.
- ValidatePolicy.ValidateAgentPolicyThresholds: the policy record holds thresholds as reals. It cannot carry the NaN thresholds that the source's `typeof` test lets through, so it agrees with the intended checks. The NaN case is modelled separately in `CheckThresholdsAsWritten` (see Findings).
- Strings are sequences of Unicode scalar values, and offsets, positions and lengths count characters. The source counts UTF-16 code units. Content with characters outside the Basic Multilingual Plane therefore has different offsets in the model, and a range that splits a surrogate pair cannot be expressed.
- Offsets, lengths and timestamps are integers. Fractional or NaN offsets passed through `Number(...)` in `clampRangesToContent` are not modelled.
- The human-readable text is kept abstract: the reason sentences of `buildDecisionReason` and the removal-instruction descriptions are datatypes carrying their inputs. `toFixed` formatting is not modelled.
- `localeCompare` in `buildRemediationPlan` is modelled as lexicographic order of character codes. A locale-specific collation can order some strings differently.
- `toLowerCase` is modelled for ASCII letters only, in content hashes and remediation goals.
- `sanitize` reads the clock once per segment in the source. The model takes one `now` for the whole call.
- Checks that reject arguments which are not objects or not arrays (a null ISL result, policy, plan or signal, or a non-array `segments` or `instructionsToRemove`) are left out. The Dafny types rule those values out. Checks on fields that may be missing or of the wrong type are modelled.
- A detection's `pattern_type ?? 'unknown'` fallback in `buildRemediationPlan` is left out, because every modelled detection has a pattern type. A segment's `sanitizedContent ?? ''` fallback in `applyRemovalPlan` is left out for the same reason.
- `Object.freeze` and object identity are not modelled. "Returns the input" is value equality.
- The following are not part of this model:
  - segmentation (`src/csl/segment.ts`);
  - `generateId` in src/csl/utils.ts and lineage initialisation;
  - the audit helpers (`src/shared/audit.ts`);
  - nonces, signatures and envelope signing with their cryptography;
  - the demo and test scripts.

## Findings

| source | as written | input that shows it | evidently intended | confidence | as-written member | corrected member |
|---|---|---|---|---|---|---|
| src/isl/process/emitSignal.ts:63-64 | `emitSignal` passes `{ strategy }` as a fourth argument to `createISLSignal`, which takes three and builds a signal without it | any result, e.g. one without detections scored by `severity-plus-volume`: the signal equals the `max-confidence` one | the returned signal's `metadata.strategy` is the strategy used, as the documentation at line 38 says | medium, not executed | EmitSignal.StrategyNotRecorded | EmitSignal.EmitRecordedSignal |
| src/AAL/process/validatePolicy.ts:29-47 | the range checks are `warn < 0 \|\| warn > 1`, `block < 0 \|\| block > 1` and `warn >= block`, all false for NaN | `{ warn: NaN, block: NaN }` passes, and every score then resolves to ALLOW | only thresholds with 0 <= warn < block <= 1 pass, as the documentation at lines 12-15 says | high, not executed | ValidatePolicy.NaNThresholdsPass | ValidatePolicy.CheckThresholds |
