# Morning Reflection content-safety core, in Dafny

This project models the part of the Morning Reflection service that checks
model-generated reflections before they are emailed, and proves properties
of that model. Each Dafny module follows one component of the service:

- `Config` and `Settings`: `SecurityConfig` and its dotted-key `get`. They
  read the security settings, or the built-in defaults, into a typed
  `SecuritySettings` record.
- `Sanitizer`: `ContentSanitizer.sanitize` and its four ordered steps.
  These remove control characters, remove zero-width characters,
  normalise whitespace and cap newline runs; a final `strip` follows.
- `Patterns` and `Checks`: the four rule checks. They are the
  malicious-pattern detector, the URL detector, the length validator and
  the character validator. The default regular expressions are written as
  matchers over strings, with the case folding of Python's `re`.
- `Validator`: `SecurityValidator.validate_and_sanitize`. It sanitises the
  text first, then runs the four checks on the result.
- `ResponseStats`, `Anomaly` and `Policy`: `ResponseAnalyzer.analyze`, the
  z-score `AnomalyDetector` with its stored history of at most 100
  samples, `ContentPolicyValidator` and `OutputValidator`.
- `Audit`: `ContentRedactor` and the append-only `SecurityLogger`.
- `Alerting`: `SecurityAlertManager`, its SNS routing table and its summary.
- `Email`: the email formatter, covering HTML escaping, paragraphs, the
  plain-text body, the subject and content validation.
- `Subscribers`: `SubscriberManager`. It is a pending / active /
  unsubscribed state machine over a table keyed by the normalised address.
- `Api`: the request helpers of the journaling API.
- `Text` and `Counting`: Python's string built-ins (`split`, `strip`,
  `lower`, `join`, `in`, `str`) and dictionary counting. The modules above
  are written with these.

The source's stateful objects are classes whose fields the methods update:

- `Anomaly.AnomalyDetector`, where the stored history is a field.
- `Audit.SecurityLogger`, with its entries and its audit-log store.
- `Alerting.SnsAlerting` and `Alerting.SecurityAlertManager`, with their
  history, metrics and published messages.
- `Subscribers.SubscriberManager`, whose table is a `map`.

Each method is proved against a specification function, and the lemmas
state the promised properties of those functions. The source's loops are
methods with loop invariants. Sanitisation, the pattern and URL collectors,
the topic loop, the metric loop, the summary counters, the required-field
loop and the bulk import are examples.

## Model

| member | source | states |
|---|---|---|
| Config.GetValue | lambda/security.py:88-97 | the lookup loop over the dotted path computes `Get`, the specification of `SecurityConfig.get` |
| Config.WalkFoundPath | lambda/security.py:92-94 | a path present along every key is followed to the value at its end |
| Config.GetFound | lambda/security.py:88-97 | a key whose whole path is present with a non-`None` value returns that value |
| Config.WalkMissing | lambda/security.py:92-96 | a path that breaks off yields the (non-dictionary) default |
| Config.GetMissing | lambda/security.py:88-97 | a missing path returns the default |
| Config.GetIsDefaultIff | lambda/security.py:88-97 | `get` returns the default exactly when the path is missing, holds `None`, or holds the default itself |
| Config.DictionaryDefaultIsWalked | lambda/security.py:92-94 | a dictionary default is walked into by the following keys, as the loop does |
| Config.SettingLookup | lambda/security.py:88-97 | `section.name` with no dot in either part is the two-level lookup, with `None` replaced by the default |
| Settings.Typed | lambda/security.py:116-433 | the typed settings are `None` exactly when a numeric setting is not an integer (or a count is negative; the run limit may also be the decimal string of one), the URL source is not a string, or a pattern or domain setting is neither a string nor a list of strings; otherwise every number reads back as the integer written, each of the nine switches is its value's truthiness, the critical and suspicious patterns are the compiled sources, the URL pattern is its source compiled case-insensitively, the domains are the listed strings (the characters of a string) and the engine is the one given |
| Settings.StringPatternsAreCharacters | lambda/security.py:195-196 | a critical-pattern setting written as a string compiles each of its characters as a pattern |
| Settings.RunLimit | lambda/security.py:427-430 | the run limit is read exactly from a non-negative integer, or from a string that is the decimal spelling of one, which `str` turns into the same pattern and message |
| Settings.DecimalRunLimit | lambda/security.py:427-430 | a limit written as the decimal string of a number is read as that number, as the integer is |
| Settings.DefaultConfigRaw | lambda/security.py:59-86 | every lookup the checks make on the default configuration yields the value written there (sanitising and control-character removal on, the three critical sources, URL check on with 0 allowed and all blocked, limits 10000/2000/100/50) or the call's own default (invisible characters stripped, whitespace normalised, newline cap 3, URL source, no suspicious patterns or domains, character check on with run limit 50 and homoglyphs blocked) |
| Settings.DefaultRawTyped | lambda/security.py:59-86 | those values are well typed and give the default settings record |
| Settings.DefaultConfigSettings | lambda/security.py:59-86 | the default configuration yields the default settings (the three default critical patterns, no suspicious patterns, at most 0 URLs, block all URLs, limits 100-10000 chars and 50-2000 words, run limit 50, homoglyphs blocked, newline cap 3) |
| Sanitizer.RemoveControlChars | lambda/security.py:153-159 | the result is no longer than the text, and every kept character is of the text and is not in category C, or is `\n`, `\r` or `\t` |
| Sanitizer.RemoveInvisibleChars | lambda/security.py:161-173 | the replace loop over the six zero-width characters deletes exactly those characters |
| Sanitizer.DropOneMore | lambda/security.py:171-172 | deleting the characters one by one is deleting the whole list |
| Sanitizer.DropAppend | lambda/security.py:172 | deleting characters distributes over concatenation |
| Sanitizer.DropNothing | lambda/security.py:172 | a text without the characters is unchanged |
| Sanitizer.ControlThenInvisible | lambda/security.py:122-134 | the first two steps together keep, in order, exactly the characters that pass both filters |
| Sanitizer.RemoveControlCharsKeepsAll | lambda/security.py:153-159 | text without control characters is unchanged |
| Sanitizer.CollapseBlanks | lambda/security.py:178 | `[ \t]+` becomes one space: no tab and no double space remain, and nothing else is introduced |
| Sanitizer.CollapseBlanksKeepsTidy | lambda/security.py:178 | text without tabs or double spaces is unchanged |
| Sanitizer.ReplaceCrlf | lambda/security.py:180 | `\r\n` becomes `\n`, nothing new is introduced, and no tab or double space is created |
| Sanitizer.ReplaceCrlfWithoutCrlf | lambda/security.py:180 | text without `\r\n` is unchanged |
| Sanitizer.LineEnd | lambda/security.py:182 | the first line break, or the end of the text |
| Sanitizer.RStripLinesIsSplitJoin | lambda/security.py:182 | the line-by-line model equals `'\n'.join(line.rstrip() for line in text.split('\n'))` |
| Sanitizer.RStripLinesKeepsTidy | lambda/security.py:182 | text with no line ending in whitespace is unchanged |
| Sanitizer.NormalizeWhitespaceShape | lambda/security.py:175-183 | the result has no tab, no two adjacent spaces, no `\r\n` and no line ending in whitespace, is no longer than the text and adds only spaces |
| Sanitizer.NormalizeWhitespaceTidy | lambda/security.py:175-183 | normalised text is tidy |
| Sanitizer.NormalizeWhitespaceKeepsTidy | lambda/security.py:175-183 | normalisation leaves tidy text alone (it is idempotent) |
| Sanitizer.CapNewlines | lambda/security.py:146-148 | `re.sub('\n{n+1,}', '\n'*n)` is no longer than the text and keeps its first character |
| Sanitizer.CapNewlinesBoundsRuns | lambda/security.py:146-148 | after the cap no run of n+1 line breaks remains |
| Sanitizer.CapNewlinesKeepsShortRuns | lambda/security.py:147 | text without such a run is unchanged |
| Sanitizer.CapNewlinesKeepsTidy | lambda/security.py:146-148 | the cap keeps tidy text tidy |
| Sanitizer.CapNewlinesChars | lambda/security.py:148 | the cap introduces no character |
| Sanitizer.Sanitize | lambda/security.py:106-151 | the four steps in order, each recording its label only when it changed the length, the cap only when on and needed, then `strip` |
| Sanitizer.LimitNewlines | lambda/security.py:143-149 | the cap step runs only when the cap is non-zero and a long run is present, and records its label |
| Sanitizer.StepsShorten | lambda/security.py:119-149 | no step makes the text longer |
| Sanitizer.SanitizedShape | lambda/security.py:106-151 | the result is no longer than the input; when enabled it has no leading or trailing whitespace and no run of cap+1 line breaks |
| Sanitizer.FullySanitizedShape | lambda/security.py:106-151 | with every step on, the result is tidy, holds only kept characters, has no long newline run and is stripped |
| Sanitizer.CleanTextIsFixed | lambda/security.py:106-151 | text already in that shape is returned unchanged with no modification |
| Sanitizer.SanitizeIsIdempotent | lambda/security.py:106-151 | sanitising a sanitised text changes nothing and records no modification |
| Patterns.Compile | lambda/security.py:193-199 | the default sources compile to the built-in matchers; any other source stays a configured expression with its flag |
| Patterns.RegexFold | lambda/security.py:71-73 | the letter a character stands for under IGNORECASE: `A`-`Z` fold to `a`-`z`, the dotted capital I and the dotless i to `i`, the long s to `s`, the Kelvin sign to `k`; every other character only matches itself |
| Patterns.LongSScriptTag | lambda/security.py:71 | `<ſcript>` is a script tag |
| Patterns.LookAlikeIScheme | lambda/security.py:72 | `javascrıpt:` and `javascrİpt:` are `javascript:` schemes |
| Patterns.KelvinHandler | lambda/security.py:73 | `onKey=` written with the Kelvin sign is an event handler |
| Patterns.LongSWebAddress | lambda/security.py:265-266 | `httpſ://x` is a URL |
| Patterns.IndexOf | lambda/security.py:71 | the first `>` after `<script` that `[^>]*>` stops at |
| Patterns.SkipSpace | lambda/security.py:73 | `\s*` consumes exactly the whitespace that follows |
| Patterns.HandlerAt | lambda/security.py:73 | the first of `load`, `error`, `click`, `mouse`, `key` that matches under `re`'s case folding (which lets the Kelvin sign stand for `k` and the dotless or dotted i for `i`), or none |
| Patterns.WebPrefixAt | lambda/security.py:265-266 | `https://`, `http://` or `www.` matches under `re`'s case folding (the long s standing for `s`) with its length, or nothing does |
| Patterns.MatchAt | lambda/security.py:71-73 | a match of a built-in pattern at a position is non-empty and inside the text; letters are compared through `re`'s case folding |
| Patterns.ScanEmptyIff | lambda/security.py:222 | `findall` is empty exactly when no position starts a match |
| Patterns.FindAllEmptyIff | lambda/security.py:222-223 | `findall` of a built-in pattern is empty exactly when `search` fails |
| Patterns.ScanYieldsMatches | lambda/security.py:222 | every string `findall` returns is a match of the pattern in the text |
| Patterns.WebAddressMatch | lambda/security.py:265-266 | a URL match needs the prefix followed by a non-space, and runs to the next whitespace |
| Patterns.OnMouseOverIsNotMatched | lambda/security.py:73 | `onmouseover=` is not matched by the event-handler expression |
| Patterns.BareShortLinkIsNotAUrl | lambda/security.py:265-266 | a bare `bit.ly/x` is not a URL under the default expression |
| Checks.Take | lambda/security.py:224 | Python's `s[:n]`: a prefix, the whole list when short, `n` items when long |
| Checks.HitsEmptyIff | lambda/security.py:220-224 | no example is collected exactly when no critical pattern matches, and at most 3 come from each pattern |
| Checks.CollectHits | lambda/security.py:220-224 | the loop collects the first three matches of each pattern, in order |
| Checks.CheckPatterns | lambda/security.py:201-257 | the detector's method computes its specification |
| Checks.PatternCheckVerdict | lambda/security.py:211-256 | a critical match fails as CRITICAL with at most 3 examples per pattern; only suspicious matches give a passing WARNING; a disabled check passes as INFO |
| Checks.SuspiciousUrls | lambda/security.py:311-317 | exactly the URLs that mention a suspicious domain, case-insensitively |
| Checks.MentionsAny | lambda/security.py:314-317 | the inner domain loop decides whether a URL mentions one of the domains |
| Checks.CollectSuspicious | lambda/security.py:312-317 | the outer loop collects the suspicious URLs in order |
| Checks.CheckUrls | lambda/security.py:270-334 | the URL detector's method computes its specification |
| Checks.UrlCheckVerdict | lambda/security.py:280-333 | no URL passes as INFO; blocking all or too many fails as CRITICAL listing at most the first 5; otherwise a suspicious domain fails as WARNING listing exactly those URLs; the check passes exactly when INFO |
| Checks.BareShortLinkPassesUrlCheck | lambda/security.py:265-296 | a bare short link passes the URL check with the default expression |
| Checks.LengthCheckVerdict | lambda/security.py:342-398 | too many chars or words is CRITICAL, else too few chars or words is WARNING, else pass as INFO; the check blocks no pattern |
| Checks.EmptyTextIsTooShort | lambda/security.py:374-382 | empty text fails as too short, naming the minimum |
| Checks.CharacterCheckVerdict | lambda/security.py:406-450 | the check fails, always as WARNING, exactly when it is on and a long run of one character or (when blocked) a homoglyph occurs |
| Checks.BothCharacterIssues | lambda/security.py:426-443 | both issues are reported, joined by `; ` |
| Checks.LineBreaksAreNoRun | lambda/security.py:428 | `(.)` never matches a line break, so line breaks never form a run |
| Checks.LongRunMonotone | lambda/security.py:428-430 | a run too long for a larger limit is too long for a smaller one |
| Checks.RunThreshold | lambda/security.py:428-430 | n+1 equal characters form a run for limit n and n do not |
| Validator.CriticalFailures | lambda/security.py:521 | exactly the results that failed with CRITICAL severity |
| Validator.ValidateAndSanitize | lambda/security.py:490-540 | sanitises first, runs the length, pattern, URL and character checks on the sanitised text, in that order, and is safe exactly when no result failed as CRITICAL |
| Validator.ResultsSafeIff | lambda/security.py:507-524 | safety is: within the upper length limits, no critical pattern, and no URL that is blocked or over the limit |
| Validator.FourResults | lambda/security.py:515-524 | no critical failure among four results means none in any of them |
| Validator.EmptyTextSanitized | lambda/security.py:106-151 | empty text sanitises to empty text with no modification |
| Validator.EmptyTextIsSafe | lambda/security.py:490-540 | empty text is safe: too short is only a WARNING |
| Validator.PrintableTextIsClean | lambda/security.py:106-151 | printable ASCII text without spaces is left unchanged by the sanitiser |
| Validator.FoldsToItself | lambda/security.py:71-73 | ASCII text without upper-case letters matches itself case-insensitively |
| Validator.JavascriptSchemeMatches | lambda/security.py:72 | the built-in `javascript:` matcher finds the scheme |
| Validator.JavascriptSchemeIsUnsafe | lambda/security.py:490-540 | `javascript:` is unsafe whenever that pattern is a critical pattern |
| ResponseStats.MarkRunsCount | lambda/output_validator.py:71 | `[.!?]+` finds no run exactly when no mark occurs, and at most one run per character |
| ResponseStats.NonBlankStripped | lambda/output_validator.py:75 | the stripped non-blank pieces: never empty and no more than the pieces |
| ResponseStats.BlankParagraphs | lambda/output_validator.py:75 | blank pieces give no paragraph |
| ResponseStats.TotalLengthOfWords | lambda/output_validator.py:81 | the words are at least one character each |
| ResponseStats.LowerSetSize | lambda/output_validator.py:90-91 | the distinct lowered words are at most the words, and at least one when there are words |
| ResponseStats.AnalyzeBounds | lambda/output_validator.py:53-105 | char count is the length, word count the number of whitespace words, sentence and paragraph counts are at least 1 and at least the runs and paragraphs found; no words gives 0 averages, otherwise average word length at least 1 and 0 < unique ratio <= 1 |
| ResponseStats.BlankTextStatistics | lambda/output_validator.py:53-105 | blank text has no words, one sentence and one paragraph |
| Anomaly.KeepLast | lambda/output_validator.py:161-163 | `stats_list[-100:]` holds at most 100 entries |
| Anomaly.KeepLastAppend | lambda/output_validator.py:161-163 | appending then trimming keeps the newest entries in order, ends with the new sample, and drops only the oldest |
| Anomaly.Values | lambda/output_validator.py:217-224 | one value per stored sample |
| Anomaly.DeviationOf | lambda/output_validator.py:230-243 | a metric is compared only when its deviation is positive, and its z-score is not negative |
| Anomaly.DeviationsOf | lambda/output_validator.py:228-243 | exactly the deviations of the compared metrics |
| Anomaly.Flagged | lambda/output_validator.py:245-249 | no message exactly when no z-score exceeds the threshold |
| Anomaly.MaxZIsMaximum | lambda/output_validator.py:252-256 | the score bounds every z-score and, when there are any, equals one of them |
| Anomaly.ColdStart | lambda/output_validator.py:200-214 | a history shorter than `min_samples` gives no anomaly, score 0 and insufficient-data details |
| Anomaly.WarmPath | lambda/output_validator.py:216-270 | anomalous exactly when some compared metric's z-score exceeds the threshold; the score is the largest z-score, or 0 when none is compared |
| Anomaly.EmptyHistoryRaises | lambda/output_validator.py:200-233 | an empty history with `min_samples` <= 0 reaches `statistics.mean([])` and raises |
| Anomaly.AnomalyDetector.constructor | lambda/output_validator.py:110-121 | the detector keeps its bucket, threshold and the stored history |
| Anomaly.AnomalyDetector.LoadHistoricalStats | lambda/output_validator.py:123-152 | returns the stored history |
| Anomaly.AnomalyDetector.SaveHistoricalStats | lambda/output_validator.py:154-180 | stores only the newest 100 entries |
| Anomaly.AnomalyDetector.CompareMetrics | lambda/output_validator.py:228-249 | the metric loop computes the deviations and the messages of those over the threshold |
| Anomaly.AnomalyDetector.DetectAnomalies | lambda/output_validator.py:182-270 | the result is the detection specification, and every call that returns appends the current sample to the trimmed stored history |
| Policy.NestedPolicyIgnored | lambda/output_validator.py:288-317 | the dotted keys are never found in a nested configuration, so an enabled policy uses the defaults (1-10 paragraphs, no topics, both checks on) |
| Policy.StringTopicsAreCharacters | lambda/output_validator.py:307-310 | a `forbidden_topics` string is iterated character by character, each character a topic of its own |
| Policy.HashRun | lambda/output_validator.py:319 | the run of `#` from a position |
| Policy.HashRunExact | lambda/output_validator.py:319 | a run of exactly k hashes is the whole run |
| Policy.HeadingAtIff | lambda/output_validator.py:319 | the run-based heading test agrees with the backtracking match of `^#{1,6}\s` at a line start |
| Policy.TopicViolations | lambda/output_validator.py:307-314 | a topic is reported exactly when every one of its lowered keywords occurs in the lowered text |
| Policy.CollectTopicViolations | lambda/output_validator.py:307-314 | the topic loop computes the topic violations |
| Policy.KeywordsFound | lambda/output_validator.py:312-313 | the keyword loop decides whether every keyword occurs |
| Policy.ValidatePolicy | lambda/output_validator.py:278-328 | the validator's method computes its specification |
| Policy.ParagraphChecks | lambda/output_validator.py:294-304 | the paragraph block computes its violations |
| Policy.FormattingChecks | lambda/output_validator.py:317-324 | the formatting block computes its violations |
| Policy.PolicyCheckVerdict | lambda/output_validator.py:278-328 | an enabled policy is valid exactly when there is no violation; too few or too many paragraphs, each found topic, a heading and a backtick are reported exactly when they occur and their check is on |
| Policy.ParagraphPart | lambda/output_validator.py:294-304 | which paragraph messages are reported |
| Policy.CountPart | lambda/output_validator.py:298-304 | too few exactly under the minimum, too many exactly over the maximum |
| Policy.FormattingPart | lambda/output_validator.py:317-324 | the heading and code messages are reported exactly when found |
| Policy.ParagraphMessagesDiffer | lambda/output_validator.py:302-324 | the four fixed messages are distinct |
| Policy.TopicMessageDiffers | lambda/output_validator.py:314 | a topic message differs from the other messages |
| Policy.AnomalyIssues | lambda/output_validator.py:407-409 | one issue per anomaly, in order; each starts with `Anomaly: ` and removing that prefix gives the anomaly back |
| Policy.AnomaliesOnlyWarn | lambda/output_validator.py:386-427 | overall validity is the policy verdict whatever the anomaly result; anomalies only add `Anomaly: ` issues in front of the policy's |
| Policy.OutputValidator.constructor | lambda/output_validator.py:333-350 | the policy is read from the configuration, and a detector with the configured threshold exists exactly when detection is enabled |
| Policy.OutputValidator.Validate | lambda/output_validator.py:352-427 | statistics, then detection when asked and enabled with `min_samples` compared as a number (an int, a float through its ceiling, a bool as 0 or 1), then the policy, assembled as the source does; a raise in detection or the policy ends with no result; the stored history changes only when detection completes |
| Policy.SampleBound | lambda/output_validator.py:200 | a whole-number bound exists exactly for the numeric `min_samples` values (int, float, bool) that `len(history) < min_samples` accepts |
| Policy.Ceiling | lambda/output_validator.py:200 | the least integer not below a float |
| Policy.SampleBoundCompares | lambda/output_validator.py:200 | a history length is below a numeric `min_samples` exactly when it is below its whole-number bound |
| Alerting.FormatSubject | lambda/security_alerting.py:215-223 | the subject holds the severity and ends with the event type |
| Alerting.SnsAlerting.constructor | lambda/security_alerting.py:154-162 | the topic is the given one, or the environment's when none is given; nothing is published yet |
| Alerting.SnsAlerting.SendAlert | lambda/security_alerting.py:164-213 | with no topic, or a failed publish, returns False and publishes nothing; otherwise publishes one message with the formatted subject |
| Alerting.DefaultRouting | lambda/security_alerting.py:329-357 | without overrides, blocked, suspicious and anomaly events notify, validation failures do not, and other types notify exactly when WARNING or CRITICAL |
| Alerting.RoutingOverride | lambda/security_alerting.py:344-354 | a configured setting decides the four routed types |
| Alerting.OtherTypesBySeverity | lambda/security_alerting.py:356-357 | other types ignore the configuration and go by severity |
| Alerting.LastN | lambda/security_alerting.py:501 | `history[-n:]` is the newest min(n, len) events in order |
| Alerting.SummaryCounts | lambda/security_alerting.py:473-502 | the total is the history length, both count maps sum to it, and events are absent only for an empty history, otherwise the newest min(10, n) events |
| Alerting.SummaryTotals | lambda/security_alerting.py:487-498 | the count maps each sum to the number of events |
| Alerting.AlertSummaryStep | lambda/security_alerting.py:490-495 | one pass of the loop increments one severity and one type counter |
| Alerting.SecurityAlertManager.constructor | lambda/security_alerting.py:258-273 | an empty history, no metrics and a fresh SNS sender |
| Alerting.SecurityAlertManager.Alert | lambda/security_alerting.py:275-327 | disabled alerting changes nothing; enabled alerting appends exactly one event and one metric, and publishes to SNS exactly when routed, a topic exists and the publish succeeds |
| Alerting.SecurityAlertManager.AlertBlockedContent | lambda/security_alerting.py:359-383 | exactly what `alert` does for a CRITICAL `blocked_content` event with its message and details: nothing when alerting is off; otherwise the event is recorded, one datapoint is sent, and the event is published exactly when routed, a topic exists and the publish succeeds |
| Alerting.SecurityAlertManager.AlertSuspiciousContent | lambda/security_alerting.py:385-409 | exactly what `alert` does for a WARNING `suspicious_content` event: nothing when alerting is off; otherwise the event is recorded, one datapoint is sent, and the event is published exactly when routed, a topic exists and the publish succeeds |
| Alerting.SecurityAlertManager.AlertValidationFailure | lambda/security_alerting.py:411-428 | exactly what `alert` does for a WARNING `validation_failure` event carrying the results: nothing when alerting is off; otherwise the event is recorded, one datapoint is sent, and the event is published exactly when routed, a topic exists and the publish succeeds |
| Alerting.SecurityAlertManager.AlertAnomalyDetected | lambda/security_alerting.py:430-451 | exactly what `alert` does for a WARNING `anomaly_detected` event: nothing when alerting is off; otherwise the event is recorded, one datapoint is sent, and the event is published exactly when routed, a topic exists and the publish succeeds |
| Alerting.SecurityAlertManager.GetAlertSummary | lambda/security_alerting.py:473-502 | the counting loop computes the summary of the history |
| Alerting.WrapperEvents | lambda/security_alerting.py:359-451 | the wrappers' severities and default routing: blocked, suspicious and anomaly notify, validation failures do not |
| Audit.TruncateAndHash | lambda/security_logging.py:89-113 | a previewed field longer than 500 characters becomes exactly four keys: the preview (500 chars + `...`), the full length, the digest of the whole untruncated content and the truncated flag; anything else is unchanged |
| Audit.Redact | lambda/security_logging.py:59-87 | redaction keeps the key set |
| Audit.NotSensitive | lambda/security_logging.py:72-75 | a lower-case key missing a character of each pattern is not sensitive |
| Audit.PreviewKeysNotSensitive | lambda/security_logging.py:105-110 | the preview's own keys are not sensitive |
| Audit.RedactEntryIsClean | lambda/security_logging.py:69-86 | every redacted value is clean: sensitive keys hold `[REDACTED]`, no long previewed string remains, at any depth |
| Audit.RedactIsClean | lambda/security_logging.py:59-87 | redacted data is clean |
| Audit.CleanEntryIsFixed | lambda/security_logging.py:69-86 | redaction leaves clean values alone |
| Audit.RedactFixedIffClean | lambda/security_logging.py:59-87 | redaction changes nothing exactly when the data is clean, so it is idempotent |
| Audit.RedactEntryCases | lambda/security_logging.py:71-86 | a sensitive key is redacted before any recursion; other non-string, non-dictionary values are kept; dictionaries keep their keys |
| Audit.ApiKeyIsRedacted | lambda/security_logging.py:72-76 | `API_Key` is redacted whatever its case |
| Audit.CheckEntry | lambda/security_logging.py:149-193 | the entry carries the correlation id and the check name, its result is PASS exactly when passed, and its details are the redacted details |
| Audit.StartEntry | lambda/security_logging.py:195-225 | a `validation_start` entry with result STARTED |
| Audit.CompleteEntry | lambda/security_logging.py:227-265 | PASS and INFO exactly when passed; `issues_count` is the number of issues and at most the first 10 issues are kept |
| Audit.SanitizationEntry | lambda/security_logging.py:267-304 | MODIFIED exactly when there are modifications; `bytes_removed` is original minus sanitised length |
| Audit.AnomalyEntry | lambda/security_logging.py:306-341 | WARNING and ANOMALY_DETECTED exactly when anomalous |
| Audit.IncidentEntry | lambda/security_logging.py:343-381 | an INCIDENT entry whose evidence is redacted |
| Audit.SummaryTotals | lambda/security_logging.py:430-461 | the three count maps each sum to the number of entries |
| Audit.SummaryStep | lambda/security_logging.py:450-453 | one pass of the loop increments one counter of each map |
| Audit.SecurityLogger.constructor | lambda/security_logging.py:131-147 | the correlation id is the given non-empty one or a generated one; the log starts empty |
| Audit.SecurityLogger.LogSecurityCheck | lambda/security_logging.py:149-193 | appends exactly one check entry and keeps the earlier entries and the store |
| Audit.SecurityLogger.LogValidationStart | lambda/security_logging.py:195-225 | appends exactly one start entry |
| Audit.SecurityLogger.LogValidationComplete | lambda/security_logging.py:227-265 | appends exactly one completion entry |
| Audit.SecurityLogger.LogSanitization | lambda/security_logging.py:267-304 | appends exactly one sanitisation entry |
| Audit.SecurityLogger.LogAnomalyDetection | lambda/security_logging.py:306-341 | appends exactly one anomaly entry |
| Audit.SecurityLogger.LogSecurityIncident | lambda/security_logging.py:343-381 | appends exactly one incident entry |
| Audit.SecurityLogger.SaveAuditLog | lambda/security_logging.py:383-428 | no bucket returns False, no entries returns True without writing, a failed write returns False, and a write stores every entry with its count under the logger's id, each entry carrying that id (the logger's invariant, kept by every log call) |
| Audit.SecurityLogger.GetSummary | lambda/security_logging.py:430-461 | the counting loop computes the summary of the entries |
| Counting.Count | lambda/security_logging.py:450-453 | a key is counted exactly when it occurs |
| Counting.Tally | lambda/security_logging.py:450-453 | the counting loop's dictionary holds exactly the keys seen, with their counts |
| Counting.TallyStep | lambda/security_alerting.py:490-495 | counting one more key is one `counts[k] = counts.get(k, 0) + 1` |
| Counting.TotalRemove | lambda/security_logging.py:450-453 | the sum of the counts does not depend on which key is taken first |
| Counting.TotalIncrement | lambda/security_logging.py:450-453 | an increment adds one to the sum of the counts |
| Counting.TallyTotal | lambda/security_logging.py:450-457 | the counts add up to the number of keys counted |
| Email.Escape | lambda/email_formatter.py:34-37 | after `html.escape` no `<`, `>`, `"` or `'` remains, and nothing is shortened |
| Email.UnescapeStep | lambda/email_formatter.py:34-37 | each escaped character decodes back to itself |
| Email.EscapeRoundTrip | lambda/email_formatter.py:34-37 | escaping loses nothing: the escaped text decodes to the original |
| Email.JoinWords | lambda/email_formatter.py:252 | joining words with single spaces gives single-spaced text, empty only for no words |
| Email.CollapseShape | lambda/email_formatter.py:252 | a collapsed paragraph is single-spaced, and empty exactly when the block is blank |
| Email.ParagraphTexts | lambda/email_formatter.py:246-255 | the cleaned paragraphs are non-empty and single-spaced, one at most per block |
| Email.SameParagraphs | lambda/email_formatter.py:246-255 | there are as many as the statistics' non-blank paragraphs |
| Email.ParagraphElements | lambda/email_formatter.py:235-257 | one `<p>` per non-blank block, in order, each holding the escaped, collapsed paragraph |
| Email.EscapedHasNoTags | lambda/email_formatter.py:253-254 | escaped text opens no tag |
| Email.ItemTags | lambda/email_formatter.py:255 | a paragraph element opens exactly two tags |
| Email.JoinItemTags | lambda/email_formatter.py:257 | the joined elements open exactly two tags each |
| Email.ReflectionTags | lambda/email_formatter.py:235-257 | the formatted reflection opens exactly two tags per paragraph, so no tag comes from the text |
| Email.FillTags | lambda/email_formatter.py:40-184 | the tags of a filled page are the layout's and those of its slots |
| Email.PromptBlock | lambda/email_formatter.py:164-169 | the journaling-prompt block is present exactly when the prompt is non-empty |
| Email.LinkBlock | lambda/email_formatter.py:170-175 | the link block is present exactly when the link is non-empty |
| Email.PromptBlockTags | lambda/email_formatter.py:164-169 | the prompt block adds only its own tags, since the prompt is escaped |
| Email.LinkBlockTags | lambda/email_formatter.py:170-175 | the link block adds its own tags and those of the unescaped link |
| Email.HtmlTags | lambda/email_formatter.py:11-184 | the page's tags are the layout's, two per paragraph, and the optional blocks'; quote, attribution, theme and prompt add none |
| Email.StripFramed | lambda/email_formatter.py:232 | stripping removes the framing line breaks and nothing else |
| Email.PlainTextTrimmed | lambda/email_formatter.py:187-232 | the plain text starts with the divider and ends with the footer: the template's surrounding line breaks are trimmed |
| Email.EmailSubject | lambda/email_formatter.py:260-270 | the subject is the fixed prefix followed by the theme |
| Email.SubjectRoundTrip | lambda/email_formatter.py:260-270 | two subjects are equal exactly when their themes are |
| Email.EmailContentValidIff | lambda/email_formatter.py:273-300 | each part is present exactly when non-blank; valid exactly when quote and attribution are non-blank and the reflection has at least 200 words (the 500-word flag is not used) |
| Subscribers.KeyIdempotent | lambda/subscriber_manager.py:51 | normalising an address twice changes nothing |
| Subscribers.SubscriberManager.constructor | lambda/subscriber_manager.py:21-30 | the manager works on the given table |
| Subscribers.SubscriberManager.GetSubscriber | lambda/subscriber_manager.py:244-261 | the record stored under the normalised address, if any |
| Subscribers.CreateSpec | lambda/subscriber_manager.py:32-86 | an active address is refused and nothing changes; a pending one gets a new token and time; an unsubscribed one becomes pending with cleared dates and its old unsubscribe token; a new one is inserted pending with both tokens |
| Subscribers.FindByToken | lambda/subscriber_manager.py:263-285 | the first scanned record holding the token, or none when no scanned record holds it |
| Subscribers.ConfirmSpec | lambda/subscriber_manager.py:152-196 | an unknown token gives None and no change; an active record is returned unchanged; otherwise it becomes active with the time set and the token cleared |
| Subscribers.UnsubscribeSpec | lambda/subscriber_manager.py:198-242 | succeeds exactly when the stored unsubscribe token matches; then only status and time of that record change, otherwise nothing changes |
| Subscribers.CreateKeepsKeysNormalised | lambda/subscriber_manager.py:51 | creating writes only under a normalised key |
| Subscribers.UpdatesKeepKeys | lambda/subscriber_manager.py:152-242 | confirming and unsubscribing add no key |
| Subscribers.FindOnly | lambda/subscriber_manager.py:263-285 | the only record holding a token is the one found |
| Subscribers.SignUpThenConfirm | lambda/subscriber_manager.py:32-242 | a new sign-up confirmed with its token becomes active and can unsubscribe with its unsubscribe token |
| Subscribers.ResubscribeAfterUnsubscribe | lambda/subscriber_manager.py:117-150 | re-subscribing after unsubscribing gives a pending record with cleared dates |
| Subscribers.KeysAreNormalised | lambda/subscriber_manager.py:384 | every key the import computes is already normalised: normalising it again changes nothing |
| Subscribers.ImportOneSpec | lambda/subscriber_manager.py:383-415 | one import step keeps existing records, adds at most the new address, and counts each non-blank address once |
| Subscribers.ImportTotals | lambda/subscriber_manager.py:363-418 | created, skipped and failed add up to the non-blank addresses |
| Subscribers.ImportKeepsExisting | lambda/subscriber_manager.py:363-418 | existing records are untouched and the table grows by the created count |
| Subscribers.ImportAdds | lambda/subscriber_manager.py:363-418 | every added record is an imported address with the given status and source, confirmed exactly when imported active |
| Subscribers.CountStep | lambda/subscriber_manager.py:339-342 | counting one more record bumps its status's counter, if any |
| Subscribers.StatusCountsBound | lambda/subscriber_manager.py:324-361 | the three counters never exceed the records, and equal them when every status is known |
| Subscribers.SubscriberManager.UpdatePendingSubscriber | lambda/subscriber_manager.py:88-115 | a pending record gets a new confirmation token and creation time |
| Subscribers.SubscriberManager.ReactivateSubscriber | lambda/subscriber_manager.py:117-150 | an unsubscribed record becomes pending with a new token and cleared dates |
| Subscribers.SubscriberManager.CreateSubscriber | lambda/subscriber_manager.py:32-86 | the table and result are those of the create specification |
| Subscribers.SubscriberManager.ConfirmSubscriber | lambda/subscriber_manager.py:152-196 | the table and result are those of the confirm specification |
| Subscribers.SubscriberManager.Unsubscribe | lambda/subscriber_manager.py:198-242 | the table and result are those of the unsubscribe specification |
| Subscribers.SubscriberManager.GetActiveSubscribers | lambda/subscriber_manager.py:287-322 | exactly the active addresses, each once |
| Subscribers.SubscriberManager.GetSubscriberCountByStatus | lambda/subscriber_manager.py:324-361 | the loop counts the records of each status |
| Subscribers.SubscriberManager.ImportAddress | lambda/subscriber_manager.py:383-415 | one pass of the import loop |
| Subscribers.SubscriberManager.BulkImportSubscribers | lambda/subscriber_manager.py:363-418 | the import loop computes the import specification over the normalised addresses |
| Api.WithHeaders | lambda_api/api_utils.py:35-42 | the default headers, with the caller's headers overriding them |
| Api.ResponsesSpec | lambda_api/api_utils.py:19-90 | both responses carry the status code and the headers; the error body has the message and the status, and a code exactly when a non-empty code is given |
| Api.ClaimSpec | lambda_api/api_utils.py:93-141 | a claim is returned exactly when present along the whole path and non-empty |
| Api.UserIdSpec | lambda_api/api_utils.py:93-116 | the user id is the non-empty `sub` claim, otherwise None |
| Api.ParameterSpec | lambda_api/api_utils.py:174-211 | a parameter is the map lookup when present and not null; an absent or null map gives None |
| Api.ParseRequestBodySpec | lambda_api/api_utils.py:154-171 | a present, truthy body is decoded when it is a string (a decoded JSON `null` being Python's `None`, the absent result) and returned as it is otherwise; a missing or falsy body, or an event that is not a dictionary, gives `None` |
| Api.Missing | lambda_api/api_utils.py:228-232 | exactly the fields that are absent or `None`, no more than the fields |
| Api.MissingInOrder | lambda_api/api_utils.py:228-232 | the missing fields keep the given order |
| Api.MissingMessageSpec | lambda_api/api_utils.py:214-237 | no error exactly when every field is present and not `None`; otherwise the message lists the missing fields in order |
| Api.ValidateRequiredFields | lambda_api/api_utils.py:214-237 | the loop computes that message |
| Api.Digits2Value | lambda_api/api_utils.py:250-252 | two digits spell back their value |
| Api.FormatDateAccepted | lambda_api/api_utils.py:240-252 | every `YYYY-MM-DD` of the right widths is accepted, with no range check on month or day |
| Api.AcceptedDateFormats | lambda_api/api_utils.py:240-252 | every text of the shape `\d{4}-\d{2}-\d{2}` is such a date |
| Text.Words | lambda/security.py:353 | `split()` gives non-empty words without whitespace |
| Text.WordsOfBlank | lambda/email_formatter.py:289 | blank text has no words |
| Text.WordsEmptyOnlyIfBlank | lambda/email_formatter.py:289 | a non-space character gives at least one word |
| Text.Strip | lambda/security.py:151 | `strip()` is no longer than the text and neither starts nor ends with whitespace |
| Text.StripIsSlice | lambda/security.py:151 | `strip()` cuts a slice out of the text |
| Text.StripEmptyIffBlank | lambda/email_formatter.py:286-288 | the stripped text is empty exactly when the text is all whitespace |
| Text.LowerFixesLowerCase | lambda/output_validator.py:308 | `lower()` leaves text without upper-case letters alone |
| Text.LowerIsLowerCase | lambda/output_validator.py:308 | `lower()` yields lower-case text |
| Text.LowerIdempotent | lambda/output_validator.py:308 | lowering twice is lowering once |
| Text.ContainsFrom | lambda/security.py:315 | the left-to-right scan decides `sub in s` |
| Text.JoinSplit | lambda/security.py:182 | splitting and re-joining on the same separator gives back the text |
| Text.SplitPiecesFromText | lambda/security.py:182 | every piece of a split is made of characters of the text |
| Text.SplitPair | lambda/security.py:90 | a key `a.b` with no other dot splits into its two parts |
| Text.NatToStringRoundTrip | lambda/security.py:146 | `str(n)` reads back as `n` |
| Text.IntToStringRoundTrip | lambda/security.py:376-382 | `str(i)` is an optional minus sign followed by digits, and reads back as `i`, sign included |
| Text.IntToString | lambda/security.py:376-382 | `str(i)` is non-empty and starts with a minus sign exactly for negative numbers |

## Left out

- Reading the configuration file: `SecurityConfig.__init__` reads a file or falls back to the defaults. The model takes the loaded configuration as a value.
- `unicodedata.category`: a table parameter (`CategoryTable`) says which characters are of category C.
- Configured regular expressions: a source other than the four defaults is matched by an engine parameter. Only the default patterns have written-out matchers.
- Text.Lower: folds only the ASCII letters. Python's `lower()` also folds other scripts, so keyword and domain tests on non-ASCII text are not modelled exactly.
- Api.ValidateDateFormat: `\d` is limited to the ASCII digits. Python also accepts other Unicode decimal digits.
- Floating point:
  - the averages and ratios of `analyze` are exact `real` quotients;
  - `statistics.stdev` is a function parameter, and the mean is the exact average;
  - the message text of a flagged metric comes from a `describe` parameter, because its `:.2f` formatting is left out.
- Policy.PolicyOf: paragraph bounds that are not `int` (a float or a bool, say) give `Malformed`, which the validator treats as a raise; Python would compare them and print them in the message. A `forbidden_topics` dictionary, which Python iterates by its keys in insertion order, also gives `Malformed`, because the model's dictionaries carry no key order.
- Settings.Typed: gives no settings when a numeric limit is a float or a bool (Python compares it, and prints it in the check's message), when `max_consecutive_newlines` is negative (at -1 the pattern `\n{0,}` deletes every line break; below that the braces are literal) or when `max_consecutive_same_char` is negative (the braces of `(.)\1{-n,}` are literal). String-valued limits are outside the model too, except the decimal spelling of a run limit: for `max_consecutive_same_char` Python would also accept a string with leading zeros (`"05"`, same pattern, message `(>05)`) or one that is not a number (the braces are then literal), while for the other limits a string makes the comparison or `max_newlines + 1` raise a `TypeError` where it is reached. It also gives none when `malicious_patterns.patterns`, `malicious_patterns.suspicious_patterns` or `url_detection.suspicious_domains` is a dictionary, which Python iterates by its keys in insertion order; the model's dictionaries carry no key order. These configurations are outside the model.
- Tabs inside a line become spaces, as `_normalize_whitespace` is written.
- Dotted keys on plain dictionaries: `ContentPolicyValidator` and `OutputValidator` are modelled as written. Nested settings are therefore never found (Policy.NestedPolicyIgnored).
- Policy.OutputValidator.constructor requires the `anomaly_detection` section to be a dictionary, on whose `.get` the source would raise, and, when detection is on, the threshold to be a number or a bool. The source stores any threshold without checking it (output_validator.py:108-119 and 347-349). A non-numeric one raises only later, in `detect_anomalies`, when a metric with a positive standard deviation is compared with it (output_validator.py:245). Such configurations are outside the model: that delayed raise is not modelled.
- Alerting.SecurityAlertManager.Alert (and the four wrappers) require the `alerting` section to be a dictionary. The source would raise otherwise.
- Clocks, identifiers and digests are parameters:
  - `datetime.utcnow()` is a `now` parameter;
  - `uuid.uuid4()` is a `generated` parameter;
  - the correlation id is taken as given;
  - the environment's SNS topic is a parameter;
  - SHA-256 is a `Digest` function parameter, and `hash_content` is only that function;
  - the tokens of the subscriber manager are parameters.
- Amazon services:
  - S3 is an audit-log map and a stored-history field;
  - CloudWatch is a list of datapoints;
  - SNS is a list of publications;
  - DynamoDB is the subscriber table map;
  - the failures that are parameters are the SNS publish (`publishFails`), the audit-log write (`writeFails`) and the per-address failures of the bulk import (`failing`);
  - the other failures are not modelled: a CloudWatch `put_metric_data` error (the datapoint is always recorded), an S3 error saving the history (the stored history is always updated) and the DynamoDB errors of create, confirm, unsubscribe, get and scan;
  - the S3 read of the history is the stored field, whose absence or unreadable body is not modelled.
- `publish_validation_metrics` and `_format_message` are not modelled: they only build metric data and message text for the sinks.
- `json.loads` is the `decode` parameter of `Api.ParseRequestBody`; `json.dumps` is not modelled.
- The scan order of DynamoDB is a `scan` parameter. Only one page of a scan is modelled, so the `LastEvaluatedKey` paging loops are one pass.
- Subscribers.SubscriberManager.UpdatePendingSubscriber and Subscribers.SubscriberManager.ReactivateSubscriber require an existing key: they are only called for stored records.
- Subscribers.SubscriberManager.ImportAddress tests membership in the table directly, where the source calls `get_subscriber` on the already normalised address. The two agree because normalising is idempotent (Subscribers.KeyIdempotent).
- The order of dictionary keys is not modelled: maps are unordered.
- Email.HtmlTags: states the tag count over any layout; the magic link is not escaped by the source, so its own `<` characters are counted as they are.
- The fixed HTML and plain-text templates are modelled as literal strings. Their CSS and wording are not checked beyond the tag count and the trimming.
- `logger.*` calls, the `SecurityCheckResult.__post_init__` default and `to_dict` conversions are not modelled.
