/** `ContentPolicyValidator` and `OutputValidator`. Both read a plain
    dictionary; the settings under `content_policy.required_elements`,
    `content_policy.forbidden_topics` and the anomaly settings are looked up
    with dotted keys as single dictionary keys, exactly as written. */
module Policy {
  import opened Text
  import opened Config
  import opened ResponseStats
  import opened Anomaly

  // ---------------------------------------------------------------------
  // Settings

  datatype PolicySettings = PolicySettings(
    checkParagraphs: bool,
    minParagraphs: int,
    maxParagraphs: int,
    forbiddenTopics: seq<string>,
    checkFormatting: bool)

  /** The policy a configuration yields: switched off, switched on with its
      settings, or `Malformed` when `validate` would raise (a
      `content_policy` entry that is not a dictionary, a paragraph bound
      that is not an integer while the paragraph check is on, or a topic
      setting that is neither a string nor a list of strings). */
  datatype PolicyConfig = Disabled | Enabled(settings: PolicySettings) | Malformed

  const MinParagraphsKey: string := "content_policy.required_elements.min_paragraphs"
  const MaxParagraphsKey: string := "content_policy.required_elements.max_paragraphs"
  const ParagraphCheckKey: string := "content_policy.required_elements.check_paragraph_structure"
  const FormattingCheckKey: string := "content_policy.required_elements.check_formatting"
  const TopicsKey: string := "content_policy.forbidden_topics"

  /** A topic list written as a string is read character by character:
      each character is a topic of its own. */
  lemma StringTopicsAreCharacters(s: string)
    ensures StringItems(Str(s)).Some? && |StringItems(Str(s)).value| == |s|
    ensures forall i :: 0 <= i < |s| ==> StringItems(Str(s)).value[i] == [s[i]]
  {
  }

  /** The settings `ContentPolicyValidator.validate` reads from `cfg`. */
  function PolicyOf(cfg: map<string, Value>): PolicyConfig
  {
    var section := DictGet(cfg, "content_policy", Dict(map[]));
    if !section.Dict? then Malformed
    else if !Truthy(DictGet(section.entries, "enabled", Bool(true))) then Disabled
    else
      var checkParagraphs := Truthy(DictGet(cfg, ParagraphCheckKey, Bool(true)));
      var minP := DictGet(cfg, MinParagraphsKey, Int(1));
      var maxP := DictGet(cfg, MaxParagraphsKey, Int(10));
      var topics := StringItems(DictGet(cfg, TopicsKey, List([])));
      if (checkParagraphs && !(minP.Int? && maxP.Int?)) || topics.None? then Malformed
      else Enabled(PolicySettings(
        checkParagraphs,
        if minP.Int? then minP.i else 1,
        if maxP.Int? then maxP.i else 10,
        topics.value,
        Truthy(DictGet(cfg, FormattingCheckKey, Bool(true)))))
  }

  const DefaultPolicySettings: PolicySettings := PolicySettings(true, 1, 10, [], true)

  /** A configuration written as nested dictionaries (no key holds a dot)
      only decides whether the policy is on: every other setting takes its
      default, so nested `required_elements` or `forbidden_topics` are
      never honoured. */
  lemma NestedPolicyIgnored(cfg: map<string, Value>)
    requires forall k :: k in cfg ==> '.' !in k
    ensures var section := DictGet(cfg, "content_policy", Dict(map[]));
            PolicyOf(cfg) ==
              if !section.Dict? then Malformed
              else if !Truthy(DictGet(section.entries, "enabled", Bool(true))) then Disabled
              else Enabled(DefaultPolicySettings)
  {
    assert MinParagraphsKey[14] == '.' && MaxParagraphsKey[14] == '.';
    assert ParagraphCheckKey[14] == '.' && FormattingCheckKey[14] == '.' && TopicsKey[14] == '.';
    assert MinParagraphsKey !in cfg && MaxParagraphsKey !in cfg;
    assert ParagraphCheckKey !in cfg && FormattingCheckKey !in cfg && TopicsKey !in cfg;
  }

  // ---------------------------------------------------------------------
  // Markdown headings and code

  /** The number of `#` characters from index `i` on. */
  function HashRun(t: string, i: nat): (k: nat)
    requires i <= |t|
    ensures i + k <= |t|
    ensures forall j :: i <= j < i + k ==> t[j] == '#'
    ensures i + k < |t| ==> t[i + k] != '#'
    decreases |t| - i
  {
    if i < |t| && t[i] == '#' then 1 + HashRun(t, i + 1) else 0
  }

  /** Index `i` starts a line (`^` under MULTILINE). */
  predicate LineStart(t: string, i: nat)
  {
    i == 0 || (i <= |t| && t[i - 1] == '\n')
  }

  /** `#{1,6}\s` matches at the line start `i`; the whole run of `#` must be
      at most six long and be followed by whitespace, because a shorter
      prefix of the run is followed by another `#`. */
  predicate HeadingAt(t: string, i: nat)
  {
    i < |t| && LineStart(t, i) &&
    var k := HashRun(t, i);
    1 <= k <= 6 && i + k < |t| && IsSpace(t[i + k])
  }

  /** `k` hashes from `i` on, followed by whitespace. */
  predicate HashesThenSpace(t: string, i: nat, k: nat)
  {
    i + k < |t| && IsSpace(t[i + k]) && forall j :: i <= j < i + k ==> t[j] == '#'
  }

  /** What the expression `^#{1,6}\s` accepts at `i`, alternative by
      alternative: some `k` from 1 to 6 hashes followed by whitespace. */
  predicate HeadingRegexAt(t: string, i: nat)
  {
    LineStart(t, i) && exists k :: 1 <= k <= 6 && HashesThenSpace(t, i, k)
  }

  /** A run of exactly `k` hashes is the whole run. */
  lemma {:induction false} HashRunExact(t: string, i: nat, k: nat)
    requires i + k < |t| && t[i + k] != '#'
    requires forall j :: i <= j < i + k ==> t[j] == '#'
    ensures HashRun(t, i) == k
    decreases k
  {
    if k > 0 {
      HashRunExact(t, i + 1, k - 1);
    }
  }

  /** The backtracking match and the run-based test agree. */
  lemma HeadingAtIff(t: string, i: nat)
    requires i <= |t|
    ensures HeadingAt(t, i) <==> HeadingRegexAt(t, i)
  {
    var run := HashRun(t, i);
    if HeadingRegexAt(t, i) {
      var k :| 1 <= k <= 6 && HashesThenSpace(t, i, k);
      assert !IsSpace('#');
      HashRunExact(t, i, k);
    }
    if HeadingAt(t, i) {
      assert HashesThenSpace(t, i, run);
    }
  }

  /** `re.search(r'^#{1,6}\s', text, re.MULTILINE)`. */
  predicate HasHeading(t: string)
  {
    exists i :: 0 <= i < |t| && HeadingAt(t, i)
  }

  // ---------------------------------------------------------------------
  // Validation

  /** `all(keyword in text_lower for keyword in topic.lower().split())`:
      true for a blank topic. */
  predicate TopicFound(topic: string, textLower: string)
  {
    var keywords := Words(Lower(topic));
    forall k :: 0 <= k < |keywords| ==> Contains(textLower, keywords[k])
  }

  /** The common start of the topic and formatting messages. */
  const ContainsPrefix: string := "Contains "

  function TopicMessage(topic: string): string
  {
    ContainsPrefix + "forbidden topic: " + topic
  }

  function TopicViolations(topics: seq<string>, textLower: string): (r: seq<string>)
    ensures forall v :: v in r <==> exists t :: t in topics && TopicFound(t, textLower) && v == TopicMessage(t)
  {
    if topics == [] then []
    else
      var init := TopicViolations(topics[..|topics| - 1], textLower);
      var t := topics[|topics| - 1];
      assert forall x :: x in topics <==> x in topics[..|topics| - 1] || x == t by {
        assert topics == topics[..|topics| - 1] + [t];
      }
      if TopicFound(t, textLower) then init + [TopicMessage(t)] else init
  }

  const HeadingViolation: string := ContainsPrefix + "markdown headings " + "(not expected in reflection)"
  const CodeViolation: string := ContainsPrefix + "code blocks or inline code (unexpected)"

  function TooFew(count: nat, min: int): string
  {
    "Too few paragraphs: " + NatToString(count) + " (min " + IntToString(min) + ")"
  }

  function TooMany(count: nat, max: int): string
  {
    "Too many paragraphs: " + NatToString(count) + " (max " + IntToString(max) + ")"
  }

  /** The messages for `count` paragraphs against the bounds. */
  function CountViolations(count: nat, s: PolicySettings): seq<string>
  {
    (if count < s.minParagraphs then [TooFew(count, s.minParagraphs)] else [])
    + (if count > s.maxParagraphs then [TooMany(count, s.maxParagraphs)] else [])
  }

  function ParagraphViolations(text: string, s: PolicySettings): seq<string>
  {
    if !s.checkParagraphs then [] else CountViolations(|Paragraphs(text)|, s)
  }

  function FormattingViolations(text: string, s: PolicySettings): seq<string>
  {
    if !s.checkFormatting then []
    else
      (if HasHeading(text) then [HeadingViolation] else [])
      + (if '`' in text then [CodeViolation] else [])
  }

  /** The violations of an enabled policy, in the order they are found. */
  function Violations(text: string, s: PolicySettings): seq<string>
  {
    ParagraphViolations(text, s) + TopicViolations(s.forbiddenTopics, Lower(text)) + FormattingViolations(text, s)
  }

  datatype PolicyOutcome = Verdict(valid: bool, violations: seq<string>) | Raised

  /** What `ContentPolicyValidator.validate(text)` returns. */
  function PolicyCheck(text: string, pc: PolicyConfig): PolicyOutcome
  {
    match pc
    case Disabled => Verdict(true, [])
    case Malformed => Raised
    case Enabled(s) =>
      var vs := Violations(text, s);
      Verdict(vs == [], vs)
  }

  /** The topic loop of `validate`. */
  method CollectTopicViolations(topics: seq<string>, textLower: string) returns (vs: seq<string>)
    ensures vs == TopicViolations(topics, textLower)
  {
    vs := [];
    for i := 0 to |topics|
      invariant vs == TopicViolations(topics[..i], textLower)
    {
      var topic := topics[i];
      assert topics[..i + 1][..i] == topics[..i];
      var found := KeywordsFound(topic, textLower);
      if found {
        vs := vs + [TopicMessage(topic)];
      }
    }
    assert topics[..|topics|] == topics;
  }

  /** The keyword test of the topic loop. */
  method KeywordsFound(topic: string, textLower: string) returns (all: bool)
    ensures all == TopicFound(topic, textLower)
  {
    var keywords := Words(Lower(topic));
    all := true;
    for j := 0 to |keywords|
      invariant all <==> forall k :: 0 <= k < j ==> Contains(textLower, keywords[k])
    {
      if !Find(textLower, keywords[j]) {
        all := false;
      }
    }
  }

  /** `ContentPolicyValidator.validate`. */
  method ValidatePolicy(text: string, pc: PolicyConfig) returns (r: PolicyOutcome)
    ensures r == PolicyCheck(text, pc)
  {
    if pc.Disabled? {
      return Verdict(true, []);
    }
    if pc.Malformed? {
      return Raised;
    }
    var s := pc.settings;
    var violations := ParagraphChecks(text, s);
    var topicViolations := CollectTopicViolations(s.forbiddenTopics, Lower(text));
    violations := violations + topicViolations;
    var formatting := FormattingChecks(text, s);
    violations := violations + formatting;
    r := Verdict(|violations| == 0, violations);
  }

  /** The paragraph-structure block of `validate`. */
  method ParagraphChecks(text: string, s: PolicySettings) returns (violations: seq<string>)
    ensures violations == ParagraphViolations(text, s)
  {
    violations := [];
    if s.checkParagraphs {
      var paraCount := |Paragraphs(text)|;
      var few: seq<string> := [];
      if paraCount < s.minParagraphs {
        few := [TooFew(paraCount, s.minParagraphs)];
      }
      var many: seq<string> := [];
      if paraCount > s.maxParagraphs {
        many := [TooMany(paraCount, s.maxParagraphs)];
      }
      violations := few + many;
    }
  }

  /** The formatting block of `validate`. */
  method FormattingChecks(text: string, s: PolicySettings) returns (violations: seq<string>)
    ensures violations == FormattingViolations(text, s)
  {
    violations := [];
    if s.checkFormatting {
      if HasHeading(text) {
        violations := violations + [HeadingViolation];
      }
      if '`' in text {
        violations := violations + [CodeViolation];
      }
    }
  }

  /** The policy verdict: valid exactly when there is no violation; too few
      or too many paragraphs, each found topic, a heading and a backtick
      are reported exactly when they occur and their check is on. */
  lemma PolicyCheckVerdict(text: string, s: PolicySettings)
    ensures var r := PolicyCheck(text, Enabled(s));
            var count := |Paragraphs(text)|;
            && r.Verdict? && (r.valid <==> r.violations == [])
            && (TooFew(count, s.minParagraphs) in r.violations <==> s.checkParagraphs && count < s.minParagraphs)
            && (TooMany(count, s.maxParagraphs) in r.violations <==> s.checkParagraphs && count > s.maxParagraphs)
            && (forall t :: t in s.forbiddenTopics && TopicFound(t, Lower(text)) ==> TopicMessage(t) in r.violations)
            && (HeadingViolation in r.violations <==> s.checkFormatting && HasHeading(text))
            && (CodeViolation in r.violations <==> s.checkFormatting && '`' in text)
  {
    var count := |Paragraphs(text)|;
    var few, many := TooFew(count, s.minParagraphs), TooMany(count, s.maxParagraphs);
    var p := ParagraphViolations(text, s);
    var tv := TopicViolations(s.forbiddenTopics, Lower(text));
    var f := FormattingViolations(text, s);
    ParagraphPart(text, s);
    FormattingPart(text, s);
    forall v | v in tv
      ensures v != few && v != many && v != HeadingViolation && v != CodeViolation
    {
      var t :| t in s.forbiddenTopics && TopicFound(t, Lower(text)) && v == TopicMessage(t);
      TopicMessageDiffers(t, count, s.minParagraphs, s.maxParagraphs);
    }
    var vs := Violations(text, s);
    assert vs == p + tv + f;
    assert forall v :: v in vs <==> v in p || v in tv || v in f;
  }

  /** Which messages the paragraph check reports. */
  lemma ParagraphPart(text: string, s: PolicySettings)
    ensures var p := ParagraphViolations(text, s);
            var count := |Paragraphs(text)|;
            && (TooFew(count, s.minParagraphs) in p <==> s.checkParagraphs && count < s.minParagraphs)
            && (TooMany(count, s.maxParagraphs) in p <==> s.checkParagraphs && count > s.maxParagraphs)
            && HeadingViolation !in p && CodeViolation !in p
  {
    CountPart(|Paragraphs(text)|, s);
  }

  lemma CountPart(count: nat, s: PolicySettings)
    ensures var p := CountViolations(count, s);
            && (TooFew(count, s.minParagraphs) in p <==> count < s.minParagraphs)
            && (TooMany(count, s.maxParagraphs) in p <==> count > s.maxParagraphs)
            && HeadingViolation !in p && CodeViolation !in p
  {
    ParagraphMessagesDiffer(count, s.minParagraphs, s.maxParagraphs);
  }

  /** Which messages the formatting check reports. */
  lemma FormattingPart(text: string, s: PolicySettings)
    ensures var f := FormattingViolations(text, s);
            var count := |Paragraphs(text)|;
            && (HeadingViolation in f <==> s.checkFormatting && HasHeading(text))
            && (CodeViolation in f <==> s.checkFormatting && '`' in text)
            && TooFew(count, s.minParagraphs) !in f && TooMany(count, s.maxParagraphs) !in f
  {
    ParagraphMessagesDiffer(|Paragraphs(text)|, s.minParagraphs, s.maxParagraphs);
  }

  lemma AfterPrefix(a: string, b: string)
    ensures (a + b)[|a|..] == b
  {
  }

  /** The paragraph and formatting messages are four different strings. */
  lemma ParagraphMessagesDiffer(count: nat, min: int, max: int)
    ensures TooFew(count, min) != TooMany(count, max)
    ensures TooFew(count, min) != HeadingViolation && TooFew(count, min) != CodeViolation
    ensures TooMany(count, max) != HeadingViolation && TooMany(count, max) != CodeViolation
    ensures HeadingViolation != CodeViolation
  {
    var few, many := TooFew(count, min), TooMany(count, max);
    assert few[0] == 'T' && few[4] == 'f';
    assert many[0] == 'T' && many[4] == 'm';
    assert HeadingViolation[0] == 'C' && CodeViolation[0] == 'C';
    assert |ContainsPrefix| == 9;
    assert HeadingViolation[9] == (ContainsPrefix + "markdown headings ")[9] == 'm';
    assert CodeViolation[9] == "code blocks or inline code (unexpected)"[0] == 'c';
  }

  /** A topic message is none of the other messages. */
  lemma TopicMessageDiffers(topic: string, count: nat, min: int, max: int)
    ensures TopicMessage(topic) != TooFew(count, min) && TopicMessage(topic) != TooMany(count, max)
    ensures TopicMessage(topic) != HeadingViolation && TopicMessage(topic) != CodeViolation
  {
    var m := TopicMessage(topic);
    assert |ContainsPrefix| == 9;
    assert m[0] == 'C' && m[9] == 'f';
    assert TooFew(count, min)[0] == 'T' && TooMany(count, max)[0] == 'T';
    assert HeadingViolation[9] == (ContainsPrefix + "markdown headings ")[9] == 'm';
    assert CodeViolation[9] == "code blocks or inline code (unexpected)"[0] == 'c';
  }

  // ---------------------------------------------------------------------
  // OutputValidator

  /** The `anomaly_detection` entry of the results. */
  datatype AnomalySummary = AnomalySummary(isAnomaly: bool, anomalyScore: real, anomalies: seq<string>)

  datatype ValidationResults = ValidationResults(
    statistics: ResponseStatistics,
    anomalyDetection: Option<AnomalySummary>,
    policyValid: bool,
    policyViolations: seq<string>,
    overallValid: bool,
    issues: seq<string>)

  datatype ValidationOutcome = Completed(valid: bool, results: ValidationResults) | Failed

  function AnomalyIssues(anomalies: seq<string>): (r: seq<string>)
    ensures |r| == |anomalies|
    ensures forall i :: 0 <= i < |r| ==>
              |r[i]| >= 9 && r[i][..9] == "Anomaly: " && r[i][9..] == anomalies[i]
  {
    seq(|anomalies|, i requires 0 <= i < |anomalies| => "Anomaly: " + anomalies[i])
  }

  /** The results dictionary `validate` builds from the statistics, the
      anomaly result (when detection ran) and the policy verdict. */
  function Assemble(stats: ResponseStatistics, anomaly: Option<AnomalyResult>, valid: bool, violations: seq<string>)
    : ValidationResults
  {
    var summary := match anomaly
      case Some(a) => Some(AnomalySummary(a.isAnomaly, a.anomalyScore, a.anomaliesDetected))
      case None => None;
    var anomalyIssues := match anomaly
      case Some(a) => if a.isAnomaly then AnomalyIssues(a.anomaliesDetected) else []
      case None => [];
    ValidationResults(stats, summary, valid, violations, valid,
                      anomalyIssues + (if valid then [] else violations))
  }

  /** Anomalies never decide validity: the overall verdict is the policy's,
      whatever the anomaly result, and anomalies only add issues of the form
      `Anomaly: ...` in front of the policy violations. */
  lemma AnomaliesOnlyWarn(stats: ResponseStatistics, anomaly: Option<AnomalyResult>, valid: bool, violations: seq<string>)
    ensures var r := Assemble(stats, anomaly, valid, violations);
            && r.overallValid == valid
            && r.overallValid == Assemble(stats, None, valid, violations).overallValid
            && (valid ==> forall i :: 0 <= i < |r.issues| ==> r.issues[i][..9] == "Anomaly: ")
            && r.issues[|r.issues| - |Assemble(stats, None, valid, violations).issues|..]
                 == Assemble(stats, None, valid, violations).issues
  {
    var r := Assemble(stats, anomaly, valid, violations);
    var plain := if valid then [] else violations;
    assert Assemble(stats, None, valid, violations).issues == plain;
    var front := r.issues[..|r.issues| - |plain|];
    assert r.issues == front + plain;
    if valid {
      forall i | 0 <= i < |r.issues|
        ensures r.issues[i][..9] == "Anomaly: "
      {
        var a := anomaly.value;
        assert r.issues[i] == "Anomaly: " + a.anomaliesDetected[i];
      }
    }
  }

  /** The numeric value of a setting (`int`, `float`, or a `bool` as 0 or
      1). */
  function NumberOf(v: Value): Option<real>
  {
    match v
    case Int(i) => Some(i as real)
    case Num(r) => Some(r)
    case Bool(b) => Some(if b then 1.0 else 0.0)
    case _ => None
  }

  /** The least integer not below `r`. */
  function Ceiling(r: real): (c: int)
    ensures c as real - 1.0 < r <= c as real
  {
    -((-r).Floor)
  }

  /** The whole-number bound a numeric `min_samples` stands for in
      `len(history) < min_samples`; `None` for the values that comparison
      rejects. */
  function SampleBound(v: Value): (r: Option<int>)
    ensures r.Some? <==> NumberOf(v).Some?
  {
    match v
    case Int(i) => Some(i)
    case Num(x) => Some(Ceiling(x))
    case Bool(b) => Some(if b then 1 else 0)
    case _ => None
  }

  /** A history length is below a numeric `min_samples` exactly when it is
      below its whole-number bound. */
  lemma SampleBoundCompares(v: Value, n: nat)
    requires NumberOf(v).Some?
    ensures (n as real) < NumberOf(v).value <==> n < SampleBound(v).value
  {
  }

  const ThresholdKey: string := "anomaly_detection.deviation_threshold_sigma"
  const MinSamplesKey: string := "anomaly_detection.min_samples_for_detection"

  /** Whether the constructor creates an anomaly detector. */
  predicate DetectionEnabled(cfg: map<string, Value>)
    requires DictGet(cfg, "anomaly_detection", Dict(map[])).Dict?
  {
    Truthy(DictGet(DictGet(cfg, "anomaly_detection", Dict(map[])).entries, "enabled", Bool(true)))
  }

  class OutputValidator {
    const bucketName: string
    const config: map<string, Value>
    const policy: PolicyConfig
    const anomalyDetector: AnomalyDetector?

    /** `OutputValidator(bucket_name, config)`; `stdev`, `describe` and
        `stored` stand for the statistics library, the message formatting and
        the bucket's history object. The source calls `.get` on the
        `anomaly_detection` entry, so it must be a dictionary. It stores any
        threshold, but a non-numeric one would raise later, in
        `detect_anomalies`, a raise the model leaves out: the threshold here
        is a number. */
    constructor(bucketName: string, config: map<string, Value>, stdev: StdevFunction, describe: Describe,
                stored: seq<ResponseStatistics>)
      requires DictGet(config, "anomaly_detection", Dict(map[])).Dict?
      requires DetectionEnabled(config) ==> NumberOf(DictGet(config, ThresholdKey, Num(3.0))).Some?
      ensures this.bucketName == bucketName && this.config == config && policy == PolicyOf(config)
      ensures DetectionEnabled(config) <==> anomalyDetector != null
      ensures anomalyDetector != null ==>
                && fresh(anomalyDetector)
                && anomalyDetector.thresholdSigma == NumberOf(DictGet(config, ThresholdKey, Num(3.0))).value
                && anomalyDetector.stored == stored
    {
      this.bucketName := bucketName;
      this.config := config;
      this.policy := PolicyOf(config);
      if DetectionEnabled(config) {
        var threshold := NumberOf(DictGet(config, ThresholdKey, Num(3.0))).value;
        this.anomalyDetector := new AnomalyDetector(bucketName, threshold, stdev, describe, stored);
      } else {
        this.anomalyDetector := null;
      }
    }

    /** `validate(text, check_anomalies)`; `now` is the timestamp of the
        statistics. A numeric `min_samples` is compared through its
        whole-number bound. The outcome is `Failed` where the source raises:
        a policy that cannot be read, a `min_samples` that is not a number,
        or an empty history with `min_samples` of 0 or less. The stored
        history changes only when detection runs to completion. */
    method Validate(text: string, checkAnomalies: bool, now: string) returns (outcome: ValidationOutcome)
      modifies if anomalyDetector != null then {anomalyDetector} else {}
      ensures var stats := Analyze(text, now);
              var minSamples := SampleBound(DictGet(config, MinSamplesKey, Int(10)));
              var runs := checkAnomalies && anomalyDetector != null;
              var detection := if runs && minSamples.Some?
                               then Some(Detect(old(anomalyDetector.stored), stats, minSamples.value,
                                                anomalyDetector.thresholdSigma, anomalyDetector.stdev,
                                                anomalyDetector.describe))
                               else None;
              var verdict := PolicyCheck(text, policy);
              && (runs && minSamples.Some? && detection.value.Detected? ==>
                    anomalyDetector.stored == KeepLast(old(anomalyDetector.stored) + [stats]))
              && (anomalyDetector != null && !(runs && minSamples.Some? && detection.value.Detected?) ==>
                    anomalyDetector.stored == old(anomalyDetector.stored))
              && (outcome.Completed? <==>
                    (runs ==> minSamples.Some? && detection.value.Detected?) && verdict.Verdict?)
              && (outcome.Completed? ==>
                    outcome.valid == verdict.valid
                    && outcome.results == Assemble(stats,
                                                   if runs then Some(detection.value.result) else None,
                                                   verdict.valid, verdict.violations))
    {
      var stats := Analyze(text, now);
      var anomaly: Option<AnomalyResult> := None;
      if checkAnomalies && anomalyDetector != null {
        var minSamples := SampleBound(DictGet(config, MinSamplesKey, Int(10)));
        if minSamples.None? {
          return Failed;
        }
        var detection := anomalyDetector.DetectAnomalies(stats, minSamples.value);
        if detection.StatisticsError? {
          return Failed;
        }
        anomaly := Some(detection.result);
      }
      var verdict := ValidatePolicy(text, policy);
      if verdict.Raised? {
        return Failed;
      }
      outcome := Completed(verdict.valid, Assemble(stats, anomaly, verdict.valid, verdict.violations));
    }
  }
}
