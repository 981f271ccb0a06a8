/** `SecurityAlertManager` and `SNSAlerting`: an enable gate, the alert
    history, the routing of events to SNS and the alert summary. The
    CloudWatch and SNS clients are recorded sinks: the datapoints published
    and the messages delivered are fields; a failing publish is a
    parameter. */
module Alerting {
  import opened Config
  import opened Counting

  datatype Severity = Info | Warning | Critical

  /** `Severity.value`. */
  function SeverityValue(s: Severity): string
  {
    match s
    case Info => "INFO"
    case Warning => "WARNING"
    case Critical => "CRITICAL"
  }

  /** `SecurityEvent`. */
  datatype SecurityEvent = SecurityEvent(
    eventType: string,
    severity: string,
    message: string,
    details: map<string, Value>,
    timestamp: string,
    source: string)

  const DefaultSource: string := "api_output_validator"

  /** A CloudWatch datapoint: metric name, severity dimension and the extra
      dimensions. */
  datatype Datapoint = Datapoint(metricName: string, severity: string, dimensions: map<string, string>)

  /** An SNS message: topic, subject and the event it reports. */
  datatype Publication = Publication(topic: string, subject: string, event: SecurityEvent)

  // ---------------------------------------------------------------------
  // SNSAlerting

  /** The emoji in front of a subject. */
  function Emoji(severity: string): string
  {
    if severity == "CRITICAL" then "\U{1F6A8}"
    else if severity == "WARNING" then "\U{26A0}\U{FE0F}"
    else if severity == "INFO" then "\U{2139}\U{FE0F}"
    else ""
  }

  /** `_format_subject(event)`: the subject names the severity in brackets
      and ends with the event type. */
  function FormatSubject(event: SecurityEvent): (subject: string)
    ensures var i := |Emoji(event.severity)| + |" Security Alert ["|;
            && |subject| == i + |event.severity| + |"]: "| + |event.eventType|
            && subject[i..i + |event.severity|] == event.severity
            && subject[|subject| - |event.eventType|..] == event.eventType
  {
    var head := Emoji(event.severity) + " Security Alert [";
    var subject := head + event.severity + "]: " + event.eventType;
    assert subject[|head|..|head| + |event.severity|] == event.severity;
    subject
  }

  /** Whether a topic is configured (`if not self.topic_arn`). */
  predicate HasTopic(topic: Option<string>)
  {
    topic.Some? && topic.value != []
  }

  class SnsAlerting {
    const topicArn: Option<string>
    var published: seq<Publication>

    /** `SNSAlerting(topic_arn)`; `environment` is the
        `SECURITY_ALERT_TOPIC_ARN` variable. */
    constructor(topicArn: Option<string>, environment: Option<string>)
      ensures this.topicArn == if HasTopic(topicArn) then topicArn else environment
      ensures published == []
    {
      this.topicArn := if HasTopic(topicArn) then topicArn else environment;
      published := [];
    }

    /** `send_alert(event)`: false without publishing when no topic is
        configured or the publish fails; otherwise one message whose subject
        is `FormatSubject(event)`. */
    method SendAlert(event: SecurityEvent, publishFails: bool) returns (ok: bool)
      modifies this
      ensures ok <==> HasTopic(topicArn) && !publishFails
      ensures published == old(published) +
                (if ok then [Publication(topicArn.value, FormatSubject(event), event)] else [])
    {
      if !HasTopic(topicArn) {
        return false;
      }
      if publishFails {
        return false;
      }
      published := published + [Publication(topicArn.value, FormatSubject(event), event)];
      ok := true;
    }
  }

  // ---------------------------------------------------------------------
  // Routing

  /** The `alerting` section of the configuration. */
  function Section(config: map<string, Value>): Value
  {
    DictGet(config, "alerting", Dict(map[]))
  }

  /** `self.config.get('alerting', {}).get('enabled', True)`. */
  predicate AlertingEnabled(config: map<string, Value>)
    requires Section(config).Dict?
  {
    Truthy(DictGet(Section(config).entries, "enabled", Bool(true)))
  }

  /** The setting that routes an event type, with its default. */
  datatype Route = Route(key: string, default: bool)

  function RouteOf(eventType: string): Option<Route>
  {
    if eventType == "blocked_content" then Some(Route("alert_on_blocked_content", true))
    else if eventType == "suspicious_content" then Some(Route("alert_on_suspicious_content", true))
    else if eventType == "validation_failure" then Some(Route("alert_on_validation_failure", false))
    else if eventType == "anomaly_detected" then Some(Route("alert_on_anomaly", true))
    else None
  }

  /** `_should_send_sns_alert(event_type, severity)`. */
  predicate ShouldSendSns(section: map<string, Value>, eventType: string, severity: Severity)
  {
    match RouteOf(eventType)
    case Some(r) => Truthy(DictGet(section, r.key, Bool(r.default)))
    case None => severity == Warning || severity == Critical
  }

  /** With none of the four routing settings present, blocked, suspicious
      and anomaly events notify, validation failures do not, and any other
      event notifies exactly when it is a warning or critical. */
  lemma DefaultRouting(section: map<string, Value>, eventType: string, severity: Severity)
    requires forall t :: RouteOf(t).Some? ==> RouteOf(t).value.key !in section
    ensures ShouldSendSns(section, eventType, severity) <==>
              eventType in ["blocked_content", "suspicious_content", "anomaly_detected"]
              || (RouteOf(eventType).None? && severity != Info)
  {
    assert RouteOf(eventType).Some? <==>
             eventType in ["blocked_content", "suspicious_content", "validation_failure", "anomaly_detected"];
  }

  /** A present routing setting decides for its event type, whatever the
      severity, by its truthiness. */
  lemma RoutingOverride(section: map<string, Value>, eventType: string, severity: Severity)
    requires RouteOf(eventType).Some? && RouteOf(eventType).value.key in section
    ensures ShouldSendSns(section, eventType, severity) <==> Truthy(section[RouteOf(eventType).value.key])
  {
  }

  /** Other event types ignore the configuration. */
  lemma OtherTypesBySeverity(s1: map<string, Value>, s2: map<string, Value>, eventType: string, severity: Severity)
    requires eventType !in ["blocked_content", "suspicious_content", "validation_failure", "anomaly_detected"]
    ensures ShouldSendSns(s1, eventType, severity) == ShouldSendSns(s2, eventType, severity)
    ensures ShouldSendSns(s1, eventType, severity) <==> severity != Info
  {
  }

  // ---------------------------------------------------------------------
  // Summary

  /** `get_alert_summary()`; `events` is absent for an empty history. */
  datatype AlertSummary = AlertSummary(
    totalAlerts: nat,
    bySeverity: map<string, nat>,
    byType: map<string, nat>,
    events: Option<seq<SecurityEvent>>)

  /** `history[-n:]`. */
  function LastN(h: seq<SecurityEvent>, n: nat): (r: seq<SecurityEvent>)
    ensures |r| == if |h| <= n then |h| else n
    ensures r == h[|h| - |r|..]
  {
    if |h| <= n then h else h[|h| - n..]
  }

  function SeveritiesOf(h: seq<SecurityEvent>): (r: seq<string>)
    ensures |r| == |h| && forall i :: 0 <= i < |h| ==> r[i] == h[i].severity
  {
    seq(|h|, i requires 0 <= i < |h| => h[i].severity)
  }

  function TypesOf(h: seq<SecurityEvent>): (r: seq<string>)
    ensures |r| == |h| && forall i :: 0 <= i < |h| ==> r[i] == h[i].eventType
  {
    seq(|h|, i requires 0 <= i < |h| => h[i].eventType)
  }

  function SummaryOf(h: seq<SecurityEvent>): AlertSummary
  {
    if h == [] then AlertSummary(0, map[], map[], None)
    else AlertSummary(|h|, Tally(SeveritiesOf(h)), Tally(TypesOf(h)), Some(LastN(h, 10)))
  }

  /** The summary counts every event once in each dictionary, and lists the
      last ten events (all of them when there are fewer), oldest first. */
  lemma SummaryCounts(h: seq<SecurityEvent>)
    ensures var s := SummaryOf(h);
            && s.totalAlerts == |h|
            && Total(s.bySeverity) == |h| && Total(s.byType) == |h|
            && (h == [] <==> s.events.None?)
            && (h != [] ==> s.events.value == h[|h| - (if |h| < 10 then |h| else 10)..])
  {
    SummaryTotals(h);
  }

  lemma SummaryTotals(h: seq<SecurityEvent>)
    ensures var s := SummaryOf(h);
            s.totalAlerts == |h| && Total(s.bySeverity) == |h| && Total(s.byType) == |h|
  {
    if h != [] {
      TallyTotal(SeveritiesOf(h));
      TallyTotal(TypesOf(h));
    }
  }

  /** One pass of the summary loop. */
  lemma AlertSummaryStep(h: seq<SecurityEvent>, i: nat)
    requires i < |h|
    ensures Tally(SeveritiesOf(h[..i + 1])) == Increment(Tally(SeveritiesOf(h[..i])), h[i].severity)
    ensures Tally(TypesOf(h[..i + 1])) == Increment(Tally(TypesOf(h[..i])), h[i].eventType)
  {
    assert SeveritiesOf(h[..i + 1]) == SeveritiesOf(h[..i]) + [h[i].severity];
    assert TypesOf(h[..i + 1]) == TypesOf(h[..i]) + [h[i].eventType];
    TallyStep(SeveritiesOf(h[..i]), h[i].severity);
    TallyStep(TypesOf(h[..i]), h[i].eventType);
  }

  // ---------------------------------------------------------------------
  // SecurityAlertManager

  /** The event `alert` records: `details or {}`. */
  function EventOf(eventType: string, severity: Severity, message: string, details: Option<map<string, Value>>,
                   now: string): SecurityEvent
  {
    SecurityEvent(eventType, SeverityValue(severity), message,
                  if details.Some? then details.value else map[], now, DefaultSource)
  }

  class SecurityAlertManager {
    const config: map<string, Value>
    const sns: SnsAlerting
    var history: seq<SecurityEvent>
    /** The datapoints sent to CloudWatch. */
    var metrics: seq<Datapoint>

    /** `SecurityAlertManager(config, sns_topic_arn)`; `environment` is the
        topic variable the SNS client falls back on. */
    constructor(config: map<string, Value>, topicArn: Option<string>, environment: Option<string>)
      ensures this.config == config && history == [] && metrics == []
      ensures fresh(sns) && sns.published == []
      ensures sns.topicArn == if HasTopic(topicArn) then topicArn else environment
    {
      this.config := config;
      sns := new SnsAlerting(topicArn, environment);
      history := [];
      metrics := [];
    }

    /** What one call of `alert` does to the manager: a disabled manager
        keeps its history, datapoints and publications; an enabled one
        records the event, sends one datapoint, and publishes the event to
        SNS exactly when the routing says so, a topic exists and the publish
        succeeds. */
    twostate predicate Alerted(new eventType: string, severity: Severity, new message: string,
                               new details: Option<map<string, Value>>, new now: string, publishFails: bool)
      requires Section(config).Dict?
      reads this, sns
    {
      var event := EventOf(eventType, severity, message, details, now);
      var on := AlertingEnabled(config);
      var sent := on && ShouldSendSns(Section(config).entries, eventType, severity)
                  && HasTopic(sns.topicArn) && !publishFails;
      && history == old(history) + (if on then [event] else [])
      && metrics == old(metrics) + (if on then [Datapoint(eventType, event.severity,
                                                          map["event" := eventType])] else [])
      && sns.published == old(sns.published) +
           (if sent then [Publication(sns.topicArn.value, FormatSubject(event), event)] else [])
    }

    /** `alert(event_type, severity, message, details)`; `now` is the clock
        and `publishFails` whether SNS rejects the message. The `alerting`
        entry must be a dictionary (the source calls `.get` on it). A
        disabled manager changes nothing; otherwise the event is recorded,
        one datapoint is published, and the event goes to SNS when the
        routing says so. */
    method Alert(eventType: string, severity: Severity, message: string, details: Option<map<string, Value>>,
                 now: string, publishFails: bool)
      requires Section(config).Dict?
      modifies this, sns
      ensures Alerted(eventType, severity, message, details, now, publishFails)
    {
      if !AlertingEnabled(config) {
        return;
      }
      var event := EventOf(eventType, severity, message, details, now);
      history := history + [event];
      metrics := metrics + [Datapoint(eventType, SeverityValue(severity), map["event" := eventType])];
      var shouldAlert := ShouldSendSns(Section(config).entries, eventType, severity);
      if shouldAlert {
        var _ := sns.SendAlert(event, publishFails);
      }
    }

    /** `alert_blocked_content`: a CRITICAL `blocked_content` event. */
    method AlertBlockedContent(checkName: string, reason: string, blockedPatterns: Option<seq<string>>,
                               now: string, publishFails: bool)
      requires Section(config).Dict?
      modifies this, sns
      ensures Alerted("blocked_content", Critical, "Blocked malicious content in " + checkName + ": " + reason,
                      Some(BlockedDetails(checkName, reason, blockedPatterns)), now, publishFails)
    {
      Alert("blocked_content", Critical, "Blocked malicious content in " + checkName + ": " + reason,
            Some(BlockedDetails(checkName, reason, blockedPatterns)), now, publishFails);
    }

    /** `alert_suspicious_content`: a WARNING `suspicious_content` event. */
    method AlertSuspiciousContent(checkName: string, reason: string, patterns: Option<seq<string>>,
                                  now: string, publishFails: bool)
      requires Section(config).Dict?
      modifies this, sns
      ensures Alerted("suspicious_content", Warning, "Suspicious content detected in " + checkName + ": " + reason,
                      Some(SuspiciousDetails(checkName, reason, patterns)), now, publishFails)
    {
      Alert("suspicious_content", Warning, "Suspicious content detected in " + checkName + ": " + reason,
            Some(SuspiciousDetails(checkName, reason, patterns)), now, publishFails);
    }

    /** `alert_validation_failure`: a WARNING `validation_failure` event
        carrying the validation results. */
    method AlertValidationFailure(reason: string, validationResults: map<string, Value>, now: string,
                                  publishFails: bool)
      requires Section(config).Dict?
      modifies this, sns
      ensures Alerted("validation_failure", Warning, "Content validation failed: " + reason,
                      Some(validationResults), now, publishFails)
    {
      Alert("validation_failure", Warning, "Content validation failed: " + reason, Some(validationResults),
            now, publishFails);
    }

    /** `alert_anomaly_detected`: a WARNING `anomaly_detected` event. */
    method AlertAnomalyDetected(anomalies: seq<string>, anomalyScore: real, now: string, publishFails: bool)
      requires Section(config).Dict?
      modifies this, sns
      ensures Alerted("anomaly_detected", Warning, "Statistical anomaly detected in API response",
                      Some(AnomalyDetails(anomalies, anomalyScore)), now, publishFails)
    {
      Alert("anomaly_detected", Warning, "Statistical anomaly detected in API response",
            Some(AnomalyDetails(anomalies, anomalyScore)), now, publishFails);
    }

    /** `get_alert_summary()`, counting with the source's loop. */
    method GetAlertSummary() returns (s: AlertSummary)
      ensures s == SummaryOf(history)
    {
      if |history| == 0 {
        return AlertSummary(0, map[], map[], None);
      }
      var bySeverity: map<string, nat> := map[];
      var byType: map<string, nat> := map[];
      for i := 0 to |history|
        invariant bySeverity == Tally(SeveritiesOf(history[..i]))
        invariant byType == Tally(TypesOf(history[..i]))
      {
        var event := history[i];
        AlertSummaryStep(history, i);
        bySeverity := Increment(bySeverity, event.severity);
        byType := Increment(byType, event.eventType);
      }
      assert history[..|history|] == history;
      s := AlertSummary(|history|, bySeverity, byType, Some(LastN(history, 10)));
    }
  }

  function BlockedDetails(checkName: string, reason: string, patterns: Option<seq<string>>): map<string, Value>
  {
    map["check_name" := Str(checkName), "reason" := Str(reason),
        "blocked_patterns" := StrList(if patterns.Some? then patterns.value else []),
        "action_taken" := Str("Content rejected")]
  }

  function SuspiciousDetails(checkName: string, reason: string, patterns: Option<seq<string>>): map<string, Value>
  {
    map["check_name" := Str(checkName), "reason" := Str(reason),
        "patterns" := StrList(if patterns.Some? then patterns.value else []),
        "action_taken" := Str("Content allowed with warning")]
  }

  function AnomalyDetails(anomalies: seq<string>, score: real): map<string, Value>
  {
    map["anomalies" := StrList(anomalies), "anomaly_score" := Num(score),
        "action_taken" := Str("Content allowed but flagged")]
  }

  /** The wrappers fix the type and severity of their events: blocked
      content is critical, the other three are warnings; blocked,
      suspicious and anomaly events reach SNS under the default routing,
      validation failures do not. */
  lemma WrapperEvents(section: map<string, Value>, checkName: string, reason: string, now: string,
                      results: map<string, Value>, anomalies: seq<string>, score: real)
    requires forall t :: RouteOf(t).Some? ==> RouteOf(t).value.key !in section
    ensures EventOf("blocked_content", Critical, "", None, now).severity == "CRITICAL"
    ensures EventOf("suspicious_content", Warning, "", None, now).severity == "WARNING"
    ensures ShouldSendSns(section, "blocked_content", Critical)
    ensures ShouldSendSns(section, "suspicious_content", Warning)
    ensures ShouldSendSns(section, "anomaly_detected", Warning)
    ensures !ShouldSendSns(section, "validation_failure", Warning)
  {
    assert RouteOf("blocked_content").Some? && RouteOf("suspicious_content").Some?;
    assert RouteOf("anomaly_detected").Some? && RouteOf("validation_failure").Some?;
  }
}
