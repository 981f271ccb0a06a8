/** `ContentRedactor` and `SecurityLogger`: redaction of log details and the
    per-invocation audit trail. The SHA-256 digest, the clock, the request
    id from the environment and the S3 store are parameters. */
module Audit {
  import opened Text
  import opened Config
  import opened Counting

  // ---------------------------------------------------------------------
  // ContentRedactor

  const SensitivePatterns: seq<string> := ["api_key", "token", "password", "secret", "credential"]
  const PreviewFields: seq<string> := ["reflection", "quote", "text", "content", "message"]
  const MaxContentLength: nat := 500
  const Redacted: string := "[REDACTED]"

  /** The first 16 hexadecimal digits of the SHA-256 digest of a text. */
  type Digest = string -> string

  /** `any(pattern in key.lower() for pattern in SENSITIVE_PATTERNS)`. */
  predicate IsSensitiveKey(key: string)
  {
    exists i :: 0 <= i < |SensitivePatterns| && Contains(Lower(key), SensitivePatterns[i])
  }

  /** A long string of a previewed field is replaced by its preview. */
  predicate Truncated(field: string, content: string)
  {
    field in PreviewFields && |content| > MaxContentLength
  }

  /** `_truncate_and_hash(content, field_name)`. */
  function TruncateAndHash(content: string, field: string, hash: Digest): (r: Value)
    ensures r.Str? <==> !Truncated(field, content)
    ensures r.Str? ==> r.s == content
    ensures r.Dict? ==>
              && r.entries.Keys == {"preview", "full_length", "hash", "truncated"}
              && r.entries["preview"] == Str(content[..MaxContentLength] + "...")
              && r.entries["full_length"] == Int(|content|)
              && r.entries["hash"] == Str(hash(content))
              && r.entries["truncated"] == Bool(true)
  {
    if Truncated(field, content) then
      Dict(map["preview" := Str(content[..MaxContentLength] + "..."),
               "full_length" := Int(|content|),
               "hash" := Str(hash(content)),
               "truncated" := Bool(true)])
    else Str(content)
  }

  /** The value `redact_sensitive_data` stores under `key`. */
  function RedactEntry(key: string, value: Value, hash: Digest): Value
    decreases value, 1
  {
    if IsSensitiveKey(key) then Str(Redacted)
    else match value
      case Dict(d) => Dict(Redact(d, hash))
      case Str(s) => TruncateAndHash(s, key, hash)
      case _ => value
  }

  /** `ContentRedactor.redact_sensitive_data(data)`. */
  function Redact(data: map<string, Value>, hash: Digest): (r: map<string, Value>)
    ensures r.Keys == data.Keys
    decreases Dict(data), 0
  {
    map k | k in data :: RedactEntry(k, data[k], hash)
  }

  /** What redaction guarantees of a value stored under `key`: a sensitive
      key holds only the marker (whatever was nested under it), nested
      dictionaries are clean, and no previewed field holds a string longer
      than the limit. */
  predicate CleanEntry(key: string, value: Value)
    decreases value, 1
  {
    if IsSensitiveKey(key) then value == Str(Redacted)
    else match value
      case Dict(d) => Clean(d)
      case Str(s) => !Truncated(key, s)
      case _ => true
  }

  predicate Clean(data: map<string, Value>)
    decreases Dict(data), 0
  {
    forall k :: k in data ==> CleanEntry(k, data[k])
  }

  /** A key is not sensitive when each pattern misses one of its
      characters; `missing[i]` is the index of such a character in the
      `i`-th pattern. */
  lemma NotSensitive(k: string, missing: seq<nat>)
    requires forall c :: c in k ==> !('A' <= c <= 'Z')
    requires |missing| == |SensitivePatterns|
    requires forall i :: 0 <= i < |missing| ==>
               missing[i] < |SensitivePatterns[i]| && SensitivePatterns[i][missing[i]] !in k
    ensures !IsSensitiveKey(k)
  {
    assert LowerCase(k) by {
      forall j | 0 <= j < |k|
        ensures LowerChar(k[j]) == k[j]
      {
        assert k[j] in k;
      }
    }
    LowerFixesLowerCase(k);
    forall i | 0 <= i < |SensitivePatterns|
      ensures !Contains(Lower(k), SensitivePatterns[i])
    {
      MissingChar(k, SensitivePatterns[i], missing[i]);
    }
  }

  /** None of the keys of a preview is sensitive. */
  lemma PreviewKeysNotSensitive()
    ensures !IsSensitiveKey("preview") && !IsSensitiveKey("full_length")
    ensures !IsSensitiveKey("hash") && !IsSensitiveKey("truncated")
  {
    PreviewNotSensitive();
    FullLengthNotSensitive();
    HashNotSensitive();
    TruncatedNotSensitive();
  }

  lemma PreviewNotSensitive()
    ensures !IsSensitiveKey("preview")
  {
    var k := "preview";
    assert forall c :: c in k ==> !('A' <= c <= 'Z');
    assert "api_key"[0] !in k && "token"[0] !in k && "password"[1] !in k;
    assert "secret"[0] !in k && "credential"[0] !in k;
    NotSensitive(k, [0, 0, 1, 0, 0]);
  }

  lemma FullLengthNotSensitive()
    ensures !IsSensitiveKey("full_length")
  {
    var k := "full_length";
    assert forall c :: c in k ==> !('A' <= c <= 'Z');
    assert "api_key"[0] !in k && "token"[1] !in k && "password"[0] !in k;
    assert "secret"[0] !in k && "credential"[0] !in k;
    NotSensitive(k, [0, 1, 0, 0, 0]);
  }

  lemma HashNotSensitive()
    ensures !IsSensitiveKey("hash")
  {
    var k := "hash";
    assert forall c :: c in k ==> !('A' <= c <= 'Z');
    assert "api_key"[1] !in k && "token"[0] !in k && "password"[0] !in k;
    assert "secret"[1] !in k && "credential"[0] !in k;
    NotSensitive(k, [1, 0, 0, 1, 0]);
  }

  lemma TruncatedNotSensitive()
    ensures !IsSensitiveKey("truncated")
  {
    var k := "truncated";
    assert forall c :: c in k ==> !('A' <= c <= 'Z');
    assert "api_key"[1] !in k && "token"[1] !in k && "password"[0] !in k;
    assert "secret"[0] !in k && "credential"[9] !in k;
    NotSensitive(k, [1, 1, 0, 0, 9]);
  }

  /** Every redacted value is clean. */
  lemma {:induction false} RedactEntryIsClean(key: string, value: Value, hash: Digest)
    ensures CleanEntry(key, RedactEntry(key, value, hash))
    decreases value
  {
    if !IsSensitiveKey(key) {
      match value
      case Dict(d) =>
        forall k | k in d
          ensures CleanEntry(k, Redact(d, hash)[k])
        {
          RedactEntryIsClean(k, d[k], hash);
        }
      case Str(s) =>
        var r := TruncateAndHash(s, key, hash);
        if r.Dict? {
          PreviewKeysNotSensitive();
          assert Clean(r.entries);
        }
      case _ =>
    }
  }

  /** Redacted details are clean. */
  lemma RedactIsClean(data: map<string, Value>, hash: Digest)
    ensures Clean(Redact(data, hash))
  {
    forall k | k in data
      ensures CleanEntry(k, Redact(data, hash)[k])
    {
      RedactEntryIsClean(k, data[k], hash);
    }
  }

  /** Redaction leaves clean values alone. */
  lemma {:induction false} CleanEntryIsFixed(key: string, value: Value, hash: Digest)
    requires CleanEntry(key, value)
    ensures RedactEntry(key, value, hash) == value
    decreases value
  {
    if !IsSensitiveKey(key) {
      match value
      case Dict(d) =>
        forall k | k in d
          ensures RedactEntry(k, d[k], hash) == d[k]
        {
          CleanEntryIsFixed(k, d[k], hash);
        }
        assert Redact(d, hash) == d;
      case Str(s) =>
      case _ =>
    }
  }

  /** Details are left unchanged by redaction exactly when they are clean;
      so redacting twice is redacting once. */
  lemma RedactFixedIffClean(data: map<string, Value>, hash: Digest)
    ensures Redact(data, hash) == data <==> Clean(data)
    ensures Redact(Redact(data, hash), hash) == Redact(data, hash)
  {
    if Clean(data) {
      forall k | k in data
        ensures RedactEntry(k, data[k], hash) == data[k]
      {
        CleanEntryIsFixed(k, data[k], hash);
      }
    }
    RedactIsClean(data, hash);
    var r := Redact(data, hash);
    forall k | k in r
      ensures RedactEntry(k, r[k], hash) == r[k]
    {
      CleanEntryIsFixed(k, r[k], hash);
    }
  }

  /** Values under non-sensitive keys that are neither dictionaries nor
      strings pass through, and a sensitive key hides even a nested
      dictionary. */
  lemma RedactEntryCases(key: string, value: Value, hash: Digest)
    ensures IsSensitiveKey(key) ==> RedactEntry(key, value, hash) == Str(Redacted)
    ensures !IsSensitiveKey(key) && !value.Dict? && !value.Str? ==> RedactEntry(key, value, hash) == value
    ensures !IsSensitiveKey(key) && value.Dict? ==>
              RedactEntry(key, value, hash).Dict? && RedactEntry(key, value, hash).entries.Keys == value.entries.Keys
  {
  }

  /** `api_key` is redacted, whatever its case. */
  lemma ApiKeyIsRedacted(value: Value, hash: Digest)
    ensures RedactEntry("API_Key", value, hash) == Str(Redacted)
  {
    assert Lower("API_Key") == "api_key";
    assert OccursAt(Lower("API_Key"), SensitivePatterns[0], 0);
  }

  // ---------------------------------------------------------------------
  // SecurityLogger

  /** `SecurityLogEntry`. */
  datatype LogEntry = LogEntry(
    correlationId: string,
    timestamp: string,
    eventType: string,
    severity: string,
    action: string,
    result: string,
    details: map<string, Value>,
    requestId: Option<string>)

  /** The object `save_audit_log_to_s3` writes. */
  datatype AuditLog = AuditLog(correlationId: string, timestamp: string, entryCount: nat, entries: seq<LogEntry>)

  /** `get_summary()`. */
  datatype Summary = Summary(
    correlationId: string,
    totalEvents: nat,
    byType: map<string, nat>,
    bySeverity: map<string, nat>,
    byResult: map<string, nat>)

  function Min(a: nat, b: nat): nat
  {
    if a <= b then a else b
  }

  /** The entry of `log_security_check`. */
  function CheckEntry(id: string, now: string, checkName: string, passed: bool, severity: string,
                      details: map<string, Value>, hash: Digest, requestId: Option<string>): (e: LogEntry)
    ensures e.correlationId == id && e.eventType == "security_check" && e.action == checkName
    ensures e.result == "PASS" <==> passed
    ensures e.details.Keys == details.Keys && Clean(e.details)
  {
    RedactIsClean(details, hash);
    LogEntry(id, now, "security_check", severity, checkName, if passed then "PASS" else "FAIL",
             Redact(details, hash), requestId)
  }

  /** The entry of `log_validation_start`. */
  function StartEntry(id: string, now: string, contentType: string, contentHash: string,
                      requestId: Option<string>): (e: LogEntry)
    ensures e.correlationId == id && e.eventType == "validation_start" && e.result == "STARTED"
  {
    LogEntry(id, now, "validation_start", "INFO", "begin_validation", "STARTED",
             map["content_type" := Str(contentType), "content_hash" := Str(contentHash)], requestId)
  }

  /** The entry of `log_validation_complete`: the count of all issues but
      only the first ten of them. */
  function CompleteEntry(id: string, now: string, passed: bool, durationMs: real, checksPerformed: int,
                         issues: seq<string>, requestId: Option<string>): (e: LogEntry)
    ensures e.correlationId == id && e.eventType == "validation_complete"
    ensures (e.result == "PASS" <==> passed) && (e.severity == "INFO" <==> passed)
    ensures "issues_count" in e.details && e.details["issues_count"] == Int(|issues|)
    ensures "issues" in e.details
    ensures var kept := e.details["issues"];
            kept.List? && |kept.items| == Min(10, |issues|)
            && forall i :: 0 <= i < |kept.items| ==> kept.items[i] == Str(issues[i])
  {
    LogEntry(id, now, "validation_complete", if passed then "INFO" else "WARNING", "complete_validation",
             if passed then "PASS" else "FAIL",
             map["duration_ms" := Num(durationMs),
                 "checks_performed" := Int(checksPerformed),
                 "issues_count" := Int(|issues|),
                 "issues" := StrList(issues[..Min(10, |issues|)])],
             requestId)
  }

  /** The entry of `log_sanitization`. */
  function SanitizationEntry(id: string, now: string, modifications: seq<string>, originalLength: int,
                             sanitizedLength: int, requestId: Option<string>): (e: LogEntry)
    ensures e.correlationId == id && e.eventType == "sanitization"
    ensures e.result == "MODIFIED" <==> modifications != []
    ensures "bytes_removed" in e.details && e.details["bytes_removed"].Int?
    ensures e.details["bytes_removed"].i + sanitizedLength == originalLength
  {
    LogEntry(id, now, "sanitization", "INFO", "sanitize_content",
             if modifications != [] then "MODIFIED" else "UNCHANGED",
             map["modifications" := StrList(modifications),
                 "original_length" := Int(originalLength),
                 "sanitized_length" := Int(sanitizedLength),
                 "bytes_removed" := Int(originalLength - sanitizedLength)],
             requestId)
  }

  /** The entry of `log_anomaly_detection`. */
  function AnomalyEntry(id: string, now: string, isAnomaly: bool, anomalyScore: real, anomalies: seq<string>,
                        requestId: Option<string>): (e: LogEntry)
    ensures e.correlationId == id && e.eventType == "anomaly_detection"
    ensures (e.severity == "WARNING" <==> isAnomaly) && (e.result == "ANOMALY_DETECTED" <==> isAnomaly)
  {
    LogEntry(id, now, "anomaly_detection", if isAnomaly then "WARNING" else "INFO", "detect_anomalies",
             if isAnomaly then "ANOMALY_DETECTED" else "NORMAL",
             map["anomaly_score" := Num(anomalyScore), "anomalies" := StrList(anomalies)], requestId)
  }

  /** The entry of `log_security_incident`, with the evidence redacted. */
  function IncidentEntry(id: string, now: string, incidentType: string, severity: string, description: string,
                         evidence: map<string, Value>, hash: Digest, requestId: Option<string>): (e: LogEntry)
    ensures e.correlationId == id && e.eventType == "security_incident" && e.result == "INCIDENT"
    ensures "evidence" in e.details && e.details["evidence"].Dict? && Clean(e.details["evidence"].entries)
  {
    RedactIsClean(evidence, hash);
    LogEntry(id, now, "security_incident", severity, incidentType, "INCIDENT",
             map["description" := Str(description), "evidence" := Dict(Redact(evidence, hash))], requestId)
  }

  function EventTypes(es: seq<LogEntry>): (r: seq<string>)
    ensures |r| == |es| && forall i :: 0 <= i < |es| ==> r[i] == es[i].eventType
  {
    seq(|es|, i requires 0 <= i < |es| => es[i].eventType)
  }

  function Severities(es: seq<LogEntry>): (r: seq<string>)
    ensures |r| == |es| && forall i :: 0 <= i < |es| ==> r[i] == es[i].severity
  {
    seq(|es|, i requires 0 <= i < |es| => es[i].severity)
  }

  function ResultsOf(es: seq<LogEntry>): (r: seq<string>)
    ensures |r| == |es| && forall i :: 0 <= i < |es| ==> r[i] == es[i].result
  {
    seq(|es|, i requires 0 <= i < |es| => es[i].result)
  }

  /** The summary of a list of entries. */
  function SummaryOf(id: string, es: seq<LogEntry>): Summary
  {
    Summary(id, |es|, Tally(EventTypes(es)), Tally(Severities(es)), Tally(ResultsOf(es)))
  }

  /** Each count dictionary of a summary adds up to the number of events;
      no entries give empty dictionaries. */
  lemma SummaryTotals(id: string, es: seq<LogEntry>)
    ensures var s := SummaryOf(id, es);
            && Total(s.byType) == s.totalEvents && Total(s.bySeverity) == s.totalEvents
            && Total(s.byResult) == s.totalEvents
            && (es == [] ==> s.byType == map[] && s.bySeverity == map[] && s.byResult == map[])
  {
    TallyTotal(EventTypes(es));
    TallyTotal(Severities(es));
    TallyTotal(ResultsOf(es));
  }

  /** One pass of the summary loop increments each of the three counts. */
  lemma SummaryStep(es: seq<LogEntry>, i: nat)
    requires i < |es|
    ensures Tally(EventTypes(es[..i + 1])) == Increment(Tally(EventTypes(es[..i])), es[i].eventType)
    ensures Tally(Severities(es[..i + 1])) == Increment(Tally(Severities(es[..i])), es[i].severity)
    ensures Tally(ResultsOf(es[..i + 1])) == Increment(Tally(ResultsOf(es[..i])), es[i].result)
  {
    assert EventTypes(es[..i + 1]) == EventTypes(es[..i]) + [es[i].eventType];
    assert Severities(es[..i + 1]) == Severities(es[..i]) + [es[i].severity];
    assert ResultsOf(es[..i + 1]) == ResultsOf(es[..i]) + [es[i].result];
    TallyStep(EventTypes(es[..i]), es[i].eventType);
    TallyStep(Severities(es[..i]), es[i].severity);
    TallyStep(ResultsOf(es[..i]), es[i].result);
  }

  /** Whether all entries carry the logger's correlation id. */
  predicate AllCarry(id: string, es: seq<LogEntry>)
  {
    forall i :: 0 <= i < |es| ==> es[i].correlationId == id
  }

  /** The S3 key of an audit log. */
  function AuditKey(stamp: string, id: string): string
  {
    "security/audit_logs/" + stamp + "_" + id + ".json"
  }

  class SecurityLogger {
    const bucketName: Option<string>
    const correlationId: string
    const hash: Digest
    var entries: seq<LogEntry>
    /** The audit logs written so far, by key. */
    var store: map<string, AuditLog>

    /** Every entry carries this logger's correlation id. */
    predicate Valid()
      reads this
    {
      AllCarry(correlationId, entries)
    }

    /** `SecurityLogger(bucket_name, correlation_id)`; `generated` is the
        fresh UUID used when no id (or an empty one) is given. */
    constructor(bucketName: Option<string>, correlationId: Option<string>, generated: string, hash: Digest)
      ensures this.bucketName == bucketName && this.hash == hash
      ensures this.correlationId == if correlationId.Some? && correlationId.value != [] then correlationId.value
                                    else generated
      ensures entries == [] && store == map[] && Valid()
    {
      this.bucketName := bucketName;
      this.correlationId := if correlationId.Some? && correlationId.value != [] then correlationId.value
                            else generated;
      this.hash := hash;
      entries := [];
      store := map[];
    }

    method LogSecurityCheck(checkName: string, passed: bool, severity: string, details: map<string, Value>,
                            now: string, requestId: Option<string>)
      requires Valid()
      modifies this
      ensures Valid() && store == old(store)
      ensures entries == old(entries) + [CheckEntry(correlationId, now, checkName, passed, severity, details,
                                                    hash, requestId)]
    {
      entries := entries + [CheckEntry(correlationId, now, checkName, passed, severity, details, hash, requestId)];
    }

    method LogValidationStart(contentType: string, contentHash: string, now: string, requestId: Option<string>)
      requires Valid()
      modifies this
      ensures Valid() && store == old(store)
      ensures entries == old(entries) + [StartEntry(correlationId, now, contentType, contentHash, requestId)]
    {
      entries := entries + [StartEntry(correlationId, now, contentType, contentHash, requestId)];
    }

    method LogValidationComplete(passed: bool, durationMs: real, checksPerformed: int, issues: seq<string>,
                                 now: string, requestId: Option<string>)
      requires Valid()
      modifies this
      ensures Valid() && store == old(store)
      ensures entries == old(entries) + [CompleteEntry(correlationId, now, passed, durationMs, checksPerformed,
                                                       issues, requestId)]
    {
      entries := entries + [CompleteEntry(correlationId, now, passed, durationMs, checksPerformed, issues,
                                          requestId)];
    }

    method LogSanitization(modifications: seq<string>, originalLength: int, sanitizedLength: int,
                           now: string, requestId: Option<string>)
      requires Valid()
      modifies this
      ensures Valid() && store == old(store)
      ensures entries == old(entries) + [SanitizationEntry(correlationId, now, modifications, originalLength,
                                                           sanitizedLength, requestId)]
    {
      entries := entries + [SanitizationEntry(correlationId, now, modifications, originalLength, sanitizedLength,
                                              requestId)];
    }

    method LogAnomalyDetection(isAnomaly: bool, anomalyScore: real, anomalies: seq<string>,
                               now: string, requestId: Option<string>)
      requires Valid()
      modifies this
      ensures Valid() && store == old(store)
      ensures entries == old(entries) + [AnomalyEntry(correlationId, now, isAnomaly, anomalyScore, anomalies,
                                                      requestId)]
    {
      entries := entries + [AnomalyEntry(correlationId, now, isAnomaly, anomalyScore, anomalies, requestId)];
    }

    method LogSecurityIncident(incidentType: string, severity: string, description: string,
                               evidence: map<string, Value>, now: string, requestId: Option<string>)
      requires Valid()
      modifies this
      ensures Valid() && store == old(store)
      ensures entries == old(entries) + [IncidentEntry(correlationId, now, incidentType, severity, description,
                                                       evidence, hash, requestId)]
    {
      entries := entries + [IncidentEntry(correlationId, now, incidentType, severity, description, evidence,
                                          hash, requestId)];
    }

    /** `save_audit_log_to_s3()`; `stamp` and `now` are the two readings of
        the clock and `writeFails` whether the upload raises. Without a
        bucket nothing is written and the answer is false; with no entries
        nothing is written and the answer is true. */
    method SaveAuditLog(stamp: string, now: string, writeFails: bool) returns (ok: bool)
      requires Valid()
      modifies this
      ensures entries == old(entries) && Valid()
      ensures var configured := bucketName.Some? && bucketName.value != [];
              var writes := configured && entries != [] && !writeFails;
              && (ok <==> configured && (entries == [] || !writeFails))
              && (writes ==> store == old(store)[AuditKey(stamp, correlationId) :=
                                                 AuditLog(correlationId, now, |entries|, entries)])
              && (!writes ==> store == old(store))
              && (writes ==> var log := store[AuditKey(stamp, correlationId)];
                             log.correlationId == correlationId && AllCarry(correlationId, log.entries))
    {
      if bucketName.None? || bucketName.value == [] {
        return false;
      }
      if |entries| == 0 {
        return true;
      }
      if writeFails {
        return false;
      }
      var key := AuditKey(stamp, correlationId);
      store := store[key := AuditLog(correlationId, now, |entries|, entries)];
      ok := true;
    }

    /** `get_summary()`, counting with the source's loop. */
    method GetSummary() returns (s: Summary)
      ensures s == SummaryOf(correlationId, entries)
    {
      var byType: map<string, nat> := map[];
      var bySeverity: map<string, nat> := map[];
      var byResult: map<string, nat> := map[];
      for i := 0 to |entries|
        invariant byType == Tally(EventTypes(entries[..i]))
        invariant bySeverity == Tally(Severities(entries[..i]))
        invariant byResult == Tally(ResultsOf(entries[..i]))
      {
        var e := entries[i];
        SummaryStep(entries, i);
        byType := Increment(byType, e.eventType);
        bySeverity := Increment(bySeverity, e.severity);
        byResult := Increment(byResult, e.result);
      }
      assert entries[..|entries|] == entries;
      s := Summary(correlationId, |entries|, byType, bySeverity, byResult);
    }
  }
}
