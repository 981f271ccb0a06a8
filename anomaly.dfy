/** `AnomalyDetector`: compares the statistics of a new response with the
    persisted history of earlier ones and flags metrics more than
    `threshold_sigma` standard deviations from the historical mean. The
    history is read, appended to and written back, keeping the last 100. */
module Anomaly {
  import opened Config
  import opened ResponseStats

  /** The six compared metrics, in the order of the source's dictionary. */
  datatype Metric = CharCount | WordCount | ParagraphCount | AvgWordLength | AvgSentenceLength | UniqueWordRatio

  const Metrics: seq<Metric> :=
    [CharCount, WordCount, ParagraphCount, AvgWordLength, AvgSentenceLength, UniqueWordRatio]

  function MetricName(m: Metric): string
  {
    match m
    case CharCount => "char_count"
    case WordCount => "word_count"
    case ParagraphCount => "paragraph_count"
    case AvgWordLength => "avg_word_length"
    case AvgSentenceLength => "avg_sentence_length"
    case UniqueWordRatio => "unique_word_ratio"
  }

  /** `getattr(stats, metric_name)`. */
  function MetricValue(s: ResponseStatistics, m: Metric): real
  {
    match m
    case CharCount => s.charCount as real
    case WordCount => s.wordCount as real
    case ParagraphCount => s.paragraphCount as real
    case AvgWordLength => s.avgWordLength
    case AvgSentenceLength => s.avgSentenceLength
    case UniqueWordRatio => s.uniqueWordRatio
  }

  /** One entry of the `deviations` dictionary. */
  datatype Deviation = Deviation(metric: Metric, current: real, mean: real, stdev: real, zScore: real)

  datatype Details = InsufficientData | Deviations(entries: seq<Deviation>)

  datatype AnomalyResult = AnomalyResult(
    isAnomaly: bool,
    anomalyScore: real,
    anomaliesDetected: seq<string>,
    details: Details)

  /** `detect_anomalies` either returns a result or raises `StatisticsError`
      (the mean of an empty history). */
  datatype Detection = Detected(result: AnomalyResult) | StatisticsError

  /** `statistics.stdev`, the sample standard deviation. */
  type StdevFunction = seq<real> -> real

  /** The anomaly message, `f"{name}: {current:.2f} (expected ...)"`. */
  type Describe = Deviation -> string

  const HistoryLimit: nat := 100

  /** `stats_list[-100:]`. */
  function KeepLast(h: seq<ResponseStatistics>): (r: seq<ResponseStatistics>)
    ensures |r| <= HistoryLimit
  {
    if |h| <= HistoryLimit then h else h[|h| - HistoryLimit..]
  }

  /** The persisted history is the newest (at most 100) entries, oldest
      dropped first, and ends with the sample just appended. */
  lemma KeepLastAppend(h: seq<ResponseStatistics>, s: ResponseStatistics)
    ensures var r := KeepLast(h + [s]);
            && |r| == (if |h| < HistoryLimit then |h| + 1 else HistoryLimit)
            && r == (h + [s])[|h| + 1 - |r|..]
            && r[|r| - 1] == s
            && (|h| < HistoryLimit ==> r == h + [s])
  {
  }

  function Values(h: seq<ResponseStatistics>, m: Metric): (vs: seq<real>)
    ensures |vs| == |h|
  {
    seq(|h|, i requires 0 <= i < |h| => MetricValue(h[i], m))
  }

  function Sum(xs: seq<real>): real
  {
    if xs == [] then 0.0 else Sum(xs[..|xs| - 1]) + xs[|xs| - 1]
  }

  function Abs(x: real): real
  {
    if x < 0.0 then -x else x
  }

  /** The deviation of the current value of `m`, when the history's
      standard deviation is positive. */
  function DeviationOf(h: seq<ResponseStatistics>, current: ResponseStatistics, m: Metric, stdev: StdevFunction)
    : (r: Option<Deviation>)
    requires h != []
    ensures r.Some? ==> r.value.metric == m && r.value.stdev > 0.0 && r.value.zScore >= 0.0
  {
    var vs := Values(h, m);
    var mean := Sum(vs) / |vs| as real;
    var sd := if |vs| > 1 then stdev(vs) else 0.0;
    if sd > 0.0 then
      var cur := MetricValue(current, m);
      Some(Deviation(m, cur, mean, sd, Abs((cur - mean) / sd)))
    else None
  }

  /** The deviations of the metrics `ms` whose standard deviation is
      positive, in order. */
  function DeviationsOf(h: seq<ResponseStatistics>, current: ResponseStatistics, ms: seq<Metric>, stdev: StdevFunction)
    : (ds: seq<Deviation>)
    requires h != []
    ensures forall d :: d in ds <==> exists m :: m in ms && DeviationOf(h, current, m, stdev) == Some(d)
  {
    if ms == [] then []
    else
      var init := DeviationsOf(h, current, ms[..|ms| - 1], stdev);
      var m := ms[|ms| - 1];
      assert forall x :: x in ms <==> x in ms[..|ms| - 1] || x == m by {
        assert ms == ms[..|ms| - 1] + [m];
      }
      match DeviationOf(h, current, m, stdev)
      case Some(d) => init + [d]
      case None => init
  }

  /** The messages of the deviations whose z-score exceeds the threshold. */
  function Flagged(ds: seq<Deviation>, threshold: real, describe: Describe): (r: seq<string>)
    ensures r == [] <==> forall d :: d in ds ==> d.zScore <= threshold
  {
    if ds == [] then []
    else
      var init := Flagged(ds[..|ds| - 1], threshold, describe);
      var d := ds[|ds| - 1];
      assert forall x :: x in ds <==> x in ds[..|ds| - 1] || x == d by {
        assert ds == ds[..|ds| - 1] + [d];
      }
      if d.zScore > threshold then init + [describe(d)] else init
  }

  lemma DeviationsStep(h: seq<ResponseStatistics>, current: ResponseStatistics, ms: seq<Metric>, k: nat,
                       stdev: StdevFunction)
    requires h != [] && k < |ms|
    ensures DeviationsOf(h, current, ms[..k + 1], stdev) ==
              match DeviationOf(h, current, ms[k], stdev)
              case Some(d) => DeviationsOf(h, current, ms[..k], stdev) + [d]
              case None => DeviationsOf(h, current, ms[..k], stdev)
  {
    assert ms[..k + 1][..k] == ms[..k];
  }

  lemma FlaggedStep(ds: seq<Deviation>, d: Deviation, threshold: real, describe: Describe)
    ensures Flagged(ds + [d], threshold, describe) ==
              Flagged(ds, threshold, describe) + if d.zScore > threshold then [describe(d)] else []
  {
    assert (ds + [d])[..|ds|] == ds;
  }

  /** `max(z_scores)`, or 0 when there are none. */
  function MaxZ(ds: seq<Deviation>): real
  {
    if ds == [] then 0.0
    else
      var rest := MaxZ(ds[..|ds| - 1]);
      var z := ds[|ds| - 1].zScore;
      if ds[..|ds| - 1] == [] || z > rest then z else rest
  }

  /** `MaxZ` is the largest z-score: no deviation exceeds it and some
      deviation reaches it. */
  lemma {:induction false} MaxZIsMaximum(ds: seq<Deviation>)
    ensures forall d :: d in ds ==> d.zScore <= MaxZ(ds)
    ensures ds != [] ==> exists d :: d in ds && d.zScore == MaxZ(ds)
  {
    if ds != [] {
      var init := ds[..|ds| - 1];
      MaxZIsMaximum(init);
      var last := ds[|ds| - 1];
      assert ds == init + [last];
      assert last in ds;
      if init != [] {
        var d :| d in init && d.zScore == MaxZ(init);
        assert d in ds;
      }
    }
  }

  /** What `detect_anomalies(current_stats, min_samples)` returns on the
      history `h` it loads. */
  function Detect(h: seq<ResponseStatistics>, current: ResponseStatistics, minSamples: int,
                  threshold: real, stdev: StdevFunction, describe: Describe): Detection
  {
    if |h| < minSamples then Detected(AnomalyResult(false, 0.0, [], InsufficientData))
    else if h == [] then StatisticsError
    else
      var ds := DeviationsOf(h, current, Metrics, stdev);
      var anomalies := Flagged(ds, threshold, describe);
      Detected(AnomalyResult(anomalies != [], MaxZ(ds), anomalies, Deviations(ds)))
  }

  /** Cold start: with fewer than `min_samples` earlier samples nothing is
      flagged, the score is 0 and the reason is the missing history. */
  lemma ColdStart(h: seq<ResponseStatistics>, current: ResponseStatistics, minSamples: int,
                  threshold: real, stdev: StdevFunction, describe: Describe)
    requires |h| < minSamples
    ensures var r := Detect(h, current, minSamples, threshold, stdev, describe);
            r.Detected? && !r.result.isAnomaly && r.result.anomalyScore == 0.0
            && r.result.anomaliesDetected == [] && r.result.details == InsufficientData
  {
  }

  /** Warm path: the response is anomalous exactly when one of the metrics
      with positive standard deviation has a z-score above the threshold,
      and the score is the largest such z-score, or 0 when no metric has a
      positive standard deviation. */
  lemma WarmPath(h: seq<ResponseStatistics>, current: ResponseStatistics, minSamples: int,
                 threshold: real, stdev: StdevFunction, describe: Describe)
    requires |h| >= minSamples && h != []
    ensures var r := Detect(h, current, minSamples, threshold, stdev, describe);
            var ds := DeviationsOf(h, current, Metrics, stdev);
            && r.Detected? && r.result.details == Deviations(ds)
            && (r.result.isAnomaly <==> exists d :: d in ds && d.zScore > threshold)
            && (forall d :: d in ds ==> d.zScore <= r.result.anomalyScore)
            && (ds != [] ==> exists d :: d in ds && d.zScore == r.result.anomalyScore)
            && (ds == [] ==> r.result.anomalyScore == 0.0)
            && (forall d :: d in ds ==> d.stdev > 0.0 && d.zScore >= 0.0)
  {
    var ds := DeviationsOf(h, current, Metrics, stdev);
    MaxZIsMaximum(ds);
    forall d | d in ds
      ensures d.stdev > 0.0 && d.zScore >= 0.0
    {
      var m :| m in Metrics && DeviationOf(h, current, m, stdev) == Some(d);
    }
  }

  /** An empty history with `min_samples` of 0 or less raises. */
  lemma EmptyHistoryRaises(current: ResponseStatistics, minSamples: int,
                           threshold: real, stdev: StdevFunction, describe: Describe)
    requires minSamples <= 0
    ensures Detect([], current, minSamples, threshold, stdev, describe) == StatisticsError
  {
  }

  class AnomalyDetector {
    const bucketName: string
    const thresholdSigma: real
    const stdev: StdevFunction
    const describe: Describe
    /** The statistics object in the bucket. */
    var stored: seq<ResponseStatistics>

    constructor(bucketName: string, thresholdSigma: real, stdev: StdevFunction, describe: Describe,
                stored: seq<ResponseStatistics>)
      ensures this.bucketName == bucketName && this.thresholdSigma == thresholdSigma
      ensures this.stdev == stdev && this.describe == describe && this.stored == stored
    {
      this.bucketName := bucketName;
      this.thresholdSigma := thresholdSigma;
      this.stdev := stdev;
      this.describe := describe;
      this.stored := stored;
    }

    /** `load_historical_stats`. */
    method LoadHistoricalStats() returns (h: seq<ResponseStatistics>)
      ensures h == stored
    {
      h := stored;
    }

    /** `save_historical_stats`: only the newest 100 entries are written. */
    method SaveHistoricalStats(statsList: seq<ResponseStatistics>)
      modifies this
      ensures stored == KeepLast(statsList)
    {
      stored := KeepLast(statsList);
    }

    /** The loop of `detect_anomalies` over the six metrics. */
    method CompareMetrics(history: seq<ResponseStatistics>, current: ResponseStatistics)
      returns (anomalies: seq<string>, deviations: seq<Deviation>)
      requires history != []
      ensures deviations == DeviationsOf(history, current, Metrics, stdev)
      ensures anomalies == Flagged(deviations, thresholdSigma, describe)
    {
      anomalies := [];
      deviations := [];
      for k := 0 to |Metrics|
        invariant deviations == DeviationsOf(history, current, Metrics[..k], stdev)
        invariant anomalies == Flagged(deviations, thresholdSigma, describe)
      {
        var m := Metrics[k];
        DeviationsStep(history, current, Metrics, k, stdev);
        var deviation := DeviationOf(history, current, m, stdev);
        if deviation.Some? {
          var d := deviation.value;
          FlaggedStep(deviations, d, thresholdSigma, describe);
          deviations := deviations + [d];
          if d.zScore > thresholdSigma {
            anomalies := anomalies + [describe(d)];
          }
        }
      }
      assert Metrics[..|Metrics|] == Metrics;
    }

    /** `detect_anomalies`: every call that returns appends the current
        sample to the history it loaded and writes back the newest 100. */
    method DetectAnomalies(current: ResponseStatistics, minSamples: int) returns (r: Detection)
      modifies this
      ensures r == Detect(old(stored), current, minSamples, thresholdSigma, stdev, describe)
      ensures r.Detected? ==> stored == KeepLast(old(stored) + [current])
      ensures r.StatisticsError? ==> stored == old(stored)
    {
      var history := LoadHistoricalStats();
      if |history| < minSamples {
        SaveHistoricalStats(history + [current]);
        return Detected(AnomalyResult(false, 0.0, [], InsufficientData));
      }
      if history == [] {
        return StatisticsError;
      }
      var anomalies, deviations := CompareMetrics(history, current);
      var score := if deviations != [] then MaxZ(deviations) else 0.0;
      SaveHistoricalStats(history + [current]);
      r := Detected(AnomalyResult(|anomalies| > 0, score, anomalies, Deviations(deviations)));
    }
  }
}
