/**
  The evaluation counters: keyword-based anomaly detection over test lines,
  detection counts and precision/recall/F1 over a labelled dataset, and the
  summary-quality scores. Percentages are exact rationals (the two-decimal
  rounding of the reports is left out).
*/
module Evaluation {
  import opened Wrappers
  import opened Text

  /** The detection keywords, each looked for in the upper-cased line. */
  const ANOMALY_KEYWORDS: seq<string> := ["ERROR", "CRITICAL", "Failed", "Timeout"]

  /** `any(keyword in line.upper() for keyword in anomaly_keywords)`. */
  predicate Flagged(line: string) {
    exists k :: 0 <= k < |ANOMALY_KEYWORDS| && Contains(Upper(line), ANOMALY_KEYWORDS[k])
  }

  /**
    `Failed` and `Timeout` hold lower-case letters, so they never occur in an
    upper-cased line: only `ERROR` and `CRITICAL` ever flag a line.
  */
  lemma FlaggedOnlyByUpperKeywords(line: string)
    ensures Flagged(line) <==> Contains(Upper(line), "ERROR") || Contains(Upper(line), "CRITICAL")
  {
    assert ANOMALY_KEYWORDS[2] == "Failed" && "Failed"[1] == 'a';
    UpperLacksLowerNeedle(line, "Failed", 1);
    assert ANOMALY_KEYWORDS[3] == "Timeout" && "Timeout"[1] == 'i';
    UpperLacksLowerNeedle(line, "Timeout", 1);
    if Contains(Upper(line), "ERROR") {
      assert Contains(Upper(line), ANOMALY_KEYWORDS[0]);
    }
    if Contains(Upper(line), "CRITICAL") {
      assert Contains(Upper(line), ANOMALY_KEYWORDS[1]);
    }
  }

  /** A line reporting a timeout in mixed case (`Connection Timeout`) is not flagged unless it also says error or critical. */
  lemma TimeoutAloneNotFlagged(line: string)
    requires !Contains(Upper(line), "ERROR") && !Contains(Upper(line), "CRITICAL")
    ensures !Flagged(line)
  {
    FlaggedOnlyByUpperKeywords(line);
  }

  /** How many of the lines are flagged. */
  function CountFlagged(lines: seq<string>): (n: nat)
    ensures n <= |lines|
    decreases |lines|
  {
    if |lines| == 0 then 0 else CountFlagged(lines[..|lines| - 1]) + (if Flagged(lines[|lines| - 1]) then 1 else 0)
  }

  datatype DetectionReport = DetectionReport(
    totalAnomalies: nat, detected: nat, falsePositives: nat, falseNegatives: nat,
    accuracy: real, precision: real, recall: real)

  /** `detected / total * 100`, or 0 when `total` is 0. */
  function Percent(part: nat, total: nat): (p: real)
    ensures total == 0 ==> p == 0.0
    ensures total > 0 ==> p * (total as real) == (part as real) * 100.0
    ensures part <= total ==> 0.0 <= p <= 100.0
  {
    if total == 0 then 0.0 else (part as real) / (total as real) * 100.0
  }

  /**
    `evaluate_anomaly_detection(test_logs)`. The "is an anomaly" test and
    the "would be detected" test are the same keyword test, so nothing is
    ever a false positive or a false negative, and every anomaly is
    detected.
  */
  method EvaluateAnomalyDetection(lines: seq<string>) returns (r: DetectionReport)
    ensures r.totalAnomalies == CountFlagged(lines) && r.detected == r.totalAnomalies
    ensures r.falsePositives == 0 && r.falseNegatives == 0
    ensures r.accuracy == r.recall
    ensures r.totalAnomalies == 0 ==> r.accuracy == 0.0 && r.precision == 0.0 && r.recall == 0.0
    ensures r.totalAnomalies > 0 ==> r.accuracy == 100.0 && r.precision == 100.0
  {
    var detected, total, fp, fn := 0, 0, 0, 0;
    var i := 0;
    while i < |lines|
      invariant 0 <= i <= |lines|
      invariant total == CountFlagged(lines[..i]) && detected == total
      invariant fp == 0 && fn == 0
    {
      assert lines[..i + 1][..i] == lines[..i];
      var isAnomaly := Flagged(lines[i]);
      var wouldDetect := Flagged(lines[i]);
      if isAnomaly {
        total := total + 1;
        if wouldDetect {
          detected := detected + 1;
        } else {
          fn := fn + 1;
        }
      } else if wouldDetect {
        fp := fp + 1;
      }
      i := i + 1;
    }
    assert lines[..i] == lines;
    r := DetectionReport(total, detected, fp, fn, Percent(detected, total), Percent(detected, detected + fp), Percent(detected, total));
  }

  // ---------------------------------------------------------------------------
  // Labelled dataset
  // ---------------------------------------------------------------------------

  /** One dataset entry: its line and its `is_anomaly` label (`None` when absent). */
  datatype LabelledLine = LabelledLine(logLine: string, anomalyLabel: Option<int>)

  predicate IsAnomaly(e: LabelledLine) {
    e.anomalyLabel == Some(1)
  }

  datatype DatasetCounts = DatasetCounts(totalLogs: nat, trueAnomalies: nat, detected: nat, falsePositives: nat, falseNegatives: nat)

  /** The log lines of the entries, in order. */
  function LogLines(entries: seq<LabelledLine>): (ls: seq<string>)
    ensures |ls| == |entries|
    ensures forall i :: 0 <= i < |entries| ==> ls[i] == entries[i].logLine
  {
    seq(|entries|, i requires 0 <= i < |entries| => entries[i].logLine)
  }

  /** `sum(1 for log in test_logs if log.get('is_anomaly', 0) == 1)`. */
  function Anomalies(entries: seq<LabelledLine>): nat
    decreases |entries|
  {
    if |entries| == 0 then 0 else (if IsAnomaly(entries[0]) then 1 else 0) + Anomalies(entries[1..])
  }

  /** How many entries have label `anomaly` and detector verdict `flagged`. */
  function Tally(entries: seq<LabelledLine>, anomaly: bool, flagged: bool): nat
    decreases |entries|
  {
    if |entries| == 0 then 0
    else (if IsAnomaly(entries[0]) == anomaly && Flagged(entries[0].logLine) == flagged then 1 else 0) + Tally(entries[1..], anomaly, flagged)
  }

  /** Counting over one more entry at the end adds that entry's own contribution. */
  lemma {:induction false} AnomaliesSnoc(entries: seq<LabelledLine>, e: LabelledLine)
    ensures Anomalies(entries + [e]) == Anomalies(entries) + (if IsAnomaly(e) then 1 else 0)
    decreases |entries|
  {
    if |entries| > 0 {
      assert (entries + [e])[1..] == entries[1..] + [e];
      AnomaliesSnoc(entries[1..], e);
    }
  }

  lemma {:induction false} TallySnoc(entries: seq<LabelledLine>, e: LabelledLine, anomaly: bool, flagged: bool)
    ensures Tally(entries + [e], anomaly, flagged) ==
      Tally(entries, anomaly, flagged) + (if IsAnomaly(e) == anomaly && Flagged(e.logLine) == flagged then 1 else 0)
    decreases |entries|
  {
    if |entries| > 0 {
      assert (entries + [e])[1..] == entries[1..] + [e];
      TallySnoc(entries[1..], e, anomaly, flagged);
    }
  }

  /**
    The counters of `evaluate_on_dataset` over the entries, in order: the
    labelled anomalies, the anomalies flagged (detected) and not flagged
    (missed), and the normal entries flagged (false positives); the detected
    anomalies and the false positives are together the lines the detector
    flags.
  */
  function CountDataset(entries: seq<LabelledLine>): (c: DatasetCounts)
    ensures c.totalLogs == |entries|
    ensures c.trueAnomalies == Anomalies(entries)
    ensures c.detected == Tally(entries, true, true)
    ensures c.falsePositives == Tally(entries, false, true)
    ensures c.falseNegatives == Tally(entries, true, false)
    ensures c.detected + c.falsePositives == CountFlagged(LogLines(entries))
    decreases |entries|
  {
    if |entries| == 0 then DatasetCounts(0, 0, 0, 0, 0)
    else
      var prefix := entries[..|entries| - 1];
      var c := CountDataset(prefix);
      var e := entries[|entries| - 1];
      assert entries == prefix + [e];
      AnomaliesSnoc(prefix, e);
      TallySnoc(prefix, e, true, true);
      TallySnoc(prefix, e, false, true);
      TallySnoc(prefix, e, true, false);
      assert LogLines(entries)[..|entries| - 1] == LogLines(prefix);
      var flagged := Flagged(e.logLine);
      DatasetCounts(
        c.totalLogs + 1,
        c.trueAnomalies + (if IsAnomaly(e) then 1 else 0),
        c.detected + (if IsAnomaly(e) && flagged then 1 else 0),
        c.falsePositives + (if !IsAnomaly(e) && flagged then 1 else 0),
        c.falseNegatives + (if IsAnomaly(e) && !flagged then 1 else 0))
  }

  /**
    Every labelled anomaly is either detected or missed, and false positives
    come only from the entries not labelled as anomalies.
  */
  lemma {:induction false} DatasetCountsBalance(entries: seq<LabelledLine>)
    ensures var c := CountDataset(entries);
      c.detected + c.falseNegatives == c.trueAnomalies &&
      c.falsePositives <= c.totalLogs - c.trueAnomalies &&
      c.trueAnomalies <= c.totalLogs
    decreases |entries|
  {
    if |entries| > 0 {
      DatasetCountsBalance(entries[..|entries| - 1]);
    }
  }

  datatype DatasetScores = DatasetScores(precision: real, recall: real, f1: real)

  /** The F1 score: the harmonic mean of precision and recall, 0 when both are 0. */
  function F1(p: real, r: real): (f: real)
    ensures p + r <= 0.0 ==> f == 0.0
    ensures p + r > 0.0 ==> f * (p + r) == 2.0 * p * r
  {
    if p + r > 0.0 then 2.0 * p * r / (p + r) else 0.0
  }

  /**
    Precision (detected over flagged) and recall (detected over labelled
    anomalies) as percentages, each 0 when its denominator is 0, and their F1.
  */
  function Scores(c: DatasetCounts): (s: DatasetScores)
    ensures c.detected + c.falsePositives == 0 ==> s.precision == 0.0
    ensures c.detected + c.falsePositives > 0 ==>
      s.precision * ((c.detected + c.falsePositives) as real) == (c.detected as real) * 100.0
    ensures c.trueAnomalies == 0 ==> s.recall == 0.0
    ensures c.trueAnomalies > 0 ==> s.recall * (c.trueAnomalies as real) == (c.detected as real) * 100.0
    ensures s.precision + s.recall == 0.0 ==> s.f1 == 0.0
    ensures s.precision + s.recall > 0.0 ==> s.f1 * (s.precision + s.recall) == 2.0 * s.precision * s.recall
  {
    var p := Percent(c.detected, c.detected + c.falsePositives);
    var r := Percent(c.detected, c.trueAnomalies);
    DatasetScores(p, r, F1(p, r))
  }

  /** Scores of counts in which the detected anomalies are among the labelled ones are percentages. */
  lemma ScoresOfBalancedCounts(c: DatasetCounts)
    requires c.detected <= c.trueAnomalies
    ensures var s := Scores(c);
      0.0 <= s.precision <= 100.0 && 0.0 <= s.recall <= 100.0 && 0.0 <= s.f1 <= 100.0
  {
    var p := Percent(c.detected, c.detected + c.falsePositives);
    var r := Percent(c.detected, c.trueAnomalies);
    assert Scores(c) == DatasetScores(p, r, F1(p, r));
    F1Bound(p, r);
  }

  /** On any dataset the scores are percentages, and F1 lies between 0 and 100. */
  lemma ScoresInRange(entries: seq<LabelledLine>)
    ensures var s := Scores(CountDataset(entries));
      0.0 <= s.precision <= 100.0 && 0.0 <= s.recall <= 100.0 && 0.0 <= s.f1 <= 100.0
  {
    DatasetCountsBalance(entries);
    ScoresOfBalancedCounts(CountDataset(entries));
  }

  lemma ProductNonNegative(a: real, b: real)
    requires a >= 0.0 && b >= 0.0
    ensures a * b >= 0.0
  {
  }

  lemma ProductPositive(a: real, b: real)
    requires a > 0.0 && b > 0.0
    ensures a * b > 0.0
  {
  }

  /** `x / d <= bound` follows from `x <= bound * d` when `d` is positive. */
  lemma QuotientBound(x: real, d: real, bound: real)
    requires d > 0.0 && 0.0 <= x <= bound * d
    ensures 0.0 <= x / d <= bound
  {
    var q := x / d;
    assert q * d == x;
    if q > bound {
      ProductPositive(q - bound, d);
    }
    if q < 0.0 {
      ProductPositive(-q, d);
    }
  }

  /** The harmonic mean of two percentages is a percentage. */
  lemma F1Bound(p: real, r: real)
    requires 0.0 <= p <= 100.0 && 0.0 <= r <= 100.0
    ensures 0.0 <= F1(p, r) <= 100.0
  {
    if p + r > 0.0 {
      ProductNonNegative(100.0 - p, r);
      ProductNonNegative(100.0 - r, p);
      ProductNonNegative(p, r);
      assert 2.0 * p * r <= 100.0 * (p + r);
      QuotientBound(2.0 * p * r, p + r, 100.0);
    }
  }

  // ---------------------------------------------------------------------------
  // Summary quality
  // ---------------------------------------------------------------------------

  const IMPORTANT_KEYWORDS: seq<string> := ["error", "failed", "timeout", "critical", "connection", "service", "port"]

  /** One summary record; missing fields read as the empty string. */
  datatype SummaryEntry = SummaryEntry(summary: Option<string>, logLine: Option<string>)

  /** Some important keyword occurs in both the lower-cased line and the lower-cased summary. */
  predicate SharesKeyword(e: SummaryEntry) {
    exists k :: 0 <= k < |IMPORTANT_KEYWORDS| &&
      Contains(Lower(e.logLine.GetOr("")), IMPORTANT_KEYWORDS[k]) && Contains(Lower(e.summary.GetOr("")), IMPORTANT_KEYWORDS[k])
  }

  /** The summaries' total length. */
  function TotalLength(es: seq<SummaryEntry>): nat
    decreases |es|
  {
    if |es| == 0 then 0 else TotalLength(es[..|es| - 1]) + |es[|es| - 1].summary.GetOr("")|
  }

  /** How many summaries share a keyword with their line (the inner loop stops at the first match). */
  function KeywordMatches(es: seq<SummaryEntry>): (n: nat)
    ensures n <= |es|
    decreases |es|
  {
    if |es| == 0 then 0 else KeywordMatches(es[..|es| - 1]) + (if SharesKeyword(es[|es| - 1]) then 1 else 0)
  }

  datatype QualityReport = QualityReport(totalSummaries: nat, avgLength: real, keywordCoverage: real, informativeness: real)

  /** `m` is `total / n`, stated without division. */
  predicate IsMean(m: real, total: nat, n: nat) {
    m * (n as real) == total as real
  }

  /** `p` is `part / total * 100`, stated without division. */
  predicate IsPercentage(p: real, part: nat, total: nat) {
    p * (total as real) == (part as real) * 100.0
  }

  /** The mean of a total over `n > 0` items. */
  function Mean(total: nat, n: nat): (m: real)
    requires n > 0
    ensures m * (n as real) == total as real
    ensures m >= 0.0
  {
    var m := (total as real) / (n as real);
    QuotientBound(total as real, n as real, total as real);
    m
  }

  /**
    `min(100, (avg_length / 50) * 50 + keyword_coverage * 0.5)`: the
    average length plus half the coverage, capped at 100.
  */
  function Informativeness(avg: real, coverage: real): (s: real)
    requires avg >= 0.0 && 0.0 <= coverage <= 100.0
    ensures 0.0 <= s <= 100.0
    ensures s < 100.0 ==> s == avg + coverage / 2.0
    ensures s == 100.0 <==> avg + coverage / 2.0 >= 100.0
  {
    var score := avg / 50.0 * 50.0 + coverage * 0.5;
    assert avg / 50.0 * 50.0 == avg;
    if score < 100.0 then score else 100.0
  }

  /** The report for `n > 0` summaries of total length `total`, `matches` of which share a keyword. */
  function Report(n: nat, total: nat, matches: nat): (r: QualityReport)
    requires 0 < n && matches <= n
    ensures r.totalSummaries == n
    ensures 0.0 <= r.keywordCoverage <= 100.0
    ensures 0.0 <= r.informativeness <= 100.0
    ensures r.informativeness < 100.0 <==> r.avgLength + r.keywordCoverage / 2.0 < 100.0
    ensures r.informativeness < 100.0 ==> r.informativeness == r.avgLength + r.keywordCoverage / 2.0
  {
    var avg := Mean(total, n);
    var coverage := Percent(matches, n);
    QualityReport(n, avg, coverage, Informativeness(avg, coverage))
  }

  /** The average and the coverage of a report, as products. */
  lemma ReportMeans(n: nat, total: nat, matches: nat)
    requires 0 < n && matches <= n
    ensures IsMean(Report(n, total, matches).avgLength, total, n)
    ensures IsPercentage(Report(n, total, matches).keywordCoverage, matches, n)
  {
    var avg := Mean(total, n);
    var coverage := Percent(matches, n);
    assert Report(n, total, matches).avgLength == avg;
    assert Report(n, total, matches).keywordCoverage == coverage;
  }

  /**
    `evaluate_summarization_quality_enhanced(summaries)`: all zeros for no
    summaries; otherwise the average length, the share of summaries that
    repeat a keyword of their line, and the capped informativeness score.
  */
  function SummaryQuality(es: seq<SummaryEntry>): (r: QualityReport)
    ensures |es| == 0 ==> r == QualityReport(0, 0.0, 0.0, 0.0)
    ensures r.totalSummaries == |es|
    ensures 0.0 <= r.keywordCoverage <= 100.0
    ensures 0.0 <= r.informativeness <= 100.0
    ensures |es| > 0 ==> (r.informativeness < 100.0 <==> r.avgLength + r.keywordCoverage / 2.0 < 100.0)
    ensures r.informativeness < 100.0 ==> r.informativeness == r.avgLength + r.keywordCoverage / 2.0
  {
    if |es| == 0 then QualityReport(0, 0.0, 0.0, 0.0)
    else Report(|es|, TotalLength(es), KeywordMatches(es))
  }

  /**
    For a non-empty list, the average length times the number of summaries
    is the total length, and the coverage is the percentage of summaries that
    share a keyword with their line.
  */
  lemma SummaryQualityMeans(es: seq<SummaryEntry>)
    requires |es| > 0
    ensures IsMean(SummaryQuality(es).avgLength, TotalLength(es), |es|)
    ensures IsPercentage(SummaryQuality(es).keywordCoverage, KeywordMatches(es), |es|)
  {
    var n, t, m := |es|, TotalLength(es), KeywordMatches(es);
    ReportMeans(n, t, m);
    assert SummaryQuality(es) == Report(n, t, m);
  }
}
