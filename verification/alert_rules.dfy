/**
  The alert-rule generator: incident lines are classified into error
  patterns and counted, each pattern gets a fixed regular expression, and the
  most frequent patterns become suggested rules with a threshold, an action
  and a generated Bash script.
*/
module AlertRules {
  import opened Wrappers
  import opened Text
  import opened OrderedMap
  import opened StableSort

  const PORT_CONFLICT := "port.*conflict"
  const TIMEOUT := "timeout"
  const CONNECTION_FAILED := "connection.*failed"
  const PERMISSION_DENIED := "permission.*denied"
  const GENERIC_ERROR := "ERROR"
  const CRITICAL := "CRITICAL"

  const RESTART_APACHE := "RESTART_APACHE"
  const ESCALATE := "ESCALATE"

  /** How many of the most frequent patterns become suggestions. */
  const MAX_SUGGESTIONS := 5

  // ---------------------------------------------------------------------------
  // Classification and counting
  // ---------------------------------------------------------------------------

  /**
    The error pattern of a line containing `ERROR` (case-sensitive), checked
    in order: a port conflict (`Port` with `80` or `443`), then (ignoring
    case) a timeout, a failed connection, a denied permission, and otherwise
    the generic `ERROR`.
  */
  function ErrorPattern(line: string): (r: Option<string>)
    ensures r.None? <==> !Contains(line, "ERROR")
    ensures r == Some(PORT_CONFLICT) <==> Contains(line, "ERROR") && MentionsWebPort(line)
    ensures r == Some(TIMEOUT) <==>
      Contains(line, "ERROR") && !MentionsWebPort(line) && Contains(Lower(line), "timeout")
    ensures r == Some(CONNECTION_FAILED) <==>
      Contains(line, "ERROR") && !MentionsWebPort(line) && !Contains(Lower(line), "timeout") &&
      Contains(Lower(line), "connection") && Contains(Lower(line), "failed")
    ensures r == Some(PERMISSION_DENIED) <==>
      Contains(line, "ERROR") && !MentionsWebPort(line) && !Contains(Lower(line), "timeout") &&
      !(Contains(Lower(line), "connection") && Contains(Lower(line), "failed")) &&
      Contains(Lower(line), "permission denied")
    ensures r == Some(GENERIC_ERROR) <==>
      Contains(line, "ERROR") && !MentionsWebPort(line) && !Contains(Lower(line), "timeout") &&
      !(Contains(Lower(line), "connection") && Contains(Lower(line), "failed")) &&
      !Contains(Lower(line), "permission denied")
    ensures r.Some? ==> r.value in [PORT_CONFLICT, TIMEOUT, CONNECTION_FAILED, PERMISSION_DENIED, GENERIC_ERROR]
  {
    var low := Lower(line);
    if !Contains(line, "ERROR") then None
    else if MentionsWebPort(line) then Some(PORT_CONFLICT)
    else if Contains(low, "timeout") then Some(TIMEOUT)
    else if Contains(low, "connection") && Contains(low, "failed") then Some(CONNECTION_FAILED)
    else if Contains(low, "permission denied") then Some(PERMISSION_DENIED)
    else Some(GENERIC_ERROR)
  }

  /** The line names a `Port` (case-sensitive) and holds `80` or `443` somewhere. */
  predicate MentionsWebPort(line: string) {
    Contains(line, "Port") && (Contains(line, "80") || Contains(line, "443"))
  }

  /** The counts one incident line adds: its error pattern, if any, then `CRITICAL` if present. */
  function Hits(line: string): (r: seq<string>)
    ensures |r| <= 2
    ensures CRITICAL in r <==> Contains(line, "CRITICAL")
    ensures |r| == (if Contains(line, "ERROR") then 1 else 0) + (if Contains(line, "CRITICAL") then 1 else 0)
    ensures forall i, j :: 0 <= i < j < |r| ==> r[i] != r[j]
  {
    var e := ErrorPattern(line);
    (if e.Some? then [e.value] else []) + (if Contains(line, "CRITICAL") then [CRITICAL] else [])
  }

  /** `patterns[p] = patterns.get(p, 0) + 1`. */
  function Bump(d: Dict<string, nat>, p: string): Dict<string, nat> {
    Put(d, p, Get(d, p).GetOr(0) + 1)
  }

  function BumpAll(d: Dict<string, nat>, ps: seq<string>): Dict<string, nat>
    decreases |ps|
  {
    if |ps| == 0 then d else BumpAll(Bump(d, ps[0]), ps[1..])
  }

  /** The pattern counts after the incidents, processed in order; a pattern gets a counter only by occurring. */
  function Counts(lines: seq<string>): (r: Dict<string, nat>)
    ensures forall i :: 0 <= i < |r| ==> r[i].value >= 1
    decreases |lines|
  {
    if |lines| == 0 then []
    else
      var prefix := Counts(lines[..|lines| - 1]);
      BumpAllPositive(prefix, Hits(lines[|lines| - 1]));
      BumpAll(prefix, Hits(lines[|lines| - 1]))
  }

  /** Bumping keeps every counter positive. */
  lemma {:induction false} BumpAllPositive(d: Dict<string, nat>, ps: seq<string>)
    requires forall i :: 0 <= i < |d| ==> d[i].value >= 1
    ensures forall i :: 0 <= i < |BumpAll(d, ps)| ==> BumpAll(d, ps)[i].value >= 1
    decreases |ps|
  {
    if |ps| > 0 {
      BumpAllPositive(Bump(d, ps[0]), ps[1..]);
    }
  }

  /** How many of the lines count towards pattern `p`. */
  function Occurrences(lines: seq<string>, p: string): nat
    decreases |lines|
  {
    if |lines| == 0 then 0
    else Occurrences(lines[..|lines| - 1], p) + (if p in Hits(lines[|lines| - 1]) then 1 else 0)
  }

  /** Total number of counts the lines contribute. */
  function TotalHits(lines: seq<string>): nat
    decreases |lines|
  {
    if |lines| == 0 then 0 else TotalHits(lines[..|lines| - 1]) + |Hits(lines[|lines| - 1])|
  }

  /** Bumping distinct patterns adds one to the count of each of them. */
  lemma {:induction false} BumpAllGet(d: Dict<string, nat>, ps: seq<string>, p: string)
    requires forall i, j :: 0 <= i < j < |ps| ==> ps[i] != ps[j]
    ensures Get(BumpAll(d, ps), p).GetOr(0) == Get(d, p).GetOr(0) + (if p in ps then 1 else 0)
    decreases |ps|
  {
    if |ps| > 0 {
      PutGet(d, ps[0], Get(d, ps[0]).GetOr(0) + 1, p);
      BumpAllGet(Bump(d, ps[0]), ps[1..], p);
      assert p in ps <==> p == ps[0] || p in ps[1..];
    }
  }

  /** Bumping patterns makes the counts grow by their number. */
  lemma {:induction false} BumpAllSum(d: Dict<string, nat>, ps: seq<string>)
    ensures SumValues(BumpAll(d, ps)) == SumValues(d) + |ps|
    decreases |ps|
  {
    if |ps| > 0 {
      SumValuesPut(d, ps[0], Get(d, ps[0]).GetOr(0) + 1);
      BumpAllSum(Bump(d, ps[0]), ps[1..]);
    }
  }

  /** Bumping never stores a pattern twice. */
  lemma {:induction false} BumpAllDistinct(d: Dict<string, nat>, ps: seq<string>)
    requires DistinctKeys(d)
    ensures DistinctKeys(BumpAll(d, ps))
    decreases |ps|
  {
    if |ps| > 0 {
      PutKeepsDistinct(d, ps[0], Get(d, ps[0]).GetOr(0) + 1);
      BumpAllDistinct(Bump(d, ps[0]), ps[1..]);
    }
  }

  /** Bumping distinct patterns adds one to each of them, and the counts grow by their number. */
  lemma BumpAllCounts(d: Dict<string, nat>, ps: seq<string>, p: string)
    requires forall i, j :: 0 <= i < j < |ps| ==> ps[i] != ps[j]
    ensures Get(BumpAll(d, ps), p).GetOr(0) == Get(d, p).GetOr(0) + (if p in ps then 1 else 0)
    ensures SumValues(BumpAll(d, ps)) == SumValues(d) + |ps|
    ensures DistinctKeys(d) ==> DistinctKeys(BumpAll(d, ps))
  {
    BumpAllGet(d, ps, p);
    BumpAllSum(d, ps);
    if DistinctKeys(d) {
      BumpAllDistinct(d, ps);
    }
  }

  /**
    The count stored for each pattern is the number of incidents that hit it,
    the counts add up to the number of hits, and no pattern is stored twice.
  */
  lemma {:induction false} CountsAreOccurrences(lines: seq<string>, p: string)
    ensures Get(Counts(lines), p).GetOr(0) == Occurrences(lines, p)
    ensures SumValues(Counts(lines)) == TotalHits(lines)
    ensures DistinctKeys(Counts(lines))
    decreases |lines|
  {
    if |lines| > 0 {
      var prefix := lines[..|lines| - 1];
      CountsAreOccurrences(prefix, p);
      BumpAllCounts(Counts(prefix), Hits(lines[|lines| - 1]), p);
    }
  }

  /** Exactly the patterns some incident hits are stored. */
  lemma {:induction false} CountsKeys(lines: seq<string>, p: string)
    ensures Has(Counts(lines), p) <==> Occurrences(lines, p) > 0
    decreases |lines|
  {
    CountsAreOccurrences(lines, p);
    if |lines| > 0 {
      var prefix := lines[..|lines| - 1];
      CountsKeys(prefix, p);
      BumpAllKeys(Counts(prefix), Hits(lines[|lines| - 1]), p);
    }
  }

  lemma {:induction false} BumpAllKeys(d: Dict<string, nat>, ps: seq<string>, p: string)
    ensures Has(BumpAll(d, ps), p) <==> Has(d, p) || p in ps
    decreases |ps|
  {
    if |ps| > 0 {
      var d1 := Bump(d, ps[0]);
      PutHas(d, ps[0], Get(d, ps[0]).GetOr(0) + 1, p);
      BumpAllKeys(d1, ps[1..], p);
      assert p in ps <==> p == ps[0] || p in ps[1..];
    }
  }

  // ---------------------------------------------------------------------------
  // Regular expressions and the analysis
  // ---------------------------------------------------------------------------

  /** `pattern_to_regex`: six fixed expressions, anything else wrapped in a group. */
  function PatternToRegex(p: string): (r: string)
    ensures p !in [PORT_CONFLICT, TIMEOUT, CONNECTION_FAILED, PERMISSION_DENIED, GENERIC_ERROR, CRITICAL] ==> r == "(" + p + ")"
  {
    if p == PORT_CONFLICT then "ERROR.*[Pp]ort\\s+\\d+.*in use"
    else if p == TIMEOUT then "(?i)(timeout|timed out)"
    else if p == CONNECTION_FAILED then "(?i)(connection.*failed|failed to connect)"
    else if p == PERMISSION_DENIED then "(?i)(permission denied)"
    else if p == GENERIC_ERROR then "ERROR"
    else if p == CRITICAL then "CRITICAL"
    else "(" + p + ")"
  }

  /** Every pattern the classifier produces has its own fixed expression, never the fallback group. */
  lemma ClassifiedPatternsHaveFixedRegex(line: string)
    ensures forall p :: p in Hits(line) ==> PatternToRegex(p) != "(" + p + ")"
  {
    forall p | p in Hits(line)
      ensures PatternToRegex(p) != "(" + p + ")"
    {
      var r := PatternToRegex(p);
      assert p in [PORT_CONFLICT, TIMEOUT, CONNECTION_FAILED, PERMISSION_DENIED, GENERIC_ERROR, CRITICAL];
      assert |r| != |p| + 2;
    }
  }

  datatype PatternInfo = PatternInfo(pattern: string, frequency: nat, regex: string)

  function Frequencies(d: Dict<string, nat>): (r: seq<real>)
    ensures |r| == |d|
    ensures forall i :: 0 <= i < |d| ==> r[i] == d[i].value as real
  {
    seq(|d|, i requires 0 <= i < |d| => d[i].value as real)
  }

  function Info(d: Dict<string, nat>, order: seq<nat>): (r: seq<PatternInfo>)
    requires |order| == |d| && forall i :: 0 <= i < |order| ==> order[i] < |d|
    ensures |r| == |d|
    ensures forall i :: 0 <= i < |r| ==>
      r[i] == PatternInfo(d[order[i]].key, d[order[i]].value, PatternToRegex(d[order[i]].key))
  {
    seq(|d|, i requires 0 <= i < |d| => PatternInfo(d[order[i]].key, d[order[i]].value, PatternToRegex(d[order[i]].key)))
  }

  /**
    `analyze_error_patterns` over the given incident lines: every pattern hit
    at least once, listed once with the number of incidents that hit it and
    its regex, most frequent first, ties in first-seen order.
  */
  function Analyze(lines: seq<string>): (r: seq<PatternInfo>)
    ensures forall i :: 0 <= i < |r| ==>
      r[i].frequency == Occurrences(lines, r[i].pattern) && r[i].frequency > 0 && r[i].regex == PatternToRegex(r[i].pattern)
    ensures forall i, j :: 0 <= i < j < |r| ==> r[i].pattern != r[j].pattern
    ensures forall i, j :: 0 <= i < j < |r| ==> r[i].frequency >= r[j].frequency
    ensures forall i, j :: 0 <= i < j < |r| && r[i].frequency == r[j].frequency ==>
      FirstSeen(lines, r[i].pattern) < FirstSeen(lines, r[j].pattern)
    ensures forall p :: Occurrences(lines, p) > 0 ==> exists i :: 0 <= i < |r| && r[i].pattern == p
  {
    var d := Counts(lines);
    var order := Order(Frequencies(d));
    var r := Info(d, order);
    AnalyzeFacts(lines, d, order, r);
    r
  }

  /** Where a pattern first entered the counts (its position in the dictionary). */
  function FirstSeen(lines: seq<string>, p: string): nat {
    Find(Counts(lines), p).GetOr(0)
  }

  /**
    Bumping never moves a pattern that already has a counter, and a pattern
    that gets its first counter is placed after all the old ones.
  */
  lemma {:induction false} BumpAllPlaces(d: Dict<string, nat>, ps: seq<string>, p: string)
    ensures |BumpAll(d, ps)| >= |d|
    ensures Has(d, p) ==> Find(BumpAll(d, ps), p) == Find(d, p)
    ensures !Has(d, p) && Has(BumpAll(d, ps), p) ==> Find(BumpAll(d, ps), p).value >= |d|
    decreases |ps|
  {
    if |ps| > 0 {
      var d1 := Put(d, ps[0], Get(d, ps[0]).GetOr(0) + 1);
      var r := BumpAll(d1, ps[1..]);
      assert BumpAll(d, ps) == r;
      PutPlaces(d, ps[0], Get(d, ps[0]).GetOr(0) + 1, p);
      BumpAllPlaces(d1, ps[1..], p);
      if Has(d, p) {
        assert Has(d1, p);
      } else if Has(d1, p) {
        assert Find(r, p) == Find(d1, p);
      }
    }
  }

  /**
    Going from the first `k` incident lines to all of them keeps every
    pattern's place in the counts, and puts the patterns first seen later
    after all the earlier ones.
  */
  lemma {:induction false} CountsPlaces(lines: seq<string>, k: nat, p: string)
    requires k <= |lines|
    ensures |Counts(lines)| >= |Counts(lines[..k])|
    ensures Has(Counts(lines[..k]), p) ==> Find(Counts(lines), p) == Find(Counts(lines[..k]), p)
    ensures !Has(Counts(lines[..k]), p) && Has(Counts(lines), p) ==> Find(Counts(lines), p).value >= |Counts(lines[..k])|
    decreases |lines|
  {
    if k == |lines| {
      assert lines[..k] == lines;
    } else {
      var prefix := lines[..|lines| - 1];
      assert prefix[..k] == lines[..k];
      CountsPlaces(prefix, k, p);
      BumpAllPlaces(Counts(prefix), Hits(lines[|lines| - 1]), p);
    }
  }

  /**
    The tie-break of `analyze_incident_patterns` is first-seen order: a
    pattern that occurs within the first `k` incident lines comes before one
    that first occurs after them.
  */
  lemma FirstSeenOrder(lines: seq<string>, k: nat, p: string, q: string)
    requires k <= |lines|
    ensures Occurrences(lines[..k], p) > 0 && Occurrences(lines[..k], q) == 0 && Occurrences(lines, q) > 0 ==>
      FirstSeen(lines, p) < FirstSeen(lines, q)
  {
    CountsKeys(lines[..k], p);
    CountsKeys(lines[..k], q);
    CountsKeys(lines, q);
    CountsPlaces(lines, k, p);
    CountsPlaces(lines, k, q);
  }

  lemma AnalyzeFacts(lines: seq<string>, d: Dict<string, nat>, order: seq<nat>, r: seq<PatternInfo>)
    requires d == Counts(lines) && order == Order(Frequencies(d)) && r == Info(d, order)
    ensures forall i :: 0 <= i < |r| ==>
      r[i].frequency == Occurrences(lines, r[i].pattern) && r[i].frequency > 0 && r[i].regex == PatternToRegex(r[i].pattern)
    ensures forall i, j :: 0 <= i < j < |r| ==> r[i].pattern != r[j].pattern
    ensures forall i, j :: 0 <= i < j < |r| ==> r[i].frequency >= r[j].frequency
    ensures forall i, j :: 0 <= i < j < |r| && r[i].frequency == r[j].frequency ==>
      FirstSeen(lines, r[i].pattern) < FirstSeen(lines, r[j].pattern)
    ensures forall p :: Occurrences(lines, p) > 0 ==> exists i :: 0 <= i < |r| && r[i].pattern == p
  {
    AnalyzeEntries(lines, d, order, r);
    AnalyzeOrdered(d, order, r);
    AnalyzeComplete(lines, d, order, r);
  }

  /** Each listed entry holds its pattern's occurrences, and its position in the counts is where `Order` took it from. */
  lemma AnalyzeEntries(lines: seq<string>, d: Dict<string, nat>, order: seq<nat>, r: seq<PatternInfo>)
    requires d == Counts(lines) && order == Order(Frequencies(d)) && r == Info(d, order)
    ensures forall i :: 0 <= i < |r| ==>
      r[i].frequency == Occurrences(lines, r[i].pattern) && r[i].frequency > 0 && r[i].regex == PatternToRegex(r[i].pattern)
    ensures forall i :: 0 <= i < |r| ==> FirstSeen(lines, r[i].pattern) == order[i]
    ensures forall i, j :: 0 <= i < j < |r| ==> r[i].pattern != r[j].pattern
  {
    CountsAreOccurrences(lines, "");
    forall i | 0 <= i < |r|
      ensures r[i].frequency == Occurrences(lines, r[i].pattern) && r[i].frequency > 0
      ensures FirstSeen(lines, r[i].pattern) == order[i]
    {
      var k := d[order[i]].key;
      CountsAreOccurrences(lines, k);
      CountsKeys(lines, k);
      FindUnique(d, k, order[i]);
    }
  }

  /** The entries are by non-increasing frequency, and equal frequencies keep the order of the counts. */
  lemma AnalyzeOrdered(d: Dict<string, nat>, order: seq<nat>, r: seq<PatternInfo>)
    requires order == Order(Frequencies(d)) && r == Info(d, order)
    ensures forall i, j :: 0 <= i < j < |r| ==> r[i].frequency >= r[j].frequency
    ensures forall i, j :: 0 <= i < j < |r| && r[i].frequency == r[j].frequency ==> order[i] < order[j]
  {
    forall i, j | 0 <= i < j < |r|
      ensures r[i].frequency >= r[j].frequency
      ensures r[i].frequency == r[j].frequency ==> order[i] < order[j]
    {
      assert Frequencies(d)[order[i]] >= Frequencies(d)[order[j]];
    }
  }

  /** Every pattern some incident hits is listed. */
  lemma AnalyzeComplete(lines: seq<string>, d: Dict<string, nat>, order: seq<nat>, r: seq<PatternInfo>)
    requires d == Counts(lines) && order == Order(Frequencies(d)) && r == Info(d, order)
    ensures forall p :: Occurrences(lines, p) > 0 ==> exists i :: 0 <= i < |r| && r[i].pattern == p
  {
    forall p | Occurrences(lines, p) > 0
      ensures exists i :: 0 <= i < |r| && r[i].pattern == p
    {
      CountsKeys(lines, p);
      var k := Find(d, p).value;
      assert k in order;
      var i :| 0 <= i < |order| && order[i] == k;
      assert r[i].pattern == p;
    }
  }

  /** The counts add up to the hits: each incident adds 0, 1 or 2. */
  lemma AnalyzeTotal(lines: seq<string>)
    ensures SumValues(Counts(lines)) == TotalHits(lines)
    ensures TotalHits(lines) <= 2 * |lines|
  {
    CountsAreOccurrences(lines, "");
    TotalHitsBound(lines);
  }

  lemma {:induction false} TotalHitsBound(lines: seq<string>)
    ensures TotalHits(lines) <= 2 * |lines|
    decreases |lines|
  {
    if |lines| > 0 {
      TotalHitsBound(lines[..|lines| - 1]);
    }
  }

  // ---------------------------------------------------------------------------
  // Suggestions and scripts
  // ---------------------------------------------------------------------------

  /** `max(1, frequency // 3)`. */
  function Threshold(frequency: nat): (t: nat)
    ensures t >= 1
    ensures frequency < 6 ==> t == 1
    ensures frequency >= 3 ==> 3 * t <= frequency < 3 * t + 3
  {
    if frequency / 3 > 1 then frequency / 3 else 1
  }

  /** Restart Apache for port and timeout patterns, escalate anything else. */
  function Action(pattern: string): (a: string)
    ensures a == RESTART_APACHE <==> Contains(Lower(pattern), "port") || Contains(Lower(pattern), "timeout")
    ensures a == RESTART_APACHE || a == ESCALATE
  {
    var low := Lower(pattern);
    if Contains(low, "port") || Contains(low, "timeout") then RESTART_APACHE
    else ESCALATE
  }

  /**
    The middle branch of the action choice in `suggest_alert_rules` tests for `critical` in the upper-cased
    pattern, which can never hold; both remaining branches escalate, so the
    action depends only on `port` and `timeout`.
  */
  lemma CriticalBranchIsDead(pattern: string)
    ensures !Contains(Upper(pattern), "critical")
  {
    UpperLacksLowerNeedle(pattern, "critical", 0);
  }

  const SCRIPT_HEAD := "#!/bin/bash\n# Auto-generated alert rule\n"

  const SCRIPT_BODY := "\n# Count occurrences in last hour\n" +
    "COUNT=$(tail -n 1000 \"$LOG_FILE\" | grep -c -E \"$PATTERN\" || echo \"0\")\n\n" +
    "if [ \"$COUNT\" -ge \"$THRESHOLD\" ]; then\n" +
    "    echo \"[ALERT] Pattern detected $COUNT times (threshold: $THRESHOLD)\"\n" +
    "    echo \"[ALERT] Pattern: $PATTERN\"\n" +
    "    echo \"[ALERT] Triggering action: $ACTION\"\n    \n" +
    "    # Trigger action\n    ./actions.sh \"$ACTION\"\n    \n    exit 0\nelse\n    exit 1\nfi\n"

  /** The lines of a generated script, in order. */
  function ScriptParts(pattern: string, threshold: int, action: string): (parts: seq<string>)
    ensures |parts| == 8
    ensures parts[1] == "# Pattern: " + pattern + "\n"
    ensures parts[4] == "PATTERN=\"" + PatternToRegex(pattern) + "\"\n"
    ensures parts[5] == "THRESHOLD=" + IntToString(threshold) + "\n"
    ensures parts[6] == "ACTION=\"" + action + "\"\n"
  {
    [ SCRIPT_HEAD,
      "# Pattern: " + pattern + "\n",
      "# Threshold: " + IntToString(threshold) + " occurrence(s)\n# Action: " + action + "\n",
      "\nLOG_FILE=\"${LOG_FILE:-server.log}\"\n",
      "PATTERN=\"" + PatternToRegex(pattern) + "\"\n",
      "THRESHOLD=" + IntToString(threshold) + "\n",
      "ACTION=\"" + action + "\"\n",
      SCRIPT_BODY ]
  }

  /** `generate_alert_rule_bash`: the script with the regex, threshold and action filled in. */
  function GenerateBash(pattern: string, threshold: int, action: string): (script: string)
    ensures Contains(script, "PATTERN=\"" + PatternToRegex(pattern) + "\"\n")
    ensures Contains(script, "THRESHOLD=" + IntToString(threshold) + "\n")
    ensures Contains(script, "ACTION=\"" + action + "\"\n")
    ensures Contains(script, "# Pattern: " + pattern + "\n")
  {
    var parts := ScriptParts(pattern, threshold, action);
    ConcatContains(parts, 1);
    ConcatContains(parts, 4);
    ConcatContains(parts, 5);
    ConcatContains(parts, 6);
    Concat(parts)
  }

  datatype Suggestion = Suggestion(pattern: string, regex: string, threshold: nat, action: string, frequency: nat, script: string)

  /** The rule for one analysed pattern: its threshold, its action and the script carrying both. */
  function SuggestionFor(info: PatternInfo): (s: Suggestion)
    ensures s.pattern == info.pattern && s.frequency == info.frequency && s.regex == info.regex
    ensures s.threshold == Threshold(info.frequency) && s.action == Action(info.pattern)
    ensures s.script == GenerateBash(info.pattern, s.threshold, s.action)
    ensures Contains(s.script, "THRESHOLD=" + IntToString(s.threshold) + "\n")
    ensures Contains(s.script, "ACTION=\"" + s.action + "\"\n")
  {
    var th := Threshold(info.frequency);
    var a := Action(info.pattern);
    Suggestion(info.pattern, info.regex, th, a, info.frequency, GenerateBash(info.pattern, th, a))
  }

  /**
    `suggest_alert_rules`: a rule for each of the five most frequent
    patterns, in the same order, with threshold `max(1, frequency // 3)`.
  */
  function Suggest(lines: seq<string>): (r: seq<Suggestion>)
    ensures |r| == if |Analyze(lines)| <= MAX_SUGGESTIONS then |Analyze(lines)| else MAX_SUGGESTIONS
    ensures forall i :: 0 <= i < |r| ==>
      var info := Analyze(lines)[i];
      r[i].pattern == info.pattern && r[i].frequency == info.frequency && r[i].regex == info.regex &&
      r[i].threshold == Threshold(info.frequency) && r[i].action == Action(info.pattern) &&
      r[i].script == GenerateBash(info.pattern, r[i].threshold, r[i].action)
  {
    var top := Take(Analyze(lines), MAX_SUGGESTIONS);
    seq(|top|, i requires 0 <= i < |top| => SuggestionFor(top[i]))
  }

  /**
    The suggestions are the most frequent patterns: a pattern that occurs but
    gets no rule is left out only because five rules were already made, each
    for a pattern at least as frequent.
  */
  lemma SuggestKeepsMostFrequent(lines: seq<string>, p: string)
    requires Occurrences(lines, p) > 0
    requires forall i :: 0 <= i < |Suggest(lines)| ==> Suggest(lines)[i].pattern != p
    ensures |Suggest(lines)| == MAX_SUGGESTIONS
    ensures forall i :: 0 <= i < |Suggest(lines)| ==> Suggest(lines)[i].frequency >= Occurrences(lines, p)
  {
    var a := Analyze(lines);
    var r := Suggest(lines);
    var j :| 0 <= j < |a| && a[j].pattern == p;
    assert j >= |r|;
    forall i | 0 <= i < |r|
      ensures r[i].frequency >= Occurrences(lines, p)
    {
      assert r[i].frequency == a[i].frequency >= a[j].frequency;
    }
  }
}
