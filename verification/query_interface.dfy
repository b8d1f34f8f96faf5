/**
  The natural-language query front end: the time window a query asks about,
  the route a query takes, and the answers each route builds from the
  database rows and the language model's reply.
*/
module QueryInterface {
  import opened Wrappers
  import opened Text

  // ---------------------------------------------------------------------------
  // Time window
  // ---------------------------------------------------------------------------

  /** Word `i` is `last` and another word follows it. */
  predicate PairAt(ws: seq<string>, i: int) {
    0 <= i && i + 1 < |ws| && ws[i] == "last"
  }

  /** The word after a `last` at `i` is not an integer, so `int()` raises. */
  predicate FailsAt(ws: seq<string>, i: int) {
    PairAt(ws, i) && ParseInt(ws[i + 1]).None?
  }

  /**
    The extraction loop from word `i` on, with `hours` so far: every `last`
    followed by a word sets the hours to that word's value; the first word
    that is not an integer ends the loop and resets the hours to 1.
  */
  function ScanLast(ws: seq<string>, i: nat, hours: int): int
    requires i <= |ws|
    decreases |ws| - i
  {
    if i == |ws| then hours
    else if PairAt(ws, i) then
      match ParseInt(ws[i + 1])
      case None => 1
      case Some(n) => ScanLast(ws, i + 1, n)
    else ScanLast(ws, i + 1, hours)
  }

  /** A `last` followed by a non-integer anywhere ahead makes the loop end with 1. */
  lemma {:induction false} ScanLastFails(ws: seq<string>, i: nat, hours: int, j: nat)
    requires i <= j < |ws| && FailsAt(ws, j)
    ensures ScanLast(ws, i, hours) == 1
    decreases |ws| - i
  {
    if PairAt(ws, i) && ParseInt(ws[i + 1]).Some? {
      ScanLastReturns(ws, i, hours, j);
    } else if !PairAt(ws, i) {
      ScanLastFails(ws, i + 1, hours, j);
    }
  }

  lemma {:induction false} ScanLastReturns(ws: seq<string>, i: nat, hours: int, j: nat)
    requires i <= j < |ws| && FailsAt(ws, j) && PairAt(ws, i) && ParseInt(ws[i + 1]).Some?
    ensures ScanLast(ws, i, hours) == 1
    decreases |ws| - i, 0
  {
    assert i != j;
    ScanLastFails(ws, i + 1, ParseInt(ws[i + 1]).value, j);
  }

  /** Without a `last` followed by a word, the loop keeps the hours it started with. */
  lemma {:induction false} ScanLastNoPairs(ws: seq<string>, i: nat, hours: int)
    requires i <= |ws|
    requires forall j :: i <= j < |ws| ==> !PairAt(ws, j)
    ensures ScanLast(ws, i, hours) == hours
    decreases |ws| - i
  {
    if i < |ws| {
      ScanLastNoPairs(ws, i + 1, hours);
    }
  }

  /**
    What the extraction loop computes when every `last` is followed by an
    integer, stated without the loop: the value after the last `last`.
  */
  lemma {:induction false} ScanLastReference(ws: seq<string>, i: nat, hours: int, j: nat)
    requires i <= j < |ws| && PairAt(ws, j)
    requires forall k :: i <= k < |ws| ==> !FailsAt(ws, k)
    requires forall k :: j < k < |ws| ==> !PairAt(ws, k)
    ensures ParseInt(ws[j + 1]) == Some(ScanLast(ws, i, hours))
    decreases |ws| - i
  {
    if i == j {
      assert !FailsAt(ws, i);
      ScanLastNoPairs(ws, i + 1, ParseInt(ws[i + 1]).value);
    } else if PairAt(ws, i) {
      assert !FailsAt(ws, i);
      ScanLastReference(ws, i + 1, ParseInt(ws[i + 1]).value, j);
    } else {
      ScanLastReference(ws, i + 1, hours, j);
    }
  }

  /**
    The hours a query asks about: fixed phrases for one hour, one day and one
    week, checked in that order; otherwise, when the query mentions `last`
    and `hour`, the number after `last`; otherwise 1.
  */
  function ExtractHours(query: string): (h: int)
    ensures var q := Lower(query);
      (Contains(q, "last hour") || Contains(q, "last 1 hour")) ==> h == 1
    ensures var q := Lower(query);
      !(Contains(q, "last hour") || Contains(q, "last 1 hour")) && (Contains(q, "last 24 hours") || Contains(q, "last day")) ==> h == 24
    ensures var q := Lower(query);
      (!(Contains(q, "last hour") || Contains(q, "last 1 hour")) && !(Contains(q, "last 24 hours") || Contains(q, "last day")) &&
       Contains(q, "last week")) ==> h == 168
    ensures !Contains(Lower(query), "last") || !Contains(Lower(query), "hour") ==> h == 1 || h == 24 || h == 168
    ensures var q := Lower(query);
      (!Contains(q, "last hour") && !Contains(q, "last 1 hour") && !Contains(q, "last 24 hours") &&
       !Contains(q, "last day") && !Contains(q, "last week") && !(Contains(q, "last") && Contains(q, "hour"))) ==> h == 1
  {
    var q := Lower(query);
    if Contains(q, "last hour") || Contains(q, "last 1 hour") then 1
    else if Contains(q, "last 24 hours") || Contains(q, "last day") then 24
    else if Contains(q, "last week") then 168
    else if Contains(q, "last") && Contains(q, "hour") then ScanLast(Words(q), 0, 1)
    else 1
  }

  /**
    Outside the fixed phrases, a query like `errors in the last 6 hours`
    asks about the number after its last `last`, provided every `last`
    that is followed by a word is followed by an integer.
  */
  lemma ExtractedNumber(query: string, j: nat)
    requires var q := Lower(query);
      !Contains(q, "last hour") && !Contains(q, "last 1 hour") && !Contains(q, "last 24 hours") &&
      !Contains(q, "last day") && !Contains(q, "last week") && Contains(q, "hour")
    requires var ws := Words(Lower(query));
      PairAt(ws, j) && (forall k :: 0 <= k < |ws| ==> !FailsAt(ws, k)) && (forall k :: j < k < |ws| ==> !PairAt(ws, k))
    ensures ParseInt(Words(Lower(query))[j + 1]) == Some(ExtractHours(query))
  {
    var q := Lower(query);
    var ws := Words(q);
    LastWordMeansLast(q, ws, j);
    ScanLastReference(ws, 0, 1, j);
  }

  /** A query in which no `last` is followed by another word keeps the default of one hour. */
  lemma NoNumberMeansOneHour(query: string)
    requires forall j :: 0 <= j < |Words(Lower(query))| ==> !PairAt(Words(Lower(query)), j)
    ensures ExtractHours(query) == 1 || ExtractHours(query) == 24 || ExtractHours(query) == 168
    ensures var q := Lower(query);
      !Contains(q, "last 24 hours") && !Contains(q, "last day") && !Contains(q, "last week") ==> ExtractHours(query) == 1
  {
    ScanLastNoPairs(Words(Lower(query)), 0, 1);
  }

  /** Any `last` followed by something that is not an integer resets the hours to 1. */
  lemma FailedNumberMeansOneHour(query: string, j: nat)
    requires FailsAt(Words(Lower(query)), j)
    ensures ExtractHours(query) == 1 || ExtractHours(query) == 24 || ExtractHours(query) == 168
    ensures var q := Lower(query);
      !Contains(q, "last 24 hours") && !Contains(q, "last day") && !Contains(q, "last week") ==> ExtractHours(query) == 1
  {
    var q := Lower(query);
    var ws := Words(q);
    LastWordMeansLast(q, ws, j);
    ScanLastFails(ws, 0, 1, j);
  }

  /** A whitespace-separated word of `s` occurs in `s`. */
  lemma LastWordMeansLast(q: string, ws: seq<string>, j: nat)
    requires ws == Words(q) && j < |ws| && ws[j] == "last"
    ensures Contains(q, "last")
  {
    RunsOccur(q, IsSpace, j);
  }

  // ---------------------------------------------------------------------------
  // Routing
  // ---------------------------------------------------------------------------

  datatype Route =
    | SummarizeErrors(hours: int)
    | SuspiciousAuth(hours: int)
    | ShouldRestart(service: string)
    | OpenIncidents
    | NotRecognized

  const NOT_RECOGNIZED := "Query not recognized. Supported queries: summarize errors, suspicious auth events, restart service recommendation, open incidents."

  /**
    The route of `interactive_query`, by keyword, in a fixed priority:
    summarize errors, suspicious auth events, a restart recommendation (for
    nginx when it is named, apache otherwise), open incidents.
  */
  function RouteOf(query: string): (r: Route)
    ensures var q := Lower(query);
      r.SummarizeErrors? <==> Contains(q, "summarize") && (Contains(q, "error") || Contains(q, "errors"))
    ensures var q := Lower(query);
      r.SuspiciousAuth? <==> !r.SummarizeErrors? && Contains(q, "suspicious") && Contains(q, "auth")
    ensures var q := Lower(query);
      r.ShouldRestart? <==> !r.SummarizeErrors? && !r.SuspiciousAuth? && Contains(q, "should") && Contains(q, "restart")
    ensures var q := Lower(query);
      r.OpenIncidents? <==> !r.SummarizeErrors? && !r.SuspiciousAuth? && !r.ShouldRestart? && Contains(q, "open") && Contains(q, "incident")
    ensures r.SummarizeErrors? || r.SuspiciousAuth? ==> r.hours == ExtractHours(query)
    ensures r.ShouldRestart? ==> (r.service == "nginx" <==> Contains(Lower(query), "nginx")) && (r.service == "nginx" || r.service == "apache")
  {
    var q := Lower(query);
    if Contains(q, "summarize") && (Contains(q, "error") || Contains(q, "errors")) then SummarizeErrors(ExtractHours(query))
    else if Contains(q, "suspicious") && Contains(q, "auth") then SuspiciousAuth(ExtractHours(query))
    else if Contains(q, "should") && Contains(q, "restart") then ShouldRestart(if Contains(q, "nginx") then "nginx" else "apache")
    else if Contains(q, "open") && Contains(q, "incident") then OpenIncidents
    else NotRecognized
  }

  /** The test for `errors` adds nothing: any text containing `errors` contains `error`. */
  lemma ErrorsImpliesError(q: string)
    ensures Contains(q, "errors") ==> Contains(q, "error")
  {
    if Contains(q, "errors") {
      assert "error" + "s" == "errors";
      ContainsPrefixOfNeedle(q, "error", "s");
    }
  }

  /** A query that mentions none of the route keywords is not recognized. */
  lemma UnrelatedQueryNotRecognized(query: string)
    requires var q := Lower(query);
      !Contains(q, "summarize") && !Contains(q, "suspicious") && !Contains(q, "should") && !Contains(q, "open")
    ensures RouteOf(query) == NotRecognized
  {
  }

  // ---------------------------------------------------------------------------
  // Answers
  // ---------------------------------------------------------------------------

  /** The language model's reply when it has a `summary`, with its `action` if any; `None` otherwise. */
  datatype LlmReply = LlmReply(summary: string, action: Option<string>)

  /** `should_restart_service`'s result dictionary; `note` and `suggestedAction` are `None` when absent. */
  datatype Recommendation = Recommendation(recommendation: string, reason: string, errorCount: nat, note: Option<string>, suggestedAction: Option<string>)

  const NO_ERRORS_NOTE := "No errors found - LLM analysis based on general service health"

  /**
    `should_restart_service(service)`, given the service's error lines from
    the last hour and the model's reply. Without errors a reply saying `no`
    (or `not`) gives `NO` and any other reply `CHECK`; with errors a reply
    mentioning a restart gives `YES`; without a reply, three or more errors
    give `YES`.
  */
  function ShouldRestartService(service: string, errors: seq<string>, reply: Option<LlmReply>): (r: Recommendation)
    ensures |errors| == 0 ==> r.errorCount == 0
    ensures |errors| > 0 ==> r.errorCount == |errors|
    ensures r.recommendation in ["YES", "NO", "CHECK"]
    ensures r.recommendation == "CHECK" ==> |errors| == 0 && reply.Some?
    ensures |errors| == 0 && reply.None? ==>
      r == Recommendation("NO", "No recent errors found for " + service + ". Service appears healthy.", 0, None, None)
    ensures |errors| == 0 && reply.Some? ==>
      (r.recommendation == "NO" <==> Contains(Lower(reply.value.summary), "no") || Contains(Lower(reply.value.summary), "not")) &&
      r.reason == reply.value.summary && r.note == Some(NO_ERRORS_NOTE)
    ensures |errors| > 0 && reply.Some? ==>
      (r.recommendation == "YES" <==> Contains(Lower(reply.value.summary), "restart") || Contains(reply.value.action.GetOr(""), "RESTART")) &&
      r.suggestedAction == Some(reply.value.action.GetOr("ESCALATE"))
    ensures |errors| > 0 && reply.None? ==>
      (r.recommendation == "YES" <==> |errors| >= 3) && r.reason == "Found " + NatToString(|errors|) + " error(s) in the last hour"
  {
    if |errors| == 0 then
      match reply
      case Some(LlmReply(summary, _)) =>
        var low := Lower(summary);
        Recommendation(if Contains(low, "no") || Contains(low, "not") then "NO" else "CHECK", summary, 0, Some(NO_ERRORS_NOTE), None)
      case None =>
        Recommendation("NO", "No recent errors found for " + service + ". Service appears healthy.", 0, None, None)
    else
      match reply
      case Some(LlmReply(summary, action)) =>
        var yes := Contains(Lower(summary), "restart") || Contains(action.GetOr(""), "RESTART");
        Recommendation(if yes then "YES" else "NO", summary, |errors|, None, Some(action.GetOr("ESCALATE")))
      case None =>
        Recommendation(if |errors| >= 3 then "YES" else "NO", "Found " + NatToString(|errors|) + " error(s) in the last hour", |errors|, None, None)
  }

  /**
    Testing for `not` besides `no` changes nothing, because `no` occurs in
    `not`: without errors the recommendation is `NO` exactly when the reply
    mentions `no`.
  */
  lemma NotIsRedundant(service: string, reply: LlmReply)
    ensures ShouldRestartService(service, [], Some(reply)).recommendation == "NO" <==> Contains(Lower(reply.summary), "no")
  {
    if Contains(Lower(reply.summary), "not") {
      assert "no" + "t" == "not";
      ContainsPrefixOfNeedle(Lower(reply.summary), "no", "t");
    }
  }

  /**
    The restart route's answer: three lines, which split back into the
    recommendation, the reason and the error count whenever neither of the
    first two holds a line break.
  */
  function RestartAnswer(r: Recommendation): (s: string)
    ensures '\n' !in r.recommendation && '\n' !in r.reason ==>
      Fields(s, '\n') == ["Recommendation: " + r.recommendation, "Reason: " + r.reason, "Errors found: " + NatToString(r.errorCount)]
  {
    var a, b, c := "Recommendation: " + r.recommendation, "Reason: " + r.reason, "Errors found: " + NatToString(r.errorCount);
    RestartLines(a, b, c);
    a + "\n" + b + "\n" + c
  }

  /** Three lines free of line breaks, joined with line breaks, split back into themselves. */
  lemma RestartLines(a: string, b: string, c: string)
    ensures '\n' !in a && '\n' !in b && '\n' !in c ==> Fields(a + "\n" + b + "\n" + c, '\n') == [a, b, c]
  {
    if '\n' !in a && '\n' !in b && '\n' !in c {
      var ts := [a, b, c];
      var bc := [b, c];
      assert ts[1..] == bc && bc[1..] == [c];
      assert Join(bc, "\n") == b + "\n" + c;
      assert Join(ts, "\n") == a + "\n" + (b + "\n" + c);
      assert a + "\n" + b + "\n" + c == a + "\n" + (b + "\n" + c);
      forall k | 0 <= k < |ts|
        ensures forall i :: 0 <= i < |ts[k]| ==> ts[k][i] != '\n'
      {
      }
      FieldsOfJoin(ts, '\n');
    }
  }

  /**
    `summarize_errors_by_time_window(hours)`, given the incidents' log lines
    in the window and the model's reply.
  */
  function SummarizeErrorsAnswer(hours: int, errors: seq<string>, reply: Option<LlmReply>): (s: string)
    ensures |errors| == 0 && reply.None? ==>
      s == "No errors found in the last " + IntToString(hours) + " hour(s). System appears to be operating normally."
    ensures |errors| == 0 && reply.Some? ==>
      s == "LLM Analysis (last " + IntToString(hours) + " hour(s)):\n" + reply.value.summary + "\n\n[Note: No errors found in database. System appears to be operating normally.]"
    ensures |errors| > 0 && reply.Some? ==>
      s == "Summary of errors in last " + IntToString(hours) + " hour(s) (" + NatToString(|errors|) + " incidents):\n" + reply.value.summary
    ensures |errors| > 0 && reply.None? ==>
      s == "Found " + NatToString(|errors|) + " error(s) in the last " + IntToString(hours) + " hour(s). Details: " + Take(Join(errors, "\n"), 500)
  {
    var h := IntToString(hours);
    if |errors| == 0 then
      match reply
      case Some(LlmReply(summary, _)) =>
        "LLM Analysis (last " + h + " hour(s)):\n" + summary + "\n\n[Note: No errors found in database. System appears to be operating normally.]"
      case None => "No errors found in the last " + h + " hour(s). System appears to be operating normally."
    else
      match reply
      case Some(LlmReply(summary, _)) =>
        "Summary of errors in last " + h + " hour(s) (" + NatToString(|errors|) + " incidents):\n" + summary
      case None =>
        "Found " + NatToString(|errors|) + " error(s) in the last " + h + " hour(s). Details: " + Take(Join(errors, "\n"), 500)
  }

  /** The errors answer quotes the model's summary whenever there is one, and gives the error count whenever there are errors. */
  lemma SummarizeErrorsMentions(hours: int, errors: seq<string>, reply: Option<LlmReply>)
    ensures reply.Some? ==> Contains(SummarizeErrorsAnswer(hours, errors, reply), reply.value.summary)
    ensures |errors| > 0 ==> Contains(SummarizeErrorsAnswer(hours, errors, reply), NatToString(|errors|))
  {
    var h := IntToString(hours);
    var n := NatToString(|errors|);
    match reply
    case Some(LlmReply(summary, _)) =>
      if |errors| == 0 {
        var head := "LLM Analysis (last " + h + " hour(s)):\n";
        ContainsLast(head, summary);
        ContainsExtend(head + summary, "\n\n[Note: No errors found in database. System appears to be operating normally.]", summary);
      } else {
        var head := "Summary of errors in last " + h + " hour(s) (";
        ContainsLast(head, n);
        ContainsExtend(head + n, " incidents):\n", n);
        ContainsExtend(head + n + " incidents):\n", summary, n);
        ContainsLast(head + n + " incidents):\n", summary);
      }
    case None =>
      if |errors| > 0 {
        ContainsLast("Found ", n);
        var p := "Found " + n;
        ContainsExtend(p, " error(s) in the last ", n);
        ContainsExtend(p + " error(s) in the last ", h, n);
        ContainsExtend(p + " error(s) in the last " + h, " hour(s). Details: ", n);
        ContainsExtend(p + " error(s) in the last " + h + " hour(s). Details: ", Take(Join(errors, "\n"), 500), n);
      }
  }

  function ClipLines(lines: seq<string>, width: nat): (r: seq<string>)
    ensures |r| == |lines|
    ensures forall i :: 0 <= i < |r| ==> r[i] == Take(lines[i], width)
  {
    seq(|lines|, i requires 0 <= i < |lines| => Take(lines[i], width))
  }

  /** The suspicious-auth route's answer: the count, then at most five lines of at most 200 characters. */
  function SuspiciousAnswer(events: seq<string>): (s: string)
    ensures |events| == 0 ==> s == "No suspicious authentication events found."
    ensures |events| > 0 ==>
      s == "Found " + NatToString(|events|) + " suspicious authentication events:\n" + Join(ClipLines(Take(events, 5), 200), "\n")
  {
    if |events| == 0 then "No suspicious authentication events found."
    else "Found " + NatToString(|events|) + " suspicious authentication events:\n" + Join(ClipLines(Take(events, 5), 200), "\n")
  }

  /** One open-incident line: `ID <id>: <first 100 characters of the log line>`. */
  function IncidentLine(incident: (int, string)): string {
    "ID " + IntToString(incident.0) + ": " + Take(incident.1, 100)
  }

  function IncidentLines(incidents: seq<(int, string)>): (r: seq<string>)
    ensures |r| == |incidents|
    ensures forall i :: 0 <= i < |r| ==> r[i] == IncidentLine(incidents[i])
  {
    seq(|incidents|, i requires 0 <= i < |incidents| => IncidentLine(incidents[i]))
  }

  /** The open-incidents route's answer: the count, then at most ten incident lines. */
  function OpenIncidentsAnswer(incidents: seq<(int, string)>): (s: string)
    ensures |incidents| == 0 ==> s == "No open incidents."
    ensures |incidents| > 0 ==> s == "Found " + NatToString(|incidents|) + " open incidents:\n" + Join(IncidentLines(Take(incidents, 10)), "\n")
  {
    if |incidents| == 0 then "No open incidents."
    else "Found " + NatToString(|incidents|) + " open incidents:\n" + Join(IncidentLines(Take(incidents, 10)), "\n")
  }

  /** The fixed "nothing found" answers are given exactly when the backend returned nothing. */
  lemma EmptyAnswers(events: seq<string>, incidents: seq<(int, string)>)
    ensures SuspiciousAnswer(events) == "No suspicious authentication events found." <==> |events| == 0
    ensures OpenIncidentsAnswer(incidents) == "No open incidents." <==> |incidents| == 0
  {
    if |events| > 0 {
      assert SuspiciousAnswer(events)[0] == 'F';
    }
    if |incidents| > 0 {
      assert OpenIncidentsAnswer(incidents)[0] == 'F';
    }
  }

  /**
    The listed answers carry their rows: each of the first five auth events,
    cut to 200 characters, occurs in the suspicious-auth answer, and each of
    the first ten open incidents' lines occurs in the open-incidents answer.
  */
  lemma SuspiciousAnswerLists(events: seq<string>, i: nat)
    requires i < |events| && i < 5
    ensures Contains(SuspiciousAnswer(events), Take(events[i], 200))
  {
    var lines := ClipLines(Take(events, 5), 200);
    JoinContains(lines, "\n", i);
    ContainsPrepend("Found " + NatToString(|events|) + " suspicious authentication events:\n", Join(lines, "\n"), lines[i]);
  }

  lemma OpenIncidentsAnswerLists(incidents: seq<(int, string)>, i: nat)
    requires i < |incidents| && i < 10
    ensures Contains(OpenIncidentsAnswer(incidents), IncidentLine(incidents[i]))
  {
    var lines := IncidentLines(Take(incidents, 10));
    JoinContains(lines, "\n", i);
    ContainsPrepend("Found " + NatToString(|incidents|) + " open incidents:\n", Join(lines, "\n"), lines[i]);
  }

  /** Both listing answers report how many rows the backend returned. */
  lemma ListingAnswersCount(events: seq<string>, incidents: seq<(int, string)>)
    ensures |events| > 0 ==> Contains(SuspiciousAnswer(events), NatToString(|events|))
    ensures |incidents| > 0 ==> Contains(OpenIncidentsAnswer(incidents), NatToString(|incidents|))
  {
    if |events| > 0 {
      var n := NatToString(|events|);
      var tail := " suspicious authentication events:\n" + Join(ClipLines(Take(events, 5), 200), "\n");
      ContainsMiddle("Found ", n, tail);
      assert "Found " + n + tail == SuspiciousAnswer(events);
    }
    if |incidents| > 0 {
      var n := NatToString(|incidents|);
      var tail := " open incidents:\n" + Join(IncidentLines(Take(incidents, 10)), "\n");
      ContainsMiddle("Found ", n, tail);
      assert "Found " + n + tail == OpenIncidentsAnswer(incidents);
    }
  }

  /**
    What the query front end reads from the database and the model: the
    error lines in a window, the auth log lines in a window, a service's
    error lines in the last hour, the open incidents, and the model's replies
    to the summary and restart prompts.
  */
  datatype Backend = Backend(
    errorsIn: int -> seq<string>,
    authEventsIn: int -> seq<string>,
    serviceErrors: string -> seq<string>,
    openIncidents: seq<(int, string)>,
    summaryReply: Option<LlmReply>,
    restartReply: Option<LlmReply>)

  /** `interactive_query(query)`: route the query and build that route's answer. */
  function InteractiveQuery(query: string, b: Backend): (s: string)
    ensures RouteOf(query) == NotRecognized ==> s == NOT_RECOGNIZED
    ensures RouteOf(query).ShouldRestart? ==>
      s == RestartAnswer(ShouldRestartService(RouteOf(query).service, b.serviceErrors(RouteOf(query).service), b.restartReply))
    ensures RouteOf(query).SummarizeErrors? ==>
      s == SummarizeErrorsAnswer(ExtractHours(query), b.errorsIn(ExtractHours(query)), b.summaryReply)
    ensures RouteOf(query).SuspiciousAuth? ==> s == SuspiciousAnswer(b.authEventsIn(ExtractHours(query)))
    ensures RouteOf(query) == OpenIncidents ==> s == OpenIncidentsAnswer(b.openIncidents)
  {
    match RouteOf(query)
    case SummarizeErrors(h) => SummarizeErrorsAnswer(h, b.errorsIn(h), b.summaryReply)
    case SuspiciousAuth(h) => SuspiciousAnswer(b.authEventsIn(h))
    case ShouldRestart(service) => RestartAnswer(ShouldRestartService(service, b.serviceErrors(service), b.restartReply))
    case OpenIncidents => OpenIncidentsAnswer(b.openIncidents)
    case NotRecognized => NOT_RECOGNIZED
  }
}
