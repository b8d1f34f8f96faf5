/**
  `handle_incident`: record the incident, let the retrieval summary replace
  the given one when it has something new, run the proposed action through
  the tool pipeline, and mark the incident resolved after a real (not
  dry-run) success.
*/
module IncidentHandler {
  import opened Wrappers
  import opened Text
  import McpTools
  import Gate = ApprovalGate
  import Server = McpServer

  /** The database writes and the tool call, in the order they are made. */
  datatype Effect =
    | RecordIncident(logLine: string, summary: string)
    | ExecuteTool(tool: string, incidentId: int, summary: string)
    | MarkResolved(incidentId: int)

  /**
    The end of one call: the exit code with the effects and the tool
    pipeline's result, or `Interrupted` when the approval prompt's input ended.
  */
  datatype Handled =
    | Exited(code: int, effects: seq<Effect>, execution: Server.Execution)
    | Interrupted(effects: seq<Effect>)

  /** The summary handed to the tool call: the retrieval summary only when it is non-empty and new. */
  function ChosenSummary(summary: string, ragSummary: Option<string>): (s: string)
    ensures s != summary <==> ragSummary.Some? && ragSummary.value != "" && ragSummary.value != summary
    ensures s == summary || s == ragSummary.value
  {
    if ragSummary.Some? && ragSummary.value != "" && ragSummary.value != summary then ragSummary.value else summary
  }

  /** Whether a success message reports a dry run (checked case-insensitively). */
  predicate IsDryRunMessage(message: string) {
    Contains(Upper(message), "DRY RUN")
  }

  /**
    `handle_incident(log_line, summary, action)`. `incidentId` is the id the
    database assigns to the new incident; `ragSummary` is the retrieval
    summary, `None` when summarization raised; the remaining parameters are
    those of the tool pipeline.
  */
  function HandleIncident(logLine: string, summary: string, action: string, incidentId: int, ragSummary: Option<string>,
                          reg: McpTools.Registry, cfg: Gate.Config, interactive: bool, responses: seq<string>, env: Gate.Env,
                          run: Server.ScriptRun): (r: Handled)
    ensures |r.effects| >= 2
    ensures r.effects[0] == RecordIncident(logLine, summary)
    ensures r.effects[1] == ExecuteTool(action, incidentId, ChosenSummary(summary, ragSummary))
    ensures r.Exited? ==> r.execution.Finished?
    ensures r.Exited? ==> (r.code == 0 <==> r.execution.success) && (r.code == 0 || r.code == 1)
    ensures r.Exited? ==>
      (|r.effects| == 3 <==> r.execution.success && !IsDryRunMessage(r.execution.message)) &&
      (|r.effects| == 3 ==> r.effects[2] == MarkResolved(incidentId)) &&
      |r.effects| <= 3
    ensures r.Interrupted? ==> |r.effects| == 2
    ensures var e := Server.Execute(reg, cfg, action, Some(incidentId), None, interactive, responses, env, run);
      (r.Interrupted? <==> e.Interrupted?) && (r.Exited? ==> r.execution == e)
  {
    var chosen := ChosenSummary(summary, ragSummary);
    var effects := [RecordIncident(logLine, summary), ExecuteTool(action, incidentId, chosen)];
    var e := Server.Execute(reg, cfg, action, Some(incidentId), None, interactive, responses, env, run);
    match e
    case Interrupted(_) => Interrupted(effects)
    case Finished(success, message, _, _, _) =>
      if success then
        Exited(0, if !IsDryRunMessage(message) then effects + [MarkResolved(incidentId)] else effects, e)
      else
        Exited(1, effects, e)
  }

  /** Every dry-run report mentions the dry run, so a dry-run success never resolves the incident. */
  lemma DryRunMessageDetected(tool: string, approvedBy: Option<string>)
    ensures IsDryRunMessage("[DRY RUN] Tool '" + tool + "' would be executed (approved by " + Server.Show(approvedBy) + ")")
  {
    var m := "[DRY RUN] Tool '" + tool + "' would be executed (approved by " + Server.Show(approvedBy) + ")";
    assert m[1..8] == "DRY RUN";
    assert Upper(m)[1..8] == "DRY RUN";
    assert OccursAt(Upper(m), "DRY RUN", 1);
  }

  /**
    In dry-run mode the handler never resolves an incident: the action is
    either rejected (exit code 1) or only reported (exit code 0), and in both
    cases the incident stays open.
  */
  lemma DryRunNeverResolves(logLine: string, summary: string, action: string, incidentId: int, ragSummary: Option<string>,
                            reg: McpTools.Registry, cfg: Gate.Config, interactive: bool, responses: seq<string>, env: Gate.Env,
                            run: Server.ScriptRun)
    requires Gate.IsDryRun(cfg)
    ensures var r := HandleIncident(logLine, summary, action, incidentId, ragSummary, reg, cfg, interactive, responses, env, run);
      r.Exited? && |r.effects| == 2 && !r.execution.scriptRun
  {
    var e := Server.Execute(reg, cfg, action, Some(incidentId), None, interactive, responses, env, run);
    if McpTools.Validate(reg, action, None).0 {
      Server.DryRunOutcomes(reg, cfg, action, Some(incidentId), None, interactive, responses, env, run);
      if !Gate.RequiresApproval(cfg, action) {
        DryRunMessageDetected(action, Some(Gate.AUTO_APPROVED));
      }
    }
  }

  /**
    A failed summarization changes nothing about the action: the tool call is
    made with the original summary and the outcome is the one the pipeline
    gives.
  */
  lemma SummaryFailureDoesNotBlock(logLine: string, summary: string, action: string, incidentId: int,
                                   reg: McpTools.Registry, cfg: Gate.Config, interactive: bool, responses: seq<string>, env: Gate.Env,
                                   run: Server.ScriptRun)
    ensures var r := HandleIncident(logLine, summary, action, incidentId, None, reg, cfg, interactive, responses, env, run);
      r.effects[1] == ExecuteTool(action, incidentId, summary) &&
      r == HandleIncident(logLine, summary, action, incidentId, Some(""), reg, cfg, interactive, responses, env, run)
  {
  }
}
