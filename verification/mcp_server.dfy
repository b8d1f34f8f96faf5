/**
  `execute_mcp_tool`: the pipeline every tool invocation goes through —
  validation against the registry, the approval gate, the dry-run switch,
  and finally the `actions.sh` call — together with the audit events it
  writes and the action it records for the incident.
*/
module McpServer {
  import opened Wrappers
  import opened McpTools
  import Gate = ApprovalGate

  /** One line of the audit log (its timestamp is left out). */
  datatype AuditEvent = AuditEvent(tool: string, incidentId: Option<int>, status: string, approvedBy: Option<string>, error: Option<string>)

  /** How the `actions.sh` subprocess ended: an exit status, the 30-second timeout, or another exception. */
  datatype ScriptRun = Exit(code: int, stdout: string, stderr: string) | TimedOut | Crashed(error: string)

  /** The `record_action` call made for an incident after a successful run. */
  datatype ActionRecord = ActionRecord(incidentId: int, tool: string, status: string, approvedBy: Option<string>, resultMessage: string)

  /**
    The end of one invocation: the returned `(success, message)` with the
    audit events written, whether `actions.sh` was called and the action
    recorded, or `Interrupted` when the approval prompt's input ended.
  */
  datatype Execution =
    | Finished(success: bool, message: string, audit: seq<AuditEvent>, scriptRun: bool, recorded: Option<ActionRecord>)
    | Interrupted(audit: seq<AuditEvent>)

  /** Python truthiness of an optional incident id: present and non-zero. */
  predicate Truthy(id: Option<int>) {
    id.Some? && id.value != 0
  }

  /** `f"{x}"` of an optional string. */
  function Show(s: Option<string>): string {
    s.GetOr("None")
  }

  /** Step 4: run `actions.sh`, record the action on success, and report. */
  function RunScript(tool: string, incidentId: Option<int>, audit: seq<AuditEvent>, approvedBy: Option<string>, run: ScriptRun): (r: Execution)
    ensures r.Finished? && r.scriptRun && |r.audit| == |audit| + 1 && r.audit[..|audit|] == audit
    ensures r.audit[|audit|].tool == tool && r.audit[|audit|].incidentId == incidentId
    ensures r.success <==> run.Exit? && run.code == 0
    ensures r.recorded.Some? <==> run.Exit? && run.code == 0 && Truthy(incidentId)
    ensures r.recorded.Some? ==> r.recorded.value == ActionRecord(incidentId.value, tool, "executed", approvedBy, run.stdout)
    ensures run.Exit? && run.code == 0 ==>
      r.message == "Tool '" + tool + "' executed successfully" &&
      r.audit[|audit|] == AuditEvent(tool, incidentId, "executed", approvedBy, None)
    ensures run.Exit? && run.code != 0 ==>
      var error := if run.stderr == "" then "Unknown error" else run.stderr;
      r.message == "Tool execution failed: " + error &&
      r.audit[|audit|] == AuditEvent(tool, incidentId, "failed", None, Some(error))
    ensures run.TimedOut? ==>
      r.message == "Tool execution timed out" &&
      r.audit[|audit|] == AuditEvent(tool, incidentId, "timeout", None, Some("Tool execution timed out"))
    ensures run.Crashed? ==>
      r.message == "Tool execution error: " + run.error &&
      r.audit[|audit|] == AuditEvent(tool, incidentId, "error", None, Some(run.error))
    ensures r.audit[|audit|].error.Some? <==> !r.success
    ensures r.audit[|audit|].approvedBy == if r.success then approvedBy else None
  {
    var event := (status: string, who: Option<string>, error: Option<string>) => AuditEvent(tool, incidentId, status, who, error);
    match run
    case Exit(code, stdout, stderr) =>
      if code == 0 then
        var record := if Truthy(incidentId) then Some(ActionRecord(incidentId.value, tool, "executed", approvedBy, stdout)) else None;
        Finished(true, "Tool '" + tool + "' executed successfully", audit + [event("executed", approvedBy, None)], true, record)
      else
        var error := if stderr == "" then "Unknown error" else stderr;
        Finished(false, "Tool execution failed: " + error, audit + [event("failed", None, Some(error))], true, None)
    case TimedOut =>
      Finished(false, "Tool execution timed out", audit + [event("timeout", None, Some("Tool execution timed out"))], true, None)
    case Crashed(e) =>
      Finished(false, "Tool execution error: " + e, audit + [event("error", None, Some(e))], true, None)
  }

  /** Steps 3 and 4: in dry-run mode report what would run; otherwise run it. */
  function DryRunOrRun(cfg: Gate.Config, tool: string, incidentId: Option<int>, audit: seq<AuditEvent>, approvedBy: Option<string>, run: ScriptRun): (r: Execution)
    ensures r.Finished? && |r.audit| == |audit| + 1 && r.audit[..|audit|] == audit
    ensures r.audit[|audit|].tool == tool && r.audit[|audit|].incidentId == incidentId
    ensures r.scriptRun <==> !Gate.IsDryRun(cfg)
    ensures r.recorded.Some? ==> r.scriptRun && Truthy(incidentId) && run.Exit? && run.code == 0
    ensures r.scriptRun ==> (r.recorded.Some? <==> Truthy(incidentId) && run.Exit? && run.code == 0)
    ensures !Gate.IsDryRun(cfg) ==> r == RunScript(tool, incidentId, audit, approvedBy, run)
    ensures r.Finished? && r.scriptRun ==> (r.success <==> run.Exit? && run.code == 0)
    ensures r.Finished? && r.scriptRun && run.Exit? && run.code == 0 ==>
      r.message == "Tool '" + tool + "' executed successfully" && r.audit[|r.audit| - 1].status == "executed"
    ensures Gate.IsDryRun(cfg) ==>
      r == Finished(true, "[DRY RUN] Tool '" + tool + "' would be executed (approved by " + Show(approvedBy) + ")",
        audit + [AuditEvent(tool, incidentId, "dry_run", approvedBy, None)], false, None)
  {
    if Gate.IsDryRun(cfg) then
      Finished(true, "[DRY RUN] Tool '" + tool + "' would be executed (approved by " + Show(approvedBy) + ")",
        audit + [AuditEvent(tool, incidentId, "dry_run", approvedBy, None)], false, None)
    else RunScript(tool, incidentId, audit, approvedBy, run)
  }

  /** Steps 2 to 4, once the request is valid: the approval gate, then the dry-run switch and the script. */
  function AfterValidation(cfg: Gate.Config, tool: string, incidentId: Option<int>,
                           interactive: bool, responses: seq<string>, env: Gate.Env, run: ScriptRun): (r: Execution)
    ensures 1 <= |r.audit| <= 3 && r.audit[0] == AuditEvent(tool, incidentId, "validated", None, None)
    ensures forall i :: 0 <= i < |r.audit| ==> r.audit[i].tool == tool && r.audit[i].incidentId == incidentId
    ensures r.Interrupted? <==> Gate.RequiresApproval(cfg, tool) && Gate.RequestApproval(cfg, tool, interactive, responses, env).Aborted?
    ensures r.Finished? && r.scriptRun <==>
      !Gate.IsDryRun(cfg) &&
      (Gate.RequiresApproval(cfg, tool) ==> Gate.RequestApproval(cfg, tool, interactive, responses, env).Decided? && Gate.RequestApproval(cfg, tool, interactive, responses, env).approved)
    ensures r.Finished? && r.recorded.Some? ==> r.scriptRun && Truthy(incidentId) && run.Exit? && run.code == 0
    ensures r.Finished? && r.scriptRun ==> (r.recorded.Some? <==> Truthy(incidentId) && run.Exit? && run.code == 0)
    ensures r.Finished? && r.scriptRun ==> (r.success <==> run.Exit? && run.code == 0)
    ensures r.Finished? && r.scriptRun && run.Exit? && run.code == 0 ==>
      r.message == "Tool '" + tool + "' executed successfully" && r.audit[|r.audit| - 1].status == "executed"
  {
    var validated := [AuditEvent(tool, incidentId, "validated", None, None)];
    if Gate.RequiresApproval(cfg, tool) then
      Approved(cfg, tool, incidentId, validated, Gate.RequestApproval(cfg, tool, interactive, responses, env), run)
    else
      DryRunOrRun(cfg, tool, incidentId, validated, Some(Gate.AUTO_APPROVED), run)
  }

  /** Step 2 for a tool that needs approval: stop unless the gate's outcome approves it. */
  function Approved(cfg: Gate.Config, tool: string, incidentId: Option<int>, audit: seq<AuditEvent>, outcome: Gate.Outcome, run: ScriptRun): (r: Execution)
    ensures outcome.Aborted? ==> r == Interrupted(audit)
    ensures outcome.Decided? && !outcome.approved ==>
      r == Finished(false, "Action rejected by approval gate", audit + [AuditEvent(tool, incidentId, "rejected", outcome.approvedBy, None)], false, None)
    ensures outcome.Decided? && outcome.approved ==>
      r == DryRunOrRun(cfg, tool, incidentId, audit + [AuditEvent(tool, incidentId, "approved", outcome.approvedBy, None)], outcome.approvedBy, run)
    ensures r.Interrupted? <==> outcome.Aborted?
    ensures r.Finished? && r.scriptRun <==> !Gate.IsDryRun(cfg) && outcome.Decided? && outcome.approved
    ensures |audit| <= |r.audit| <= |audit| + 2 && r.audit[..|audit|] == audit
    ensures forall i :: |audit| <= i < |r.audit| ==> r.audit[i].tool == tool && r.audit[i].incidentId == incidentId
    ensures r.Finished? && r.recorded.Some? ==> r.scriptRun && Truthy(incidentId) && run.Exit? && run.code == 0
    ensures r.Finished? && r.scriptRun ==> (r.recorded.Some? <==> Truthy(incidentId) && run.Exit? && run.code == 0)
    ensures r.Finished? && r.scriptRun ==> (r.success <==> run.Exit? && run.code == 0)
    ensures r.Finished? && r.scriptRun && run.Exit? && run.code == 0 ==>
      r.message == "Tool '" + tool + "' executed successfully" && r.audit[|r.audit| - 1].status == "executed"
  {
    match outcome
    case Aborted => Interrupted(audit)
    case Decided(approved, who) =>
      if !approved then
        Finished(false, "Action rejected by approval gate", audit + [AuditEvent(tool, incidentId, "rejected", who, None)], false, None)
      else
        var approvedAudit := audit + [AuditEvent(tool, incidentId, "approved", who, None)];
        var r := DryRunOrRun(cfg, tool, incidentId, approvedAudit, who, run);
        assert r.audit[..|audit|] == approvedAudit[..|audit|];
        r
  }

  /**
    `execute_mcp_tool(tool, incident_id, summary, parameters)`. The registry
    and configuration are the ones loaded from disk; `interactive`,
    `responses` and `env` stand for the terminal and environment the approval
    prompt reads; `run` is how `actions.sh` ends if it is called.
  */
  function Execute(reg: Registry, cfg: Gate.Config, tool: string, incidentId: Option<int>, params: Option<set<string>>,
                   interactive: bool, responses: seq<string>, env: Gate.Env, run: ScriptRun): (r: Execution)
    ensures !Validate(reg, tool, params).0 ==>
      r == Finished(false, "Validation failed: " + Show(Validate(reg, tool, params).1),
        [AuditEvent(tool, incidentId, "validation_failed", None, Validate(reg, tool, params).1)], false, None)
    ensures Validate(reg, tool, params).0 ==> |r.audit| >= 1 && r.audit[0] == AuditEvent(tool, incidentId, "validated", None, None)
    ensures forall i :: 0 <= i < |r.audit| ==> r.audit[i].tool == tool && r.audit[i].incidentId == incidentId
    ensures 1 <= |r.audit| <= 3
    ensures r.Finished? && r.recorded.Some? ==> r.scriptRun && Truthy(incidentId) && run.Exit? && run.code == 0
    ensures r.Finished? && r.scriptRun ==> (r.recorded.Some? <==> Truthy(incidentId) && run.Exit? && run.code == 0)
    ensures r.Finished? && r.scriptRun ==> (r.success <==> run.Exit? && run.code == 0)
    ensures r.Finished? && r.scriptRun && run.Exit? && run.code == 0 ==>
      r.message == "Tool '" + tool + "' executed successfully" && r.audit[|r.audit| - 1].status == "executed"
  {
    var check := Validate(reg, tool, params);
    if !check.0 then
      Finished(false, "Validation failed: " + Show(check.1), [AuditEvent(tool, incidentId, "validation_failed", None, check.1)], false, None)
    else
      AfterValidation(cfg, tool, incidentId, interactive, responses, env, run)
  }

  /**
    The safety property of the pipeline: `actions.sh` is called only for a
    valid request outside dry-run mode, and for a tool that needs approval
    only after an interactive yes that no earlier no preceded.
  */
  lemma ScriptRunsOnlyWhenAllowed(reg: Registry, cfg: Gate.Config, tool: string, incidentId: Option<int>, params: Option<set<string>>,
                                  interactive: bool, responses: seq<string>, env: Gate.Env, run: ScriptRun)
    ensures var r := Execute(reg, cfg, tool, incidentId, params, interactive, responses, env, run);
      r.Finished? && r.scriptRun <==>
        Validate(reg, tool, params).0 && !Gate.IsDryRun(cfg) &&
        (Gate.RequiresApproval(cfg, tool) ==>
          (interactive && exists i :: Gate.FirstAnswerYes(responses, i)))
  {
    if Validate(reg, tool, params).0 {
      assert Execute(reg, cfg, tool, incidentId, params, interactive, responses, env, run)
          == AfterValidation(cfg, tool, incidentId, interactive, responses, env, run);
      if Gate.RequiresApproval(cfg, tool) {
        Gate.ApprovalNeedsYes(cfg, tool, interactive, responses, env);
      }
    }
  }

  /**
    In dry-run mode nothing runs and nothing is recorded: a tool that needs
    approval is always rejected (the gate refuses in dry-run mode), and any
    other valid request reports what would have run.
  */
  lemma DryRunOutcomes(reg: Registry, cfg: Gate.Config, tool: string, incidentId: Option<int>, params: Option<set<string>>,
                       interactive: bool, responses: seq<string>, env: Gate.Env, run: ScriptRun)
    requires Gate.IsDryRun(cfg) && Validate(reg, tool, params).0
    ensures var r := Execute(reg, cfg, tool, incidentId, params, interactive, responses, env, run);
      r.Finished? && !r.scriptRun && r.recorded.None? &&
      (Gate.RequiresApproval(cfg, tool) ==>
        r == Finished(false, "Action rejected by approval gate",
          [AuditEvent(tool, incidentId, "validated", None, None), AuditEvent(tool, incidentId, "rejected", Some(Gate.DRY_RUN_MODE), None)],
          false, None)) &&
      (!Gate.RequiresApproval(cfg, tool) ==>
        r.success && r.message == "[DRY RUN] Tool '" + tool + "' would be executed (approved by auto_approved)")
  {
    var validated := [AuditEvent(tool, incidentId, "validated", None, None)];
    assert Execute(reg, cfg, tool, incidentId, params, interactive, responses, env, run)
        == AfterValidation(cfg, tool, incidentId, interactive, responses, env, run);
    if Gate.RequiresApproval(cfg, tool) {
      var outcome := Gate.RequestApproval(cfg, tool, interactive, responses, env);
      assert outcome == Gate.Decided(false, Some(Gate.DRY_RUN_MODE));
      assert AfterValidation(cfg, tool, incidentId, interactive, responses, env, run) == Approved(cfg, tool, incidentId, validated, outcome, run);
    } else {
      assert AfterValidation(cfg, tool, incidentId, interactive, responses, env, run)
          == DryRunOrRun(cfg, tool, incidentId, validated, Some(Gate.AUTO_APPROVED), run);
    }
  }

  /**
    A call that returns success either ran `actions.sh` to exit status 0 or
    stopped in dry-run mode.
  */
  lemma SuccessMeansRanOrDryRun(reg: Registry, cfg: Gate.Config, tool: string, incidentId: Option<int>, params: Option<set<string>>,
                                interactive: bool, responses: seq<string>, env: Gate.Env, run: ScriptRun)
    ensures var r := Execute(reg, cfg, tool, incidentId, params, interactive, responses, env, run);
      r.Finished? && r.success ==>
        (r.scriptRun && run.Exit? && run.code == 0) || (!r.scriptRun && Gate.IsDryRun(cfg) && r.audit[|r.audit| - 1].status == "dry_run")
  {
    var validated := [AuditEvent(tool, incidentId, "validated", None, None)];
    if Validate(reg, tool, params).0 {
      assert Execute(reg, cfg, tool, incidentId, params, interactive, responses, env, run)
          == AfterValidation(cfg, tool, incidentId, interactive, responses, env, run);
      if Gate.RequiresApproval(cfg, tool) {
        var outcome := Gate.RequestApproval(cfg, tool, interactive, responses, env);
        assert AfterValidation(cfg, tool, incidentId, interactive, responses, env, run) == Approved(cfg, tool, incidentId, validated, outcome, run);
      } else {
        assert AfterValidation(cfg, tool, incidentId, interactive, responses, env, run)
            == DryRunOrRun(cfg, tool, incidentId, validated, Some(Gate.AUTO_APPROVED), run);
      }
    }
  }

  /** A failure after validation that did not run the script was a rejection by the gate. */
  lemma FailureWithoutRunIsRejection(reg: Registry, cfg: Gate.Config, tool: string, incidentId: Option<int>, params: Option<set<string>>,
                                     interactive: bool, responses: seq<string>, env: Gate.Env, run: ScriptRun)
    ensures var r := Execute(reg, cfg, tool, incidentId, params, interactive, responses, env, run);
      r.Finished? && !r.success && !r.scriptRun && Validate(reg, tool, params).0 ==>
        r.message == "Action rejected by approval gate" && r.audit[|r.audit| - 1].status == "rejected"
  {
    var validated := [AuditEvent(tool, incidentId, "validated", None, None)];
    if Validate(reg, tool, params).0 {
      assert Execute(reg, cfg, tool, incidentId, params, interactive, responses, env, run)
          == AfterValidation(cfg, tool, incidentId, interactive, responses, env, run);
      if Gate.RequiresApproval(cfg, tool) {
        var outcome := Gate.RequestApproval(cfg, tool, interactive, responses, env);
        assert AfterValidation(cfg, tool, incidentId, interactive, responses, env, run) == Approved(cfg, tool, incidentId, validated, outcome, run);
      } else {
        assert AfterValidation(cfg, tool, incidentId, interactive, responses, env, run)
            == DryRunOrRun(cfg, tool, incidentId, validated, Some(Gate.AUTO_APPROVED), run);
      }
    }
  }
}
