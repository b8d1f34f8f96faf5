/**
  The approval gate: per-action risk settings from the configuration (or the
  built-in defaults when there is no configuration file), the dry-run switch,
  and the human-in-the-loop decision for an action.
*/
module ApprovalGate {
  import opened Wrappers
  import opened Text

  const DRY_RUN_MODE := "dry_run_mode"
  const AUTO_APPROVED := "auto_approved"

  /** One entry of the configuration's `actions` table; absent keys are `None`. */
  datatype ActionConfig = ActionConfig(riskLevel: Option<string>, requiresApproval: Option<bool>, description: Option<string>)

  datatype Config = Config(actions: Option<map<string, ActionConfig>>, dryRunMode: Option<bool>)

  /** The configuration file: absent, or present with its contents. */
  datatype ConfigFile = NoConfig | ConfigFile(config: Config)

  /** The built-in configuration: only restarting Apache needs approval, and dry-run mode is on. */
  const DEFAULT_CONFIG := Config(
    Some(map[
      "RESTART_APACHE" := ActionConfig(Some("HIGH"), Some(true), None),
      "CLEAR_TEMP_CACHE" := ActionConfig(Some("LOW"), Some(false), None),
      "ESCALATE" := ActionConfig(Some("MEDIUM"), Some(false), None)]),
    Some(true))

  /** `load_config()`. */
  function LoadConfig(file: ConfigFile): (c: Config)
    ensures file.NoConfig? ==> c == DEFAULT_CONFIG
    ensures file.ConfigFile? ==> c == file.config
  {
    match file
    case NoConfig => DEFAULT_CONFIG
    case ConfigFile(c) => c
  }

  /** `config.get("actions", {}).get(action, {})`, as an `Option`. */
  function ActionOf(c: Config, action: string): (r: Option<ActionConfig>)
    ensures r.Some? <==> c.actions.Some? && action in c.actions.value
  {
    match c.actions
    case Some(m) => if action in m then Some(m[action]) else None
    case None => None
  }

  /** `requires_approval(action)`: only an explicit `true` in the action's entry demands approval. */
  function RequiresApproval(c: Config, action: string): (b: bool)
    ensures b <==> ActionOf(c, action).Some? && ActionOf(c, action).value.requiresApproval == Some(true)
  {
    match ActionOf(c, action)
    case Some(a) => a.requiresApproval.GetOr(false)
    case None => false
  }

  /** `get_action_risk_level(action)`: `UNKNOWN` unless the action's entry names a level. */
  function RiskLevel(c: Config, action: string): (r: string)
    ensures ActionOf(c, action).None? ==> r == "UNKNOWN"
    ensures ActionOf(c, action).Some? && ActionOf(c, action).value.riskLevel.Some? ==>
      r == ActionOf(c, action).value.riskLevel.value
    ensures ActionOf(c, action).Some? && ActionOf(c, action).value.riskLevel.None? ==> r == "UNKNOWN"
  {
    match ActionOf(c, action)
    case Some(a) => a.riskLevel.GetOr("UNKNOWN")
    case None => "UNKNOWN"
  }

  /** `is_dry_run_mode()`: on unless the configuration turns it off. */
  function IsDryRun(c: Config): (b: bool)
    ensures !b <==> c.dryRunMode == Some(false)
  {
    c.dryRunMode.GetOr(true)
  }

  /** The environment variables the gate reads to name the approver. */
  datatype Env = Env(user: Option<string>, username: Option<string>)

  /** `USER`, else `USERNAME`, else `unknown`. */
  function Approver(env: Env): (r: string)
    ensures env.user.Some? ==> r == env.user.value
    ensures env.user.None? && env.username.Some? ==> r == env.username.value
    ensures env.user.None? && env.username.None? ==> r == "unknown"
  {
    env.user.GetOr(env.username.GetOr("unknown"))
  }

  /**
    The outcome of `request_approval`: a decision `(approved, approved_by)`,
    or `Aborted` when standard input ends before a yes or a no.
  */
  datatype Outcome = Decided(approved: bool, approvedBy: Option<string>) | Aborted

  /** The answer as the prompt reads it: stripped and lower-cased. */
  function Answer(response: string): string {
    Lower(Strip(response))
  }

  predicate IsYes(response: string) {
    Answer(response) == "y" || Answer(response) == "yes"
  }

  predicate IsNo(response: string) {
    Answer(response) == "n" || Answer(response) == "no"
  }

  /** The first position whose element satisfies `p`. */
  function FirstWhere<T>(xs: seq<T>, p: T -> bool): (r: Option<nat>)
    ensures r.Some? ==> r.value < |xs| && p(xs[r.value])
    ensures r.Some? ==> forall j :: 0 <= j < r.value ==> !p(xs[j])
    ensures r.None? <==> forall j :: 0 <= j < |xs| ==> !p(xs[j])
  {
    if |xs| == 0 then None
    else if p(xs[0]) then Some(0)
    else
      var rest := xs[1..];
      assert forall j :: 0 < j < |xs| ==> rest[j - 1] == xs[j];
      match FirstWhere(rest, p)
      case Some(i) => Some(i + 1)
      case None => None
  }

  predicate Decisive(response: string) {
    IsYes(response) || IsNo(response)
  }

  /** The first response that is a yes or a no. */
  function FirstDecisive(responses: seq<string>): (r: Option<nat>)
    ensures r.Some? ==> r.value < |responses| && (IsYes(responses[r.value]) || IsNo(responses[r.value]))
    ensures r.Some? ==> forall j :: 0 <= j < r.value ==> !IsYes(responses[j]) && !IsNo(responses[j])
    ensures r.None? <==> forall j :: 0 <= j < |responses| ==> !IsYes(responses[j]) && !IsNo(responses[j])
  {
    FirstWhere(responses, Decisive)
  }

  /** The interactive prompt: ask until a yes or a no; any other answer asks again. */
  function Prompt(responses: seq<string>, env: Env): (r: Outcome)
    ensures r == Aborted <==> FirstDecisive(responses).None?
    ensures r.Decided? ==> r == (if IsYes(responses[FirstDecisive(responses).value]) then Decided(true, Some(Approver(env))) else Decided(false, None))
    decreases |responses|
  {
    if |responses| == 0 then Aborted
    else if IsYes(responses[0]) then Decided(true, Some(Approver(env)))
    else if IsNo(responses[0]) then Decided(false, None)
    else Prompt(responses[1..], env)
  }

  /**
    `request_approval(action, summary)`: in dry-run mode nothing is approved;
    an action that needs no approval is approved automatically; otherwise a
    non-interactive session rejects it and an interactive one asks.
  */
  function RequestApproval(c: Config, action: string, interactive: bool, responses: seq<string>, env: Env): (r: Outcome)
    ensures IsDryRun(c) ==> r == Decided(false, Some(DRY_RUN_MODE))
    ensures !IsDryRun(c) && !RequiresApproval(c, action) ==> r == Decided(true, Some(AUTO_APPROVED))
    ensures !IsDryRun(c) && RequiresApproval(c, action) && !interactive ==> r == Decided(false, None)
    ensures !IsDryRun(c) && RequiresApproval(c, action) && interactive ==> r == Prompt(responses, env)
  {
    if IsDryRun(c) then Decided(false, Some(DRY_RUN_MODE))
    else if !RequiresApproval(c, action) then Decided(true, Some(AUTO_APPROVED))
    else if !interactive then Decided(false, None)
    else Prompt(responses, env)
  }

  /** The `i`-th response is a yes and none before it was a yes or a no. */
  predicate FirstAnswerYes(responses: seq<string>, i: int) {
    0 <= i < |responses| && IsYes(responses[i]) &&
    forall j :: 0 <= j < i ==> !IsYes(responses[j]) && !IsNo(responses[j])
  }

  /** A decisive answer with no decisive answer before it is the first decisive one. */
  lemma FirstDecisiveIs(responses: seq<string>, i: nat)
    requires i < |responses| && (IsYes(responses[i]) || IsNo(responses[i]))
    requires forall j :: 0 <= j < i ==> !IsYes(responses[j]) && !IsNo(responses[j])
    ensures FirstDecisive(responses) == Some(i)
  {
    var k := FirstDecisive(responses);
    assert k.Some?;
    assert !(k.value < i) && !(i < k.value);
  }

  /** The prompt approves exactly when some response is a yes with no decisive answer before it. */
  lemma PromptApprovesIff(responses: seq<string>, env: Env)
    ensures Prompt(responses, env).Decided? && Prompt(responses, env).approved <==> exists i :: FirstAnswerYes(responses, i)
    ensures Prompt(responses, env).Decided? && Prompt(responses, env).approved ==> Prompt(responses, env).approvedBy == Some(Approver(env))
  {
    if exists i :: FirstAnswerYes(responses, i) {
      var i :| FirstAnswerYes(responses, i);
      FirstDecisiveIs(responses, i);
    }
    var k := FirstDecisive(responses);
    if k.Some? && IsYes(responses[k.value]) {
      assert FirstAnswerYes(responses, k.value);
    }
  }

  /**
    The safety property of the gate: an action that needs approval is
    approved only outside dry-run mode, in an interactive session, when the
    first yes-or-no answer is a yes; the approver is then named from the
    environment.
  */
  lemma ApprovalNeedsYes(c: Config, action: string, interactive: bool, responses: seq<string>, env: Env)
    requires RequiresApproval(c, action)
    ensures RequestApproval(c, action, interactive, responses, env).Decided? && RequestApproval(c, action, interactive, responses, env).approved <==>
      !IsDryRun(c) && interactive && exists i :: FirstAnswerYes(responses, i)
    ensures RequestApproval(c, action, interactive, responses, env).Decided? && RequestApproval(c, action, interactive, responses, env).approved ==>
      RequestApproval(c, action, interactive, responses, env).approvedBy == Some(Approver(env))
  {
    PromptApprovesIff(responses, env);
  }

  /** Nothing is ever approved in dry-run mode, whatever the action or the answers. */
  lemma DryRunApprovesNothing(c: Config, action: string, interactive: bool, responses: seq<string>, env: Env)
    requires IsDryRun(c)
    ensures !RequestApproval(c, action, interactive, responses, env).approved
  {
  }

  /** Padding and capitals do not matter: ` Yes ` approves like `y`. */
  lemma PaddedYesApproves(pre: string, post: string)
    requires AllSpace(pre) && AllSpace(post)
    ensures IsYes(pre + "Yes" + post)
  {
    StripPadded(pre, "Yes", post);
  }

  /**
    With the built-in configuration the gate is in dry-run mode; restarting
    Apache is high risk and needs approval, and an unlisted action needs none
    and has risk `UNKNOWN`.
  */
  lemma DefaultConfigFacts(action: string)
    ensures IsDryRun(LoadConfig(NoConfig))
    ensures RequiresApproval(LoadConfig(NoConfig), action) <==> action == "RESTART_APACHE"
    ensures action == "RESTART_APACHE" ==> RiskLevel(LoadConfig(NoConfig), action) == "HIGH"
    ensures action !in ["RESTART_APACHE", "CLEAR_TEMP_CACHE", "ESCALATE"] ==> RiskLevel(LoadConfig(NoConfig), action) == "UNKNOWN"
  {
  }
}
