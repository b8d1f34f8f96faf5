/**
  The tool registry: tool definitions from a schema (or the built-in default
  schema when there is no schema file), the registry keyed by tool name, and
  validation of a tool request against the tool's required parameters.
*/
module McpTools {
  import opened Wrappers
  import opened OrderedMap

  const RESTART_APACHE := "RESTART_APACHE"
  const CLEAR_TEMP_CACHE := "CLEAR_TEMP_CACHE"
  const ESCALATE := "ESCALATE"

  /** The part of a tool's `inputSchema` that validation reads: its `required` list, if any. */
  datatype InputSchema = InputSchema(required: Option<seq<string>>)

  /** One entry of the schema's `tools` list; optional keys are `None` when absent. */
  datatype ToolDef = ToolDef(
    name: string,
    description: string,
    inputSchema: Option<InputSchema>,
    riskLevel: Option<string>,
    requiresApproval: Option<bool>)

  /** The schema file: absent, or present with or without a `tools` list. */
  datatype SchemaFile = NoFile | SchemaFile(tools: Option<seq<ToolDef>>)

  /** A registered tool, with the defaults filled in. */
  datatype Tool = Tool(name: string, description: string, required: seq<string>, riskLevel: string, requiresApproval: bool)

  type Registry = Dict<string, Tool>

  function DefaultTool(name: string, description: string, risk: string, approval: bool): ToolDef {
    ToolDef(name, description, Some(InputSchema(None)), Some(risk), Some(approval))
  }

  /** The built-in schema: restarting Apache needs approval, clearing the cache and escalating do not. */
  const DEFAULT_TOOLS: seq<ToolDef> := [
    DefaultTool(RESTART_APACHE, "Restart Apache web server", "HIGH", true),
    DefaultTool(CLEAR_TEMP_CACHE, "Clear temporary cache", "LOW", false),
    DefaultTool(ESCALATE, "Escalate to human operator", "MEDIUM", false)
  ]

  /** `load_mcp_schema()["tools"]`, with a missing list read as empty. */
  function LoadTools(file: SchemaFile): (r: seq<ToolDef>)
    ensures file.NoFile? ==> r == DEFAULT_TOOLS
    ensures file.SchemaFile? && file.tools.None? ==> r == []
    ensures file.SchemaFile? && file.tools.Some? ==> r == file.tools.value
  {
    match file
    case NoFile => DEFAULT_TOOLS
    case SchemaFile(tools) => tools.GetOr([])
  }

  /** An `MCPTool` built from a definition: no required parameters, risk `UNKNOWN` and no approval by default. */
  function MakeTool(d: ToolDef): (t: Tool)
    ensures t.name == d.name && t.description == d.description
    ensures d.riskLevel.None? ==> t.riskLevel == "UNKNOWN"
    ensures d.requiresApproval.None? ==> !t.requiresApproval
    ensures d.inputSchema.None? ==> t.required == []
    ensures d.inputSchema.Some? && d.inputSchema.value.required.None? ==> t.required == []
    ensures d.inputSchema.Some? && d.inputSchema.value.required.Some? ==> t.required == d.inputSchema.value.required.value
    ensures d.riskLevel.Some? ==> t.riskLevel == d.riskLevel.value
    ensures d.requiresApproval.Some? ==> t.requiresApproval == d.requiresApproval.value
  {
    var required := match d.inputSchema
      case Some(s) => s.required.GetOr([])
      case None => [];
    Tool(d.name, d.description, required, d.riskLevel.GetOr("UNKNOWN"), d.requiresApproval.GetOr(false))
  }

  /** The registry after the definitions, in order: `tools[tool.name] = tool`. */
  function BuildRegistry(defs: seq<ToolDef>): (r: Registry)
    ensures |r| <= |defs|
    ensures forall i :: 0 <= i < |r| ==> r[i].value.name == r[i].key
    decreases |defs|
  {
    if |defs| == 0 then []
    else var d := defs[|defs| - 1]; Put(BuildRegistry(defs[..|defs| - 1]), d.name, MakeTool(d))
  }

  /**
    `get_tool_registry()`: one tool per name defined in the schema (or in
    the defaults), each stored under its own name.
  */
  function GetRegistry(file: SchemaFile): (r: Registry)
    ensures DistinctKeys(r)
    ensures forall n :: Has(r, n) <==> exists j :: 0 <= j < |LoadTools(file)| && LoadTools(file)[j].name == n
    ensures forall i :: 0 <= i < |r| ==> r[i].value.name == r[i].key
  {
    var r := BuildRegistry(LoadTools(file));
    RegistryNames(LoadTools(file));
    assert forall n :: Has(r, n) <==> n in Keys(r) by {
      forall n
        ensures Has(r, n) <==> n in Keys(r)
      {
        HasKeys(r, n);
      }
    }
    r
  }

  /** The position of the last definition named `n`. */
  function LastIndex(defs: seq<ToolDef>, n: string): (r: Option<nat>)
    ensures r.Some? ==> r.value < |defs| && defs[r.value].name == n
    ensures r.Some? ==> forall j :: r.value < j < |defs| ==> defs[j].name != n
    ensures r.None? <==> forall j :: 0 <= j < |defs| ==> defs[j].name != n
    decreases |defs|
  {
    if |defs| == 0 then None
    else if defs[|defs| - 1].name == n then Some(|defs| - 1)
    else LastIndex(defs[..|defs| - 1], n)
  }

  /** The position of the first definition named `n`, or `|defs|` when there is none. */
  function FirstIndex(defs: seq<ToolDef>, n: string): (r: nat)
    ensures r <= |defs|
    ensures r < |defs| ==> defs[r].name == n
    ensures forall j :: 0 <= j < r ==> defs[j].name != n
    decreases |defs|
  {
    if |defs| == 0 then 0
    else
      var f := FirstIndex(defs[..|defs| - 1], n);
      if f < |defs| - 1 then f
      else if defs[|defs| - 1].name == n then |defs| - 1
      else |defs|
  }

  /**
    Later definitions of a name replace earlier ones: looking a name up in the
    registry gives the tool built from its last definition, and nothing for a
    name no definition uses.
  */
  lemma {:induction false} RegistryLookup(defs: seq<ToolDef>, n: string)
    ensures LastIndex(defs, n).None? ==> Get(BuildRegistry(defs), n).None?
    ensures LastIndex(defs, n).Some? ==> Get(BuildRegistry(defs), n) == Some(MakeTool(defs[LastIndex(defs, n).value]))
    decreases |defs|
  {
    if |defs| > 0 {
      var prefix := defs[..|defs| - 1];
      var d := defs[|defs| - 1];
      RegistryLookup(prefix, n);
      assert BuildRegistry(defs) == Put(BuildRegistry(prefix), d.name, MakeTool(d));
      PutGet(BuildRegistry(prefix), d.name, MakeTool(d), n);
      if d.name != n {
        assert LastIndex(defs, n) == LastIndex(prefix, n);
        if LastIndex(prefix, n).Some? {
          assert prefix[LastIndex(prefix, n).value] == defs[LastIndex(prefix, n).value];
        }
      }
    }
  }

  /** Each step of the registry construction adds a name at the end or keeps the names as they were. */
  lemma RegistryStep(defs: seq<ToolDef>)
    requires |defs| > 0
    ensures var before := BuildRegistry(defs[..|defs| - 1]);
      var name := defs[|defs| - 1].name;
      (Has(before, name) ==> Keys(BuildRegistry(defs)) == Keys(before)) &&
      (!Has(before, name) ==> Keys(BuildRegistry(defs)) == Keys(before) + [name]) &&
      (DistinctKeys(before) ==> DistinctKeys(BuildRegistry(defs)))
  {
    var d := defs[|defs| - 1];
    PutKeepsDistinct(BuildRegistry(defs[..|defs| - 1]), d.name, MakeTool(d));
  }

  /** The registry names are exactly the defined names, each held once. */
  lemma {:induction false} RegistryNames(defs: seq<ToolDef>)
    ensures DistinctKeys(BuildRegistry(defs))
    ensures forall n :: n in Keys(BuildRegistry(defs)) <==> exists j :: 0 <= j < |defs| && defs[j].name == n
    decreases |defs|
  {
    if |defs| > 0 {
      var prefix := defs[..|defs| - 1];
      var d := defs[|defs| - 1];
      RegistryNames(prefix);
      RegistryStep(defs);
      forall n
        ensures n in Keys(BuildRegistry(defs)) <==> exists j :: 0 <= j < |defs| && defs[j].name == n
      {
        if n != d.name && (exists j :: 0 <= j < |defs| && defs[j].name == n) {
          var j :| 0 <= j < |defs| && defs[j].name == n;
          assert prefix[j].name == n;
        }
        if n in Keys(BuildRegistry(prefix)) {
          var j :| 0 <= j < |prefix| && prefix[j].name == n;
          assert defs[j].name == n;
        }
      }
    }
  }

  /** `list_available_tools` lists the names in the order in which they were first defined. */
  lemma {:induction false} RegistryOrder(defs: seq<ToolDef>)
    ensures forall i, j :: 0 <= i < j < |BuildRegistry(defs)| ==>
      FirstIndex(defs, BuildRegistry(defs)[i].key) < FirstIndex(defs, BuildRegistry(defs)[j].key) < |defs|
    decreases |defs|
  {
    if |defs| > 0 {
      var prefix := defs[..|defs| - 1];
      var d := defs[|defs| - 1];
      var before := BuildRegistry(prefix);
      RegistryOrder(prefix);
      RegistryStep(defs);
      var ks := Keys(BuildRegistry(defs));
      forall k | 0 <= k < |before|
        ensures FirstIndex(defs, ks[k]) == FirstIndex(prefix, ks[k]) < |prefix|
      {
        assert ks[k] == Keys(before)[k];
        KnownNameFirstIndex(defs, ks[k]);
      }
      if !Has(before, d.name) {
        assert d.name !in Keys(before);
        NewNameFirstIndex(prefix, d.name);
        assert FirstIndex(defs, d.name) == |prefix|;
      }
      forall i, j | 0 <= i < j < |ks|
        ensures FirstIndex(defs, ks[i]) < FirstIndex(defs, ks[j]) < |defs|
      {
        assert Keys(before)[i] == ks[i];
        if j < |before| {
          assert Keys(before)[j] == ks[j];
        }
      }
    }
  }

  /** A name the registry does not hold was never defined. */
  lemma NewNameFirstIndex(defs: seq<ToolDef>, n: string)
    requires n !in Keys(BuildRegistry(defs))
    ensures FirstIndex(defs, n) == |defs|
  {
    RegistryNames(defs);
  }

  /** A name already registered before the last definition was first defined before it. */
  lemma KnownNameFirstIndex(defs: seq<ToolDef>, n: string)
    requires |defs| > 0 && n in Keys(BuildRegistry(defs[..|defs| - 1]))
    ensures FirstIndex(defs, n) == FirstIndex(defs[..|defs| - 1], n) < |defs| - 1
  {
    var prefix := defs[..|defs| - 1];
    RegistryNames(prefix);
    var j :| 0 <= j < |prefix| && prefix[j].name == n;
    assert FirstIndex(prefix, n) <= j;
  }

  /** `list_available_tools()`: every registered name, once per entry. */
  function ListTools(reg: Registry): (r: seq<string>)
    ensures |r| == |reg|
    ensures forall n :: n in r <==> Has(reg, n)
  {
    forall n
      ensures n in Keys(reg) <==> Has(reg, n)
    {
      HasKeys(reg, n);
    }
    Keys(reg)
  }

  /** `get_tool_description(name)`: the description of a registered tool, `None` otherwise. */
  function Description(reg: Registry, name: string): (r: Option<string>)
    ensures r.Some? <==> Has(reg, name)
    ensures r.Some? ==> r.value == Get(reg, name).value.description
  {
    match Get(reg, name)
    case Some(t) => Some(t.description)
    case None => None
  }

  /** The first required parameter missing from `params`, if any. */
  function FirstMissing(required: seq<string>, params: set<string>): (r: Option<nat>)
    ensures r.Some? ==> r.value < |required| && required[r.value] !in params
    ensures r.Some? ==> forall j :: 0 <= j < r.value ==> required[j] in params
    ensures r.None? <==> forall j :: 0 <= j < |required| ==> required[j] in params
  {
    if |required| == 0 then None
    else if required[0] !in params then Some(0)
    else match FirstMissing(required[1..], params)
      case Some(i) => Some(i + 1)
      case None => None
  }

  /**
    `validate_tool_request(name, parameters)`: an unknown tool, or the first
    required parameter absent from the parameters (none given counts as
    none present), makes the request invalid with a message.
  */
  function Validate(reg: Registry, name: string, params: Option<set<string>>): (r: (bool, Option<string>))
    ensures r.0 <==> r.1.None?
    ensures !Has(reg, name) ==> r == (false, Some("Unknown tool: " + name))
    ensures Has(reg, name) ==>
      (r.0 <==> forall p :: p in Get(reg, name).value.required ==> p in params.GetOr({}))
    ensures Has(reg, name) && !r.0 ==>
      exists i :: 0 <= i < |Get(reg, name).value.required| &&
        Get(reg, name).value.required[i] !in params.GetOr({}) &&
        r.1 == Some("Missing required parameter: " + Get(reg, name).value.required[i]) &&
        forall j :: 0 <= j < i ==> Get(reg, name).value.required[j] in params.GetOr({})
  {
    match Get(reg, name)
    case None => (false, Some("Unknown tool: " + name))
    case Some(tool) =>
      match FirstMissing(tool.required, params.GetOr({}))
      case Some(i) => (false, Some("Missing required parameter: " + tool.required[i]))
      case None => (true, None)
  }

  /**
    The built-in schema registers three tools in order, only restarting
    Apache needs approval, and none requires a parameter, so every request
    for one of them is valid.
  */
  lemma DefaultRegistryFacts(params: Option<set<string>>)
    ensures ListTools(GetRegistry(NoFile)) == [RESTART_APACHE, CLEAR_TEMP_CACHE, ESCALATE]
    ensures forall n :: Has(GetRegistry(NoFile), n) ==>
      (Get(GetRegistry(NoFile), n).value.requiresApproval <==> n == RESTART_APACHE)
    ensures forall n :: Has(GetRegistry(NoFile), n) ==> Validate(GetRegistry(NoFile), n, params) == (true, None)
  {
    var reg := GetRegistry(NoFile);
    var t0, t1, t2 := MakeTool(DEFAULT_TOOLS[0]), MakeTool(DEFAULT_TOOLS[1]), MakeTool(DEFAULT_TOOLS[2]);
    assert DEFAULT_TOOLS[..3] == DEFAULT_TOOLS;
    assert DEFAULT_TOOLS[..2][..1] == DEFAULT_TOOLS[..1];
    assert DEFAULT_TOOLS[..3][..2] == DEFAULT_TOOLS[..2];
    assert DEFAULT_TOOLS[..1][..0] == [];
    var r1 := BuildRegistry(DEFAULT_TOOLS[..1]);
    assert BuildRegistry(DEFAULT_TOOLS[..1][..0]) == [];
    assert DEFAULT_TOOLS[..1][0].name == RESTART_APACHE;
    assert Find<string, Tool>([], RESTART_APACHE) == None;
    assert r1 == [Entry(RESTART_APACHE, t0)];
    var r2 := BuildRegistry(DEFAULT_TOOLS[..2]);
    assert Find(r1, CLEAR_TEMP_CACHE) == None;
    assert r2 == [Entry(RESTART_APACHE, t0), Entry(CLEAR_TEMP_CACHE, t1)];
    assert Find(r2, ESCALATE) == None;
    assert reg == [
      Entry(RESTART_APACHE, t0),
      Entry(CLEAR_TEMP_CACHE, t1),
      Entry(ESCALATE, t2)];
  }
}
