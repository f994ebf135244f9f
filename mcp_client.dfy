/**
 * The tool dispatcher (voice_eval/mcp_client.py): a registry from tool names
 * to the three tools, and `call_tool`, which binds a keyword-argument map to
 * the named tool and wraps every failure in a ToolResult.
 */
module McpClient {
  import opened Common
  import opened McpTools

  /** The three registered tools. */
  datatype ToolId = ExtractSlotsId | PolicyDecisionId | GenerateResponseId

  /** A keyword argument's value: a piece of text or a slot map. */
  datatype Arg = Text(text: string) | SlotMap(slots: Slots)

  type Args = map<string, Arg>

  const ExtractSlotsName := "extract_slots"
  const PolicyDecisionName := "policy_decision"
  const GenerateResponseName := "generate_response"

  /** The name-to-tool table the client is built with. */
  function Registry(): map<string, ToolId> {
    map[ExtractSlotsName := ExtractSlotsId,
        PolicyDecisionName := PolicyDecisionId,
        GenerateResponseName := GenerateResponseId]
  }

  /** The Python function behind each tool, as named in error messages. */
  function FunctionName(t: ToolId): string {
    match t
    case ExtractSlotsId => "extract_slots_tool"
    case PolicyDecisionId => "policy_decision_tool"
    case GenerateResponseId => "generate_response_tool"
  }

  /** The keyword parameters of each tool; none has a default. */
  function Params(t: ToolId): set<string> {
    match t
    case ExtractSlotsId => {"user_input", "current_slots"}
    case PolicyDecisionId => {"goal", "user_input", "available_slots"}
    case GenerateResponseId => {"action", "slots"}
  }

  /** The tools' type hints: these keywords take text, those take a slot map. */
  predicate IsTextParam(k: string) {
    k == "user_input" || k == "goal" || k == "action"
  }

  predicate IsSlotParam(k: string) {
    k == "current_slots" || k == "available_slots" || k == "slots"
  }

  /** Every argument has the type its keyword's hint asks for. */
  predicate WellTyped(args: Args) {
    forall k :: k in args ==> (IsTextParam(k) ==> args[k].Text?) && (IsSlotParam(k) ==> args[k].SlotMap?)
  }

  /** The arguments bind to the tool's parameters: no keyword missing, none extra. */
  predicate Binds(t: ToolId, args: Args) {
    args.Keys == Params(t)
  }

  /** Running a tool on arguments that bind to it. No registered tool fails
      when its arguments have the hinted types. */
  function Invoke(t: ToolId, args: Args): (r: ToolResult)
    requires Binds(t, args) && WellTyped(args)
    ensures r.success && r.error.None?
    ensures t == ExtractSlotsId ==> r.data.SlotsData?
    ensures t == PolicyDecisionId ==> r.data.ActionData? && r.data.action in Actions
    ensures t == GenerateResponseId ==> r.data.ReplyData? && r.data.action == args["action"].text
  {
    match t
    case ExtractSlotsId =>
      ToolResult(true, SlotsData(ExtractSlots(args["user_input"].text, args["current_slots"].slots)), None)
    case PolicyDecisionId =>
      PolicyDecision(args["goal"].text, args["user_input"].text, args["available_slots"].slots)
    case GenerateResponseId =>
      GenerateResponse(args["action"].text, args["slots"].slots)
  }

  /** The TypeError raised when keyword arguments do not bind, caught by
      `call_tool`. */
  function BindingFailure(t: ToolId): ToolResult {
    ToolResult(false, NoData, Some(FunctionName(t) + "() got keyword arguments that do not match its parameters"))
  }

  /** `call_tool` against a given table: an unknown name and a binding
      failure give a failed result with no data; otherwise the tool answers. */
  function Dispatch(tools: map<string, ToolId>, name: string, args: Args): (r: ToolResult)
    requires WellTyped(args)
    ensures name !in tools ==> r == ToolResult(false, NoData, Some("Tool " + name + " not found"))
    ensures name in tools ==> (r.success <==> Binds(tools[name], args))
    ensures !r.success ==> r.data == NoData && r.error.Some?
  {
    if name !in tools then ToolResult(false, NoData, Some("Tool " + name + " not found"))
    else if !Binds(tools[name], args) then BindingFailure(tools[name])
    else Invoke(tools[name], args)
  }

  /** The dispatcher object: its tool table is fixed at construction. */
  class Client {
    var tools: map<string, ToolId>

    constructor()
      ensures tools == Registry()
    {
      tools := Registry();
    }

    /** Looks the tool up, binds the arguments and runs it; the answer is
        the one Dispatch gives for the client's table. */
    method CallTool(name: string, args: Args) returns (r: ToolResult)
      requires WellTyped(args)
      ensures r == Dispatch(tools, name, args)
    {
      if name !in tools {
        return ToolResult(false, NoData, Some("Tool " + name + " not found"));
      }
      var t := tools[name];
      if !Binds(t, args) {
        return BindingFailure(t);
      }
      match t {
        case ExtractSlotsId =>
          r := ExtractSlotsTool(args["user_input"].text, args["current_slots"].slots);
        case PolicyDecisionId =>
          r := PolicyDecision(args["goal"].text, args["user_input"].text, args["available_slots"].slots);
        case GenerateResponseId =>
          r := GenerateResponse(args["action"].text, args["slots"].slots);
      }
    }
  }

  /** The keyword maps the simulator passes to each tool. */
  function ExtractArgs(userInput: string, slots: Slots): Args {
    map["user_input" := Text(userInput), "current_slots" := SlotMap(slots)]
  }

  function PolicyArgs(goal: string, userInput: string, slots: Slots): Args {
    map["goal" := Text(goal), "user_input" := Text(userInput), "available_slots" := SlotMap(slots)]
  }

  function ResponseArgs(action: string, slots: Slots): Args {
    map["action" := Text(action), "slots" := SlotMap(slots)]
  }

  /** Through the registry, each tool name reaches its own tool with the
      simulator's arguments, and the call succeeds with that tool's answer. */
  lemma DispatchExtract(userInput: string, slots: Slots)
    ensures WellTyped(ExtractArgs(userInput, slots))
    ensures Dispatch(Registry(), ExtractSlotsName, ExtractArgs(userInput, slots))
            == ToolResult(true, SlotsData(ExtractSlots(userInput, slots)), None)
  {
    var args := ExtractArgs(userInput, slots);
    assert args.Keys == Params(ExtractSlotsId);
  }

  lemma DispatchPolicy(goal: string, userInput: string, slots: Slots)
    ensures WellTyped(PolicyArgs(goal, userInput, slots))
    ensures Dispatch(Registry(), PolicyDecisionName, PolicyArgs(goal, userInput, slots))
            == PolicyDecision(goal, userInput, slots)
  {
    var args := PolicyArgs(goal, userInput, slots);
    assert args.Keys == Params(PolicyDecisionId);
  }

  lemma DispatchResponse(action: string, slots: Slots)
    ensures WellTyped(ResponseArgs(action, slots))
    ensures Dispatch(Registry(), GenerateResponseName, ResponseArgs(action, slots))
            == GenerateResponse(action, slots)
  {
    var args := ResponseArgs(action, slots);
    assert args.Keys == Params(GenerateResponseId);
  }

  /** Only the three registered names reach a tool. */
  lemma UnknownToolFails(name: string, args: Args)
    requires WellTyped(args)
    requires name != ExtractSlotsName && name != PolicyDecisionName && name != GenerateResponseName
    ensures Dispatch(Registry(), name, args) == ToolResult(false, NoData, Some("Tool " + name + " not found"))
  {
  }

  /** A registered tool called with arguments of the hinted types fails only
      when a keyword is missing or extra. */
  lemma RegisteredToolFailsOnlyOnBinding(name: string, args: Args)
    requires WellTyped(args) && name in Registry()
    ensures !Dispatch(Registry(), name, args).success <==> args.Keys != Params(Registry()[name])
  {
  }
}
