/** The agent's tool loop (model/agent/runner.go) against an arbitrary model: every model turn
    and tool call is answered by a script. */
module AgentRunner {
  import opened Wrappers

  const WEB_SEARCH := "web_search.search"
  const MAX_WEB_SEARCHES := 3
  const DEFAULT_MAX_STEPS := 8
  const MAX_ALLOWED_STEPS := 8
  const DEFAULT_REPAIR_LIMIT := 3
  const MAX_ALLOWED_REPAIR_LIMIT := 6

  datatype Config = Config(maxSteps: int, repairLimit: int)

  function Clamp(value: int, default: int, most: int): int {
    if value <= 0 then default else if value > most then most else value
  }

  function WithDefaults(cfg: Config): (r: Config)
    ensures 0 < r.maxSteps <= MAX_ALLOWED_STEPS && 0 < r.repairLimit <= MAX_ALLOWED_REPAIR_LIMIT
    ensures r.maxSteps == if 0 < cfg.maxSteps <= 8 then cfg.maxSteps else 8
    ensures 0 < cfg.repairLimit <= 6 ==> r.repairLimit == cfg.repairLimit
    ensures (cfg.repairLimit <= 0 ==> r.repairLimit == 3) && (cfg.repairLimit > 6 ==> r.repairLimit == 6)
  {
    Config(Clamp(cfg.maxSteps, DEFAULT_MAX_STEPS, MAX_ALLOWED_STEPS),
           Clamp(cfg.repairLimit, DEFAULT_REPAIR_LIMIT, MAX_ALLOWED_REPAIR_LIMIT))
  }

  // ----- What the environment answers

  datatype ToolResult = ToolError | ToolOutput(terminal: bool)

  /** A parsed action; a tool call comes with whether the tool exists, the signature of its
      trimmed input (empty when it cannot be written) and what the tool would answer. */
  datatype Action =
    | FinalAnswer
    | ToolCall(tool: string, known: bool, signature: string, result: ToolResult)
    | UnknownAction

  /** The text of a turn: how it parses, and whether it looks like an action at all. */
  datatype ModelText = ModelText(action: Option<Action>, looksLikeAction: bool)

  datatype Planning =
    | NoTimeLeft
    | OutOfTime
    | Broken
    | Answer(text: ModelText)

  datatype Closing = ClosingError | ClosingAnswer(text: ModelText)

  // ----- What a run leaves behind

  datatype Phase = Started | ModelCompleted | ProtocolRepair | ToolStarted | ToolCompleted | Completed | Failed

  datatype Event = Event(phase: Phase, modelTurn: nat, toolCall: nat)

  datatype Step = Step(index: nat, tool: string, skipped: bool)

  datatype Executed = Executed(tool: string, signature: string)

  datatype Reason =
    | Final | PlainText | TerminalTool
    | ToolBudgetExhausted | RepairExhausted | FinalizationReserved

  datatype Reply = FromModel | RefusedTool | NoReply

  datatype End = Stop(reason: Reason) | Finish(reason: Reason, reply: Reply) | Fail

  datatype Progress = Progress(
    turns: nat, repairs: nat, searches: nat, lastSignature: string,
    executed: seq<Executed>, steps: seq<Step>, events: seq<Event>, end: Option<End>)
  {
    function Emit(phase: Phase): Progress {
      this.(events := events + [Event(phase, turns, |executed|)])
    }

    function Skip(tool: string): Progress {
      this.(steps := steps + [Step(|steps| + 1, tool, true)])
    }

    /** One protocol repair; the limit ends the loop. */
    function Repair(limit: int): Progress {
      var p := this.(repairs := repairs + 1).Emit(ProtocolRepair);
      if p.repairs >= limit then p.(end := Some(Stop(RepairExhausted))) else p
    }

    function Conclude(reason: Reason, reply: Reply): Progress {
      this.Emit(Completed).(end := Some(Finish(reason, reply)))
    }
  }

  const START := Progress(0, 0, 0, "", [], [], [Event(Started, 0, 0)], None)

  /** Executing a tool. */
  function Execute(p: Progress, call: Action): Progress
    requires call.ToolCall?
  {
    var begun := p.(executed := p.executed + [Executed(call.tool, call.signature)], lastSignature := call.signature,
                    searches := if call.tool == WEB_SEARCH then p.searches + 1 else p.searches).Emit(ToolStarted);
    var done := begun.(steps := begun.steps + [Step(|begun.steps| + 1, call.tool, false)]).Emit(ToolCompleted);
    if call.result.ToolOutput? && call.result.terminal then done.Conclude(TerminalTool, FromModel) else done
  }

  /** One planning turn. */
  function PlanTurn(cfg: Config, p: Progress, reply: Planning): Progress {
    match reply
    case NoTimeLeft => p.(end := Some(Stop(FinalizationReserved)))
    case OutOfTime => p.(turns := p.turns + 1, end := Some(Stop(FinalizationReserved)))
    case Broken => p.(turns := p.turns + 1).Emit(Failed).(end := Some(Fail))
    case Answer(text) =>
      var q := p.(turns := p.turns + 1).Emit(ModelCompleted);
      match text.action
      case None => if text.looksLikeAction then q.Repair(cfg.repairLimit) else q.Conclude(PlainText, FromModel)
      case Some(FinalAnswer) => q.Conclude(Final, FromModel)
      case Some(UnknownAction) => q.Repair(cfg.repairLimit)
      case Some(ToolCall(tool, known, signature, result)) =>
        if !known then q.Skip(tool).Repair(cfg.repairLimit)
        else if signature != "" && signature == q.lastSignature then q.Skip(tool).Repair(cfg.repairLimit)
        else if tool == WEB_SEARCH && q.searches >= MAX_WEB_SEARCHES then q.Skip(tool).Repair(cfg.repairLimit)
        else Execute(q, text.action.value)
  }

  /** What may still happen: tool calls and repairs. */
  function Fuel(cfg: Config, p: Progress): int { cfg.maxSteps - |p.executed| + (cfg.repairLimit - p.repairs) }

  function Plan(cfg: Config, p: Progress, script: nat -> Planning, i: nat): Progress
    requires p.repairs < cfg.repairLimit || p.end.Some?
    decreases if Fuel(cfg, p) < 0 then 0 else Fuel(cfg, p), p.end.None?
  {
    if p.end.Some? || |p.executed| >= cfg.maxSteps then p
    else Plan(cfg, PlanTurn(cfg, p, script(i)), script, i + 1)
  }

  /** The last turn, in which no tool runs. */
  function CloseRun(p: Progress, closing: Closing): Progress {
    var reason := if p.end.Some? && p.end.value.Stop? then p.end.value.reason else ToolBudgetExhausted;
    var q := p.(turns := p.turns + 1);
    match closing
    case ClosingError => q.Emit(Failed).(end := Some(Fail))
    case ClosingAnswer(text) =>
      var answered := q.Emit(ModelCompleted);
      if text.action == Some(FinalAnswer) || !text.looksLikeAction then answered.Conclude(reason, FromModel)
      else if text.action.Some? && text.action.value.ToolCall? then answered.Conclude(reason, RefusedTool)
      else answered.Conclude(reason, NoReply)
  }

  function AgentRun(cfg: Config, script: nat -> Planning, closing: Closing): Progress
    requires cfg.repairLimit > 0
  {
    var planned := Plan(cfg, START, script, 0);
    if planned.end.Some? && !planned.end.value.Stop? then planned else CloseRun(planned, closing)
  }

  method Run(config: Config, script: nat -> Planning, closing: Closing) returns (p: Progress)
    ensures p == AgentRun(WithDefaults(config), script, closing)
  {
    hide PlanTurn, CloseRun;
    var cfg := WithDefaults(config);
    p := START;
    var i := 0;
    while |p.executed| < cfg.maxSteps && p.end.None?
      invariant p.repairs < cfg.repairLimit || p.end.Some?
      invariant Plan(cfg, p, script, i) == Plan(cfg, START, script, 0)
      decreases if Fuel(cfg, p) < 0 then 0 else Fuel(cfg, p), p.end.None?
    {
      TurnProgresses(cfg, p, script(i));
      p := RunTurn(cfg, p, script(i));
      i := i + 1;
    }
    if p.end.Some? && !p.end.value.Stop? {
      return;
    }
    p := CloseRun(p, closing);
  }

  /** The body of the loop. */
  method RunTurn(cfg: Config, before: Progress, reply: Planning) returns (p: Progress)
    requires before.end.None?
    ensures p == PlanTurn(cfg, before, reply)
  {
    hide Execute;
    p := before;
    if reply.NoTimeLeft? {
      return p.(end := Some(Stop(FinalizationReserved)));
    }
    p := p.(turns := p.turns + 1);
    if reply.OutOfTime? {
      return p.(end := Some(Stop(FinalizationReserved)));
    }
    if reply.Broken? {
      return p.Emit(Failed).(end := Some(Fail));
    }
    p := p.Emit(ModelCompleted);
    var text := reply.text;
    if text.action.None? {
      return if text.looksLikeAction then p.Repair(cfg.repairLimit) else p.Conclude(PlainText, FromModel);
    }
    var action := text.action.value;
    if action.FinalAnswer? {
      return p.Conclude(Final, FromModel);
    }
    if !action.ToolCall? {
      return p.Repair(cfg.repairLimit);
    }
    if !action.known || (action.signature != "" && action.signature == p.lastSignature) {
      return p.Skip(action.tool).Repair(cfg.repairLimit);
    }
    if action.tool == WEB_SEARCH && p.searches >= MAX_WEB_SEARCHES {
      return p.Skip(action.tool).Repair(cfg.repairLimit);
    }
    return Execute(p, action);
  }

  lemma TurnProgresses(cfg: Config, p: Progress, reply: Planning)
    requires p.end.None? && p.repairs < cfg.repairLimit
    ensures var q := PlanTurn(cfg, p, reply);
            && (q.repairs < cfg.repairLimit || q.end.Some?)
            && (Fuel(cfg, q) < Fuel(cfg, p) || (Fuel(cfg, q) == Fuel(cfg, p) && q.end.Some?))
  {
  }

  lemma ExecuteCounts(p: Progress, call: Action)
    requires call.ToolCall?
    ensures |Execute(p, call).executed| == |p.executed| + 1 && Execute(p, call).repairs == p.repairs
    ensures p.end.None? ==> Execute(p, call).end in {None, Some(Finish(TerminalTool, FromModel))}
  {
  }
}
