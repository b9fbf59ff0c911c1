/** Bounds and trace grammar of the agent loop, for every model and every tool. */
module AgentTheorems {
  import opened Wrappers
  import opened AgentRunner

  // ----- Bounds

  function Searches(executed: seq<Executed>): nat {
    if executed == [] then 0
    else Searches(executed[..|executed| - 1]) + if executed[|executed| - 1].tool == WEB_SEARCH then 1 else 0
  }

  /** No executed call repeats a written signature of the call before it. */
  predicate NoRepeats(executed: seq<Executed>) {
    forall k :: 1 <= k < |executed| && executed[k].signature != "" ==>
            executed[k].signature != executed[k - 1].signature
  }

  function LastSignature(executed: seq<Executed>): string {
    if executed == [] then "" else executed[|executed| - 1].signature
  }

  /** The tools of the steps that were not skipped, in order. */
  function Unskipped(steps: seq<Step>): seq<string> {
    if steps == [] then []
    else
      var last := steps[|steps| - 1];
      Unskipped(steps[..|steps| - 1]) + if last.skipped then [] else [last.tool]
  }

  function Tools(executed: seq<Executed>): seq<string> {
    seq(|executed|, i requires 0 <= i < |executed| => executed[i].tool)
  }

  /** Steps are numbered from one, and the unskipped ones are the executed tools. */
  predicate StepsOk(p: Progress) {
    && (forall k :: 0 <= k < |p.steps| ==> p.steps[k].index == k + 1)
    && Unskipped(p.steps) == Tools(p.executed)
  }

  predicate CallsOk(p: Progress) {
    && Searches(p.executed) == p.searches <= MAX_WEB_SEARCHES
    && NoRepeats(p.executed) && LastSignature(p.executed) == p.lastSignature
  }

  /** Every model turn so far ran a tool or cost a repair, but for the one that ended the
      planning. */
  predicate TurnsOk(cfg: Config, p: Progress) {
    && |p.executed| <= cfg.maxSteps && p.repairs <= cfg.repairLimit
    && match p.end
       case None => p.repairs < cfg.repairLimit && p.turns == |p.executed| + p.repairs
       case Some(Stop(RepairExhausted)) =>
         |p.executed| < cfg.maxSteps && p.repairs == cfg.repairLimit && p.turns == |p.executed| + p.repairs
       case Some(Stop(reason)) =>
         reason == FinalizationReserved
         && |p.executed| < cfg.maxSteps && p.repairs < cfg.repairLimit && p.turns <= |p.executed| + p.repairs + 1
       case Some(Finish(reason, reply)) =>
         reason in {Final, PlainText, TerminalTool} && reply == FromModel
         && (reason != TerminalTool ==> |p.executed| < cfg.maxSteps)
         && p.repairs < cfg.repairLimit && p.turns <= |p.executed| + p.repairs + 1
       case Some(Fail) => p.repairs < cfg.repairLimit && p.turns <= |p.executed| + p.repairs + 1
  }

  lemma ExecuteOk(p: Progress, call: Action)
    requires call.ToolCall? && CallsOk(p) && StepsOk(p)
    requires call.signature == "" || call.signature != p.lastSignature
    requires call.tool == WEB_SEARCH ==> p.searches < MAX_WEB_SEARCHES
    ensures CallsOk(Execute(p, call)) && StepsOk(Execute(p, call))
  {
    ExecuteNumbersSteps(p, call);
    var q := Execute(p, call);
    assert q.executed == p.executed + [Executed(call.tool, call.signature)];
    assert q.executed[..|p.executed|] == p.executed;
  }

  lemma ExecuteNumbersSteps(p: Progress, call: Action)
    requires call.ToolCall? && StepsOk(p)
    ensures StepsOk(Execute(p, call))
  {
    var q := Execute(p, call);
    assert q.executed == p.executed + [Executed(call.tool, call.signature)];
    assert q.steps == p.steps + [Step(|p.steps| + 1, call.tool, false)] && q.steps[..|p.steps|] == p.steps;
    assert Tools(q.executed) == Tools(p.executed) + [call.tool];
  }

  lemma SkipOk(p: Progress, tool: string)
    requires StepsOk(p)
    ensures StepsOk(p.Skip(tool))
  {
    assert p.Skip(tool).steps[..|p.steps|] == p.steps;
  }

  lemma PlanTurnOk(cfg: Config, p: Progress, reply: Planning)
    requires p.end.None? && |p.executed| < cfg.maxSteps
    requires TurnsOk(cfg, p) && CallsOk(p) && StepsOk(p)
    ensures var q := PlanTurn(cfg, p, reply); TurnsOk(cfg, q) && CallsOk(q) && StepsOk(q)
  {
    hide Execute, CallsOk, StepsOk;
    if reply.Answer? && reply.text.action.Some? && reply.text.action.value.ToolCall? {
      var call := reply.text.action.value;
      var q := p.(turns := p.turns + 1).Emit(ModelCompleted);
      CallsOkIgnores(p, q);
      StepsOkIgnores(p, q);
      SkipOk(q, call.tool);
      CallsOkIgnores(p, q.Skip(call.tool).Repair(cfg.repairLimit));
      StepsOkIgnores(q.Skip(call.tool), q.Skip(call.tool).Repair(cfg.repairLimit));
      if PlanTurn(cfg, p, reply) == Execute(q, call) && MayExecute(q, call) {
        ExecuteOk(q, call);
        ExecuteCounts(q, call);
        ExecuteTurns(q, call);
      }
    } else {
      CallsOkIgnores(p, PlanTurn(cfg, p, reply));
      StepsOkIgnores(p, PlanTurn(cfg, p, reply));
    }
  }

  predicate MayExecute(p: Progress, call: Action) {
    && call.ToolCall? && (call.signature == "" || call.signature != p.lastSignature)
    && (call.tool == WEB_SEARCH ==> p.searches < MAX_WEB_SEARCHES)
  }

  lemma ExecuteTurns(p: Progress, call: Action)
    requires call.ToolCall?
    ensures Execute(p, call).turns == p.turns
  {
  }

  lemma CallsOkIgnores(p: Progress, q: Progress)
    requires q.executed == p.executed && q.searches == p.searches && q.lastSignature == p.lastSignature
    ensures CallsOk(p) == CallsOk(q)
  {
  }

  lemma StepsOkIgnores(p: Progress, q: Progress)
    requires q.executed == p.executed && q.steps == p.steps
    ensures StepsOk(p) == StepsOk(q)
  {
  }

  lemma {:induction false} PlanOk(cfg: Config, p: Progress, script: nat -> Planning, i: nat)
    requires TurnsOk(cfg, p) && CallsOk(p) && StepsOk(p)
    ensures var q := Plan(cfg, p, script, i);
            && TurnsOk(cfg, q) && CallsOk(q) && StepsOk(q)
            && (q.end.None? ==> |q.executed| == cfg.maxSteps)
    decreases if Fuel(cfg, p) < 0 then 0 else Fuel(cfg, p), p.end.None?
  {
    hide PlanTurn, CallsOk, StepsOk;
    if p.end.None? && |p.executed| < cfg.maxSteps {
      PlanTurnOk(cfg, p, script(i));
      PlanTurnFuel(cfg, p, script(i));
      PlanOk(cfg, PlanTurn(cfg, p, script(i)), script, i + 1);
    }
  }

  lemma PlanTurnFuel(cfg: Config, p: Progress, reply: Planning)
    requires p.end.None?
    ensures var q := PlanTurn(cfg, p, reply);
            Fuel(cfg, q) < Fuel(cfg, p) || (Fuel(cfg, q) == Fuel(cfg, p) && q.end.Some?)
  {
  }

  /** For every model and every tool: the tool budget, the search budget and the turn budget
      hold, no call is executed twice in a row, and the steps record what was executed. */
  lemma RunIsBounded(cfg: Config, script: nat -> Planning, closing: Closing)
    requires cfg.maxSteps > 0 && cfg.repairLimit > 0
    ensures var p := AgentRun(cfg, script, closing);
            && |p.executed| <= cfg.maxSteps
            && Searches(p.executed) <= MAX_WEB_SEARCHES
            && p.turns <= cfg.maxSteps + cfg.repairLimit
            && NoRepeats(p.executed) && StepsOk(p)
            && p.end.Some? && !p.end.value.Stop?
  {
    hide Plan, StepsOk;
    PlannedIsOk(cfg, script);
    var planned := Plan(cfg, START, script, 0);
    StepsOkIgnores(planned, AgentRun(cfg, script, closing));
  }

  lemma PlannedIsOk(cfg: Config, script: nat -> Planning)
    requires cfg.maxSteps > 0 && cfg.repairLimit > 0
    ensures var planned := Plan(cfg, START, script, 0);
            && TurnsOk(cfg, planned) && CallsOk(planned) && StepsOk(planned)
            && (planned.end.None? ==> |planned.executed| == cfg.maxSteps)
  {
    hide Plan;
    assert Tools(START.executed) == [];
    PlanOk(cfg, START, script, 0);
  }

  /** The reported reason agrees with what was executed and repaired, and only a closing turn
      refuses a tool or has no answer. */
  predicate TrueEnd(cfg: Config, p: Progress)
    requires p.end.Some? && p.end.value.Finish?
  {
    var reason := p.end.value.reason;
    && (reason == RepairExhausted <==> p.repairs == cfg.repairLimit)
    && (reason == ToolBudgetExhausted ==> |p.executed| == cfg.maxSteps)
    && (reason == FinalizationReserved ==> |p.executed| < cfg.maxSteps)
    && (|p.executed| == cfg.maxSteps ==> reason in {ToolBudgetExhausted, TerminalTool})
    && (p.end.value.reply != FromModel ==> reason in {ToolBudgetExhausted, RepairExhausted, FinalizationReserved})
  }

  /** The reported reason is the true one, and the closing turn runs no tool. */
  lemma ReasonIsTrue(cfg: Config, script: nat -> Planning, closing: Closing)
    requires cfg.maxSteps > 0 && cfg.repairLimit > 0
    ensures var p := AgentRun(cfg, script, closing);
            && (p.end.Some? && p.end.value.Finish? ==> TrueEnd(cfg, p))
            && p.executed == Plan(cfg, START, script, 0).executed
  {
    hide Plan, CloseRun, TurnsOk, CallsOk, StepsOk, TrueEnd;
    PlannedIsOk(cfg, script);
    EndingIsTrue(cfg, Plan(cfg, START, script, 0), closing);
  }

  /** What the turns of the planning say about the ending. */
  lemma EndingIsTrue(cfg: Config, planned: Progress, closing: Closing)
    requires TurnsOk(cfg, planned) && (planned.end.None? ==> |planned.executed| == cfg.maxSteps)
    ensures planned.end.Some? && planned.end.value.Finish? ==> TrueEnd(cfg, planned)
    ensures planned.end.None? || planned.end.value.Stop? ==>
              var p := CloseRun(planned, closing);
              && p.executed == planned.executed && p.repairs == planned.repairs
              && (p.end.Some? && p.end.value.Finish? ==> TrueEnd(cfg, p))
  {
  }

  // ----- Event counters

  function Starts(events: seq<Event>): nat {
    if events == [] then 0
    else Starts(events[..|events| - 1]) + if events[|events| - 1].phase.ToolStarted? then 1 else 0
  }

  /** Every event carries the number of tools started so far and a turn already begun, and
      the turns never go back. */
  ghost predicate Counted(p: Progress) {
    && Starts(p.events) == |p.executed|
    && (forall k :: 0 <= k < |p.events| ==>
                      p.events[k].toolCall == Starts(p.events[..k + 1]) && p.events[k].modelTurn <= p.turns)
    && (forall j, k :: 0 <= j < k < |p.events| ==> p.events[j].modelTurn <= p.events[k].modelTurn)
  }

  /** An event is counted when its phase and the executed tools agree. */
  lemma EmitCounted(before: Progress, p: Progress, phase: Phase)
    requires Counted(before) && p.events == before.events && before.turns <= p.turns
    requires |p.executed| == |before.executed| + if phase.ToolStarted? then 1 else 0
    ensures Counted(p.Emit(phase))
  {
    var all := p.Emit(phase).events;
    assert all[..|p.events|] == p.events && all[..|all|] == all;
    forall k | 0 <= k < |p.events| ensures all[..k + 1] == p.events[..k + 1] && all[k] == p.events[k] {
    }
  }

  lemma ExecuteCounted(p: Progress, call: Action)
    requires call.ToolCall? && Counted(p)
    ensures Counted(Execute(p, call))
  {
    hide Counted;
    var begun := p.(executed := p.executed + [Executed(call.tool, call.signature)], lastSignature := call.signature,
                    searches := if call.tool == WEB_SEARCH then p.searches + 1 else p.searches);
    EmitCounted(p, begun, ToolStarted);
    var started := begun.Emit(ToolStarted);
    var recorded := started.(steps := started.steps + [Step(|started.steps| + 1, call.tool, false)]);
    EmitCounted(started, recorded, ToolCompleted);
    var done := recorded.Emit(ToolCompleted);
    EmitCounted(done, done, Completed);
    var last := if call.result.ToolOutput? && call.result.terminal then done.Emit(Completed) else done;
    CountedIgnores(last, Execute(p, call));
  }

  lemma RepairCounted(p: Progress, limit: int)
    requires Counted(p)
    ensures Counted(p.Repair(limit))
  {
    hide Counted;
    EmitCounted(p, p.(repairs := p.repairs + 1), ProtocolRepair);
    CountedIgnores(p.(repairs := p.repairs + 1).Emit(ProtocolRepair), p.Repair(limit));
  }

  lemma ConcludeCounted(p: Progress, reason: Reason, reply: Reply)
    requires Counted(p)
    ensures Counted(p.Conclude(reason, reply))
  {
    hide Counted;
    EmitCounted(p, p, Completed);
    CountedIgnores(p.Emit(Completed), p.Conclude(reason, reply));
  }

  lemma PlanTurnCounted(cfg: Config, p: Progress, reply: Planning)
    requires Counted(p)
    ensures Counted(PlanTurn(cfg, p, reply))
  {
    hide Counted, Execute, Progress.Repair, Progress.Conclude, Progress.Emit;
    var turned := p.(turns := p.turns + 1);
    if !reply.Answer? {
      EmitCounted(p, turned, Failed);
      CountedIgnores(if reply.Broken? then turned.Emit(Failed) else p, PlanTurn(cfg, p, reply));
    } else {
      var q := turned.Emit(ModelCompleted);
      EmitCounted(p, turned, ModelCompleted);
      RepairCounted(q, cfg.repairLimit);
      ConcludeCounted(q, PlainText, FromModel);
      ConcludeCounted(q, Final, FromModel);
      if reply.text.action.Some? && reply.text.action.value.ToolCall? {
        var call := reply.text.action.value;
        CountedIgnores(q, q.Skip(call.tool));
        RepairCounted(q.Skip(call.tool), cfg.repairLimit);
        ExecuteCounted(q, call);
      }
    }
  }

  lemma {:induction false} PlanCounted(cfg: Config, p: Progress, script: nat -> Planning, i: nat)
    requires p.repairs < cfg.repairLimit || p.end.Some?
    requires Counted(p)
    ensures Counted(Plan(cfg, p, script, i))
    decreases if Fuel(cfg, p) < 0 then 0 else Fuel(cfg, p), p.end.None?
  {
    hide PlanTurn, Counted;
    if p.end.None? && |p.executed| < cfg.maxSteps {
      PlanTurnCounted(cfg, p, script(i));
      PlanTurnFuel(cfg, p, script(i));
      PlanTurnRepairs(cfg, p, script(i));
      PlanCounted(cfg, PlanTurn(cfg, p, script(i)), script, i + 1);
    }
  }

  /** Over a whole run the counters in the events are right. */
  lemma EventsAreCounted(cfg: Config, script: nat -> Planning, closing: Closing)
    requires cfg.repairLimit > 0
    ensures Counted(AgentRun(cfg, script, closing))
  {
    hide Plan, Counted;
    assert Counted(START) by {
      StartIsCounted();
    }
    PlanCounted(cfg, START, script, 0);
    var planned := Plan(cfg, START, script, 0);
    if planned.end.None? || planned.end.value.Stop? {
      var q := planned.(turns := planned.turns + 1);
      EmitCounted(planned, q, Failed);
      EmitCounted(planned, q, ModelCompleted);
      EmitCounted(q.Emit(ModelCompleted), q.Emit(ModelCompleted), Completed);
      var r := CloseRun(planned, closing);
      CountedIgnores(if closing.ClosingError? then q.Emit(Failed) else q.Emit(ModelCompleted).Emit(Completed), r);
    }
  }

  lemma StartIsCounted()
    ensures Counted(START)
  {
    assert START.events[..0] == [] && START.events[..1] == START.events;
    assert Starts([]) == 0;
  }

  lemma CountedIgnores(p: Progress, q: Progress)
    requires q.events == p.events && |q.executed| == |p.executed| && p.turns <= q.turns
    ensures Counted(p) ==> Counted(q)
  {
  }

  // ----- Trace grammar

  function Phases(events: seq<Event>): seq<Phase> {
    seq(|events|, i requires 0 <= i < |events| => events[i].phase)
  }

  /** Planning turns that did not end the run: a model turn and then a repair or a tool. */
  predicate Rounds(phases: seq<Phase>) {
    || phases == []
    || ([ModelCompleted, ProtocolRepair] <= phases && Rounds(phases[2..]))
    || ([ModelCompleted, ToolStarted, ToolCompleted] <= phases && Rounds(phases[3..]))
  }

  lemma {:induction false} RoundsConcat(a: seq<Phase>, b: seq<Phase>)
    requires Rounds(a) && Rounds(b)
    ensures Rounds(a + b)
  {
    if a == [] {
      assert a + b == b;
    } else if [ModelCompleted, ProtocolRepair] <= a && Rounds(a[2..]) {
      RoundsConcat(a[2..], b);
      assert (a + b)[2..] == a[2..] + b;
    } else {
      RoundsConcat(a[3..], b);
      assert (a + b)[3..] == a[3..] + b;
    }
  }

  /** How the trace ends: after a finishing tool at once, otherwise with the model turn that
      gave the answer, and after an error without one. */
  function Tail(end: Option<End>): seq<Phase> {
    match end
    case Some(Fail) => [Failed]
    case Some(Finish(TerminalTool, _)) => [Completed]
    case Some(Finish(_, _)) => [ModelCompleted, Completed]
    case _ => []
  }

  ghost predicate Grammatical(p: Progress) {
    && (p.end.Some? && p.end.value.Stop? ==> p.end.value.reason in {RepairExhausted, FinalizationReserved})
    && exists middle :: Rounds(middle) && Phases(p.events) == [Started] + middle + Tail(p.end)
  }

  lemma ExtendTrace(p: Progress, q: Progress, round: seq<Phase>)
    requires Grammatical(p) && Tail(p.end) == [] && Rounds(round)
    requires Phases(q.events) == Phases(p.events) + round + Tail(q.end)
    requires q.end.Some? && q.end.value.Stop? ==> q.end.value.reason in {RepairExhausted, FinalizationReserved}
    ensures Grammatical(q)
  {
    hide Phases, Tail, Rounds;
    var middle :| Rounds(middle) && Phases(p.events) == [Started] + middle + Tail(p.end);
    RoundsConcat(middle, round);
    Regroup(middle, round, Tail(q.end));
  }

  lemma Regroup(middle: seq<Phase>, round: seq<Phase>, tail: seq<Phase>)
    ensures [Started] + middle + [] + round + tail == [Started] + (middle + round) + tail
  {
  }

  lemma EmitPhase(p: Progress, phase: Phase)
    ensures Phases(p.Emit(phase).events) == Phases(p.events) + [phase]
  {
  }

  lemma RepairTrace(q: Progress, limit: int)
    requires q.end.None?
    ensures Phases(q.Repair(limit).events) == Phases(q.events) + [ProtocolRepair] + Tail(q.Repair(limit).end)
  {
  }

  lemma ExecuteTrace(q: Progress, call: Action)
    requires call.ToolCall? && q.end.None?
    ensures Phases(Execute(q, call).events)
         == Phases(q.events) + [ToolStarted, ToolCompleted] + Tail(Execute(q, call).end)
  {
  }

  lemma OneRound()
    ensures Rounds([ModelCompleted, ProtocolRepair])
    ensures Rounds([ModelCompleted, ToolStarted, ToolCompleted]) && Rounds([])
  {
    assert [ModelCompleted, ProtocolRepair][2..] == [];
    assert [ModelCompleted, ToolStarted, ToolCompleted][3..] == [];
  }

  lemma PlanTurnTrace(cfg: Config, p: Progress, reply: Planning)
    requires p.end.None? && Grammatical(p)
    ensures Grammatical(PlanTurn(cfg, p, reply))
  {
    hide Grammatical, Execute, Phases;
    OneRound();
    var r := PlanTurn(cfg, p, reply);
    if reply.NoTimeLeft? || reply.OutOfTime? || reply.Broken? {
      EmitPhase(p.(turns := p.turns + 1), Failed);
      assert Phases(p.events) + [] == Phases(p.events);
      assert Phases(r.events) == Phases(p.events) + [] + Tail(r.end);
      ExtendTrace(p, r, []);
    } else {
      var q := p.(turns := p.turns + 1).Emit(ModelCompleted);
      EmitPhase(p.(turns := p.turns + 1), ModelCompleted);
      if reply.text.action.Some? && reply.text.action.value.ToolCall? {
        ExecuteCounts(q, reply.text.action.value);
      }
      var ended := r.end.Some? && r.end.value.Finish? && r.end.value.reason != TerminalTool;
      if ended {
        EmitPhase(q, Completed);
        assert r.events == q.Emit(Completed).events;
        assert Phases(r.events) == Phases(p.events) + [] + Tail(r.end);
        ExtendTrace(p, r, []);
      } else {
        AnswerRound(cfg, p, reply);
      }
    }
  }

  lemma AnswerRound(cfg: Config, p: Progress, reply: Planning)
    requires p.end.None? && Grammatical(p) && reply.Answer?
    requires var r := PlanTurn(cfg, p, reply); r.end.None? || !r.end.value.Finish? || r.end.value.reason == TerminalTool
    ensures Grammatical(PlanTurn(cfg, p, reply))
  {
    hide Grammatical, Execute, Phases;
    OneRound();
    var r := PlanTurn(cfg, p, reply);
    var q := p.(turns := p.turns + 1).Emit(ModelCompleted);
    EmitPhase(p.(turns := p.turns + 1), ModelCompleted);
    var action := reply.text.action;
    RepairTrace(q, cfg.repairLimit);
    if action.Some? && action.value.ToolCall? {
      RepairTrace(q.Skip(action.value.tool), cfg.repairLimit);
      ExecuteCounts(q, action.value);
      ExecuteTrace(q, action.value);
    }
    if action.Some? && action.value.ToolCall? && r == Execute(q, action.value) {
      var round := [ModelCompleted, ToolStarted, ToolCompleted];
      assert Phases(r.events) == Phases(p.events) + round + Tail(r.end);
      ExtendTrace(p, r, round);
    } else {
      var round := [ModelCompleted, ProtocolRepair];
      assert Phases(r.events) == Phases(p.events) + round + Tail(r.end);
      ExtendTrace(p, r, round);
    }
  }

  lemma {:induction false} PlanTrace(cfg: Config, p: Progress, script: nat -> Planning, i: nat)
    requires p.repairs < cfg.repairLimit || p.end.Some?
    requires Grammatical(p)
    ensures Grammatical(Plan(cfg, p, script, i))
    decreases if Fuel(cfg, p) < 0 then 0 else Fuel(cfg, p), p.end.None?
  {
    hide PlanTurn, Grammatical;
    if p.end.None? && |p.executed| < cfg.maxSteps {
      PlanTurnTrace(cfg, p, script(i));
      PlanTurnFuel(cfg, p, script(i));
      PlanTurnRepairs(cfg, p, script(i));
      PlanTrace(cfg, PlanTurn(cfg, p, script(i)), script, i + 1);
    }
  }

  lemma PlanTurnRepairs(cfg: Config, p: Progress, reply: Planning)
    requires p.repairs < cfg.repairLimit
    ensures PlanTurn(cfg, p, reply).repairs < cfg.repairLimit || PlanTurn(cfg, p, reply).end.Some?
  {
  }

  /** Every trace is a start, then rounds, then one ending; in particular no tool starts once
      the closing turn has begun. */
  lemma TraceIsGrammatical(cfg: Config, script: nat -> Planning, closing: Closing)
    requires cfg.repairLimit > 0
    ensures Grammatical(AgentRun(cfg, script, closing))
  {
    hide Plan, Phases;
    assert Grammatical(START) by {
      StartTrace();
    }
    PlanTrace(cfg, START, script, 0);
    OneRound();
    var planned := Plan(cfg, START, script, 0);
    if planned.end.None? || planned.end.value.Stop? {
      var q := planned.(turns := planned.turns + 1);
      EmitPhase(q, Failed);
      EmitPhase(q, ModelCompleted);
      EmitPhase(q.Emit(ModelCompleted), Completed);
      var r := CloseRun(planned, closing);
      assert Phases(r.events) == Phases(planned.events) + [] + Tail(r.end);
      ExtendTrace(planned, r, []);
    }
  }

  lemma StartTrace()
    ensures Grammatical(START)
  {
    assert Phases(START.events) == [Started];
    assert [Started] + [] + Tail(START.end) == [Started];
    assert Rounds([]);
  }
}
