/** What a run of the agent comes to, told from what the model and the tools answer. */
module AgentOutcome {
  import opened Wrappers
  import opened AgentRunner
  import opened AgentTheorems

  // ----- What an answer is worth

  predicate IsFinal(r: Planning) { r.Answer? && r.text.action == Some(FinalAnswer) }

  /** Neither an action nor anything that looks like one. */
  predicate IsPlain(r: Planning) { r.Answer? && r.text.action.None? && !r.text.looksLikeAction }

  predicate IsCall(r: Planning) { r.Answer? && r.text.action.Some? && r.text.action.value.ToolCall? }

  /** The same written call as the one executed last. */
  predicate Repeated(call: Action, before: seq<Executed>)
    requires call.ToolCall?
  {
    call.signature != "" && before != [] && before[|before| - 1].signature == call.signature
  }

  predicate OverLimit(call: Action, before: seq<Executed>)
    requires call.ToolCall?
  {
    call.tool == WEB_SEARCH && Searches(before) >= MAX_WEB_SEARCHES
  }

  /** The call is executed. */
  predicate Runs(r: Planning, before: seq<Executed>) {
    && IsCall(r)
    && var call := r.text.action.value; call.known && !Repeated(call, before) && !OverLimit(call, before)
  }

  /** The five faults that cost a repair: an action that cannot be read, an unknown action, an
      unknown tool, a repeated call, and a search too many. */
  predicate Faulty(r: Planning, before: seq<Executed>) {
    && r.Answer?
    && (|| (r.text.action.None? && r.text.looksLikeAction)
        || r.text.action == Some(UnknownAction)
        || (&& IsCall(r)
            && var call := r.text.action.value;
               !call.known || Repeated(call, before) || OverLimit(call, before)))
  }

  predicate IsTerminal(r: Planning, before: seq<Executed>) {
    Runs(r, before) && var result := r.text.action.value.result; result.ToolOutput? && result.terminal
  }

  /** The planning does not go on after the answer. */
  predicate Ends(r: Planning, before: seq<Executed>) {
    !r.Answer? || IsFinal(r) || IsPlain(r) || IsTerminal(r, before)
  }

  // ----- What the first answers add up to

  /** The calls executed in answer to the first `k` replies. */
  function History(script: nat -> Planning, k: nat): seq<Executed> {
    if k == 0 then []
    else
      var before, r := History(script, k - 1), script(k - 1);
      if Runs(r, before) then before + [Executed(r.text.action.value.tool, r.text.action.value.signature)] else before
  }

  function Faults(script: nat -> Planning, k: nat): nat {
    if k == 0 then 0
    else Faults(script, k - 1) + if Faulty(script(k - 1), History(script, k - 1)) then 1 else 0
  }

  /** One step for every call, skipped if it is not executed. */
  function Record(script: nat -> Planning, k: nat): seq<Step> {
    if k == 0 then []
    else
      var before, r := Record(script, k - 1), script(k - 1);
      if !IsCall(r) then before
      else before + [Step(|before| + 1, r.text.action.value.tool, !Runs(r, History(script, k - 1)))]
  }

  /** The events of the first `k` replies. */
  function Story(script: nat -> Planning, k: nat): seq<Event> {
    if k == 0 then [Event(Started, 0, 0)]
    else
      var r, before := script(k - 1), History(script, k - 1);
      var n := |before|;
      if !r.Answer? then Story(script, k - 1)
      else
        Story(script, k - 1) + [Event(ModelCompleted, k, n)]
        + if Faulty(r, before) then [Event(ProtocolRepair, k, n)]
          else if Runs(r, before) then [Event(ToolStarted, k, n + 1), Event(ToolCompleted, k, n + 1)]
          else []
  }

  /** Reply `k` is asked for: nothing before it ended the planning, and neither budget is used
      up. */
  predicate Reaches(cfg: Config, script: nat -> Planning, k: nat) {
    && |History(script, k)| < cfg.maxSteps && Faults(script, k) < cfg.repairLimit
    && (k == 0 || (Reaches(cfg, script, k - 1) && !Ends(script(k - 1), History(script, k - 1))))
  }

  predicate Counts(p: Progress, script: nat -> Planning, k: nat) {
    && p.executed == History(script, k) && p.steps == Record(script, k) && p.repairs == Faults(script, k)
    && p.searches == Searches(p.executed) && p.lastSignature == LastSignature(p.executed)
  }

  /** The progress after `k` replies that did not end the planning. */
  predicate Follows(p: Progress, script: nat -> Planning, k: nat) {
    Counts(p, script, k) && p.turns == k && p.events == Story(script, k) && p.end.None?
  }

  // ----- One reply

  /** How reply `n - 1`, the last one, ends the planning; `None` when the tool budget did. */
  predicate EndsWith(cfg: Config, script: nat -> Planning, n: nat, p: Progress)
    requires n > 0
  {
    var r, before, calls := script(n - 1), History(script, n - 1), |History(script, n)|;
    var finished := Story(script, n) + [Event(Completed, n, calls)];
    && Counts(p, script, n) && p.turns == (if r.NoTimeLeft? then n - 1 else n)
    && if IsFinal(r) then p.end == Some(Finish(Final, FromModel)) && p.events == finished
       else if IsPlain(r) then p.end == Some(Finish(PlainText, FromModel)) && p.events == finished
       else if IsTerminal(r, before) then p.end == Some(Finish(TerminalTool, FromModel)) && p.events == finished
       else if r.Broken? then p.end == Some(Fail) && p.events == Story(script, n) + [Event(Failed, n, calls)]
       else
         && p.events == Story(script, n)
         && p.end == if !r.Answer? then Some(Stop(FinalizationReserved))
                     else if Faults(script, n) >= cfg.repairLimit then Some(Stop(RepairExhausted))
                     else None
  }

  lemma OneMoreExecuted(before: seq<Executed>, e: Executed)
    ensures Searches(before + [e]) == Searches(before) + if e.tool == WEB_SEARCH then 1 else 0
    ensures LastSignature(before + [e]) == e.signature
  {
    assert (before + [e])[..|before|] == before;
  }

  lemma EndingReply(cfg: Config, p: Progress, script: nat -> Planning, k: nat)
    requires Follows(p, script, k) && Reaches(cfg, script, k)
    requires !script(k).Answer? || IsFinal(script(k)) || IsPlain(script(k))
    ensures EndsWith(cfg, script, k + 1, PlanTurn(cfg, p, script(k)))
  {
    hide Searches, LastSignature, Reaches, Execute;
    assert Story(script, k) + [Event(ModelCompleted, k + 1, |History(script, k)|)] + []
        == Story(script, k) + [Event(ModelCompleted, k + 1, |History(script, k)|)];
  }

  lemma FaultyReply(cfg: Config, p: Progress, script: nat -> Planning, k: nat)
    requires Follows(p, script, k) && Reaches(cfg, script, k) && Faulty(script(k), History(script, k))
    ensures EndsWith(cfg, script, k + 1, PlanTurn(cfg, p, script(k)))
    ensures var q := PlanTurn(cfg, p, script(k)); q.end.None? || q.end == Some(Stop(RepairExhausted))
  {
    LastSignatureMeans(p.executed);
    hide Searches, LastSignature, Reaches, Execute;
    var r, n := script(k), |History(script, k)|;
    var q := p.(turns := p.turns + 1).Emit(ModelCompleted);
    assert PlanTurn(cfg, p, r)
        == (if IsCall(r) then q.Skip(r.text.action.value.tool) else q).Repair(cfg.repairLimit);
    assert Story(script, k + 1)
        == Story(script, k) + [Event(ModelCompleted, k + 1, n)] + [Event(ProtocolRepair, k + 1, n)];
  }

  lemma RunningReply(cfg: Config, p: Progress, script: nat -> Planning, k: nat)
    requires Follows(p, script, k) && Reaches(cfg, script, k) && Runs(script(k), History(script, k))
    ensures EndsWith(cfg, script, k + 1, PlanTurn(cfg, p, script(k)))
  {
    RunningCounts(script, k);
    RunningTurn(cfg, p, script(k));
    RunsMeans(script(k), p.executed);
    var q, call := p.(turns := p.turns + 1).Emit(ModelCompleted), script(k).text.action.value;
    RunToolMeans(q, call);
    OneMoreExecuted(p.executed, Executed(call.tool, call.signature));
    assert p.repairs < cfg.repairLimit;
    hide Searches, LastSignature, Reaches, Execute, Story, Record, History, Faults, PlanTurn, IsTerminal, Runs;
    hide IsFinal, IsPlain, IsCall, Repeated, OverLimit;
    var e, n := Event(ModelCompleted, k + 1, |p.executed|), |p.executed| + 1;
    TwoByTwo(p.events, e, Event(ToolStarted, k + 1, n), Event(ToolCompleted, k + 1, n));
  }

  lemma RunsMeans(r: Planning, before: seq<Executed>)
    requires Runs(r, before)
    ensures r.Answer? && !IsFinal(r) && !IsPlain(r)
    ensures var result := r.text.action.value.result; IsTerminal(r, before) <==> result.ToolOutput? && result.terminal
  {
  }

  lemma RunningCounts(script: nat -> Planning, k: nat)
    requires Runs(script(k), History(script, k))
    ensures var call, n := script(k).text.action.value, |History(script, k)|;
            && History(script, k + 1) == History(script, k) + [Executed(call.tool, call.signature)]
            && Faults(script, k + 1) == Faults(script, k)
            && Record(script, k + 1) == Record(script, k) + [Step(|Record(script, k)| + 1, call.tool, false)]
            && Story(script, k + 1)
               == Story(script, k) + [Event(ModelCompleted, k + 1, n)]
                  + [Event(ToolStarted, k + 1, n + 1), Event(ToolCompleted, k + 1, n + 1)]
  {
    hide Searches;
  }

  lemma RunningTurn(cfg: Config, p: Progress, r: Planning)
    requires Runs(r, p.executed)
    requires p.searches == Searches(p.executed) && p.lastSignature == LastSignature(p.executed)
    ensures var q := p.(turns := p.turns + 1).Emit(ModelCompleted);
            PlanTurn(cfg, p, r) == Execute(q, r.text.action.value)
  {
    LastSignatureMeans(p.executed);
    hide Searches, LastSignature, Execute;
  }

  lemma TwoByTwo(s: seq<Event>, a: Event, b: Event, c: Event)
    ensures s + [a] + [b, c] == s + [a] + [b] + [c]
  {
  }

  lemma RunToolMeans(q: Progress, call: Action)
    requires call.ToolCall? && q.end.None?
    ensures var r, n := Execute(q, call), |q.executed|;
            var done := q.events + [Event(ToolStarted, q.turns, n + 1)] + [Event(ToolCompleted, q.turns, n + 1)];
            && r.executed == q.executed + [Executed(call.tool, call.signature)] && r.turns == q.turns
            && r.repairs == q.repairs && r.lastSignature == call.signature
            && r.searches == q.searches + (if call.tool == WEB_SEARCH then 1 else 0)
            && r.steps == q.steps + [Step(|q.steps| + 1, call.tool, false)]
            && if call.result.ToolOutput? && call.result.terminal
               then
                 && r.end == Some(Finish(TerminalTool, FromModel))
                 && r.events == done + [Event(Completed, q.turns, n + 1)]
               else r.end.None? && r.events == done
  {
  }

  /** A reply that is asked for ends the planning as it should, or lets it go on. */
  lemma ReplyMeans(cfg: Config, p: Progress, script: nat -> Planning, k: nat)
    requires Follows(p, script, k) && Reaches(cfg, script, k)
    ensures var q := PlanTurn(cfg, p, script(k));
            && EndsWith(cfg, script, k + 1, q)
            && (q.end.None? ==> Follows(q, script, k + 1))
            && (q.end.None? && |q.executed| < cfg.maxSteps <==> Reaches(cfg, script, k + 1))
  {
    hide PlanTurn, Searches, LastSignature, Repeated, OverLimit;
    var r, before := script(k), History(script, k);
    assert Ends(r, before) || Faulty(r, before) || Runs(r, before);
    if !r.Answer? || IsFinal(r) || IsPlain(r) {
      EndingReply(cfg, p, script, k);
    } else if Faulty(r, before) {
      FaultyReply(cfg, p, script, k);
    } else {
      RunningReply(cfg, p, script, k);
    }
    hide Story, Record;
  }

  lemma LastSignatureMeans(executed: seq<Executed>)
    ensures LastSignature(executed) == if executed == [] then "" else executed[|executed| - 1].signature
  {
  }

  // ----- The whole run

  /** The planning reads replies as long as it is to, and ends as the last of them says. */
  lemma {:induction false} PlanMeans(cfg: Config, p: Progress, script: nat -> Planning, k: nat) returns (n: nat)
    requires Follows(p, script, k) && Reaches(cfg, script, k)
    ensures n > k && Reaches(cfg, script, n - 1) && !Reaches(cfg, script, n)
    ensures EndsWith(cfg, script, n, Plan(cfg, p, script, k))
    decreases if Fuel(cfg, p) < 0 then 0 else Fuel(cfg, p)
  {
    hide PlanTurn, Reaches, EndsWith, Follows, Plan;
    var q := OneReply(cfg, p, script, k);
    if Reaches(cfg, script, k + 1) {
      n := PlanMeans(cfg, q, script, k + 1);
    } else {
      n := k + 1;
    }
  }

  lemma OneReply(cfg: Config, p: Progress, script: nat -> Planning, k: nat) returns (q: Progress)
    requires Follows(p, script, k) && Reaches(cfg, script, k)
    ensures p.repairs < cfg.repairLimit && Fuel(cfg, p) >= 2
    ensures Reaches(cfg, script, k + 1) ==>
              && q.repairs < cfg.repairLimit && Follows(q, script, k + 1) && Fuel(cfg, q) < Fuel(cfg, p)
              && Plan(cfg, p, script, k) == Plan(cfg, q, script, k + 1)
    ensures !Reaches(cfg, script, k + 1) ==> EndsWith(cfg, script, k + 1, Plan(cfg, p, script, k))
  {
    ReachedHasRoom(cfg, p, script, k);
    hide PlanTurn, Reaches, EndsWith, Plan, Story, Record, History, Faults;
    q := PlanTurn(cfg, p, script(k));
    ReplyMeans(cfg, p, script, k);
    PlanTurnFuel(cfg, p, script(k));
    PlanUnfolds(cfg, p, script, k);
  }

  lemma PlanUnfolds(cfg: Config, p: Progress, script: nat -> Planning, k: nat)
    requires p.repairs < cfg.repairLimit && |p.executed| < cfg.maxSteps && p.end.None?
    ensures var q := PlanTurn(cfg, p, script(k));
            && (q.repairs < cfg.repairLimit || q.end.Some?)
            && Plan(cfg, p, script, k)
               == if q.end.None? && |q.executed| < cfg.maxSteps then Plan(cfg, q, script, k + 1) else q
  {
    hide PlanTurn;
    PlanTurnRepairs(cfg, p, script(k));
  }

  lemma ReachedHasRoom(cfg: Config, p: Progress, script: nat -> Planning, k: nat)
    requires Follows(p, script, k) && Reaches(cfg, script, k)
    ensures p.repairs < cfg.repairLimit && |p.executed| < cfg.maxSteps && p.end.None? && Fuel(cfg, p) >= 2
  {
  }

  /** How the closing turn ends a run for a reason: with the model's words, unless they are an
      action it may not take any more. */
  predicate ClosesWith(p: Progress, reason: Reason, closing: Closing, r: Progress) {
    var turn, calls := p.turns + 1, |p.executed|;
    && r.turns == turn && r.executed == p.executed && r.steps == p.steps && r.repairs == p.repairs
    && match closing
       case ClosingError => r.end == Some(Fail) && r.events == p.events + [Event(Failed, turn, calls)]
       case ClosingAnswer(text) =>
         && r.events == p.events + [Event(ModelCompleted, turn, calls), Event(Completed, turn, calls)]
         && r.end.Some? && r.end.value.Finish? && r.end.value.reason == reason
         && (r.end.value.reply == FromModel <==> text.action == Some(FinalAnswer) || !text.looksLikeAction)
         && (r.end.value.reply == RefusedTool <==>
               text.looksLikeAction && text.action.Some? && text.action.value.ToolCall?)
  }

  lemma ClosingMeans(p: Progress, closing: Closing)
    requires p.end.None? || p.end.value.Stop?
    ensures var reason := if p.end.Some? then p.end.value.reason else ToolBudgetExhausted;
            ClosesWith(p, reason, closing, CloseRun(p, closing))
  {
  }

  /** For every model and every tool: the run reads replies up to the first that ends it or uses
      up a budget, has executed, recorded and told exactly what they amount to, and ends as the
      last of them or else the closing turn says. */
  lemma RunMeans(cfg: Config, script: nat -> Planning, closing: Closing) returns (n: nat)
    requires cfg.maxSteps > 0 && cfg.repairLimit > 0
    ensures n > 0 && Reaches(cfg, script, n - 1) && !Reaches(cfg, script, n)
    ensures var planned, p := Plan(cfg, START, script, 0), AgentRun(cfg, script, closing);
            && EndsWith(cfg, script, n, planned)
            && if planned.end.Some? && !planned.end.value.Stop? then p == planned
               else
                 var reason := if planned.end.Some? then planned.end.value.reason else ToolBudgetExhausted;
                 ClosesWith(planned, reason, closing, p)
  {
    hide Plan, CloseRun, EndsWith, ClosesWith;
    assert Follows(START, script, 0);
    assert Reaches(cfg, script, 0);
    n := PlanMeans(cfg, START, script, 0);
    var planned := Plan(cfg, START, script, 0);
    if planned.end.None? || planned.end.value.Stop? {
      ClosingMeans(planned, closing);
    }
  }

  lemma {:induction false} ReachedBefore(cfg: Config, script: nat -> Planning, k: nat, n: nat)
    requires Reaches(cfg, script, n) && k <= n
    ensures Reaches(cfg, script, k)
    ensures k < n ==> !Ends(script(k), History(script, k))
    decreases n
  {
    if k < n {
      ReachedBefore(cfg, script, k, n - 1);
    }
  }

  /** So the first final answer ends the run at its own turn, with nothing executed since. */
  lemma FinalAnswerEnds(cfg: Config, script: nat -> Planning, closing: Closing, k: nat)
    requires cfg.maxSteps > 0 && cfg.repairLimit > 0 && Reaches(cfg, script, k)
    requires IsFinal(script(k)) || IsPlain(script(k))
    ensures var p := AgentRun(cfg, script, closing);
            && p.end == Some(Finish(if IsFinal(script(k)) then Final else PlainText, FromModel))
            && p.turns == k + 1 && p.executed == History(script, k) && p.repairs == Faults(script, k)
  {
    hide Plan, AgentRun, ClosesWith, Reaches;
    var n := RunMeans(cfg, script, closing);
    if n <= k {
      ReachedBefore(cfg, script, n, k);
    } else if k + 1 < n {
      ReachedBefore(cfg, script, k, n - 1);
    }
    assert n == k + 1;
  }

  /** And a good call that is asked for is executed in its turn. */
  lemma GoodCallIsExecuted(cfg: Config, script: nat -> Planning, closing: Closing, k: nat)
    requires cfg.maxSteps > 0 && cfg.repairLimit > 0 && Reaches(cfg, script, k) && Runs(script(k), History(script, k))
    ensures var p, call := AgentRun(cfg, script, closing), script(k).text.action.value;
            && |History(script, k)| < |p.executed|
            && p.executed[|History(script, k)|] == Executed(call.tool, call.signature)
  {
    hide Plan, AgentRun, Reaches;
    var n := RunMeans(cfg, script, closing);
    if n <= k {
      ReachedBefore(cfg, script, n, k);
    }
    HistoryGrows(script, k + 1, n);
  }

  lemma {:induction false} HistoryGrows(script: nat -> Planning, k: nat, n: nat)
    requires k <= n
    ensures History(script, k) <= History(script, n)
    decreases n
  {
    if k < n {
      HistoryGrows(script, k, n - 1);
    }
  }
}
