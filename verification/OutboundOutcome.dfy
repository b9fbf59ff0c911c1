/** What one outbound invocation comes to, told from the environment: which call is made when,
    what the last one was answered, and what ended the waiting. */
module OutboundOutcome {
  import opened Text
  import opened Wrappers
  import opened OutboundGate
  import opened OutboundDelivery

  /** The call failed and may be repeated. */
  predicate Fails(r: Reply) { r.Failure? && !r.groupUnavailable }

  /** What is known before round `|calls|`: the failures so far and the first of them, the attempt
      that is due, and the time. */
  datatype Ledger = Ledger(failures: nat, first: Option<int>, due: Option<int>, clock: int)

  /** The ledger after the calls, each of which failed. A gate found in a cooldown that is over
      counts for nothing. */
  function Tally(p: Policy, gate: Gate, clock: int, calls: seq<Attempt>, script: nat -> Round, i: nat): Ledger {
    var n := |calls|;
    if n == 0 then Ledger(gate.failures, gate.firstFailure, gate.nextAttempt, clock)
    else
      var last, round := calls[n - 1], script(i + n - 1);
      var afresh := gate.dropUntil.Some?;
      var failures := (if afresh then 0 else gate.failures) + n;
      var first := if afresh || gate.firstFailure.None? then calls[0].end else gate.firstFailure.value;
      Ledger(failures, Some(first), Some(last.end + Delay(p, failures, round.jitter)), last.end)
  }

  /** The window for retries is over at `now`. */
  predicate Over(p: Policy, first: Option<int>, now: int) { first.Some? && now - first.value >= p.failureWindow }

  /** The gate was found in a cooldown that still lasts. */
  predicate Cooling(gate: Gate, n: nat, now: int) { n == 0 && gate.dropUntil.Some? && now < gate.dropUntil.value }

  /** The waiting for the attempt that is due is cut short. */
  predicate Interrupted(l: Ledger, r: Round) {
    l.due.Some? && r.interrupted.Some? && l.clock + r.idle + r.lag + r.interrupted.value < l.due.value
  }

  /** The window is over before round `n`, for a gate that is not in or after a cooldown. */
  predicate Late(p: Policy, gate: Gate, n: nat, l: Ledger, r: Round) {
    (n > 0 || gate.dropUntil.None?) && Over(p, l.first, l.clock + r.idle)
  }

  /** Round `n` makes no call. */
  predicate Hindered(p: Policy, gate: Gate, n: nat, l: Ledger, r: Round) {
    r.cancelled.Some? || Cooling(gate, n, l.clock + r.idle) || Late(p, gate, n, l, r) || Interrupted(l, r)
  }

  /** When the call of a round that is not hindered starts. */
  function StartOf(l: Ledger, r: Round): int {
    var ready := l.clock + r.idle + r.lag;
    if l.due.Some? && l.due.value > ready then l.due.value + r.late else ready
  }

  /** The waiting of a round that makes no call ends without a drop. */
  predicate GivesUp(p: Policy, gate: Gate, n: nat, l: Ledger, r: Round) {
    if r.cancelled.Some? then l.failures == 0 || r.stopped
    else !Cooling(gate, n, l.clock + r.idle) && !Late(p, gate, n, l, r) && Interrupted(l, r) && r.stopped
  }

  /** Another round follows the calls. */
  predicate GoesOn(p: Policy, onceOnly: bool, l: Ledger, calls: seq<Attempt>, script: nat -> Round, i: nat) {
    calls == [] || (Fails(script(i + |calls| - 1).reply) && !Over(p, l.first, l.clock) && !onceOnly)
  }

  // ----- One round

  /** A round that makes no call. */
  lemma HinderedRound(p: Policy, onceOnly: bool, gate: Gate, clock: int, r: Round)
    requires ValidPolicy(p) && GateOk(gate)
    ensures var l := Ledger(gate.failures, gate.firstFailure, gate.nextAttempt, clock);
            var t := TakeTurn(p, onceOnly, gate, clock, r);
            && (t.call.None? <==> Hindered(p, gate, 0, l, r))
            && (t.call.None? ==>
                  && t.done.Some? && t.clock >= clock
                  && (t.done == Some(Cancelled) <==> GivesUp(p, gate, 0, l, r))
                  && (t.done != Some(Cancelled) <==> t.done.value.Dropped?)
                  && t.gate.failures == gate.failures && t.gate.firstFailure == gate.firstFailure
                  && (t.done.value.Dropped? && Blank(gate.lastError) ==>
                        t.gate.lastError
                        == if r.cancelled.Some? then r.cancelled.value
                           else if Cooling(gate, 0, clock + r.idle) || Late(p, gate, 0, l, r) then gate.lastError
                           else r.interruption)
                  && (!Blank(gate.lastError) ==> t.gate.lastError == gate.lastError)
                  && (t.done == Some(Cancelled) ==> t.gate == gate)
                  && (t.done.value.Dropped? ==>
                        if r.cancelled.None? && Cooling(gate, 0, clock + r.idle) then t.gate == gate
                        else t.gate.dropUntil == Some(t.clock + p.dropCooldown)))
  {
    hide Delay, Blank;
    hide Settle;
    SettleCalls(p, onceOnly, Approach(p, gate, clock, r).gate, Approach(p, gate, clock, r).clock, r);
  }

  lemma SettleCalls(p: Policy, onceOnly: bool, g: Gate, start: int, r: Round)
    ensures Settle(p, onceOnly, g, start, r).call == Some(Attempt(start, start + r.duration))
    ensures Settle(p, onceOnly, g, start, r).clock == start + r.duration
  {
  }

  /** A round that makes a call. */
  lemma CallingRound(p: Policy, onceOnly: bool, gate: Gate, clock: int, r: Round)
    requires ValidPolicy(p) && GateOk(gate)
    requires !Hindered(p, gate, 0, Ledger(gate.failures, gate.firstFailure, gate.nextAttempt, clock), r)
    ensures var l := Ledger(gate.failures, gate.firstFailure, gate.nextAttempt, clock);
            var t := TakeTurn(p, onceOnly, gate, clock, r);
            var g := if gate.dropUntil.Some? then OPEN else gate;
            && t.call == Some(Attempt(StartOf(l, r), StartOf(l, r) + r.duration)) && t.clock == t.call.value.end
            && (t.done == Some(Delivered) <==> r.reply.Ok?)
            && (t.done == Some(GroupUnavailable) <==> r.reply.Failure? && r.reply.groupUnavailable)
            && (r.reply.Ok? ==> t.gate == OPEN)
            && (r.reply.Failure? && r.reply.groupUnavailable ==> t.gate == g)
            && (Fails(r.reply) ==>
                  var first := if g.firstFailure.Some? then g.firstFailure.value else t.clock;
                  && t.gate.failures == g.failures + 1 && t.gate.firstFailure == Some(first)
                  && t.gate.lastError == r.reply.error
                  && (Over(p, Some(first), t.clock) ==>
                        && t.done == Some(Dropped(r.reply.error))
                        && t.gate.dropUntil == Some(t.clock + p.dropCooldown) && t.gate.nextAttempt.None?)
                  && (!Over(p, Some(first), t.clock) ==>
                        && t.done == (if onceOnly then Some(FailedOnce) else None)
                        && t.gate.dropUntil.None?
                        && t.gate.nextAttempt == Some(t.clock + Delay(p, g.failures + 1, r.jitter))))
  {
    hide Delay;
  }

  // ----- All rounds

  /** Call `k` is made because all before it failed and nothing hindered it, and starts as soon as
      it may. */
  predicate Proper(
      p: Policy, onceOnly: bool, gate: Gate, clock: int, calls: seq<Attempt>, script: nat -> Round, i: nat, k: nat)
    requires k < |calls|
  {
    var l, r := Tally(p, gate, clock, calls[..k], script, i), script(i + k);
    && GoesOn(p, onceOnly, l, calls[..k], script, i) && !Hindered(p, gate, k, l, r)
    && calls[k] == Attempt(StartOf(l, r), StartOf(l, r) + r.duration)
  }

  /** The result follows from the last call, or else from what hindered the next one. */
  predicate Answers(
      p: Policy, onceOnly: bool, gate: Gate, clock: int, calls: seq<Attempt>, script: nat -> Round, i: nat,
      result: Result)
  {
    var n, l := |calls|, Tally(p, gate, clock, calls, script, i);
    var goesOn, r := GoesOn(p, onceOnly, l, calls, script, i), script(i + n);
    && (goesOn ==> Hindered(p, gate, n, l, r))
    && (result == Delivered <==> n > 0 && script(i + n - 1).reply.Ok?)
    && (result == GroupUnavailable <==>
          n > 0 && script(i + n - 1).reply.Failure? && script(i + n - 1).reply.groupUnavailable)
    && (result == FailedOnce <==>
          n > 0 && Fails(script(i + n - 1).reply) && !Over(p, l.first, l.clock) && onceOnly)
    && (result == Cancelled <==> goesOn && GivesUp(p, gate, n, l, r))
    && (result.Dropped? <==>
          || (n > 0 && Fails(script(i + n - 1).reply) && Over(p, l.first, l.clock))
          || (goesOn && !GivesUp(p, gate, n, l, r)))
  }

  /** The gate afterwards: open after a delivery; otherwise its failures are those that were
      counted, and their error is kept. */
  predicate Leaves(p: Policy, gate: Gate, clock: int, calls: seq<Attempt>, script: nat -> Round, i: nat, after: Gate)
  {
    var n := |calls|;
    if n > 0 && script(i + n - 1).reply.Ok? then after == OPEN
    else
      var failed := n > 0 && Fails(script(i + n - 1).reply);
      var counted := if n == 0 || failed then calls else calls[..n - 1];
      var l := Tally(p, gate, clock, counted, script, i);
      var afresh := n > 0 && gate.dropUntil.Some?;
      && after.failures == (if afresh && counted == [] then 0 else l.failures)
      && after.firstFailure == (if afresh && counted == [] then None else l.first)
      && ((n == 0 || failed) && after.dropUntil.None? ==> after.nextAttempt == l.due)
      && (n == 0 && !Blank(gate.lastError) ==> after.lastError == gate.lastError)
      && (failed && !Blank(script(i + n - 1).reply.error) ==> after.lastError == script(i + n - 1).reply.error)
  }

  /** Counting from the first call or from the gate that it leaves comes to the same. */
  lemma TallyOneLess(
      p: Policy, gate: Gate, clock: int, c: Attempt, next: Gate, cs: seq<Attempt>, script: nat -> Round, i: nat)
    requires GateOk(gate)
    requires var afresh := gate.dropUntil.Some?;
             && next.failures == (if afresh then 0 else gate.failures) + 1
             && next.firstFailure == Some(if afresh || gate.firstFailure.None? then c.end else gate.firstFailure.value)
             && next.nextAttempt == Some(c.end + Delay(p, next.failures, script(i).jitter)) && next.dropUntil.None?
    ensures Tally(p, gate, clock, [c] + cs, script, i) == Tally(p, next, c.end, cs, script, i + 1)
  {
    hide Delay;
    var all, n := [c] + cs, |cs|;
    if n > 0 {
      assert all[n] == cs[n - 1] && all[0] == c;
    }
  }

  lemma SameHindrance(p: Policy, gate: Gate, next: Gate, n: nat, l: Ledger, r: Round)
    requires next.dropUntil.None?
    ensures Hindered(p, gate, n + 1, l, r) == Hindered(p, next, n, l, r)
    ensures GivesUp(p, gate, n + 1, l, r) == GivesUp(p, next, n, l, r)
  {
  }

  /** The first call failed and is to be repeated, and leaves `next`. */
  predicate Repeats(p: Policy, onceOnly: bool, gate: Gate, c: Attempt, next: Gate, script: nat -> Round, i: nat) {
    var afresh := gate.dropUntil.Some?;
    && Fails(script(i).reply) && !onceOnly
    && next.failures == (if afresh then 0 else gate.failures) + 1
    && next.firstFailure == Some(if afresh || gate.firstFailure.None? then c.end else gate.firstFailure.value)
    && !Over(p, next.firstFailure, c.end) && next.lastError == script(i).reply.error
    && next.nextAttempt == Some(c.end + Delay(p, next.failures, script(i).jitter)) && next.dropUntil.None?
  }

  lemma LaterCallsAreProper(
      p: Policy, onceOnly: bool, gate: Gate, clock: int, c: Attempt, next: Gate, cs: seq<Attempt>,
      script: nat -> Round, i: nat, k: nat)
    requires GateOk(gate) && Repeats(p, onceOnly, gate, c, next, script, i)
    requires k < |cs| && Proper(p, onceOnly, next, c.end, cs, script, i + 1, k)
    ensures Proper(p, onceOnly, gate, clock, [c] + cs, script, i, k + 1)
  {
    hide Delay, Hindered, Tally;
    assert ([c] + cs)[..k + 1] == [c] + cs[..k];
    TallyOneLess(p, gate, clock, c, next, cs[..k], script, i);
    var l := Tally(p, next, c.end, cs[..k], script, i + 1);
    SameHindrance(p, gate, next, k, l, script(i + k + 1));
    if k == 0 {
      StartingTally(p, next, c.end, script, i + 1);
    }
  }

  lemma StartingTally(p: Policy, gate: Gate, clock: int, script: nat -> Round, i: nat)
    ensures Tally(p, gate, clock, [], script, i)
         == Ledger(gate.failures, gate.firstFailure, gate.nextAttempt, clock)
  {
  }

  lemma AnswerOfRest(
      p: Policy, onceOnly: bool, gate: Gate, clock: int, c: Attempt, next: Gate, cs: seq<Attempt>,
      script: nat -> Round, i: nat, result: Result, after: Gate)
    requires GateOk(gate) && Repeats(p, onceOnly, gate, c, next, script, i)
    requires Answers(p, onceOnly, next, c.end, cs, script, i + 1, result)
    requires Leaves(p, next, c.end, cs, script, i + 1, after)
    ensures Answers(p, onceOnly, gate, clock, [c] + cs, script, i, result)
    ensures Leaves(p, gate, clock, [c] + cs, script, i, after)
  {
    hide Delay, Hindered, GivesUp, Tally, Blank;
    var n := |cs|;
    TallyOneLess(p, gate, clock, c, next, cs, script, i);
    var l := Tally(p, next, c.end, cs, script, i + 1);
    SameHindrance(p, gate, next, n, l, script(i + n + 1));
    StartingTally(p, next, c.end, script, i + 1);
    if n > 0 {
      assert ([c] + cs)[..n] == [c] + cs[..n - 1];
      TallyOneLess(p, gate, clock, c, next, cs[..n - 1], script, i);
    }
  }

  ghost predicate AllProper(
      p: Policy, onceOnly: bool, gate: Gate, clock: int, calls: seq<Attempt>, script: nat -> Round, i: nat)
  {
    forall k: nat :: k < |calls| ==> Proper(p, onceOnly, gate, clock, calls, script, i, k)
  }

  /** What an invocation comes to, for every environment: it calls as soon and as long as it may,
      its result is that of its last call or of what hindered the next one, and the gate keeps
      count. */
  lemma {:induction false} InvocationMeans(
      p: Policy, onceOnly: bool, gate: Gate, clock: int, script: nat -> Round, i: nat)
    requires ValidPolicy(p) && GateOk(gate)
    ensures var o := Invoke(p, onceOnly, gate, clock, script, i);
            && AllProper(p, onceOnly, gate, clock, o.calls, script, i)
            && Answers(p, onceOnly, gate, clock, o.calls, script, i, o.result)
            && Leaves(p, gate, clock, o.calls, script, i, o.gate)
    decreases TurnsLeft(p, gate)
  {
    hide Delay, TakeTurn, Hindered, Answers, Leaves, Proper, GateOk;
    var r, l := script(i), Ledger(gate.failures, gate.firstFailure, gate.nextAttempt, clock);
    var turn := TakeTurn(p, onceOnly, gate, clock, r);
    TurnProgress(p, onceOnly, gate, clock, r);
    if Hindered(p, gate, 0, l, r) {
      NoCallIsMade(p, onceOnly, gate, clock, script, i);
    } else if turn.done.Some? {
      OneCallIsMade(p, onceOnly, gate, clock, script, i);
    } else {
      InvocationMeans(p, onceOnly, turn.gate, turn.clock, script, i + 1);
      FailedCallIsRepeated(p, onceOnly, gate, clock, script, i);
    }
  }

  lemma FailedCallIsRepeated(p: Policy, onceOnly: bool, gate: Gate, clock: int, script: nat -> Round, i: nat)
    requires ValidPolicy(p) && GateOk(gate)
    requires !Hindered(p, gate, 0, Ledger(gate.failures, gate.firstFailure, gate.nextAttempt, clock), script(i))
    requires TakeTurn(p, onceOnly, gate, clock, script(i)).done.None?
    requires var next := TakeTurn(p, onceOnly, gate, clock, script(i));
             && ValidPolicy(p) && GateOk(next.gate)
             && var rest := Invoke(p, onceOnly, next.gate, next.clock, script, i + 1);
             && AllProper(p, onceOnly, next.gate, next.clock, rest.calls, script, i + 1)
             && Answers(p, onceOnly, next.gate, next.clock, rest.calls, script, i + 1, rest.result)
             && Leaves(p, next.gate, next.clock, rest.calls, script, i + 1, rest.gate)
    ensures var o := Invoke(p, onceOnly, gate, clock, script, i);
            && AllProper(p, onceOnly, gate, clock, o.calls, script, i)
            && Answers(p, onceOnly, gate, clock, o.calls, script, i, o.result)
            && Leaves(p, gate, clock, o.calls, script, i, o.gate)
  {
    var turn := TakeTurn(p, onceOnly, gate, clock, script(i));
    CallingRound(p, onceOnly, gate, clock, script(i));
    var c, next := turn.call.value, turn.gate;
    assert Repeats(p, onceOnly, gate, c, next, script, i) by {
      hide Delay, TakeTurn;
    }
    var o, rest := Invoke(p, onceOnly, gate, clock, script, i), Invoke(p, onceOnly, next, turn.clock, script, i + 1);
    hide Delay, TakeTurn, Hindered, Answers, Leaves, Proper, Repeats;
    assert o == rest.(calls := [c] + rest.calls);
    FirstCallIsProper(p, onceOnly, gate, clock, c, rest.calls, script, i);
    hide Invoke;
    AllAreProper(p, onceOnly, gate, clock, c, next, rest.calls, script, i);
    AnswerOfRest(p, onceOnly, gate, clock, c, next, rest.calls, script, i, rest.result, rest.gate);
  }

  lemma AllAreProper(
      p: Policy, onceOnly: bool, gate: Gate, clock: int, c: Attempt, next: Gate, cs: seq<Attempt>,
      script: nat -> Round, i: nat)
    requires GateOk(gate) && Repeats(p, onceOnly, gate, c, next, script, i)
    requires Proper(p, onceOnly, gate, clock, [c] + cs, script, i, 0)
    requires AllProper(p, onceOnly, next, c.end, cs, script, i + 1)
    ensures AllProper(p, onceOnly, gate, clock, [c] + cs, script, i)
  {
    hide Repeats, Proper, GateOk;
    forall k: nat | k < |[c] + cs| ensures Proper(p, onceOnly, gate, clock, [c] + cs, script, i, k) {
      if k > 0 {
        LaterCallsAreProper(p, onceOnly, gate, clock, c, next, cs, script, i, k - 1);
      }
    }
  }

  lemma NoCallIsMade(p: Policy, onceOnly: bool, gate: Gate, clock: int, script: nat -> Round, i: nat)
    requires ValidPolicy(p) && GateOk(gate)
    requires Hindered(p, gate, 0, Ledger(gate.failures, gate.firstFailure, gate.nextAttempt, clock), script(i))
    ensures var o := Invoke(p, onceOnly, gate, clock, script, i);
            && o.calls == [] && Answers(p, onceOnly, gate, clock, [], script, i, o.result)
            && Leaves(p, gate, clock, [], script, i, o.gate)
  {
    hide TakeTurn, Hindered, GivesUp, Blank;
    HinderedRound(p, onceOnly, gate, clock, script(i));
  }

  lemma OneCallIsMade(p: Policy, onceOnly: bool, gate: Gate, clock: int, script: nat -> Round, i: nat)
    requires ValidPolicy(p) && GateOk(gate)
    requires !Hindered(p, gate, 0, Ledger(gate.failures, gate.firstFailure, gate.nextAttempt, clock), script(i))
    requires TakeTurn(p, onceOnly, gate, clock, script(i)).done.Some?
    ensures var o := Invoke(p, onceOnly, gate, clock, script, i);
            && |o.calls| == 1 && Proper(p, onceOnly, gate, clock, o.calls, script, i, 0)
            && Answers(p, onceOnly, gate, clock, o.calls, script, i, o.result)
            && Leaves(p, gate, clock, o.calls, script, i, o.gate)
  {
    hide Delay, TakeTurn, Hindered, GivesUp, Blank;
    CallingRound(p, onceOnly, gate, clock, script(i));
    var o := Invoke(p, onceOnly, gate, clock, script, i);
    assert o.calls[..0] == [];
  }

  lemma FirstCallIsProper(
      p: Policy, onceOnly: bool, gate: Gate, clock: int, c: Attempt, cs: seq<Attempt>, script: nat -> Round, i: nat)
    requires var l := Ledger(gate.failures, gate.firstFailure, gate.nextAttempt, clock);
             && !Hindered(p, gate, 0, l, script(i))
             && c == Attempt(StartOf(l, script(i)), StartOf(l, script(i)) + script(i).duration)
    ensures Proper(p, onceOnly, gate, clock, [c] + cs, script, i, 0)
  {
    assert ([c] + cs)[..0] == [];
  }

  /** A drop starts a cooldown of full length when it happens, unless it is refused by one. */
  lemma {:induction false} DropCools(p: Policy, onceOnly: bool, gate: Gate, clock: int, script: nat -> Round, i: nat)
    requires ValidPolicy(p) && GateOk(gate)
    ensures var o := Invoke(p, onceOnly, gate, clock, script, i);
            o.result.Dropped? ==>
              if o.calls == [] && script(i).cancelled.None? && Cooling(gate, 0, clock + script(i).idle)
              then o.gate == gate
              else o.gate.dropUntil == Some(o.clock + p.dropCooldown) && o.gate.nextAttempt.None?
    decreases TurnsLeft(p, gate)
  {
    hide TakeTurn, GateOk;
    TurnProgress(p, onceOnly, gate, clock, script(i));
    DropOfTurn(p, onceOnly, gate, clock, script(i));
    var turn := TakeTurn(p, onceOnly, gate, clock, script(i));
    if turn.done.None? {
      DropCools(p, onceOnly, turn.gate, turn.clock, script, i + 1);
    }
  }

  lemma DropOfTurn(p: Policy, onceOnly: bool, gate: Gate, clock: int, r: Round)
    requires ValidPolicy(p) && GateOk(gate)
    ensures var t := TakeTurn(p, onceOnly, gate, clock, r);
            && (t.done.None? ==> t.gate.dropUntil.None? && t.call.Some?)
            && (t.done.Some? && t.done.value.Dropped? ==>
                  if t.call.None? && r.cancelled.None? && Cooling(gate, 0, clock + r.idle) then t.gate == gate
                  else t.gate.dropUntil == Some(t.clock + p.dropCooldown) && t.gate.nextAttempt.None?)
  {
    hide Delay;
  }
}
