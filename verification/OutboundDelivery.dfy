/** The gate object with its retry loop, and what the gate guarantees over one invocation and
    over a whole run of invocations. */
module OutboundDelivery {
  import opened Wrappers
  import opened Text
  import opened OutboundGate

  class GroupOutboundDelivery {
    var failures: nat
    var firstFailure: Option<int>
    var nextAttempt: Option<int>
    var dropUntil: Option<int>
    var lastError: string

    ghost function State(): Gate
      reads this
    {
      Gate(failures, firstFailure, nextAttempt, dropUntil, lastError)
    }

    constructor ()
      ensures State() == OPEN
    {
      failures, firstFailure, nextAttempt, dropUntil, lastError := 0, None, None, None, "";
    }

    method Reset()
      modifies this
      ensures State() == OPEN
    {
      failures, firstFailure, nextAttempt, dropUntil, lastError := 0, None, None, None, "";
    }

    method EnterDropCooldown(p: Policy, now: int)
      modifies this
      ensures State() == Cool(p, old(State()), now)
    {
      nextAttempt := None;
      dropUntil := Some(now + p.dropCooldown);
    }

    /** Everything in one turn before the call; `result` is set when the turn ends here. */
    method WaitForTurn(p: Policy, clock: int, r: Round) returns (now: int, result: Option<Result>)
      modifies this
      ensures Turn(State(), now, result, None) == Approach(p, old(State()), clock, r)
    {
      now := clock + r.idle;
      if r.cancelled.Some? {
        if failures == 0 || r.stopped {
          return now, Some(Cancelled);
        }
        if TrimSpace(lastError) == "" {
          lastError := r.cancelled.value;
        }
        EnterDropCooldown(p, now);
        return now, Some(Dropped(lastError));
      }
      if dropUntil.Some? {
        if now < dropUntil.value {
          return now, Some(Dropped(lastError));
        }
        Reset();
      }
      if firstFailure.Some? && now - firstFailure.value >= p.failureWindow {
        EnterDropCooldown(p, now);
        return now, Some(Dropped(lastError));
      }
      now := now + r.lag;
      if nextAttempt.Some? && nextAttempt.value > now {
        if r.interrupted.Some? && now + r.interrupted.value < nextAttempt.value {
          now := now + r.interrupted.value;
          if r.stopped {
            return now, Some(Cancelled);
          }
          if TrimSpace(lastError) == "" {
            lastError := r.interruption;
          }
          EnterDropCooldown(p, now);
          return now, Some(Dropped(lastError));
        }
        now := nextAttempt.value + r.late;
      }
      return now, None;
    }

    method ExecuteOutboundCall(policy: Policy, onceOnly: bool, clock: int, script: nat -> Round)
        returns (result: Result, now: int, calls: seq<Attempt>)
      requires GateOk(State())
      modifies this
      ensures GateOk(State())
      ensures Outcome(State(), now, result, calls) == Invoke(InForce(policy), onceOnly, old(State()), clock, script, 0)
    {
      hide Approach, Settle, Delay, InForce, GateOk, TurnsLeft, Invoke, TakeTurn;
      var p := InForce(policy);
      now, calls := clock, [];
      var i := 0;
      ghost var whole := Invoke(p, onceOnly, State(), clock, script, 0);
      while true
        invariant GateOk(State())
        invariant var rest := Invoke(p, onceOnly, State(), now, script, i);
                  whole == rest.(calls := calls + rest.calls)
        decreases TurnsLeft(p, State())
      {
        var r := script(i);
        InvokeInSteps(p, onceOnly, State(), now, script, i);
        var done: Option<Result>;
        now, done := WaitForTurn(p, now, r);
        if done.Some? {
          return done.value, now, calls;
        }
        var began := now;
        now, done := SettleCall(p, onceOnly, now, r);
        if done.Some? {
          return done.value, now, calls + [Attempt(began, now)];
        }
        RegroupCalls(calls, [Attempt(began, now)], Invoke(p, onceOnly, State(), now, script, i + 1).calls);
        calls := calls + [Attempt(began, now)];
        i := i + 1;
      }
    }

    /** The call and what follows from its result. */
    method SettleCall(p: Policy, onceOnly: bool, start: int, r: Round) returns (now: int, result: Option<Result>)
      requires ValidPolicy(p)
      modifies this
      ensures Turn(State(), now, result, Some(Attempt(start, now))) == Settle(p, onceOnly, old(State()), start, r)
    {
      hide Delay;
      now := start + r.duration;
      if r.reply.Ok? {
        Reset();
        return now, Some(Delivered);
      }
      if r.reply.groupUnavailable {
        return now, Some(GroupUnavailable);
      }
      if firstFailure.None? {
        firstFailure := Some(now);
      }
      failures := failures + 1;
      lastError := r.reply.error;
      if now - firstFailure.value >= p.failureWindow {
        EnterDropCooldown(p, now);
        return now, Some(Dropped(lastError));
      }
      var delay := OutboundBackoffDelay(p, failures, r.jitter);
      nextAttempt := Some(now + delay);
      if onceOnly {
        return now, Some(FailedOnce);
      }
      return now, None;
    }
  }

  // ----- One invocation

  lemma RegroupCalls(a: seq<Attempt>, b: seq<Attempt>, c: seq<Attempt>)
    ensures a + (b + c) == (a + b) + c
  {
  }

  /** A turn of an invocation: the approach, then the call and what follows from it. */
  lemma InvokeInSteps(p: Policy, onceOnly: bool, gate: Gate, clock: int, script: nat -> Round, i: nat)
    requires ValidPolicy(p) && GateOk(gate)
    ensures var o, a := Invoke(p, onceOnly, gate, clock, script, i), Approach(p, gate, clock, script(i));
            if a.done.Some? then GateOk(a.gate) && o == Outcome(a.gate, a.clock, a.done.value, [])
            else
              var t := Settle(p, onceOnly, a.gate, a.clock, script(i));
              && GateOk(t.gate) && t.call.Some?
              && if t.done.Some? then o == Outcome(t.gate, t.clock, t.done.value, [t.call.value])
                 else
                   var rest := Invoke(p, onceOnly, t.gate, t.clock, script, i + 1);
                   TurnsLeft(p, t.gate) < TurnsLeft(p, gate) && o == rest.(calls := [t.call.value] + rest.calls)
  {
    hide Approach, Settle, GateOk, TurnsLeft;
    TurnProgress(p, onceOnly, gate, clock, script(i));
    ApproachProgress(p, gate, clock, script(i));
    var a := Approach(p, gate, clock, script(i));
    if a.done.None? {
      SettleProgress(p, onceOnly, a.gate, a.clock, script(i));
    }
  }

  /** Each call starts at least the initial delay after the one before it ended. */
  ghost predicate Spaced(p: Policy, calls: seq<Attempt>) {
    forall k :: 0 <= k < |calls| - 1 ==> calls[k].end + p.initialDelay <= calls[k + 1].start
  }

  ghost predicate NoneBefore(calls: seq<Attempt>, time: int) {
    forall c :: c in calls ==> time <= c.start
  }

  /** The first failure lies in the past. */
  predicate Timely(g: Gate, clock: int) { g.firstFailure.Some? ==> g.firstFailure.value <= clock }

  function LowerBound(clock: int, limit: Option<int>): int {
    if limit.Some? && limit.value > clock then limit.value else clock
  }

  /** An invocation keeps the gate in one of its three states, calls nothing before the
      pending attempt or inside the cooldown it found, and spaces its own calls. */
  lemma {:induction false} InvokeIsSafe(p: Policy, onceOnly: bool, gate: Gate, clock: int, script: nat -> Round, i: nat)
    requires ValidPolicy(p) && GateOk(gate)
    ensures var o := Invoke(p, onceOnly, gate, clock, script, i);
            && GateOk(o.gate) && clock <= o.clock
            && Spaced(p, o.calls) && (Timely(gate, clock) ==> Timely(o.gate, o.clock))
            && (forall c :: c in o.calls ==> c.start <= c.end <= o.clock)
            && NoneBefore(o.calls, LowerBound(clock, gate.nextAttempt))
            && NoneBefore(o.calls, LowerBound(clock, gate.dropUntil))
    decreases TurnsLeft(p, gate)
  {
    hide Delay;
    var turn := TakeTurn(p, onceOnly, gate, clock, script(i));
    TurnProgress(p, onceOnly, gate, clock, script(i));
    TurnCall(p, onceOnly, gate, clock, script(i));
    hide TakeTurn;
    if turn.done.None? {
      InvokeIsSafe(p, onceOnly, turn.gate, turn.clock, script, i + 1);
      var rest := Invoke(p, onceOnly, turn.gate, turn.clock, script, i + 1);
      assert rest.calls != [] ==> rest.calls[0] in rest.calls;
    }
  }

  lemma TurnCall(p: Policy, onceOnly: bool, gate: Gate, clock: int, r: Round)
    requires ValidPolicy(p) && GateOk(gate)
    ensures var t := TakeTurn(p, onceOnly, gate, clock, r);
            && (Timely(gate, clock) ==> Timely(t.gate, t.clock))
            && (t.call.Some? ==>
              && LowerBound(clock, gate.nextAttempt) <= t.call.value.start <= t.call.value.end == t.clock
              && LowerBound(clock, gate.dropUntil) <= t.call.value.start)
  {
    hide Delay;
  }

  /** What each result says about the gate left behind. */
  lemma {:induction false} ResultTellsGate(p: Policy, onceOnly: bool, gate: Gate, clock: int, script: nat -> Round,
      i: nat)
    requires ValidPolicy(p) && GateOk(gate)
    ensures var o := Invoke(p, onceOnly, gate, clock, script, i);
            && (o.result.Delivered? ==> o.gate == OPEN && o.calls != [])
            && (o.result.Dropped? ==>
                  && o.gate.dropUntil.Some? && o.gate.dropUntil.value > o.clock
                  && o.result.cause == o.gate.lastError)
            && (o.result.FailedOnce? ==> onceOnly && o.gate.nextAttempt.Some? && o.gate.nextAttempt.value > o.clock)
            && (o.result.Cancelled? ==> o.gate.dropUntil == gate.dropUntil || o.gate.dropUntil.None?)
    decreases TurnsLeft(p, gate)
  {
    hide Delay;
    var turn := TakeTurn(p, onceOnly, gate, clock, script(i));
    TurnProgress(p, onceOnly, gate, clock, script(i));
    TurnResult(p, onceOnly, gate, clock, script(i));
    hide TakeTurn;
    if turn.done.None? {
      ResultTellsGate(p, onceOnly, turn.gate, turn.clock, script, i + 1);
    }
  }

  lemma TurnResult(p: Policy, onceOnly: bool, gate: Gate, clock: int, r: Round)
    requires ValidPolicy(p) && GateOk(gate)
    ensures var t := TakeTurn(p, onceOnly, gate, clock, r);
            && (t.done == Some(Delivered) ==> t.gate == OPEN && t.call.Some?)
            && (t.done.Some? && t.done.value.Dropped? ==>
                  t.gate.dropUntil.Some? && t.gate.dropUntil.value > t.clock && t.done.value.cause == t.gate.lastError)
            && (t.done == Some(FailedOnce) ==>
                  onceOnly && t.gate.nextAttempt.Some? && t.gate.nextAttempt.value > t.clock)
            && (t.done == Some(Cancelled) ==> t.gate.dropUntil == gate.dropUntil || t.gate.dropUntil.None?)
            && (t.done.None? ==> t.gate.dropUntil.None?)
  {
    hide Delay;
    DelayBounds(p, gate.failures + 1, r.jitter);
    DelayBounds(p, 1, r.jitter);
  }

  /** From a gate that is backing off, `n` further calls need the failure window to be open
      for n - 1 of them, each at least one initial delay after the last. */
  lemma {:induction false} CallsWhileBackingOff(p: Policy, onceOnly: bool, gate: Gate, clock: int,
      script: nat -> Round, i: nat)
    requires ValidPolicy(p) && GateOk(gate) && gate.nextAttempt.Some?
    ensures var n := |Invoke(p, onceOnly, gate, clock, script, i).calls|;
            n <= 1 || gate.nextAttempt.value - gate.firstFailure.value + (n - 2) * p.initialDelay < p.failureWindow
    decreases TurnsLeft(p, gate)
  {
    hide Delay;
    var turn := TakeTurn(p, onceOnly, gate, clock, script(i));
    TurnProgress(p, onceOnly, gate, clock, script(i));
    hide TakeTurn;
    if turn.done.None? {
      CallsWhileBackingOff(p, onceOnly, turn.gate, turn.clock, script, i + 1);
      var n := |Invoke(p, onceOnly, turn.gate, turn.clock, script, i + 1).calls|;
      OneMore(n - 2, p.initialDelay);
    }
  }

  lemma InvokeCalls(p: Policy, onceOnly: bool, gate: Gate, clock: int, script: nat -> Round, i: nat)
    requires ValidPolicy(p) && GateOk(gate)
    ensures var t := TakeTurn(p, onceOnly, gate, clock, script(i));
            GateOk(t.gate)
            && |Invoke(p, onceOnly, gate, clock, script, i).calls|
               == (if t.call.Some? then 1 else 0)
                  + if t.done.Some? then 0 else |Invoke(p, onceOnly, t.gate, t.clock, script, i + 1).calls|
  {
    hide TakeTurn;
    TurnProgress(p, onceOnly, gate, clock, script(i));
  }

  lemma OneMore(n: int, delay: int)
    ensures (n + 1) * delay == n * delay + delay
  {
  }

  /** One invocation makes at most one call more than initial delays fit into the failure
      window, rounded up. */
  lemma CallsAreBounded(p: Policy, onceOnly: bool, gate: Gate, clock: int, script: nat -> Round, i: nat)
    requires ValidPolicy(p) && GateOk(gate) && Timely(gate, clock)
    ensures var n := |Invoke(p, onceOnly, gate, clock, script, i).calls|;
            n <= (p.failureWindow + p.initialDelay - 1) / p.initialDelay + 1 && (onceOnly ==> n <= 1)
  {
    hide Delay;
    var turn := TakeTurn(p, onceOnly, gate, clock, script(i));
    TurnProgress(p, onceOnly, gate, clock, script(i));
    TurnCall(p, onceOnly, gate, clock, script(i));
    InvokeCalls(p, onceOnly, gate, clock, script, i);
    hide TakeTurn, TurnsLeft, Invoke, GateOk;
    var n := |Invoke(p, onceOnly, gate, clock, script, i).calls|;
    if turn.done.None? {
      CallsWhileBackingOff(p, onceOnly, turn.gate, turn.clock, script, i + 1);
      OneCallMore(n, turn.gate.nextAttempt.value - turn.gate.firstFailure.value, p.initialDelay, p.failureWindow);
    }
    CeilingBound(n, p.initialDelay, p.failureWindow);
  }

  lemma OneCallMore(n: nat, ahead: int, delay: int, window: int)
    requires n - 1 <= 1 || ahead + (n - 3) * delay < window
    requires ahead >= delay
    ensures n <= 2 || (n - 2) * delay < window
  {
    OneMore(n - 3, delay);
  }

  lemma CeilingBound(n: nat, delay: int, window: int)
    requires delay > 0 && window > 0 && (n <= 2 || (n - 2) * delay < window)
    ensures n <= (window + delay - 1) / delay + 1
  {
    var q := (window + delay - 1) / delay;
    assert window + delay - 1 == q * delay + (window + delay - 1) % delay;
    if n > q + 1 {
      MulMonotone(q, n - 2, delay);
    }
  }

  lemma MulMonotone(a: int, b: int, c: int)
    requires a <= b && c > 0
    ensures a * c <= b * c
  {
  }

  // ----- A run of invocations

  /** One use of the gate, `idle` after the one before. */
  datatype Use = Use(policy: Policy, onceOnly: bool, idle: nat, script: nat -> Round)

  datatype History = History(gate: Gate, clock: int, calls: seq<Attempt>)

  function UseGate(gate: Gate, clock: int, u: Use): Outcome
    requires GateOk(gate)
  {
    Invoke(InForce(u.policy), u.onceOnly, gate, clock + u.idle, u.script, 0)
  }

  function RunGate(gate: Gate, clock: int, uses: seq<Use>): History
    requires GateOk(gate)
    decreases |uses|
  {
    hide Invoke;
    if uses == [] then History(gate, clock, [])
    else
      var o := UseGate(gate, clock, uses[0]);
      InvokeIsSafe(InForce(uses[0].policy), uses[0].onceOnly, gate, clock + uses[0].idle, uses[0].script, 0);
      var rest := RunGate(o.gate, o.clock, uses[1..]);
      rest.(calls := o.calls + rest.calls)
  }

  /** The gate stays closed until `until`: it is cooling down at least that long, or that
      moment has passed. */
  predicate ClosedUntil(gate: Gate, clock: int, until: int) {
    clock >= until || (gate.dropUntil.Some? && gate.dropUntil.value >= until)
  }

  lemma {:induction false} InvokeKeepsClosed(p: Policy, onceOnly: bool, gate: Gate, clock: int,
      script: nat -> Round, i: nat, until: int)
    requires ValidPolicy(p) && GateOk(gate) && ClosedUntil(gate, clock, until)
    requires clock + p.dropCooldown >= until
    ensures var o := Invoke(p, onceOnly, gate, clock, script, i);
            ClosedUntil(o.gate, o.clock, until) && NoneBefore(o.calls, until)
    decreases TurnsLeft(p, gate)
  {
    hide Delay;
    var turn := TakeTurn(p, onceOnly, gate, clock, script(i));
    TurnProgress(p, onceOnly, gate, clock, script(i));
    TurnCall(p, onceOnly, gate, clock, script(i));
    TurnKeepsClosed(p, onceOnly, gate, clock, script(i), until);
    hide TakeTurn;
    if turn.done.None? {
      InvokeKeepsClosed(p, onceOnly, turn.gate, turn.clock, script, i + 1, until);
    }
  }

  lemma TurnKeepsClosed(p: Policy, onceOnly: bool, gate: Gate, clock: int, r: Round, until: int)
    requires ValidPolicy(p) && GateOk(gate) && ClosedUntil(gate, clock, until)
    requires clock + p.dropCooldown >= until
    ensures var t := TakeTurn(p, onceOnly, gate, clock, r);
            ClosedUntil(t.gate, t.clock, until) && (t.call.Some? ==> until <= t.call.value.start)
  {
    hide Delay;
  }

  /** Every policy of the run cools down for at least `cooldown`. */
  predicate CoolsFor(uses: seq<Use>, cooldown: int) {
    uses == [] || (InForce(uses[0].policy).dropCooldown >= cooldown && CoolsFor(uses[1..], cooldown))
  }

  /** While no later policy has a shorter cooldown, nothing in a later run is called before
      the cooldown is over, whatever contexts are cancelled meanwhile. */
  lemma {:induction false} CooldownHolds(gate: Gate, clock: int, uses: seq<Use>, cooldown: int, until: int)
    requires GateOk(gate) && ClosedUntil(gate, clock, until) && until <= clock + cooldown && CoolsFor(uses, cooldown)
    ensures NoneBefore(RunGate(gate, clock, uses).calls, until)
    decreases |uses|
  {
    hide Invoke, InForce;
    if uses != [] {
      var u := uses[0];
      var p := InForce(u.policy);
      InvokeKeepsClosed(p, u.onceOnly, gate, clock + u.idle, u.script, 0, until);
      InvokeIsSafe(p, u.onceOnly, gate, clock + u.idle, u.script, 0);
      var o := UseGate(gate, clock, u);
      CooldownHolds(o.gate, o.clock, uses[1..], cooldown, until);
    }
  }

  // ----- When a cooldown holds

  /** Why the policies matter: a cancelled context found during a cooldown starts it anew with
      the caller's own policy, whichever end is the earlier. */
  lemma CancellationRestartsCooldown(p: Policy, onceOnly: bool, gate: Gate, clock: int, script: nat -> Round)
    requires ValidPolicy(p) && GateOk(gate) && gate.dropUntil.Some?
    requires script(0).cancelled.Some? && !script(0).stopped
    ensures var o := Invoke(p, onceOnly, gate, clock, script, 0);
            var now := clock + script(0).idle;
            && o.calls == [] && o.clock == now && o.gate.dropUntil == Some(now + p.dropCooldown)
  {
  }

  /** The context is found cancelled at once. */
  const CANCELLED_ROUND := Round(0, Some("context canceled"), false, 0, None, "", 0, 0, Ok, 0)

  /** Everything happens without delay. */
  const PROMPT_ROUND := Round(0, None, false, 0, None, "", 0, 0, Ok, 0)

  /** One invocation leaves the gate closed until the end of the cooldown it found, whatever
      happens, exactly when its own cooldown would last as long. */
  lemma InvocationKeepsCooldown(p: Policy, onceOnly: bool, gate: Gate, clock: int)
    requires ValidPolicy(p) && GateOk(gate) && gate.dropUntil.Some? && clock < gate.dropUntil.value
    ensures (forall script: nat -> Round ::
               var o := Invoke(p, onceOnly, gate, clock, script, 0);
               ClosedUntil(o.gate, o.clock, gate.dropUntil.value))
            <==> clock + p.dropCooldown >= gate.dropUntil.value
  {
    hide Invoke;
    var until := gate.dropUntil.value;
    if clock + p.dropCooldown >= until {
      forall script: nat -> Round
        ensures var o := Invoke(p, onceOnly, gate, clock, script, 0); ClosedUntil(o.gate, o.clock, until)
      {
        InvokeKeepsClosed(p, onceOnly, gate, clock, script, 0, until);
      }
    } else {
      CancellationRestartsCooldown(p, onceOnly, gate, clock, _ => CANCELLED_ROUND);
    }
  }

  /** A cancelled use and, as soon as its own cooldown is over, a second one. */
  function CutShort(policy: Policy): seq<Use> {
    [Use(policy, false, 0, _ => CANCELLED_ROUND), Use(policy, false, InForce(policy).dropCooldown, _ => PROMPT_ROUND)]
  }

  /** The failing run: a policy that would cool down for less lets a call through before the
      cooldown it found is over. */
  lemma ShortCooldownCutsIn(policy: Policy, gate: Gate, clock: int)
    requires GateOk(gate) && gate.dropUntil.Some? && clock + InForce(policy).dropCooldown < gate.dropUntil.value
    ensures var early := clock + InForce(policy).dropCooldown;
            RunGate(gate, clock, CutShort(policy)).calls == [Attempt(early, early)]
  {
    var p, uses := InForce(policy), CutShort(policy);
    CancellationRestartsCooldown(p, false, gate, clock, uses[0].script);
    InvokeIsSafe(p, false, gate, clock, uses[0].script, 0);
    var o := UseGate(gate, clock, uses[0]);
    var second := UseGate(o.gate, o.clock, uses[1]);
    PromptCall(p, o.gate, o.clock + p.dropCooldown, uses[1].script);
    assert uses[1..] == [uses[1]] && [uses[1]][1..] == [];
    assert RunGate(o.gate, o.clock, [uses[1]]).calls == second.calls + [];
  }

  /** After the cooldown a prompt call goes out at once. */
  lemma PromptCall(p: Policy, gate: Gate, clock: int, script: nat -> Round)
    requires ValidPolicy(p) && GateOk(gate) && gate.dropUntil.Some? && gate.dropUntil.value <= clock
    requires script(0) == PROMPT_ROUND
    ensures Invoke(p, false, gate, clock, script, 0).calls == [Attempt(clock, clock)]
  {
  }

  /** Every use has an allowed policy. */
  predicate UsesOnly(uses: seq<Use>, allowed: Policy -> bool) {
    uses == [] || (allowed(uses[0].policy) && UsesOnly(uses[1..], allowed))
  }

  lemma {:induction false} AllowedCoolFor(uses: seq<Use>, allowed: Policy -> bool, cooldown: int)
    requires UsesOnly(uses, allowed) && forall policy :: allowed(policy) ==> InForce(policy).dropCooldown >= cooldown
    ensures CoolsFor(uses, cooldown)
  {
    if uses != [] {
      AllowedCoolFor(uses[1..], allowed, cooldown);
    }
  }

  lemma TwoUses(a: Use, b: Use, allowed: Policy -> bool)
    ensures UsesOnly([a, b], allowed) <==> allowed(a.policy) && allowed(b.policy)
  {
    assert [a, b][1..] == [b] && [b][1..] == [];
    assert UsesOnly([b], allowed) <==> allowed(b.policy) && UsesOnly([], allowed);
  }

  /** A cooldown holds in every run, whatever is cancelled and however the uses follow each
      other, if and only if no policy in use would cool down for less than what is left of it. */
  lemma CooldownHoldsIff(gate: Gate, clock: int, allowed: Policy -> bool)
    requires GateOk(gate) && gate.dropUntil.Some? && clock < gate.dropUntil.value
    ensures (forall uses :: UsesOnly(uses, allowed) ==>
            NoneBefore(RunGate(gate, clock, uses).calls, gate.dropUntil.value))
            <==> (forall policy :: allowed(policy) ==> clock + InForce(policy).dropCooldown >= gate.dropUntil.value)
  {
    hide RunGate, InForce;
    var until := gate.dropUntil.value;
    if forall policy :: allowed(policy) ==> clock + InForce(policy).dropCooldown >= until {
      forall uses | UsesOnly(uses, allowed) ensures NoneBefore(RunGate(gate, clock, uses).calls, until) {
        AllowedCoolFor(uses, allowed, until - clock);
        CooldownHolds(gate, clock, uses, until - clock, until);
      }
    } else {
      var policy :| allowed(policy) && clock + InForce(policy).dropCooldown < until;
      var uses := CutShort(policy);
      ShortCooldownCutsIn(policy, gate, clock);
      TwoUses(uses[0], uses[1], allowed);
      assert uses == [uses[0], uses[1]];
      assert RunGate(gate, clock, uses).calls[0] in RunGate(gate, clock, uses).calls;
    }
  }
}
