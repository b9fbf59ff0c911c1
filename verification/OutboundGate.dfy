/** The per-group delivery gate of model/qqbot/group_send_guard.go: retry with backoff inside
    a failure window, then a cooldown. Time is an integer; the environment decides, turn by
    turn, how long everything takes and how each call ends. */
module OutboundGate {
  import opened Wrappers
  import opened Text

  const MINUTE := 60_000_000_000
  const DEFAULT_INITIAL_DELAY := MINUTE
  const DEFAULT_MAXIMUM_DELAY := 15 * MINUTE
  const DEFAULT_FAILURE_WINDOW := 30 * MINUTE
  const DEFAULT_DROP_COOLDOWN := 30 * MINUTE

  datatype Policy = Policy(initialDelay: int, maximumDelay: int, failureWindow: int, dropCooldown: int)

  predicate ValidPolicy(p: Policy) {
    0 < p.initialDelay <= p.maximumDelay && 0 < p.failureWindow && 0 < p.dropCooldown
  }

  function OrDefault(value: int, default: int): int { if value <= 0 then default else value }

  /** The policy in force: defaults for what is not positive, and room for the first delay. */
  function InForce(p: Policy): (r: Policy)
    ensures ValidPolicy(r)
    ensures ValidPolicy(p) ==> r == p
    ensures r.initialDelay == (if p.initialDelay > 0 then p.initialDelay else 60_000_000_000)
    ensures r.failureWindow == (if p.failureWindow > 0 then p.failureWindow else 1_800_000_000_000)
    ensures r.dropCooldown == (if p.dropCooldown > 0 then p.dropCooldown else 1_800_000_000_000)
    ensures var wanted := if p.maximumDelay > 0 then p.maximumDelay else 900_000_000_000;
            r.maximumDelay >= wanted && (r.maximumDelay == wanted || r.maximumDelay == r.initialDelay)
  {
    var initial := OrDefault(p.initialDelay, DEFAULT_INITIAL_DELAY);
    var maximum := OrDefault(p.maximumDelay, DEFAULT_MAXIMUM_DELAY);
    Policy(initial, if maximum < initial then initial else maximum,
           OrDefault(p.failureWindow, DEFAULT_FAILURE_WINDOW), OrDefault(p.dropCooldown, DEFAULT_DROP_COOLDOWN))
  }

  // ----- Backoff

  function Power2(n: nat): nat { if n == 0 then 1 else 2 * Power2(n - 1) }

  function Min(a: int, b: int): int { if a < b then a else b }

  /** The delay before jitter: the initial delay doubled per earlier failure, up to the
      maximum. */
  function BaseDelay(p: Policy, failures: nat): int {
    Min(p.maximumDelay, p.initialDelay * Power2(if failures < 1 then 0 else failures - 1))
  }

  /** `jitter` is the hash of session, action and failure count modulo 201. */
  function Delay(p: Policy, failures: nat, jitter: nat): int {
    Min(p.maximumDelay, BaseDelay(p, failures) * (1000 + jitter % 201) / 1000)
  }

  lemma {:induction false} Power2Positive(n: nat)
    ensures Power2(n) >= 1
  {
    if n > 0 {
      Power2Positive(n - 1);
    }
  }

  method OutboundBackoffDelay(p: Policy, failures: nat, jitter: nat) returns (r: int)
    requires ValidPolicy(p)
    ensures r == Delay(p, failures, jitter)
  {
    var count := if failures < 1 then 1 else failures;
    var delay := p.initialDelay;
    var attempt := 1;
    while attempt < count && delay < p.maximumDelay
      invariant 1 <= attempt <= count
      invariant delay == Min(p.maximumDelay, p.initialDelay * Power2(attempt - 1))
    {
      Doubling(p.initialDelay, Power2(attempt - 1));
      delay := delay * 2;
      if delay > p.maximumDelay {
        delay := p.maximumDelay;
      }
      attempt := attempt + 1;
    }
    PowerGrows(p.initialDelay, attempt - 1, count - 1);
    assert delay == BaseDelay(p, failures);
    var permille := 1000 + jitter % 201;
    var jittered := delay * permille / 1000;
    if jittered > p.maximumDelay {
      return p.maximumDelay;
    }
    return jittered;
  }

  lemma Doubling(x: int, y: nat)
    ensures x * y * 2 == x * (2 * y)
  {
  }

  lemma {:induction false} PowerGrows(x: int, a: nat, b: nat)
    requires a <= b && x > 0
    ensures x * Power2(a) <= x * Power2(b)
    decreases b
  {
    if a < b {
      PowerGrows(x, a, b - 1);
      Power2Positive(b - 1);
      Doubling(x, Power2(b - 1));
      assert x * Power2(b - 1) >= 0;
    }
  }

  /** No retry comes before the initial delay or later than the maximum after the failure. */
  lemma DelayBounds(p: Policy, failures: nat, jitter: nat)
    requires ValidPolicy(p)
    ensures p.initialDelay <= Delay(p, failures, jitter) <= p.maximumDelay
  {
    PowerGrows(p.initialDelay, 0, if failures < 1 then 0 else failures - 1);
    var base := BaseDelay(p, failures);
    assert base >= p.initialDelay;
    Permille(base, jitter % 201);
  }

  /** Without jitter the delay starts at the initial one and doubles up to the maximum. */
  lemma DelayDoubles(p: Policy, failures: nat)
    requires ValidPolicy(p) && failures >= 1
    ensures Delay(p, 0, 0) == Delay(p, 1, 0) == p.initialDelay
    ensures Delay(p, failures + 1, 0) == Min(p.maximumDelay, 2 * Delay(p, failures, 0))
  {
    var base := p.initialDelay * Power2(failures - 1);
    assert Power2(0) == 1 && p.initialDelay * 1 == p.initialDelay;
    assert p.initialDelay * Power2(failures) == 2 * base by {
      Doubling(p.initialDelay, Power2(failures - 1));
    }
    forall f: nat ensures Delay(p, f, 0) == BaseDelay(p, f) {
      assert BaseDelay(p, f) * 1000 / 1000 == BaseDelay(p, f);
    }
  }

  /** Jitter adds a thousandth of it per unit, up to a fifth, within the maximum. */
  lemma JitterAdds(p: Policy, failures: nat, jitter: nat)
    requires ValidPolicy(p)
    ensures var plain, extra := Delay(p, failures, 0), jitter % 201;
            && Delay(p, failures, jitter) == Min(p.maximumDelay, plain + plain * extra / 1000)
            && 0 <= extra <= 200
  {
    var base, extra := BaseDelay(p, failures), jitter % 201;
    assert base * 1000 / 1000 == base;
    assert base * (1000 + extra) == base * extra + base * 1000;
    MoreThousands(base * extra, base);
  }

  lemma MoreThousands(a: int, b: int)
    ensures (a + b * 1000) / 1000 == b + a / 1000
  {
  }

  lemma Permille(base: int, extra: nat)
    requires base > 0
    ensures base <= base * (1000 + extra) / 1000
  {
    assert base * (1000 + extra) == base * 1000 + base * extra;
  }

  // ----- The gate

  datatype Gate = Gate(
    failures: nat, firstFailure: Option<int>, nextAttempt: Option<int>, dropUntil: Option<int>, lastError: string)

  const OPEN := Gate(0, None, None, None, "")

  /** Idle, backing off towards the next attempt, or cooling down. */
  predicate GateOk(g: Gate) {
    && (g.failures == 0 <==> g.firstFailure.None?)
    && (g.firstFailure.None? ==> g.nextAttempt.None? && g.dropUntil.None?)
    && (g.firstFailure.Some? ==> g.nextAttempt.Some? != g.dropUntil.Some?)
  }

  datatype Reply = Ok | Failure(error: string, groupUnavailable: bool)

  /** What the environment does in one turn: time passing before the turn and before the
      wait, a cancelled context, an interruption of the wait, the timer's lateness, the
      duration and the result of the call, and the hash that drives the jitter. */
  datatype Round = Round(
    idle: nat, cancelled: Option<string>, stopped: bool, lag: nat, interrupted: Option<nat>, interruption: string,
    late: nat, duration: nat, reply: Reply, jitter: nat)

  datatype Result = Delivered | Cancelled | Dropped(cause: string) | GroupUnavailable | FailedOnce

  /** A call, from its start to its end. */
  datatype Attempt = Attempt(start: int, end: int)

  datatype Turn = Turn(gate: Gate, clock: int, done: Option<Result>, call: Option<Attempt>)

  function Cool(p: Policy, g: Gate, now: int): Gate {
    g.(nextAttempt := None, dropUntil := Some(now + p.dropCooldown))
  }

  function WithError(g: Gate, error: string): Gate { if Blank(g.lastError) then g.(lastError := error) else g }

  /** The turn up to the decision to call: the gate and time at which to call, or the end. */
  function Approach(p: Policy, gate: Gate, clock: int, r: Round): Turn {
    var now := clock + r.idle;
    if r.cancelled.Some? then
      if gate.failures == 0 || r.stopped then Turn(gate, now, Some(Cancelled), None)
      else
        var g := Cool(p, WithError(gate, r.cancelled.value), now);
        Turn(g, now, Some(Dropped(g.lastError)), None)
    else if gate.dropUntil.Some? && now < gate.dropUntil.value then
      Turn(gate, now, Some(Dropped(gate.lastError)), None)
    else
      var g := if gate.dropUntil.Some? then OPEN else gate;
      if g.firstFailure.Some? && now - g.firstFailure.value >= p.failureWindow then
        Turn(Cool(p, g, now), now, Some(Dropped(g.lastError)), None)
      else
        var later := now + r.lag;
        if g.nextAttempt.None? || g.nextAttempt.value <= later then Turn(g, later, None, None)
        else if r.interrupted.Some? && later + r.interrupted.value < g.nextAttempt.value then
          var at := later + r.interrupted.value;
          if r.stopped then Turn(g, at, Some(Cancelled), None)
          else
            var cooled := Cool(p, WithError(g, r.interruption), at);
            Turn(cooled, at, Some(Dropped(cooled.lastError)), None)
        else Turn(g, g.nextAttempt.value + r.late, None, None)
  }

  /** The turn from the call on. */
  function Settle(p: Policy, onceOnly: bool, g: Gate, start: int, r: Round): Turn {
    var end := start + r.duration;
    var call := Some(Attempt(start, end));
    match r.reply
    case Ok => Turn(OPEN, end, Some(Delivered), call)
    case Failure(error, groupUnavailable) =>
      if groupUnavailable then Turn(g, end, Some(GroupUnavailable), call)
      else
        var first := if g.firstFailure.None? then end else g.firstFailure.value;
        var failed := g.(failures := g.failures + 1, firstFailure := Some(first), lastError := error);
        if end - first >= p.failureWindow then Turn(Cool(p, failed, end), end, Some(Dropped(error)), call)
        else
          var waiting := failed.(nextAttempt := Some(end + Delay(p, failed.failures, r.jitter)));
          Turn(waiting, end, if onceOnly then Some(FailedOnce) else None, call)
  }

  function TakeTurn(p: Policy, onceOnly: bool, gate: Gate, clock: int, r: Round): Turn {
    var approach := Approach(p, gate, clock, r);
    if approach.done.Some? then approach else Settle(p, onceOnly, approach.gate, approach.clock, r)
  }

  /** A turn that does not end the invocation leaves a gate that is backing off, has moved the
      next attempt at least one initial delay on, and stays within the failure window. */
  lemma TurnProgress(p: Policy, onceOnly: bool, gate: Gate, clock: int, r: Round)
    requires ValidPolicy(p) && GateOk(gate)
    ensures var t := TakeTurn(p, onceOnly, gate, clock, r);
            && GateOk(t.gate) && clock <= t.clock
            && (t.done.None? ==>
                  && TurnsLeft(p, t.gate) < TurnsLeft(p, gate)
                  && !onceOnly && t.call.Some? && t.gate.firstFailure.Some? && t.gate.nextAttempt.Some?
                  && t.clock + p.initialDelay <= t.gate.nextAttempt.value
                  && t.clock == t.call.value.end < t.gate.firstFailure.value + p.failureWindow
                  && t.gate.nextAttempt.value < t.gate.firstFailure.value + p.failureWindow + p.maximumDelay
                  && (gate.nextAttempt.Some? ==>
                        gate.nextAttempt.value <= t.call.value.start && t.gate.firstFailure == gate.firstFailure)
                  && (gate.nextAttempt.None? ==> t.gate.firstFailure == Some(t.call.value.end)))
  {
    hide Approach, Settle, Delay;
    ApproachProgress(p, gate, clock, r);
    var a := Approach(p, gate, clock, r);
    if a.done.None? {
      SettleProgress(p, onceOnly, a.gate, a.clock, r);
    }
  }

  lemma ApproachProgress(p: Policy, gate: Gate, clock: int, r: Round)
    requires ValidPolicy(p) && GateOk(gate)
    ensures var a := Approach(p, gate, clock, r);
            && GateOk(a.gate) && clock <= a.clock && a.call.None?
            && (a.done.None? ==>
                  && a.gate.dropUntil.None?
                  && (a.gate.nextAttempt.Some? ==> a.gate == gate && gate.nextAttempt.value <= a.clock)
                  && (gate.nextAttempt.Some? ==> a.gate == gate))
  {
  }

  lemma SettleProgress(p: Policy, onceOnly: bool, g: Gate, start: int, r: Round)
    requires ValidPolicy(p) && GateOk(g) && g.dropUntil.None?
    ensures var t := Settle(p, onceOnly, g, start, r);
            && GateOk(t.gate) && t.call.Some? && t.call.value.start == start <= t.clock == t.call.value.end
            && (t.done.None? ==>
                  && !onceOnly && t.gate.firstFailure.Some? && t.gate.nextAttempt.Some?
                  && t.clock + p.initialDelay <= t.gate.nextAttempt.value <= t.clock + p.maximumDelay
                  && t.clock < t.gate.firstFailure.value + p.failureWindow
                  && t.gate.firstFailure == (if g.firstFailure.Some? then g.firstFailure else Some(t.clock)))
  {
    hide Delay;
    DelayBounds(p, g.failures + 1, r.jitter);
  }

  /** Bounds the turns that remain. */
  function TurnsLeft(p: Policy, gate: Gate): nat {
    if gate.nextAttempt.None? || gate.firstFailure.None? then
      if p.failureWindow + p.maximumDelay < 0 then 0 else p.failureWindow + p.maximumDelay + 1
    else
      var left := gate.firstFailure.value + p.failureWindow + p.maximumDelay - gate.nextAttempt.value;
      if left < 0 then 0 else left
  }

  datatype Outcome = Outcome(gate: Gate, clock: int, result: Result, calls: seq<Attempt>)

  /** One invocation: turns until one of them ends it. */
  function Invoke(p: Policy, onceOnly: bool, gate: Gate, clock: int, script: nat -> Round, i: nat): Outcome
    requires ValidPolicy(p) && GateOk(gate)
    decreases TurnsLeft(p, gate)
  {
    var turn := TakeTurn(p, onceOnly, gate, clock, script(i));
    TurnProgress(p, onceOnly, gate, clock, script(i));
    var made := if turn.call.Some? then [turn.call.value] else [];
    if turn.done.Some? then Outcome(turn.gate, turn.clock, turn.done.value, made)
    else
      var rest := Invoke(p, onceOnly, turn.gate, turn.clock, script, i + 1);
      rest.(calls := made + rest.calls)
  }
}
