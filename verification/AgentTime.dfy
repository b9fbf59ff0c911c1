/** How the agent's loop divides the time before its deadline: every model turn and every tool
    call must stop early enough to leave a reserve for the closing turn. Times in nanoseconds. */
module AgentTime {
  import opened Wrappers

  /** adaptiveFinalizationReserve: the configured reserve, but at most a third of what is left. */
  function Reserve(remaining: int, configured: int): int {
    if remaining <= 0 || configured <= 0 then 0
    else if configured > remaining / 3 then remaining / 3
    else configured
  }

  /** When a planning turn that begins at `now` must stop (contextWithFinalizationReserve, whose
      second look at the clock comes `lag` later): `None` when it may not begin at all, and
      otherwise its deadline, if it has one. */
  function PlanningCutoff(deadline: Option<int>, configured: int, now: int, lag: nat): Option<Option<int>> {
    if deadline.None? || configured <= 0 then Some(deadline)
    else if deadline.value - now <= 0 then None
    else
      var cutoff := deadline.value - Reserve(deadline.value - now, configured);
      if now + lag < cutoff then Some(Some(cutoff)) else None
  }

  /** When a tool that begins at `now` must stop (contextWithToolBudget). */
  function ToolCutoff(deadline: Option<int>, timeout: int, configured: int, now: int): int {
    var reserved := if deadline.Some? then deadline.value - Reserve(deadline.value - now, configured)
          else now + timeout;
    var cutoff := if reserved < now + timeout then reserved else now + timeout;
    if cutoff <= now then now + 1 else cutoff
  }

  /** Before the deadline a planning turn may begin as long as it does not lose two thirds of
      the time between its two looks at the clock, and it then stops with the reserve left. */
  lemma PlanningLeavesReserve(deadline: int, configured: int, now: int, lag: nat)
    requires configured > 0
    ensures var cutoff := PlanningCutoff(Some(deadline), configured, now, lag);
            && PlanningCutoff(None, configured, now, lag) == Some(None)
            && PlanningCutoff(Some(deadline), 0, now, lag) == Some(Some(deadline))
            && (lag == 0 ==> (cutoff.Some? <==> now < deadline))
            && (now < deadline && 3 * lag < 2 * (deadline - now) ==> cutoff.Some?)
            && (cutoff.Some? ==>
                  && cutoff.value.Some? && now + lag < cutoff.value.value <= deadline
                  && deadline - cutoff.value.value == Reserve(deadline - now, configured)
                  && 3 * (deadline - cutoff.value.value) <= deadline - now)
  {
  }

  /** A tool stops at its own timeout or just with the reserve left, whichever is earlier, or after
      one nanosecond if that is already impossible. */
  lemma ToolLeavesReserve(deadline: int, timeout: int, configured: int, now: int)
    requires timeout > 0
    ensures var cutoff := ToolCutoff(Some(deadline), timeout, configured, now);
            && now < cutoff <= now + timeout
            && (now < deadline <==> deadline - cutoff >= Reserve(deadline - now, configured))
            && (now < deadline && cutoff < now + timeout ==> deadline - cutoff == Reserve(deadline - now, configured))
            && ToolCutoff(None, timeout, configured, now) == now + timeout
  {
  }

  // ----- Many phases in a row

  /** The phases of a run, by the time each takes. */
  predicate InTime(remaining: int, configured: int, phases: seq<nat>)
    decreases |phases|
  {
    phases == [] || (phases[0] <= remaining - Reserve(remaining, configured)
                     && InTime(remaining - phases[0], configured, phases[1..]))
  }

  function Left(remaining: int, phases: seq<nat>): int
    decreases |phases|
  {
    if phases == [] then remaining else Left(remaining - phases[0], phases[1..])
  }

  function Power3(n: nat): (r: nat)
    ensures r > 0
  {
    if n == 0 then 1 else 3 * Power3(n - 1)
  }

  /** What is left when each of `n` phases uses all the time it may. */
  function Worst(remaining: int, configured: int, n: nat): int
    decreases n
  {
    if n == 0 then remaining else Worst(Reserve(remaining, configured), configured, n - 1)
  }

  lemma ReserveIsMonotone(a: int, b: int, configured: int)
    requires 0 <= a <= b
    ensures 0 <= Reserve(a, configured) <= Reserve(b, configured) <= b
  {
  }

  lemma {:induction false} WorstIsMonotone(a: int, b: int, configured: int, n: nat)
    requires 0 <= a <= b
    ensures 0 <= Worst(a, configured, n) <= Worst(b, configured, n)
    decreases n
  {
    if n > 0 {
      ReserveIsMonotone(a, b, configured);
      WorstIsMonotone(Reserve(a, configured), Reserve(b, configured), configured, n - 1);
    }
  }

  /** Phases that keep to their limits leave at least what the worst such phases leave. */
  lemma {:induction false} PhasesLeaveWorst(remaining: int, configured: int, phases: seq<nat>)
    requires remaining >= 0 && InTime(remaining, configured, phases)
    ensures Left(remaining, phases) >= Worst(remaining, configured, |phases|)
    decreases |phases|
  {
    if phases != [] {
      var rest := remaining - phases[0];
      ReserveIsMonotone(0, remaining, configured);
      PhasesLeaveWorst(rest, configured, phases[1..]);
      WorstIsMonotone(Reserve(remaining, configured), rest, configured, |phases| - 1);
    }
  }

  /** And that is the reserve of the first phase divided by three once for every further one:
      the configured reserve survives one phase, not a run of them. */
  lemma {:induction false} WorstIsThirds(remaining: int, configured: int, n: nat)
    requires remaining >= 0 && configured > 0 && n > 0
    ensures Worst(remaining, configured, n) == Reserve(remaining, configured) / Power3(n - 1)
    decreases n
  {
    var left := Reserve(remaining, configured);
    if n > 1 {
      WorstIsThirds(left, configured, n - 1);
      assert Reserve(left, configured) == left / 3;
      DivideTwice(left, Power3(n - 2));
    }
  }

  /** `n` phases that each use all the time they may. */
  function FullPhases(remaining: int, configured: int, n: nat): seq<nat>
    requires remaining >= 0
    decreases n
  {
    ReserveIsMonotone(remaining, remaining, configured);
    if n == 0 then []
    else
      var reserve := Reserve(remaining, configured);
      [remaining - reserve] + FullPhases(reserve, configured, n - 1)
  }

  /** The worst case happens: such phases keep to their limits and leave just that. */
  lemma {:induction false} WorstIsReached(remaining: int, configured: int, n: nat)
    requires remaining >= 0
    ensures var phases := FullPhases(remaining, configured, n);
            && |phases| == n && InTime(remaining, configured, phases)
            && Left(remaining, phases) == Worst(remaining, configured, n)
    decreases n
  {
    if n > 0 {
      var reserve := Reserve(remaining, configured);
      ReserveIsMonotone(remaining, remaining, configured);
      WorstIsReached(reserve, configured, n - 1);
      assert FullPhases(remaining, configured, n)[1..] == FullPhases(reserve, configured, n - 1);
    }
  }

  /** The configured reserve is sure to be left after `n` phases that keep to their limits if and
      only if there is just one and three times the reserve to begin with. */
  lemma ReserveIsKeptIff(remaining: int, configured: int, n: nat)
    requires remaining >= 0 && configured > 0 && n > 0
    ensures (forall phases :: |phases| == n && InTime(remaining, configured, phases) ==>
            Left(remaining, phases) >= configured)
            <==> n == 1 && remaining >= 3 * configured
  {
    WorstIsReached(remaining, configured, n);
    ReserveIsMonotone(remaining, remaining, configured);
    forall phases | |phases| == n && InTime(remaining, configured, phases)
      ensures Left(remaining, phases) >= Worst(remaining, configured, n)
    {
      PhasesLeaveWorst(remaining, configured, phases);
    }
    if n == 1 {
      assert Worst(remaining, configured, 1) == Worst(Reserve(remaining, configured), configured, 0);
    } else {
      WorstShrinks(remaining, configured, n);
    }
  }

  lemma WorstShrinks(remaining: int, configured: int, n: nat)
    requires remaining >= 0 && configured > 0 && n > 1
    ensures Worst(remaining, configured, n) < configured
    decreases n
  {
    var left := Reserve(remaining, configured);
    ReserveIsMonotone(remaining, remaining, configured);
    if n == 2 {
      assert Worst(remaining, configured, 2) == Worst(left, configured, 1)
          == Worst(Reserve(left, configured), configured, 0);
    } else {
      WorstShrinks(left, configured, n - 1);
    }
  }

  lemma DivideTwice(a: int, d: nat)
    requires d > 0
    ensures a / 3 / d == a / (3 * d)
  {
    var q, r := a / (3 * d), a % (3 * d);
    assert a == q * (3 * d) + r;
    assert a / 3 == q * d + r / 3 by {
      assert q * (3 * d) == 3 * (q * d);
    }
    QuotientIs(a / 3, d, q, r / 3);
  }

  lemma QuotientIs(a: int, d: nat, q: int, r: int)
    requires a == q * d + r && 0 <= r < d
    ensures a / d == q
  {
    var p := a / d - q;
    assert p * d == r - a % d;
    Multiple(p, d);
  }

  lemma Multiple(p: int, d: nat)
    ensures p >= 1 ==> p * d >= d
    ensures p <= -1 ==> p * d + d <= 0
  {
  }
}
