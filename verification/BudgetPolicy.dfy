/** The allocator's promises to its callers: who is never starved, which optional messages
    win, what order the result has, and what is left of the context window. */
module BudgetPolicy {
  import opened Wrappers
  import opened Messages
  import opened ContextBudget
  import opened BudgetOrder
  import opened BudgetTheorems

  function ProtectedOf(messages: seq<Message>): seq<Candidate> { Filter(RequiredOf(messages), IsProtected) }

  function FlexibleOf(messages: seq<Message>): seq<Candidate> { Filter(RequiredOf(messages), IsFlexible) }

  // ----- Which messages are which

  /** The message is the current turn, a system message, or has priority 120 or more. */
  predicate MustKeep(messages: seq<Message>, i: nat)
    requires i < |messages|
  {
    i == |messages| - 1 || messages[i].role.RoleSystem? || messages[i].priority >= PRIORITY_SYSTEM
  }

  /** The message is the current turn or has priority 130 or more. */
  predicate MustStay(messages: seq<Message>, i: nat)
    requires i < |messages|
  {
    i == |messages| - 1 || messages[i].priority >= PRIORITY_PLUGIN
  }

  /** The rank of an optional message: without a priority it is history. */
  function Rank(m: Message): int { if m.priority == PRIORITY_DEFAULT then PRIORITY_HISTORY else m.priority }

  /** Of two optional messages the more important goes first, and among equals the later one. */
  predicate Outranks(messages: seq<Message>, k: nat, i: nat)
    requires k < |messages| && i < |messages|
  {
    Rank(messages[k]) > Rank(messages[i]) || (Rank(messages[k]) == Rank(messages[i]) && k > i)
  }

  /** What the effective priority amounts to. */
  lemma PriorityMeans(messages: seq<Message>, i: nat)
    requires i < |messages|
    ensures IsRequired(CandidateAt(messages, i)) <==> MustKeep(messages, i)
    ensures IsProtected(CandidateAt(messages, i)) <==> MustStay(messages, i)
    ensures IsFlexible(CandidateAt(messages, i)) <==> !MustStay(messages, i)
    ensures !MustKeep(messages, i) ==> CandidateAt(messages, i).priority == Rank(messages[i])
  {
    hide MessageCost;
  }

  lemma PrioritiesMean(messages: seq<Message>)
    ensures forall i: nat :: i < |messages| ==>
                               && (IsRequired(CandidateAt(messages, i)) <==> MustKeep(messages, i))
                               && (IsProtected(CandidateAt(messages, i)) <==> MustStay(messages, i))
                               && (IsFlexible(CandidateAt(messages, i)) <==> !MustStay(messages, i))
  {
    hide MustKeep, MustStay, CandidateAt, IsRequired, IsProtected, IsFlexible;
    forall i: nat | i < |messages|
      ensures IsRequired(CandidateAt(messages, i)) <==> MustKeep(messages, i)
      ensures IsProtected(CandidateAt(messages, i)) <==> MustStay(messages, i)
      ensures IsFlexible(CandidateAt(messages, i)) <==> !MustStay(messages, i)
    {
      PriorityMeans(messages, i);
    }
  }

  /** The tokens that the first `n` messages cost as far as they must stay whole. */
  function StayCost(messages: seq<Message>, n: nat): nat
    requires n <= |messages|
  {
    if n == 0 then 0
    else StayCost(messages, n - 1) + if MustStay(messages, n - 1) then MessageCost(messages[n - 1]) else 0
  }

  /** How many of the first `n` messages must be kept, but not whole. */
  function BendCount(messages: seq<Message>, n: nat): nat
    requires n <= |messages|
  {
    if n == 0 then 0
    else
      BendCount(messages, n - 1) + if MustKeep(messages, n - 1) && !MustStay(messages, n - 1) then 1 else 0
  }

  /** How many of the first `n` messages must be kept. */
  function KeepCount(messages: seq<Message>, n: nat): nat
    requires n <= |messages|
  {
    if n == 0 then 0 else KeepCount(messages, n - 1) + if MustKeep(messages, n - 1) then 1 else 0
  }

  lemma Regroup(a: seq<Candidate>, b: seq<Candidate>, c: seq<Candidate>)
    ensures a + (b + c) == (a + b) + c
  {
  }

  lemma {:induction false} FilterOneMore(s: seq<Candidate>, c: Candidate, keep: Candidate -> bool)
    ensures Filter(s + [c], keep) == Filter(s, keep) + if keep(c) then [c] else []
  {
    if s == [] {
      assert s + [c] == [c] && [c][1..] == [];
      assert Filter([c], keep) == (if keep(c) then [c] else []) + Filter([], keep);
    } else {
      var first := if keep(s[0]) then [s[0]] else [];
      var last := if keep(c) then [c] else [];
      assert (s + [c])[1..] == s[1..] + [c] && (s + [c])[0] == s[0];
      assert Filter(s + [c], keep) == first + Filter(s[1..] + [c], keep);
      assert Filter(s, keep) == first + Filter(s[1..], keep);
      hide Filter;
      FilterOneMore(s[1..], c, keep);
      Regroup(first, Filter(s[1..], keep), last);
    }
  }

  lemma {:induction false} TotalOneMore(s: seq<Candidate>, c: Candidate)
    ensures TotalCost(s + [c]) == TotalCost(s) + c.cost
  {
    if s == [] {
      assert s + [c] == [c] && [c][1..] == [];
      assert TotalCost([c]) == c.cost + TotalCost([]);
    } else {
      assert (s + [c])[1..] == s[1..] + [c];
      TotalOneMore(s[1..], c);
    }
  }

  lemma {:induction false} PrefixCounts(messages: seq<Message>, n: nat)
    requires n <= |messages|
    ensures var required := Filter(Candidates(messages)[..n], IsRequired);
            && TotalCost(Filter(required, IsProtected)) == StayCost(messages, n)
            && |Filter(required, IsFlexible)| == BendCount(messages, n)
            && |required| == KeepCount(messages, n)
  {
    hide MessageCost, EffectivePriority, MustKeep, MustStay, IsRequired, IsProtected, IsFlexible, Filter, TotalCost;
    var all := Candidates(messages);
    if n == 0 {
      NothingFiltered();
      assert all[..0] == [];
    } else {
      PrefixCounts(messages, n - 1);
      PriorityMeans(messages, n - 1);
      StayingIsKeeping(messages, n - 1);
      var c, required := CandidateAt(messages, n - 1), Filter(all[..n - 1], IsRequired);
      assert all[..n] == all[..n - 1] + [c];
      FilterOneMore(all[..n - 1], c, IsRequired);
      FilterOneMore(required, c, IsProtected);
      FilterOneMore(required, c, IsFlexible);
      TotalOneMore(Filter(required, IsProtected), c);
      assert required + [] == required && Filter(required, IsProtected) + [] == Filter(required, IsProtected);
    }
  }

  lemma NothingFiltered()
    ensures Filter([], IsRequired) == [] && Filter([], IsProtected) == [] && Filter([], IsFlexible) == []
    ensures TotalCost([]) == 0
  {
  }

  lemma StayingIsKeeping(messages: seq<Message>, i: nat)
    requires i < |messages|
    ensures MustStay(messages, i) ==> MustKeep(messages, i)
  {
  }

  /** The sums that decide the required selection, in terms of the messages. */
  lemma RequiredCounts(messages: seq<Message>)
    ensures TotalCost(ProtectedOf(messages)) == StayCost(messages, |messages|)
    ensures |FlexibleOf(messages)| == BendCount(messages, |messages|)
    ensures |RequiredOf(messages)| == KeepCount(messages, |messages|)
  {
    PrefixCounts(messages, |messages|);
    assert Candidates(messages)[..|messages|] == Candidates(messages);
  }

  function MaxOverrun(messages: seq<Message>): nat {
    if messages == [] then 0
    else
      var rest := MaxOverrun(messages[1..]);
      if Overrun(messages[0]) > rest then Overrun(messages[0]) else rest
  }

  lemma {:induction false} MaxOverrunBounds(messages: seq<Message>)
    ensures OverrunsAtMost(messages, MaxOverrun(messages))
    ensures (forall m :: m in messages ==> Plain(m)) ==> MaxOverrun(messages) == 0
  {
    hide Overrun;
    if messages != [] {
      MaxOverrunBounds(messages[1..]);
      PlainNeverOverruns(messages[0]);
    }
  }

  lemma PlainNeverOverruns(m: Message)
    ensures Plain(m) ==> Overrun(m) == 0
  {
  }

  // ----- No starvation

  /** With the minimum for every slot in hand, a slot gets its minimum and leaves the same
      for those after it. */
  lemma AllocationServes(budget: int, cost: nat, remainingCost: int, slotsAfter: nat)
    requires budget >= (slotsAfter + 1) * MINIMUM_REQUIRED_COST
    ensures MINIMUM_REQUIRED_COST <= Allocation(budget, cost, remainingCost, slotsAfter)
         <= budget - slotsAfter * MINIMUM_REQUIRED_COST
  {
  }

  /** A share that neither bound cuts is the exact proportional one, rounded down. */
  lemma AllocationIsProportional(budget: int, cost: nat, remainingCost: int, slotsAfter: nat)
    requires budget > 0 && remainingCost > 0
    ensures var a := Allocation(budget, cost, remainingCost, slotsAfter);
            MINIMUM_REQUIRED_COST < a < budget - slotsAfter * MINIMUM_REQUIRED_COST ==>
              a * remainingCost <= budget * cost < (a + 1) * remainingCost
  {
    var share := budget * cost / remainingCost;
    assert budget * cost == share * remainingCost + budget * cost % remainingCost;
  }

  /** In full: the proportional share, no more than what leaves every later slot its minimum, no
      less than the minimum, and no more than there is. */
  lemma AllocationIsClamped(budget: int, cost: nat, remainingCost: int, slotsAfter: nat, share: int)
    requires budget > 0 && remainingCost > 0
    requires share * remainingCost <= budget * cost < (share + 1) * remainingCost
    ensures var a, most := Allocation(budget, cost, remainingCost, slotsAfter), budget - slotsAfter * 16;
            && (16 <= share <= most ==> a == share)
            && (share > most >= 16 ==> a == most)
            && ((share < 16 || most < 16) && budget >= 16 ==> a == 16)
            && (budget < 16 ==> a == budget)
  {
    var q := budget * cost / remainingCost;
    assert budget * cost == q * remainingCost + budget * cost % remainingCost;
    SameQuotient(q, share, remainingCost, budget * cost);
  }

  lemma SameQuotient(q: int, p: int, n: int, a: int)
    requires n > 0 && q * n <= a < q * n + n && p * n <= a < (p + 1) * n
    ensures q == p
  {
    Apart(q, p, n);
    Apart(p, q, n);
    assert (p + 1) * n == p * n + n;
  }

  lemma Apart(a: int, b: int, n: int)
    requires n > 0
    ensures a < b ==> a * n + n <= b * n
  {
    if a < b {
      assert b * n == a * n + (b - a) * n;
      AtLeastOnce(b - a, n);
    }
  }

  lemma AtLeastOnce(d: int, c: int)
    requires d >= 1 && c > 0
    ensures d * c >= c
  {
  }

  ghost predicate Served(messages: seq<Message>, items: seq<Candidate>, chosen: map<nat, Message>) {
    forall c :: c in items && c.index < |messages| && Speaks(messages[c.index]) ==>
                  c.index in chosen && Speaks(chosen[c.index])
  }

  /** Every message concerned either speaks or cannot overrun. */
  ghost predicate Manageable(messages: seq<Message>, items: seq<Candidate>) {
    forall c :: c in items && c.index < |messages| ==> Speaks(messages[c.index]) || Plain(messages[c.index])
  }

  ghost predicate Extends(before: map<nat, Message>, after: map<nat, Message>) {
    forall k :: k in before ==> k in after && after[k] == before[k]
  }

  lemma {:induction false} ProportionalServes(messages: seq<Message>, items: seq<Candidate>, remainingCost: int,
      sel: Selection)
    requires Indexed(messages, items) && Ascending(items) && Unchosen(items, sel.chosen)
    requires Manageable(messages, items)
    requires sel.remaining >= |items| * MINIMUM_REQUIRED_COST
    ensures var r := Proportional(messages, items, remainingCost, sel);
            r.remaining >= 0 && Served(messages, items, r.chosen) && Extends(sel.chosen, r.chosen)
    decreases |items|
  {
    hide MessageCost, Allocation, TrimMessage, Speaks, Plain, Overrun;
    if items != [] {
      var rest := items[1..];
      var next := ServeFirst(messages, items, remainingCost, sel);
      assert Manageable(messages, rest);
      ProportionalServes(messages, rest, remainingCost - items[0].cost, next);
    }
  }

  /** The first slot gets its share and leaves the minimum for every later one. */
  lemma ServeFirst(messages: seq<Message>, items: seq<Candidate>, remainingCost: int, sel: Selection)
      returns (next: Selection)
    requires items != [] && Indexed(messages, items) && Ascending(items) && Unchosen(items, sel.chosen)
    requires Manageable(messages, items)
    requires sel.remaining >= |items| * MINIMUM_REQUIRED_COST
    ensures Proportional(messages, items, remainingCost, sel)
         == Proportional(messages, items[1..], remainingCost - items[0].cost, next)
    ensures next.remaining >= (|items| - 1) * MINIMUM_REQUIRED_COST
    ensures Unchosen(items[1..], next.chosen) && Extends(sel.chosen, next.chosen)
    ensures var i := items[0].index; Speaks(messages[i]) ==> i in next.chosen && Speaks(next.chosen[i])
  {
    hide MessageCost, Allocation, TrimMessage, Speaks, Plain, Overrun;
    var c, slotsAfter := items[0], |items| - 1;
    AllocationServes(sel.remaining, c.cost, remainingCost, slotsAfter);
    var allocation := Allocation(sel.remaining, c.cost, remainingCost, slotsAfter);
    SlotOutcome(messages[c.index], allocation);
    var trimmed := TrimMessage(messages[c.index], allocation);
    next := if trimmed.None? then sel else sel.Choose(c.index, trimmed.value, MessageCost(trimmed.value));
  }

  lemma SlotOutcome(m: Message, allocation: int)
    requires Speaks(m) || Plain(m)
    requires allocation >= MINIMUM_REQUIRED_COST
    ensures var r := TrimMessage(m, allocation);
            && (r.Some? ==> MessageCost(r.value) <= allocation)
            && (Speaks(m) ==> r.Some? && Speaks(r.value))
  {
    hide TrimMessage, MessageCost, Speaks, Plain, Overrun;
    PlainNeverOverruns(m);
    if Speaks(m) {
      SpeakingSurvives(m, allocation);
    } else if TrimMessage(m, allocation).Some? {
      TrimMessageOverrun(m, allocation);
    }
  }

  /** The proportional selection never touches what was chosen before it. */
  lemma {:induction false} ProportionalKeeps(messages: seq<Message>, items: seq<Candidate>, remainingCost: int,
      sel: Selection)
    requires Indexed(messages, items) && Ascending(items) && Unchosen(items, sel.chosen)
    ensures Extends(sel.chosen, Proportional(messages, items, remainingCost, sel).chosen)
    decreases |items|
  {
    hide MessageCost, Allocation, TrimMessage;
    if items != [] {
      var c, rest := items[0], items[1..];
      var trimmed := TrimMessage(messages[c.index], Allocation(sel.remaining, c.cost, remainingCost, |rest|));
      var next := if trimmed.None? then sel else sel.Choose(c.index, trimmed.value, MessageCost(trimmed.value));
      assert Unchosen(rest, next.chosen);
      ProportionalKeeps(messages, rest, remainingCost - c.cost, next);
    }
  }

  lemma ServesProtected(messages: seq<Message>, ordered: seq<Candidate>, start: Selection)
    requires Indexed(messages, ordered) && Ascending(ordered) && start.chosen == map[]
    requires TotalCost(Filter(ordered, IsProtected)) + |Filter(ordered, IsFlexible)| * MINIMUM_REQUIRED_COST
          <= start.remaining
    ensures var r := SelectOrdered(messages, ordered, TotalCost(ordered), start);
            forall c :: c in ordered && IsProtected(c) ==> c.index in r.chosen && r.chosen[c.index] == messages[c.index]
  {
    hide TakeWhole, Proportional, Indices, TotalCost, ChosenCost, Filter, CandidateAt;
    var protected, flexible := Filter(ordered, IsProtected), Filter(ordered, IsFlexible);
    FilterMembers(ordered, IsProtected);
    FilterMembers(ordered, IsFlexible);
    FilterAscends(ordered, IsProtected);
    FilterAscends(ordered, IsFlexible);
    if TotalCost(ordered) <= start.remaining {
      WholeServes(messages, ordered, start);
    } else {
      WholeServes(messages, protected, start);
      var taken := TakeWhole(messages, protected, start);
      FlexibleUnchosen(ordered, taken);
      ProportionalKeeps(messages, flexible, TotalCost(flexible), taken);
    }
  }

  lemma ProtectedCandidatesStay(messages: seq<Message>, budget: int)
    requires messages != []
    requires TotalCost(ProtectedOf(messages)) + |FlexibleOf(messages)| * MINIMUM_REQUIRED_COST <= budget
    ensures forall i: nat :: i < |messages| && IsProtected(CandidateAt(messages, i)) ==>
                               i in Choice(messages, budget) && Choice(messages, budget)[i] == messages[i]
  {
    hide MessageCost, SelectOrdered, Greedy, SelectRequired, TotalCost, EffectivePriority;
    LastIsProtected(messages);
    if MessagesCost(messages) > budget {
      var ordered, start := RequiredOf(messages), Selection(map[], budget);
      SelectRequiredInOrder(messages, budget);
      ServesProtected(messages, ordered, start);
      FillKeepsServed(messages, SelectOrdered(messages, ordered, TotalCost(ordered), start), budget);
      RequiredMembers(messages);
    }
  }

  /** When the messages of priority 130 and above, together with the minimum for each system
      instruction, fit the budget, the former are output unchanged, whatever the system
      instructions are. The last message is always among them. */
  lemma ProtectedAreUntouched(messages: seq<Message>, budget: int)
    requires messages != []
    requires StayCost(messages, |messages|) + BendCount(messages, |messages|) * MINIMUM_REQUIRED_COST <= budget
    ensures forall i: nat :: i < |messages| && MustStay(messages, i) ==>
                               i in Choice(messages, budget) && Choice(messages, budget)[i] == messages[i]
  {
    hide MustStay, Choice, CandidateAt, IsProtected, ProtectedOf, FlexibleOf;
    RequiredCounts(messages);
    PrioritiesMean(messages);
    ProtectedCandidatesStay(messages, budget);
  }

  /** The budget pays for the protected ones of `ordered` and the minimum for each of the others,
      or for the minimum for each of them all, and none that it pays the minimum for can take
      more than its share. */
  ghost predicate Provided(messages: seq<Message>, ordered: seq<Candidate>, budget: int) {
    var protected, flexible := Filter(ordered, IsProtected), Filter(ordered, IsFlexible);
    || (TotalCost(protected) + |flexible| * MINIMUM_REQUIRED_COST <= budget && Manageable(messages, flexible))
    || (|ordered| * MINIMUM_REQUIRED_COST <= budget && Manageable(messages, ordered))
  }

  /** The same in terms of the messages. */
  ghost predicate BudgetProvides(messages: seq<Message>, budget: int) {
    || (&& StayCost(messages, |messages|) + BendCount(messages, |messages|) * MINIMUM_REQUIRED_COST <= budget
        && forall i: nat :: i < |messages| && MustKeep(messages, i) && !MustStay(messages, i) ==>
                              Speaks(messages[i]) || Plain(messages[i]))
    || (&& KeepCount(messages, |messages|) * MINIMUM_REQUIRED_COST <= budget
        && forall i: nat :: i < |messages| && MustKeep(messages, i) ==> Speaks(messages[i]) || Plain(messages[i]))
  }

  lemma ProvidedForCandidates(messages: seq<Message>, budget: int)
    requires BudgetProvides(messages, budget)
    ensures Provided(messages, RequiredOf(messages), budget)
  {
    hide MessageCost, EffectivePriority, Speaks, Plain, IsRequired, IsFlexible, IsProtected, MustKeep, MustStay;
    RequiredCounts(messages);
    PrioritiesMean(messages);
    CandidatesCosted(messages);
    FilterMembers(Candidates(messages), IsRequired);
    FilterMembers(RequiredOf(messages), IsFlexible);
  }

  lemma RequiredCandidatesSpeak(messages: seq<Message>, budget: int)
    requires messages != [] && Provided(messages, RequiredOf(messages), budget)
    ensures forall i: nat :: i < |messages| && IsRequired(CandidateAt(messages, i)) && Speaks(messages[i]) ==>
                               i in Choice(messages, budget) && Speaks(Choice(messages, budget)[i])
  {
    LastIsProtected(messages);
    RequiredMembers(messages);
    assert budget > 0;
    hide MessageCost, SelectOrdered, Greedy, Speaks, Plain, SelectRequired, TotalCost, EffectivePriority, Provided;
    if MessagesCost(messages) > budget {
      var ordered, start := RequiredOf(messages), Selection(map[], budget);
      SelectRequiredInOrder(messages, budget);
      ServesRequired(messages, ordered, start);
      var served := SelectOrdered(messages, ordered, TotalCost(ordered), start);
      FillKeepsServed(messages, served, budget);
      RequiredMembers(messages);
    }
  }

  /** And no required message that says something falls silent, also when the protected ones
      do not all fit whole. */
  lemma NoStarvation(messages: seq<Message>, budget: int)
    requires messages != [] && BudgetProvides(messages, budget)
    ensures forall i: nat :: i < |messages| && MustKeep(messages, i) && Speaks(messages[i]) ==>
                               i in Choice(messages, budget) && Speaks(Choice(messages, budget)[i])
  {
    hide MustKeep, Choice, CandidateAt, IsRequired, BudgetProvides, Provided, Speaks;
    ProvidedForCandidates(messages, budget);
    PrioritiesMean(messages);
    RequiredCandidatesSpeak(messages, budget);
  }

  lemma RequiredMembers(messages: seq<Message>)
    ensures forall i: nat :: i < |messages| && IsRequired(CandidateAt(messages, i)) ==>
                               CandidateAt(messages, i) in RequiredOf(messages)
  {
    FilterMembers(Candidates(messages), IsRequired);
    forall i: nat | i < |messages| ensures CandidateAt(messages, i) in Candidates(messages) {
      assert Candidates(messages)[i] == CandidateAt(messages, i);
    }
  }

  lemma LastIsProtected(messages: seq<Message>)
    requires messages != []
    ensures IsProtected(CandidateAt(messages, |messages| - 1))
    ensures TotalCost(ProtectedOf(messages)) > 0
  {
    var last := CandidateAt(messages, |messages| - 1);
    RequiredMembers(messages);
    FilterMembers(RequiredOf(messages), IsProtected);
    CostOfMember(ProtectedOf(messages), last);
  }

  lemma {:induction false} CostOfMember(items: seq<Candidate>, c: Candidate)
    requires c in items
    ensures c.cost <= TotalCost(items)
  {
    if items[0] != c {
      CostOfMember(items[1..], c);
    }
  }

  lemma ServesRequired(messages: seq<Message>, ordered: seq<Candidate>, start: Selection)
    requires Indexed(messages, ordered) && Ascending(ordered) && Costed(messages, ordered)
    requires start.chosen == map[] && Provided(messages, ordered, start.remaining)
    ensures var r := SelectOrdered(messages, ordered, TotalCost(ordered), start);
            Served(messages, ordered, r.chosen)
  {
    hide TakeWhole, Proportional, Indices, TotalCost, ChosenCost, Filter, CandidateAt, Speaks, Plain;
    var protected, flexible := Filter(ordered, IsProtected), Filter(ordered, IsFlexible);
    FilterMembers(ordered, IsProtected);
    FilterMembers(ordered, IsFlexible);
    FilterAscends(ordered, IsProtected);
    FilterAscends(ordered, IsFlexible);
    if TotalCost(ordered) <= start.remaining {
      WholeServes(messages, ordered, start);
    } else if TotalCost(protected) + |flexible| * MINIMUM_REQUIRED_COST <= start.remaining {
      assert Manageable(messages, flexible);
      WholeServes(messages, protected, start);
      var taken := TakeWhole(messages, protected, start);
      FlexibleUnchosen(ordered, taken);
      ProportionalServes(messages, flexible, TotalCost(flexible), taken);
    } else {
      ProportionalServes(messages, ordered, TotalCost(ordered), start);
    }
  }

  lemma {:induction false} WholeServes(messages: seq<Message>, items: seq<Candidate>, sel: Selection)
    requires Indexed(messages, items) && Ascending(items) && Unchosen(items, sel.chosen)
    ensures var r := TakeWhole(messages, items, sel);
            && r.remaining == sel.remaining - TotalCost(items)
            && AddsOnly(sel, r, Indices(items))
            && (forall c :: c in items ==> c.index in r.chosen && r.chosen[c.index] == messages[c.index])
    decreases |items|
  {
    if items != [] {
      var c := items[0];
      WholeServes(messages, items[1..], sel.Choose(c.index, messages[c.index], c.cost));
    }
  }

  /** The greedy fill never touches what was chosen before it. */
  lemma {:induction false} GreedyKeeps(messages: seq<Message>, items: seq<Candidate>, sel: Selection)
    requires Indexed(messages, items)
    ensures var r := Greedy(messages, items, sel);
            && Extends(sel.chosen, r.chosen) && r.remaining <= sel.remaining
            && r.chosen.Keys <= sel.chosen.Keys + Indices(items)
    decreases |items|
  {
    hide MessageCost, TrimMessage;
    if items != [] && sel.remaining > 0 {
      GreedyKeeps(messages, items[1..], Consider(messages, items[0], sel));
    }
  }

  lemma FillKeepsServed(messages: seq<Message>, served: Selection, budget: int)
    requires messages != [] && budget > 0 && MessagesCost(messages) > budget
    requires Indexed(messages, Ranked(messages))
    requires served == SelectRequired(messages, Ranked(messages), Selection(map[], budget))
    ensures Extends(served.chosen, Choice(messages, budget))
  {
    hide SelectRequired, Greedy, MessagesCost, TrimMessage;
    GreedyKeeps(messages, Ranked(messages), served);
  }

  // ----- Which optional messages win

  /** What becomes of an optional message when `left` tokens remain for it. */
  function Verdict(m: Message, c: Candidate, left: int): Option<Message> {
    if left <= 0 then None
    else if c.cost <= left then Some(m)
    else if c.priority < PRIORITY_SUMMARY then None
    else TrimMessage(m, left)
  }

  /** The chosen messages that outrank `c`: the required ones and those ahead in the ranking. */
  ghost function Ahead(messages: seq<Message>, chosen: map<nat, Message>, c: Candidate): map<nat, Message> {
    map k: nat | k in chosen && k < |messages|
                 && (IsRequired(CandidateAt(messages, k)) || ByPriority(CandidateAt(messages, k), c)) :: chosen[k]
  }

  lemma {:induction false} GreedyInStages(messages: seq<Message>, a: seq<Candidate>, b: seq<Candidate>, sel: Selection)
    requires Indexed(messages, a) && Indexed(messages, b)
    ensures Indexed(messages, a + b)
    ensures Greedy(messages, a + b, sel) == Greedy(messages, b, Greedy(messages, a, sel))
    decreases |a|
  {
    hide Consider;
    if a == [] {
      assert a + b == b;
    } else {
      assert (a + b)[1..] == a[1..] + b;
      GreedyInStages(messages, a[1..], b, if sel.remaining <= 0 then sel else Consider(messages, a[0], sel));
    }
  }

  /** The state of the fill when it reaches position `p` of the ranking. */
  ghost function FillBefore(messages: seq<Message>, budget: int, p: nat): Selection
    requires p <= |Ranked(messages)|
  {
    RankedIndexed(messages);
    Greedy(messages, Ranked(messages)[..p], SelectRequired(messages, Ranked(messages), Selection(map[], budget)))
  }

  lemma FillInTwo(messages: seq<Message>, budget: int, p: nat)
    requires budget > 0 && p <= |Ranked(messages)|
    ensures Indexed(messages, Ranked(messages)) && Indexed(messages, Ranked(messages)[p..])
    ensures var start := SelectRequired(messages, Ranked(messages), Selection(map[], budget));
            var before, after := FillBefore(messages, budget, p), Select(messages, budget);
            && after == Greedy(messages, Ranked(messages)[p..], before)
            && start.chosen.Keys <= Indices(RequiredOf(messages))
            && before.chosen.Keys <= start.chosen.Keys + Indices(Ranked(messages)[..p])
            && Extends(before.chosen, after.chosen)
            && before.remaining == budget - ChosenCost(before.chosen, |messages|)
            && (forall k :: k in after.chosen ==> k < |messages|)
  {
    hide SelectRequired, Greedy, Ranked, ChosenCost, MessageCost, Overrun, EffectivePriority;
    var slack, ranked := MaxOverrun(messages), Ranked(messages);
    MaxOverrunBounds(messages);
    CandidatesCosted(messages);
    SelectRequiredAccounts(messages, budget, slack);
    SelectAccounts(messages, budget, slack);
    var start := SelectRequired(messages, ranked, Selection(map[], budget));
    GreedyAccounts(messages, ranked[..p], start, budget, slack);
    assert ranked == ranked[..p] + ranked[p..];
    GreedyInStages(messages, ranked[..p], ranked[p..], start);
    GreedyKeeps(messages, ranked[p..], FillBefore(messages, budget, p));
  }

  /** At position `p` the fill has chosen exactly the finally chosen messages that outrank
      the one at `p`, and the tokens left are what those do not use. */
  lemma FillBeforeIsAhead(messages: seq<Message>, budget: int, p: nat)
    requires budget > 0 && p < |Ranked(messages)| && !IsRequired(Ranked(messages)[p])
    ensures var before, c := FillBefore(messages, budget, p), Ranked(messages)[p];
            && before.chosen == Ahead(messages, Select(messages, budget).chosen, c)
            && before.remaining == budget - ChosenCost(before.chosen, |messages|)
            && c.index !in before.chosen
  {
    hide SelectRequired, Greedy, ByPriority, IsRequired, Ranked, ChosenCost, Select, FillBefore, Indices;
    hide EffectivePriority, MessageCost;
    FillInTwo(messages, budget, p);
    CandidatesCosted(messages);
    var c := Ranked(messages)[p];
    var start := SelectRequired(messages, Ranked(messages), Selection(map[], budget));
    var before, after := FillBefore(messages, budget, p), Select(messages, budget);
    forall k | k in before.chosen
      ensures IsRequired(CandidateAt(messages, k)) || ByPriority(CandidateAt(messages, k), c)
    {
      IsAhead(messages, p, k, start, before);
    }
    forall k |
      && k in after.chosen && k < |messages|
      && (IsRequired(CandidateAt(messages, k)) || ByPriority(CandidateAt(messages, k), c))
      ensures k in before.chosen
    {
      AheadIsSettled(messages, budget, p, k, before, after);
    }
    assert before.chosen == Ahead(messages, after.chosen, c);
    Irreflexive(c);
  }

  lemma Irreflexive(c: Candidate)
    ensures !ByPriority(c, c)
  {
  }

  lemma IsAhead(messages: seq<Message>, p: nat, k: nat, start: Selection, before: Selection)
    requires p < |Ranked(messages)| && k in before.chosen && k < |messages|
    requires start.chosen.Keys <= Indices(RequiredOf(messages))
    requires before.chosen.Keys <= start.chosen.Keys + Indices(Ranked(messages)[..p])
    ensures IsRequired(CandidateAt(messages, k)) || ByPriority(CandidateAt(messages, k), Ranked(messages)[p])
  {
    hide Ranked, ByPriority;
    CandidatesCosted(messages);
    RankingOrder(messages);
    var ranked := Ranked(messages);
    if k in start.chosen {
      IndexOf(RequiredOf(messages), k);
      FilterMembers(Candidates(messages), IsRequired);
    } else {
      IndexOf(ranked[..p], k);
      var c :| c in ranked[..p] && c.index == k;
      assert c in ranked;
    }
  }

  /** A message that outranks position `p` is never chosen from position `p` on. */
  lemma AheadIsSettled(messages: seq<Message>, budget: int, p: nat, k: nat, before: Selection, after: Selection)
    requires p < |Ranked(messages)| && k < |messages|
    requires Indexed(messages, Ranked(messages)[p..])
    requires after == Greedy(messages, Ranked(messages)[p..], before) && k in after.chosen
    requires IsRequired(CandidateAt(messages, k)) || ByPriority(CandidateAt(messages, k), Ranked(messages)[p])
    ensures k in before.chosen
  {
    hide Ranked, ByPriority, Greedy;
    RankingOrder(messages);
    CandidatesCosted(messages);
    var ranked := Ranked(messages);
    GreedyAddsOptional(messages, ranked[p..], before);
    if k !in before.chosen {
      var c :| c in ranked[p..] && c.index == k && !IsRequired(c);
      assert c in ranked && c == CandidateAt(messages, k);
      var q :| p <= q < |ranked| && ranked[q] == c;
      NotAhead(ranked[p], c);
    }
  }

  lemma NotAhead(a: Candidate, b: Candidate)
    ensures a == b || ByPriority(a, b) ==> !ByPriority(b, a)
  {
  }

  lemma {:induction false} GreedyAddsOptional(messages: seq<Message>, items: seq<Candidate>, sel: Selection)
    requires Indexed(messages, items)
    ensures forall k :: k in Greedy(messages, items, sel).chosen && k !in sel.chosen ==>
                          exists c :: c in items && c.index == k && !IsRequired(c)
    decreases |items|
  {
    hide TrimMessage, MessageCost;
    if items != [] && sel.remaining > 0 {
      GreedyAddsOptional(messages, items[1..], Consider(messages, items[0], sel));
    }
  }

  predicate Carries(chosen: map<nat, Message>, i: nat, verdict: Option<Message>) {
    match verdict
    case None => i !in chosen
    case Some(m) => i in chosen && chosen[i] == m
  }

  /** The tokens not used by the kept messages that outrank message `i`. */
  ghost function LeftFor(messages: seq<Message>, budget: int, i: nat): int
    requires i < |messages|
  {
    budget - ChosenCost(Ahead(messages, Select(messages, budget).chosen, CandidateAt(messages, i)), |messages|)
  }

  /** The first candidate of a stretch is decided by the tokens left when it is reached. */
  lemma GreedyHead(messages: seq<Message>, items: seq<Candidate>, sel: Selection)
    requires Indexed(messages, items) && Distinct(items) && items != []
    requires var c := items[0]; !IsRequired(c) && c.index !in sel.chosen
    ensures var c := items[0];
            var r, verdict := Greedy(messages, items, sel), Verdict(messages[c.index], c, sel.remaining);
            r.remaining <= sel.remaining && Carries(r.chosen, c.index, verdict)
  {
    hide TrimMessage, MessageCost;
    var c := items[0];
    if sel.remaining > 0 {
      GreedyKeeps(messages, items[1..], Consider(messages, c, sel));
      if c.index in Indices(items[1..]) {
        IndexOf(items[1..], c.index);
      }
    }
  }

  lemma PositionOf(messages: seq<Message>, i: nat) returns (p: nat)
    requires i < |messages|
    ensures p < |Ranked(messages)| && Ranked(messages)[p] == CandidateAt(messages, i)
  {
    SortMembers(Candidates(messages), ByPriority);
    assert CandidateAt(messages, i) == Candidates(messages)[i];
    assert CandidateAt(messages, i) in Ranked(messages);
    p :| p < |Ranked(messages)| && Ranked(messages)[p] == CandidateAt(messages, i);
  }

  lemma CandidateIsDecided(messages: seq<Message>, budget: int, i: nat)
    requires budget > 0 && i < |messages| && !IsRequired(CandidateAt(messages, i))
    ensures LeftFor(messages, budget, i) >= Select(messages, budget).remaining
    ensures Carries(Select(messages, budget).chosen, i,
                    Verdict(messages[i], CandidateAt(messages, i), LeftFor(messages, budget, i)))
  {
    hide SelectRequired, Ranked, ChosenCost, Ahead, Greedy, Verdict, EffectivePriority, MessageCost, IsRequired;
    var p := PositionOf(messages, i);
    var ranked := Ranked(messages);
    CandidatesCosted(messages);
    RankingOrder(messages);
    FillBeforeIsAhead(messages, budget, p);
    assert ranked == ranked[..p] + ranked[p..];
    GreedyInStages(messages, ranked[..p], ranked[p..], SelectRequired(messages, ranked, Selection(map[], budget)));
    GreedyHead(messages, ranked[p..], FillBefore(messages, budget, p));
  }

  /** The kept messages that go before the optional message `i`: the required ones and those that
      outrank it. */
  ghost function Before(messages: seq<Message>, chosen: map<nat, Message>, i: nat): map<nat, Message>
    requires i < |messages|
  {
    map k: nat | k in chosen && k < |messages| && (MustKeep(messages, k) || Outranks(messages, k, i)) :: chosen[k]
  }

  lemma BeforeIsAhead(messages: seq<Message>, chosen: map<nat, Message>, i: nat)
    requires i < |messages| && !MustKeep(messages, i)
    ensures Before(messages, chosen, i) == Ahead(messages, chosen, CandidateAt(messages, i))
  {
    hide MustKeep, IsRequired, EffectivePriority, MessageCost, Rank;
    PriorityMeans(messages, i);
    forall k: nat | k < |messages|
      ensures MustKeep(messages, k) || Outranks(messages, k, i)
              <==> IsRequired(CandidateAt(messages, k))
                   || ByPriority(CandidateAt(messages, k), CandidateAt(messages, i))
    {
      PriorityMeans(messages, k);
    }
  }

  /** The greedy equation. An optional message is decided by the tokens that the required
      messages and the kept messages that outrank it leave: whole if it fits, else dropped
      below rank 60 and trimmed from there on. */
  lemma GreedyDecides(messages: seq<Message>, budget: int, i: nat)
    requires budget > 0 && i < |messages| && !MustKeep(messages, i)
    ensures var chosen, m := Select(messages, budget).chosen, messages[i];
            var left := budget - ChosenCost(Before(messages, chosen, i), |messages|);
            if left <= 0 then i !in chosen
            else if MessageCost(m) <= left then i in chosen && chosen[i] == m
            else if Rank(m) < PRIORITY_SUMMARY then i !in chosen
            else Carries(chosen, i, TrimMessage(m, left))
  {
    hide MessageCost, TrimMessage, EffectivePriority, Select, ChosenCost, MustKeep, Rank, Ahead;
    PriorityMeans(messages, i);
    CandidateIsDecided(messages, budget, i);
    BeforeIsAhead(messages, Select(messages, budget).chosen, i);
  }

  /** A dropped optional message would not have fitted beside what was kept. */
  lemma DroppedDoNotFit(messages: seq<Message>, budget: int, i: nat)
    requires budget > 0 && i < |messages| && !MustKeep(messages, i)
    requires i !in Select(messages, budget).chosen
    ensures ChosenCost(Select(messages, budget).chosen, |messages|) + MessageCost(messages[i]) > budget
  {
    hide Select, TrimMessage, ChosenCost, MessageCost, Ahead, Overrun, EffectivePriority, MustKeep;
    PriorityMeans(messages, i);
    CandidateIsDecided(messages, budget, i);
    MaxOverrunBounds(messages);
    SelectAccounts(messages, budget, MaxOverrun(messages));
    CostsSomething(messages[i]);
  }

  /** So an optional message missing from the output would not have fitted into what the output
      leaves of the budget. */
  lemma MissingDoNotFit(messages: seq<Message>, budget: int, i: nat)
    requires budget > 0 && i < |messages| && !MustKeep(messages, i)
    requires i !in Choice(messages, budget)
    ensures MessagesCost(Fit(messages, budget)) + MessageCost(messages[i]) > budget
  {
    hide Select, TrimMessage, MessageCost, EffectivePriority;
    var n := |messages|;
    DroppedDoNotFit(messages, budget, i);
    CollectCost(n, Choice(messages, budget), 0);
    ChosenCostEmpty(n);
    MaxOverrunBounds(messages);
    SelectAccounts(messages, budget, MaxOverrun(messages));
    assert MessagesCost(Fit(messages, budget)) == ChosenCost(Choice(messages, budget), n);
  }

  lemma CostsSomething(m: Message)
    ensures MessageCost(m) >= MESSAGE_OVERHEAD
  {
  }

  // ----- Order of the result

  /** The chosen positions from `from` on, in order. */
  function Kept(n: nat, chosen: map<nat, Message>, from: nat): seq<nat>
    requires from <= n
    decreases n - from
  {
    if from == n then []
    else (if from in chosen then [from] else []) + Kept(n, chosen, from + 1)
  }

  lemma {:induction false} KeptMembers(n: nat, chosen: map<nat, Message>, from: nat, i: nat)
    requires from <= n
    ensures i in Kept(n, chosen, from) <==> from <= i < n && i in chosen
    decreases n - from
  {
    if from < n {
      KeptMembers(n, chosen, from + 1, i);
    }
  }

  lemma {:induction false} KeptAscends(n: nat, chosen: map<nat, Message>, from: nat)
    requires from <= n
    ensures var kept := Kept(n, chosen, from); forall j, k :: 0 <= j < k < |kept| ==> kept[j] < kept[k]
    decreases n - from
  {
    if from < n {
      KeptAscends(n, chosen, from + 1);
      var rest := Kept(n, chosen, from + 1);
      forall k | 0 <= k < |rest| ensures from < rest[k] {
        KeptMembers(n, chosen, from + 1, rest[k]);
      }
    }
  }

  lemma {:induction false} KeptAreCollected(n: nat, chosen: map<nat, Message>, from: nat, k: nat)
    requires from <= n && k < |Kept(n, chosen, from)|
    ensures |Collect(n, chosen, from)| == |Kept(n, chosen, from)| && Kept(n, chosen, from)[k] in chosen
    ensures Collect(n, chosen, from)[k] == chosen[Kept(n, chosen, from)[k]]
    decreases n - from
  {
    if from !in chosen {
      KeptAreCollected(n, chosen, from + 1, k);
    } else if k > 0 {
      KeptAreCollected(n, chosen, from + 1, k - 1);
    } else {
      KeptLength(n, chosen, from);
    }
  }

  lemma {:induction false} KeptLength(n: nat, chosen: map<nat, Message>, from: nat)
    requires from <= n
    ensures |Collect(n, chosen, from)| == |Kept(n, chosen, from)|
    decreases n - from
  {
    if from < n {
      KeptLength(n, chosen, from + 1);
    }
  }

  lemma ChoiceKeepsVoice(messages: seq<Message>, budget: int)
    ensures forall i :: i in Choice(messages, budget) ==>
                          i < |messages| && SameVoice(Choice(messages, budget)[i], messages[i])
  {
    hide Select, TrimMessage, SameVoice;
    if messages != [] && budget > 0 && MessagesCost(messages) > budget {
      MaxOverrunBounds(messages);
      SelectAccounts(messages, budget, MaxOverrun(messages));
      var last := |messages| - 1;
      if Select(messages, budget).chosen == map[] && TrimMessage(messages[last], budget).Some? {
        TrimMessageOverrun(messages[last], budget);
      }
    } else {
      forall m: Message ensures SameVoice(m, m) {
        SameVoiceReflexive(m);
      }
    }
  }

  /** The output is the image of a strictly increasing choice of input positions, each
      keeping its role and priority, and misses no chosen position. */
  lemma FitKeepsOrder(messages: seq<Message>, budget: int) returns (kept: seq<nat>)
    ensures var out, chosen := Fit(messages, budget), Choice(messages, budget);
            && |kept| == |out|
            && (forall j, k :: 0 <= j < k < |kept| ==> kept[j] < kept[k])
            && (forall k :: 0 <= k < |kept| ==>
                              && kept[k] < |messages| && kept[k] in chosen && out[k] == chosen[kept[k]]
                              && SameVoice(out[k], messages[kept[k]]))
            && (forall i :: i in chosen ==> i in kept)
  {
    hide Choice, SameVoice;
    var n, chosen := |messages|, Choice(messages, budget);
    kept := Kept(n, chosen, 0);
    KeptLength(n, chosen, 0);
    KeptAscends(n, chosen, 0);
    ChoiceKeepsVoice(messages, budget);
    forall i | i in chosen ensures i in kept {
      KeptMembers(n, chosen, 0, i);
    }
    forall k | 0 <= k < |kept| ensures kept[k] in chosen && Fit(messages, budget)[k] == chosen[kept[k]] {
      KeptAreCollected(n, chosen, 0, k);
    }
  }

  lemma SameVoiceReflexive(m: Message)
    ensures SameVoice(m, m)
  {
  }

  // ----- The context window

  lemma CheapMeansEmpty(messages: seq<Message>)
    requires MessagesCost(messages) < MESSAGE_OVERHEAD
    ensures messages == []
  {
  }

  /** The request never exceeds the window by more than one overrun, so the safety reserve makes
      room for small ones. For plain messages it fits the window exactly when the output
      reserve alone does, and the safety reserve is kept exactly when the window leaves room
      beyond it (or leaves exactly it and nothing is sent, which takes a silent last message). */
  lemma WindowIsRespected(messages: seq<Message>, maxOutputTokens: int, limit: int)
    requires limit > 0 && messages != []
    ensures var reserve := if maxOutputTokens <= 0 then 1024 else maxOutputTokens;
            var overrun := MaxOverrun(messages);
            var out := BudgetedMessages(messages, maxOutputTokens, limit);
            && (reserve <= limit ==> reserve + MessagesCost(out) <= limit + overrun)
            && (limit - reserve > SAFETY_RESERVE ==> reserve + SAFETY_RESERVE + MessagesCost(out) <= limit + overrun)
            && (overrun <= SAFETY_RESERVE < limit - reserve ==> reserve + MessagesCost(out) <= limit)
            && (limit <= reserve ==> out == [])
    ensures var reserve := if maxOutputTokens <= 0 then 1024 else maxOutputTokens;
            var out := BudgetedMessages(messages, maxOutputTokens, limit);
            (forall m :: m in messages ==> Plain(m)) ==>
              && (reserve + MessagesCost(out) <= limit <==> reserve <= limit)
              && (reserve + SAFETY_RESERVE + MessagesCost(out) <= limit <==>
                    limit - reserve > SAFETY_RESERVE || (limit - reserve == SAFETY_RESERVE && out == []))
              && (Speaks(messages[|messages| - 1]) ==>
                    (reserve + SAFETY_RESERVE + MessagesCost(out) <= limit <==> limit - reserve > SAFETY_RESERVE))
  {
    hide MessageCost, Fit, Plain, Speaks, MaxOverrun;
    var reserve := OutputReserve(maxOutputTokens);
    var out := BudgetedMessages(messages, maxOutputTokens, limit);
    MaxOverrunBounds(messages);
    FitWithinBudget(messages, InputBudget(limit, reserve), MaxOverrun(messages));
    if limit - reserve <= 1 {
      OneTokenFitsNothing(messages);
    }
    if out == [] {
      assert MessagesCost(out) == 0;
    } else if MessagesCost(out) == 0 {
      CheapMeansEmpty(out);
    }
    if Speaks(messages[|messages| - 1]) && limit - reserve == SAFETY_RESERVE {
      SpeakingIsAnswered(messages, SAFETY_RESERVE);
    }
  }

  /** What fits the room that the reserves leave is sent as it is, and so is everything where there
      is no window. */
  lemma FittingRequestStays(messages: seq<Message>, maxOutputTokens: int, limit: int)
    ensures var reserve := if maxOutputTokens <= 0 then 1024 else maxOutputTokens;
            limit <= 0 || reserve + 128 + MessagesCost(messages) <= limit ==>
              BudgetedMessages(messages, maxOutputTokens, limit) == messages
  {
    hide Fit;
    if limit > 0 && messages != [] && MessagesCost(messages) <= InputBudget(limit, OutputReserve(maxOutputTokens)) {
      IdentityChoice(messages, InputBudget(limit, OutputReserve(maxOutputTokens)));
    }
    if MessagesCost(messages) == 0 {
      CheapMeansEmpty(messages);
    }
  }

  /** A single token pays for no message. */
  lemma OneTokenFitsNothing(messages: seq<Message>)
    requires messages != []
    ensures Fit(messages, 1) == []
  {
    hide Select, Overrun;
    CostsSomething(messages[0]);
    assert MessagesCost(messages) > 1;
    NothingFitsOneToken(messages);
    CollectNothing(|messages|, 0);
  }

  lemma NothingFitsOneToken(messages: seq<Message>)
    ensures Select(messages, 1).chosen == map[]
  {
    hide SelectRequired, Greedy, TrimMessage, MessageCost;
    SelectRequiredInOrder(messages, 1);
    CandidatesCosted(messages);
    RequiredFindsNoRoom(messages, RequiredOf(messages));
    GreedyFindsNoRoom(messages, Ranked(messages));
  }

  lemma RequiredFindsNoRoom(messages: seq<Message>, ordered: seq<Candidate>)
    requires Indexed(messages, ordered) && Costed(messages, ordered)
    ensures SelectOrdered(messages, ordered, TotalCost(ordered), Selection(map[], 1)) == Selection(map[], 1)
  {
    hide MessageCost, TrimMessage, EffectivePriority, Allocation, TotalCost, Filter;
    var protected, flexible := Filter(ordered, IsProtected), Filter(ordered, IsFlexible);
    FilterMembers(ordered, IsProtected);
    FilterMembers(ordered, IsFlexible);
    EachCostsMore(messages, ordered);
    EachCostsMore(messages, protected);
    if ordered != [] {
      var c := ordered[0];
      assert c in ordered;
      assert c in protected || c in flexible;
    }
  }

  lemma EachCostsMore(messages: seq<Message>, items: seq<Candidate>)
    requires Costed(messages, items)
    ensures items == [] || TotalCost(items) >= MESSAGE_OVERHEAD
  {
    if items != [] {
      assert items[0] in items;
      CostsSomething(messages[items[0].index]);
    }
  }

  lemma {:induction false} GreedyFindsNoRoom(messages: seq<Message>, items: seq<Candidate>)
    requires Indexed(messages, items) && Costed(messages, items)
    ensures Greedy(messages, items, Selection(map[], 1)) == Selection(map[], 1)
    decreases |items|
  {
    hide MessageCost;
    if items != [] {
      assert items[0] in items;
      CostsSomething(messages[items[0].index]);
      GreedyFindsNoRoom(messages, items[1..]);
    }
  }

  /** If the last message says something, 16 tokens suffice for some output. */
  lemma SpeakingIsAnswered(messages: seq<Message>, budget: int)
    requires messages != [] && Speaks(messages[|messages| - 1]) && budget >= MINIMUM_REQUIRED_COST
    ensures Fit(messages, budget) != []
  {
    hide Select, TrimMessage, Speaks, MessageCost, Kept;
    var n, chosen := |messages|, Choice(messages, budget);
    SpeakingSurvives(messages[n - 1], budget);
    ChoiceKeepsVoice(messages, budget);
    KeptLength(n, chosen, 0);
    var k: nat :| k in chosen;
    KeptMembers(n, chosen, 0, k);
  }
}
