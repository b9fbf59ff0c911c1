/** The token-budget allocator of model/llm/context_budget.go: ranking the messages,
    serving the required ones, filling up greedily, and putting them back in order. */
module ContextBudget {
  import opened Wrappers
  import opened Messages

  const SAFETY_RESERVE := 128
  const DEFAULT_MAX_OUTPUT := 1024

  function EffectivePriority(m: Message, current: bool): int {
    var p := if m.priority == PRIORITY_DEFAULT then PRIORITY_HISTORY else m.priority;
    var q := if m.role.RoleSystem? && p < PRIORITY_SYSTEM then PRIORITY_SYSTEM else p;
    if current && q < PRIORITY_CURRENT then PRIORITY_CURRENT else q
  }

  datatype Candidate = Candidate(index: nat, priority: int, cost: nat)

  predicate IsRequired(c: Candidate) { c.priority >= PRIORITY_SYSTEM }

  predicate IsProtected(c: Candidate) { c.priority >= PRIORITY_PLUGIN }

  predicate IsFlexible(c: Candidate) { c.priority < PRIORITY_PLUGIN }

  function CandidateAt(messages: seq<Message>, i: nat): Candidate
    requires i < |messages|
  {
    Candidate(i, EffectivePriority(messages[i], i == |messages| - 1), MessageCost(messages[i]))
  }

  function Candidates(messages: seq<Message>): seq<Candidate> {
    seq(|messages|, i requires 0 <= i < |messages| => CandidateAt(messages, i))
  }

  function Filter(items: seq<Candidate>, keep: Candidate -> bool): seq<Candidate> {
    if items == [] then []
    else (if keep(items[0]) then [items[0]] else []) + Filter(items[1..], keep)
  }

  function TotalCost(items: seq<Candidate>): nat {
    if items == [] then 0 else items[0].cost + TotalCost(items[1..])
  }

  // ----- The two sorts, as stable insertion sorts

  /** Higher priority first; among equals, the later message first. */
  predicate ByPriority(a: Candidate, b: Candidate) {
    a.priority > b.priority || (a.priority == b.priority && a.index > b.index)
  }

  predicate ByIndex(a: Candidate, b: Candidate) { a.index < b.index }

  function Insert(x: Candidate, s: seq<Candidate>, before: (Candidate, Candidate) -> bool): seq<Candidate> {
    if s == [] || !before(s[0], x) then [x] + s else [s[0]] + Insert(x, s[1..], before)
  }

  function SortBy(s: seq<Candidate>, before: (Candidate, Candidate) -> bool): seq<Candidate> {
    if s == [] then [] else Insert(s[0], SortBy(s[1..], before), before)
  }

  function Ranked(messages: seq<Message>): seq<Candidate> { SortBy(Candidates(messages), ByPriority) }

  // ----- Selection

  /** The messages chosen so far, by index, and the tokens left. */
  datatype Selection = Selection(chosen: map<nat, Message>, remaining: int)
  {
    function Choose(index: nat, m: Message, cost: int): Selection {
      Selection(chosen[index := m], remaining - cost)
    }
  }

  predicate Indexed(messages: seq<Message>, items: seq<Candidate>) {
    forall c :: c in items ==> c.index < |messages|
  }

  function TakeWhole(messages: seq<Message>, items: seq<Candidate>, sel: Selection): Selection
    requires Indexed(messages, items)
  {
    if items == [] then sel
    else TakeWhole(messages, items[1..], sel.Choose(items[0].index, messages[items[0].index], items[0].cost))
  }

  /** The share of `budget` for an item, leaving the minimum for every slot after it. */
  function Allocation(budget: int, cost: nat, remainingCost: int, slotsAfter: nat): int {
    var share := if remainingCost > 0 then budget * cost / remainingCost else budget;
    var maximum := budget - slotsAfter * MINIMUM_REQUIRED_COST;
    var capped := if share > maximum then maximum else share;
    var raised := if capped < MINIMUM_REQUIRED_COST then MINIMUM_REQUIRED_COST else capped;
    if raised > budget then budget else raised
  }

  function Proportional(messages: seq<Message>, items: seq<Candidate>, remainingCost: int, sel: Selection): Selection
    requires Indexed(messages, items)
    decreases |items|
  {
    if items == [] || sel.remaining <= MESSAGE_OVERHEAD then sel
    else
      var c := items[0];
      var allocation := Allocation(sel.remaining, c.cost, remainingCost, |items| - 1);
      match TrimMessage(messages[c.index], allocation)
      case None => Proportional(messages, items[1..], remainingCost - c.cost, sel)
      case Some(t) =>
        Proportional(messages, items[1..], remainingCost - c.cost, sel.Choose(c.index, t, MessageCost(t)))
  }

  function SelectRequired(messages: seq<Message>, candidates: seq<Candidate>, sel: Selection): Selection
    requires Indexed(messages, candidates)
  {
    var required := Filter(candidates, IsRequired);
    if required == [] || sel.remaining <= 0 then sel
    else
      FilterMembers(candidates, IsRequired);
      SortMembers(required, ByIndex);
      SelectOrdered(messages, SortBy(required, ByIndex), TotalCost(required), sel)
  }

  function SelectOrdered(messages: seq<Message>, ordered: seq<Candidate>, totalCost: nat, sel: Selection): Selection
    requires Indexed(messages, ordered)
  {
    var protected := Filter(ordered, IsProtected);
    var flexible := Filter(ordered, IsFlexible);
    FilterMembers(ordered, IsProtected);
    FilterMembers(ordered, IsFlexible);
    if totalCost <= sel.remaining then TakeWhole(messages, ordered, sel)
    else if TotalCost(protected) + |flexible| * MINIMUM_REQUIRED_COST <= sel.remaining then
      Proportional(messages, flexible, TotalCost(flexible), TakeWhole(messages, protected, sel))
    else Proportional(messages, ordered, TotalCost(ordered), sel)
  }

  function Greedy(messages: seq<Message>, candidates: seq<Candidate>, sel: Selection): Selection
    requires Indexed(messages, candidates)
  {
    if candidates == [] || sel.remaining <= 0 then sel
    else Greedy(messages, candidates[1..], Consider(messages, candidates[0], sel))
  }

  function Consider(messages: seq<Message>, c: Candidate, sel: Selection): Selection
    requires c.index < |messages|
  {
    if c.index in sel.chosen || IsRequired(c) then sel
    else if c.cost <= sel.remaining then sel.Choose(c.index, messages[c.index], c.cost)
    else if c.priority < PRIORITY_SUMMARY then sel
    else
      match TrimMessage(messages[c.index], sel.remaining)
      case None => sel
      case Some(t) => sel.Choose(c.index, t, MessageCost(t))
  }

  /** The selection for messages that do not fit as a whole. */
  function Select(messages: seq<Message>, budget: int): Selection {
    RankedIndexed(messages);
    Greedy(messages, Ranked(messages), SelectRequired(messages, Ranked(messages), Selection(map[], budget)))
  }

  /** The message kept for each index that survives. */
  function Choice(messages: seq<Message>, budget: int): map<nat, Message> {
    if messages == [] || budget <= 0 then map[]
    else if MessagesCost(messages) <= budget then map i: nat | i < |messages| :: messages[i]
    else
      var chosen := Select(messages, budget).chosen;
      if chosen != map[] then chosen
      else
        match TrimMessage(messages[|messages| - 1], budget)
        case None => map[]
        case Some(t) => map[|messages| - 1 := t]
  }

  function Collect(n: nat, chosen: map<nat, Message>, from: nat): seq<Message>
    requires from <= n
    decreases n - from
  {
    if from == n then []
    else (if from in chosen then [chosen[from]] else []) + Collect(n, chosen, from + 1)
  }

  function Fit(messages: seq<Message>, budget: int): seq<Message> {
    Collect(|messages|, Choice(messages, budget), 0)
  }

  // ----- Facts about filtering and sorting

  lemma {:induction false} FilterMembers(items: seq<Candidate>, keep: Candidate -> bool)
    ensures forall c :: c in Filter(items, keep) <==> c in items && keep(c)
  {
    if items != [] {
      FilterMembers(items[1..], keep);
    }
  }

  lemma {:induction false} InsertMultiset(x: Candidate, s: seq<Candidate>, before: (Candidate, Candidate) -> bool)
    ensures multiset(Insert(x, s, before)) == multiset(s) + multiset{x}
  {
    if s == [] || !before(s[0], x) {
    } else {
      InsertMultiset(x, s[1..], before);
      assert s == [s[0]] + s[1..];
    }
  }

  lemma {:induction false} SortMultiset(s: seq<Candidate>, before: (Candidate, Candidate) -> bool)
    ensures multiset(SortBy(s, before)) == multiset(s)
  {
    if s != [] {
      SortMultiset(s[1..], before);
      InsertMultiset(s[0], SortBy(s[1..], before), before);
      assert s == [s[0]] + s[1..];
    }
  }

  lemma SortMembers(s: seq<Candidate>, before: (Candidate, Candidate) -> bool)
    ensures forall c :: c in SortBy(s, before) <==> c in s
  {
    SortMultiset(s, before);
    assert forall c :: c in SortBy(s, before) <==> c in multiset(SortBy(s, before));
    assert forall c :: c in s <==> c in multiset(s);
  }

  lemma RankedIndexed(messages: seq<Message>)
    ensures Indexed(messages, Ranked(messages))
  {
    SortMembers(Candidates(messages), ByPriority);
  }

  // ----- The loops of the program, each computing the function above

  method SelectRequiredMessagesProportionally(
      messages: seq<Message>, required: seq<Candidate>, selected: map<nat, Message>, budget: int)
      returns (chosen: map<nat, Message>, remaining: int)
    requires Indexed(messages, required)
    ensures Selection(chosen, remaining)
         == Proportional(messages, required, TotalCost(required), Selection(selected, budget))
  {
    hide TrimMessage, MessageCost, Allocation, TotalCost;
    var totalCost := SumCosts(required);
    chosen, remaining := selected, budget;
    var remainingCost: int := totalCost;
    var index := 0;
    while index < |required|
      invariant index <= |required|
      invariant Proportional(messages, required[index..], remainingCost, Selection(chosen, remaining))
             == Proportional(messages, required, TotalCost(required), Selection(selected, budget))
    {
      assert required[index..][1..] == required[index + 1..];
      var item := required[index];
      var slotsAfter := |required| - index - 1;
      if remaining <= MESSAGE_OVERHEAD {
        break;
      }
      var allocation := Allocation(remaining, item.cost, remainingCost, slotsAfter);
      var trimmed := TrimMessageToTokenBudget(messages[item.index], allocation);
      if trimmed.Some? {
        var cost := EstimateMessageTokens(trimmed.value);
        chosen := chosen[item.index := trimmed.value];
        remaining := remaining - cost;
      }
      remainingCost := remainingCost - item.cost;
      index := index + 1;
    }
  }

  method SumCosts(items: seq<Candidate>) returns (total: nat)
    ensures total == TotalCost(items)
  {
    total := 0;
    for i := 0 to |items|
      invariant total + TotalCost(items[i..]) == TotalCost(items)
    {
      assert items[i..][1..] == items[i + 1..];
      total := total + items[i].cost;
    }
  }

  method TakeAll(messages: seq<Message>, items: seq<Candidate>, selected: map<nat, Message>, budget: int)
      returns (chosen: map<nat, Message>, remaining: int)
    requires Indexed(messages, items)
    ensures Selection(chosen, remaining) == TakeWhole(messages, items, Selection(selected, budget))
  {
    chosen, remaining := selected, budget;
    for i := 0 to |items|
      invariant TakeWhole(messages, items[i..], Selection(chosen, remaining))
             == TakeWhole(messages, items, Selection(selected, budget))
    {
      assert items[i..][1..] == items[i + 1..];
      chosen := chosen[items[i].index := messages[items[i].index]];
      remaining := remaining - items[i].cost;
    }
  }

  method Split(items: seq<Candidate>, keep: Candidate -> bool) returns (kept: seq<Candidate>)
    ensures kept == Filter(items, keep)
  {
    kept := [];
    for i := 0 to |items|
      invariant kept + Filter(items[i..], keep) == Filter(items, keep)
    {
      assert items[i..][1..] == items[i + 1..];
      ghost var rest := Filter(items[i + 1..], keep);
      assert (kept + [items[i]]) + rest == kept + ([items[i]] + rest);
      if keep(items[i]) {
        kept := kept + [items[i]];
      }
    }
  }

  method SelectRequiredMessages(
      messages: seq<Message>, candidates: seq<Candidate>, selected: map<nat, Message>, budget: int)
      returns (chosen: map<nat, Message>, remaining: int)
    requires Indexed(messages, candidates)
    ensures Selection(chosen, remaining) == SelectRequired(messages, candidates, Selection(selected, budget))
  {
    var required := Split(candidates, IsRequired);
    var totalCost := SumCosts(required);
    if |required| == 0 || budget <= 0 {
      return selected, budget;
    }
    FilterMembers(candidates, IsRequired);
    SortMembers(required, ByIndex);
    var ordered := SortBy(required, ByIndex);
    if totalCost <= budget {
      chosen, remaining := TakeAll(messages, ordered, selected, budget);
      return;
    }
    FilterMembers(ordered, IsProtected);
    FilterMembers(ordered, IsFlexible);
    var protected := Split(ordered, IsProtected);
    var flexible := Split(ordered, IsFlexible);
    var protectedCost := SumCosts(protected);
    if protectedCost + |flexible| * MINIMUM_REQUIRED_COST <= budget {
      chosen, remaining := TakeAll(messages, protected, selected, budget);
      chosen, remaining := SelectRequiredMessagesProportionally(messages, flexible, chosen, remaining);
      return;
    }
    chosen, remaining := SelectRequiredMessagesProportionally(messages, ordered, selected, budget);
  }

  method FitMessagesToTokenBudget(messages: seq<Message>, budget: int) returns (out: seq<Message>)
    ensures out == Fit(messages, budget)
  {
    hide TrimMessage, MessageCost, MessagesCost, Greedy, SelectRequired, SortBy, EffectivePriority;
    if |messages| == 0 || budget <= 0 {
      CollectNothing(|messages|, 0);
      return [];
    }
    var whole := EstimateMessagesTokens(messages);
    if whole <= budget {
      CollectEverything(messages, 0);
      return messages;
    }
    var candidates := RankCandidates(messages);
    RankedIndexed(messages);
    var selected, remaining := SelectRequiredMessages(messages, candidates, map[], budget);
    selected, remaining := FillGreedily(messages, candidates, selected, remaining);
    if selected == map[] {
      var last := |messages| - 1;
      var trimmed := TrimMessageToTokenBudget(messages[last], budget);
      if trimmed.Some? {
        selected := map[last := trimmed.value];
      }
    }
    out := CollectSelected(|messages|, selected);
  }

  method RankCandidates(messages: seq<Message>) returns (candidates: seq<Candidate>)
    ensures candidates == Ranked(messages)
  {
    candidates := [];
    var last := |messages| - 1;
    for index := 0 to |messages|
      invariant candidates == Candidates(messages)[..index]
    {
      var cost := EstimateMessageTokens(messages[index]);
      candidates := candidates + [Candidate(index, EffectivePriority(messages[index], index == last), cost)];
    }
    assert candidates == Candidates(messages);
    candidates := SortBy(candidates, ByPriority);
  }

  method CollectSelected(n: nat, selected: map<nat, Message>) returns (out: seq<Message>)
    ensures out == Collect(n, selected, 0)
  {
    out := [];
    for index := 0 to n
      invariant out + Collect(n, selected, index) == Collect(n, selected, 0)
    {
      ghost var rest := Collect(n, selected, index + 1);
      if index in selected {
        assert (out + [selected[index]]) + rest == out + ([selected[index]] + rest);
        out := out + [selected[index]];
      }
    }
  }

  method FillGreedily(messages: seq<Message>, candidates: seq<Candidate>, selected: map<nat, Message>, budget: int)
      returns (chosen: map<nat, Message>, remaining: int)
    requires Indexed(messages, candidates)
    ensures Selection(chosen, remaining) == Greedy(messages, candidates, Selection(selected, budget))
  {
    hide TrimMessage, MessageCost;
    chosen, remaining := selected, budget;
    for i := 0 to |candidates|
      invariant Greedy(messages, candidates[i..], Selection(chosen, remaining))
             == Greedy(messages, candidates, Selection(selected, budget))
    {
      assert candidates[i..][1..] == candidates[i + 1..];
      if remaining <= 0 {
        break;
      }
      var item := candidates[i];
      if item.index in chosen || item.priority >= PRIORITY_SYSTEM {
        continue;
      }
      var m := messages[item.index];
      if item.cost <= remaining {
        chosen := chosen[item.index := m];
        remaining := remaining - item.cost;
        continue;
      }
      if item.priority < PRIORITY_SUMMARY {
        continue;
      }
      var trimmed := TrimMessageToTokenBudget(m, remaining);
      if trimmed.None? {
        continue;
      }
      var cost := EstimateMessageTokens(trimmed.value);
      chosen := chosen[item.index := trimmed.value];
      remaining := remaining - cost;
    }
  }

  function InputBudget(limit: int, outputReserve: int): int {
    var input := limit - outputReserve;
    var reserved := if input > SAFETY_RESERVE then input - SAFETY_RESERVE else input;
    if reserved < 1 then 1 else reserved
  }

  function OutputReserve(maxOutputTokens: int): int {
    if maxOutputTokens <= 0 then DEFAULT_MAX_OUTPUT else maxOutputTokens
  }

  function BudgetedMessages(messages: seq<Message>, maxOutputTokens: int, limit: int): seq<Message> {
    if limit <= 0 || messages == [] then messages
    else Fit(messages, InputBudget(limit, OutputReserve(maxOutputTokens)))
  }

  method ApplyContextBudget(messages: seq<Message>, maxOutputTokens: int, limit: int) returns (out: seq<Message>)
    ensures out == BudgetedMessages(messages, maxOutputTokens, limit)
  {
    hide Fit;
    if limit <= 0 || |messages| == 0 {
      return messages;
    }
    var outputReserve := maxOutputTokens;
    if outputReserve <= 0 {
      outputReserve := DEFAULT_MAX_OUTPUT;
    }
    var inputBudget := limit - outputReserve;
    if inputBudget > SAFETY_RESERVE {
      inputBudget := inputBudget - SAFETY_RESERVE;
    }
    if inputBudget < 1 {
      inputBudget := 1;
    }
    out := FitMessagesToTokenBudget(messages, inputBudget);
  }

  lemma {:induction false} CollectNothing(n: nat, from: nat)
    requires from <= n
    ensures Collect(n, map[], from) == []
    decreases n - from
  {
    if from < n {
      CollectNothing(n, from + 1);
    }
  }

  lemma {:induction false} CollectEverything(messages: seq<Message>, from: nat)
    requires from <= |messages|
    ensures Collect(|messages|, map i: nat | i < |messages| :: messages[i], from) == messages[from..]
    decreases |messages| - from
  {
    if from < |messages| {
      CollectEverything(messages, from + 1);
    }
  }
}
