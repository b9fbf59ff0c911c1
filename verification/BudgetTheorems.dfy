/** What the allocator guarantees: the bound, no starvation, order and greedy choice. */
module BudgetTheorems {
  import opened Wrappers
  import opened Messages
  import opened ContextBudget
  import opened BudgetOrder

  // ----- Accounting

  function ChosenCost(chosen: map<nat, Message>, n: nat): nat {
    if n == 0 then 0
    else ChosenCost(chosen, n - 1) + if n - 1 in chosen then MessageCost(chosen[n - 1]) else 0
  }

  /** Every token of the budget is either in a chosen message or still left, at most `slack`
      tokens were overdrawn, and every chosen message has its original's role and priority. */
  ghost predicate Accounts(messages: seq<Message>, sel: Selection, budget: int, slack: nat) {
    && (forall k :: k in sel.chosen ==> k < |messages| && SameVoice(sel.chosen[k], messages[k]))
    && ChosenCost(sel.chosen, |messages|) + sel.remaining == budget
    && sel.remaining + slack >= 0
  }

  /** No message can overrun a trim budget by more than `slack`; zero for plain messages. */
  ghost predicate OverrunsAtMost(messages: seq<Message>, slack: nat) {
    forall m :: m in messages ==> Overrun(m) <= slack
  }

  ghost predicate Costed(messages: seq<Message>, items: seq<Candidate>) {
    forall c :: c in items ==> c.index < |messages| && c == CandidateAt(messages, c.index)
  }

  ghost predicate Unchosen(items: seq<Candidate>, chosen: map<nat, Message>) {
    forall c :: c in items ==> c.index !in chosen
  }

  /** What a stretch of the selection leaves alone: it adds indices among `indices` only. */
  ghost predicate AddsOnly(before: Selection, after: Selection, indices: set<nat>) {
    && before.chosen.Keys <= after.chosen.Keys
    && (forall k :: k in before.chosen ==> after.chosen[k] == before.chosen[k])
    && after.chosen.Keys <= before.chosen.Keys + indices
  }

  function Indices(items: seq<Candidate>): set<nat> {
    if items == [] then {} else {items[0].index} + Indices(items[1..])
  }

  lemma {:induction false} IndexOf(items: seq<Candidate>, k: nat)
    requires k in Indices(items)
    ensures exists c :: c in items && c.index == k
  {
    if items[0].index != k {
      IndexOf(items[1..], k);
    }
  }

  lemma {:induction false} ChosenCostElsewhere(chosen: map<nat, Message>, i: nat, m: Message, n: nat)
    requires n <= i
    ensures ChosenCost(chosen[i := m], n) == ChosenCost(chosen, n)
  {
    if n > 0 {
      ChosenCostElsewhere(chosen, i, m, n - 1);
    }
  }

  lemma {:induction false} ChosenCostChoose(chosen: map<nat, Message>, i: nat, m: Message, n: nat)
    requires i < n && i !in chosen
    ensures ChosenCost(chosen[i := m], n) == ChosenCost(chosen, n) + MessageCost(m)
  {
    hide MessageCost;
    if i == n - 1 {
      ChosenCostElsewhere(chosen, i, m, n - 1);
    } else {
      ChosenCostChoose(chosen, i, m, n - 1);
    }
  }

  lemma {:induction false} ChosenCostEmpty(n: nat)
    ensures ChosenCost(map[], n) == 0
  {
    if n > 0 {
      ChosenCostEmpty(n - 1);
    }
  }

  lemma {:induction false} CollectCost(n: nat, chosen: map<nat, Message>, from: nat)
    requires from <= n
    ensures MessagesCost(Collect(n, chosen, from)) + ChosenCost(chosen, from) == ChosenCost(chosen, n)
    decreases n - from
  {
    hide MessageCost;
    if from < n {
      CollectCost(n, chosen, from + 1);
      var rest := Collect(n, chosen, from + 1);
      if from in chosen {
        assert ([chosen[from]] + rest)[1..] == rest;
      } else {
        assert [] + rest == rest;
      }
    }
  }

  lemma ChooseAccounts(messages: seq<Message>, sel: Selection, i: nat, m: Message, budget: int, slack: nat)
    requires Accounts(messages, sel, budget, slack) && i < |messages| && i !in sel.chosen
    requires MessageCost(m) <= sel.remaining + slack && SameVoice(m, messages[i])
    ensures Accounts(messages, sel.Choose(i, m, MessageCost(m)), budget, slack)
  {
    hide MessageCost;
    ChosenCostChoose(sel.chosen, i, m, |messages|);
  }

  lemma {:induction false} TakeWholeAccounts(messages: seq<Message>, items: seq<Candidate>, sel: Selection,
      budget: int, slack: nat)
    requires Costed(messages, items) && Ascending(items) && Unchosen(items, sel.chosen)
    requires Accounts(messages, sel, budget, slack) && TotalCost(items) <= sel.remaining
    ensures var r := TakeWhole(messages, items, sel);
            && Accounts(messages, r, budget, slack) && r.remaining == sel.remaining - TotalCost(items)
            && AddsOnly(sel, r, Indices(items))
            && (forall c :: c in items ==> c.index in r.chosen && r.chosen[c.index] == messages[c.index])
    decreases |items|
  {
    hide MessageCost;
    if items != [] {
      var c := items[0];
      ChooseAccounts(messages, sel, c.index, messages[c.index], budget, slack);
      TakeWholeAccounts(messages, items[1..], sel.Choose(c.index, messages[c.index], c.cost), budget, slack);
    }
  }

  lemma AllocationWithinBudget(budget: int, cost: nat, remainingCost: int, slotsAfter: nat)
    requires budget > 0
    ensures Allocation(budget, cost, remainingCost, slotsAfter) <= budget
  {
  }

  lemma {:induction false} ProportionalAccounts(messages: seq<Message>, items: seq<Candidate>, remainingCost: int,
      sel: Selection, budget: int, slack: nat)
    requires Costed(messages, items) && Ascending(items) && Unchosen(items, sel.chosen)
    requires Accounts(messages, sel, budget, slack) && OverrunsAtMost(messages, slack)
    ensures var r := Proportional(messages, items, remainingCost, sel);
            Accounts(messages, r, budget, slack) && AddsOnly(sel, r, Indices(items))
    decreases |items|
  {
    hide MessageCost, Allocation, TrimMessage, ChosenCost, SameVoice, EffectivePriority, Overrun;
    if items != [] && sel.remaining > MESSAGE_OVERHEAD {
      var c := items[0];
      var allocation := Allocation(sel.remaining, c.cost, remainingCost, |items| - 1);
      AllocationWithinBudget(sel.remaining, c.cost, remainingCost, |items| - 1);
      match TrimMessage(messages[c.index], allocation)
      case None =>
        ProportionalAccounts(messages, items[1..], remainingCost - c.cost, sel, budget, slack);
      case Some(t) =>
        TrimMessageOverrun(messages[c.index], allocation);
        ChooseAccounts(messages, sel, c.index, t, budget, slack);
        var next := sel.Choose(c.index, t, MessageCost(t));
        ProportionalAccounts(messages, items[1..], remainingCost - c.cost, next, budget, slack);
    }
  }

  lemma ConsiderAccounts(messages: seq<Message>, c: Candidate, sel: Selection, budget: int, slack: nat)
    requires c.index < |messages| && c == CandidateAt(messages, c.index)
    requires Accounts(messages, sel, budget, slack) && OverrunsAtMost(messages, slack)
    ensures var r := Consider(messages, c, sel);
            Accounts(messages, r, budget, slack) && AddsOnly(sel, r, {c.index})
  {
    hide MessageCost, TrimMessage;
    if c.index in sel.chosen || IsRequired(c) {
    } else if c.cost <= sel.remaining {
      ChooseAccounts(messages, sel, c.index, messages[c.index], budget, slack);
    } else {
      match TrimMessage(messages[c.index], sel.remaining)
      case None =>
      case Some(t) =>
        TrimMessageOverrun(messages[c.index], sel.remaining);
        ChooseAccounts(messages, sel, c.index, t, budget, slack);
    }
  }

  lemma {:induction false} GreedyAccounts(messages: seq<Message>, items: seq<Candidate>, sel: Selection,
      budget: int, slack: nat)
    requires Costed(messages, items)
    requires Accounts(messages, sel, budget, slack) && OverrunsAtMost(messages, slack)
    ensures var r := Greedy(messages, items, sel);
            Accounts(messages, r, budget, slack) && AddsOnly(sel, r, Indices(items))
    decreases |items|
  {
    hide Consider;
    if items != [] && sel.remaining > 0 {
      ConsiderAccounts(messages, items[0], sel, budget, slack);
      GreedyAccounts(messages, items[1..], Consider(messages, items[0], sel), budget, slack);
    }
  }

  // ----- The selection as a whole

  lemma CandidatesCosted(messages: seq<Message>)
    ensures Costed(messages, Candidates(messages)) && Costed(messages, Ranked(messages))
  {
    SortMembers(Candidates(messages), ByPriority);
  }

  /** The required messages, in conversation order. */
  function RequiredOf(messages: seq<Message>): seq<Candidate> { Filter(Candidates(messages), IsRequired) }

  lemma {:induction false} InsertCost(x: Candidate, s: seq<Candidate>, before: Order)
    ensures TotalCost(Insert(x, s, before)) == x.cost + TotalCost(s)
  {
    if s == [] || !before(s[0], x) {
      assert ([x] + s)[1..] == s;
    } else {
      InsertCost(x, s[1..], before);
      var t := Insert(x, s[1..], before);
      assert ([s[0]] + t)[1..] == t;
    }
  }

  lemma {:induction false} SortCost(s: seq<Candidate>, before: Order)
    ensures TotalCost(SortBy(s, before)) == TotalCost(s)
  {
    if s != [] {
      SortCost(s[1..], before);
      InsertCost(s[0], SortBy(s[1..], before), before);
    }
  }

  /** Required selection in terms of the required messages in conversation order. */
  lemma SelectRequiredInOrder(messages: seq<Message>, budget: int)
    requires budget > 0
    ensures Indexed(messages, Ranked(messages)) && Indexed(messages, RequiredOf(messages))
    ensures Costed(messages, RequiredOf(messages)) && Ascending(RequiredOf(messages))
    ensures SelectRequired(messages, Ranked(messages), Selection(map[], budget))
         == SelectOrdered(messages, RequiredOf(messages), TotalCost(RequiredOf(messages)), Selection(map[], budget))
  {
    CandidatesCosted(messages);
    RequiredInOrder(messages);
    FilterMembers(Candidates(messages), IsRequired);
    var picked := Filter(Ranked(messages), IsRequired);
    SortCost(picked, ByIndex);
    if picked == [] {
      assert RequiredOf(messages) == [];
    }
  }

  lemma SelectOrderedAccounts(messages: seq<Message>, ordered: seq<Candidate>, budget: int, slack: nat)
    requires budget > 0 && OverrunsAtMost(messages, slack)
    requires Costed(messages, ordered) && Ascending(ordered) && Indexed(messages, ordered)
    ensures var r := SelectOrdered(messages, ordered, TotalCost(ordered), Selection(map[], budget));
            Accounts(messages, r, budget, slack) && r.chosen.Keys <= Indices(ordered)
  {
    hide TakeWhole, Proportional, Indices, TotalCost, ChosenCost, Filter, CandidateAt;
    var start := Selection(map[], budget);
    ChosenCostEmpty(|messages|);
    var protected, flexible := Filter(ordered, IsProtected), Filter(ordered, IsFlexible);
    FilterMembers(ordered, IsProtected);
    FilterMembers(ordered, IsFlexible);
    FilterAscends(ordered, IsProtected);
    FilterAscends(ordered, IsFlexible);
    FilteredIndices(ordered, IsProtected);
    FilteredIndices(ordered, IsFlexible);
    if TotalCost(ordered) <= budget {
      TakeWholeAccounts(messages, ordered, start, budget, slack);
    } else if TotalCost(protected) + |flexible| * MINIMUM_REQUIRED_COST <= budget {
      TakeWholeAccounts(messages, protected, start, budget, slack);
      var taken := TakeWhole(messages, protected, start);
      FlexibleUnchosen(ordered, taken);
      ProportionalAccounts(messages, flexible, TotalCost(flexible), taken, budget, slack);
    } else {
      ProportionalAccounts(messages, ordered, TotalCost(ordered), start, budget, slack);
    }
  }

  lemma SelectRequiredAccounts(messages: seq<Message>, budget: int, slack: nat)
    requires budget > 0 && OverrunsAtMost(messages, slack)
    ensures Indexed(messages, Ranked(messages))
    ensures var r := SelectRequired(messages, Ranked(messages), Selection(map[], budget));
            Accounts(messages, r, budget, slack) && r.chosen.Keys <= Indices(RequiredOf(messages))
  {
    hide SelectRequired, SelectOrdered;
    SelectRequiredInOrder(messages, budget);
    SelectOrderedAccounts(messages, RequiredOf(messages), budget, slack);
  }

  lemma {:induction false} FilteredIndices(items: seq<Candidate>, keep: Candidate -> bool)
    ensures Indices(Filter(items, keep)) <= Indices(items)
  {
    if items != [] {
      FilteredIndices(items[1..], keep);
      var t := Filter(items[1..], keep);
      assert ([items[0]] + t)[1..] == t;
      assert [] + t == t;
    }
  }

  lemma FlexibleUnchosen(ordered: seq<Candidate>, taken: Selection)
    requires Ascending(ordered) && taken.chosen.Keys <= Indices(Filter(ordered, IsProtected))
    ensures Unchosen(Filter(ordered, IsFlexible), taken.chosen)
  {
    FilterMembers(ordered, IsProtected);
    FilterMembers(ordered, IsFlexible);
    forall c | c in Filter(ordered, IsFlexible) ensures c.index !in taken.chosen {
      if c.index in Indices(Filter(ordered, IsProtected)) {
        IndexOf(Filter(ordered, IsProtected), c.index);
        assert c in ordered;
      }
    }
  }

  lemma SelectAccounts(messages: seq<Message>, budget: int, slack: nat)
    requires budget > 0 && OverrunsAtMost(messages, slack)
    ensures Accounts(messages, Select(messages, budget), budget, slack)
  {
    hide SelectRequired, Greedy;
    SelectRequiredAccounts(messages, budget, slack);
    CandidatesCosted(messages);
    var served := SelectRequired(messages, Ranked(messages), Selection(map[], budget));
    GreedyAccounts(messages, Ranked(messages), served, budget, slack);
  }

  // ----- The bound

  lemma IdentityChoice(messages: seq<Message>, budget: int)
    requires messages == [] || MessagesCost(messages) <= budget
    ensures Fit(messages, budget) == messages
  {
    if messages != [] && budget > 0 {
      CollectEverything(messages, 0);
    } else {
      CollectNothing(|messages|, 0);
    }
  }

  /** The fitted messages cost at most the budget plus one overrun; for plain messages there
      is no overrun, so they cost at most the budget. */
  lemma FitWithinBudget(messages: seq<Message>, budget: int, slack: nat)
    requires OverrunsAtMost(messages, slack)
    ensures budget > 0 ==> MessagesCost(Fit(messages, budget)) <= budget + slack
    ensures budget <= 0 ==> Fit(messages, budget) == []
  {
    hide MessageCost, Select, TrimMessage;
    var n := |messages|;
    if messages == [] || budget <= 0 {
      CollectNothing(n, 0);
    } else if MessagesCost(messages) <= budget {
      IdentityChoice(messages, budget);
    } else {
      SelectAccounts(messages, budget, slack);
      CollectCost(n, Choice(messages, budget), 0);
      if Select(messages, budget).chosen == map[] {
        ChosenCostEmpty(n);
        match TrimMessage(messages[n - 1], budget)
        case None =>
        case Some(t) =>
          TrimMessageOverrun(messages[n - 1], budget);
          ChosenCostChoose(map[], n - 1, t, n);
      }
    }
  }

  /** Fitting a second time changes nothing once the result fits, as it always does for plain
      messages. */
  lemma FitIsIdempotent(messages: seq<Message>, budget: int)
    ensures budget <= 0 || MessagesCost(Fit(messages, budget)) <= budget ==>
            Fit(Fit(messages, budget), budget) == Fit(messages, budget)
    ensures (forall m :: m in messages ==> Plain(m)) ==>
              MessagesCost(Fit(messages, budget)) <= (if budget > 0 then budget else 0)
              && Fit(Fit(messages, budget), budget) == Fit(messages, budget)
  {
    hide Fit, Plain;
    if forall m :: m in messages ==> Plain(m) {
      PlainCannotOverrun(messages);
      FitWithinBudget(messages, budget, 0);
    }
    if budget <= 0 {
      FitOfNothing(messages, budget);
    } else if MessagesCost(Fit(messages, budget)) <= budget {
      IdentityChoice(Fit(messages, budget), budget);
    }
  }

  lemma PlainCannotOverrun(messages: seq<Message>)
    requires forall m :: m in messages ==> Plain(m)
    ensures OverrunsAtMost(messages, 0)
  {
  }

  lemma FitOfNothing(messages: seq<Message>, budget: int)
    requires budget <= 0
    ensures Fit(messages, budget) == [] && Fit([], budget) == []
  {
    CollectNothing(|messages|, 0);
    CollectNothing(0, 0);
  }
}
