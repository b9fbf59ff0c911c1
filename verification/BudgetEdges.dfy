/** What an overrun can do: a second fit that changes the first one's result, and a system
    instruction that silences another. */
module BudgetEdges {
  import opened Wrappers
  import opened Text
  import opened TokenCost
  import opened Messages
  import opened ContextBudget
  import opened BudgetOrder
  import opened BudgetTheorems
  import opened BudgetPolicy

  /** The only message is trimmed to the whole budget. */
  lemma OnlyMessage(m: Message, budget: int)
    requires budget > MESSAGE_OVERHEAD && MessageCost(m) > budget
    ensures Fit([m], budget) == match TrimMessage(m, budget) case None => [] case Some(t) => [t]
  {
    hide TrimMessage, MessageCost, SortBy;
    var messages := [m];
    assert messages[1..] == [] && MessagesCost(messages) == MessageCost(m) + MessagesCost([]);
    var c := CandidateAt(messages, 0);
    SelectRequiredInOrder(messages, budget);
    RankingOrder(messages);
    OnlyCandidate(messages);
    OnlySelection(messages, budget);
    var chosen := Choice(messages, budget);
    assert Collect(1, chosen, 1) == [];
    assert Fit(messages, budget) == if 0 in chosen then [chosen[0]] else [];
  }

  lemma OnlyCandidate(messages: seq<Message>)
    requires |messages| == 1
    ensures IsProtected(CandidateAt(messages, 0))
    ensures Ranked(messages) == [CandidateAt(messages, 0)] && RequiredOf(messages) == [CandidateAt(messages, 0)]
  {
    hide MessageCost;
    var c, all := CandidateAt(messages, 0), Candidates(messages);
    assert all == [c] && all[1..] == [];
    assert SortBy(all, ByPriority) == Insert(c, [], ByPriority) == [c] + [];
    assert Filter(all, IsRequired) == [c] + Filter([], IsRequired);
  }

  lemma OnlySelection(messages: seq<Message>, budget: int)
    requires |messages| == 1 && budget > MESSAGE_OVERHEAD && MessageCost(messages[0]) > budget
    ensures Select(messages, budget).chosen
         == match TrimMessage(messages[0], budget) case None => map[] case Some(t) => map[0 := t]
  {
    hide TrimMessage, MessageCost, SortBy, SelectRequired, EffectivePriority;
    var c, start := CandidateAt(messages, 0), Selection(map[], budget);
    var only := [c];
    OnlyCandidate(messages);
    SelectRequiredInOrder(messages, budget);
    assert only[1..] == [] && TotalCost(only) == c.cost;
    assert Filter(only, IsProtected) == only && Filter(only, IsFlexible) == [];
    assert Allocation(budget, c.cost, c.cost, 0) == budget by {
      FullShare(budget, c.cost);
    }
    var served := SelectOrdered(messages, only, c.cost, start);
    assert served == Proportional(messages, only, c.cost, start);
    var trimmed := TrimMessage(messages[0], budget);
    assert served.chosen == if trimmed.None? then map[] else map[0 := trimmed.value];
    assert Consider(messages, c, served) == served;
    assert Greedy(messages, only, served) == served;
  }

  lemma FullShare(budget: int, cost: int)
    requires cost > 0
    ensures budget * cost / cost == budget
  {
    var share := budget * cost / cost;
    assert share * cost <= budget * cost < share * cost + cost by {
      assert budget * cost == share * cost + budget * cost % cost;
    }
    Apart(share, budget, cost);
    Apart(budget, share, cost);
  }

  const HOLLOW_PART := ContentPart(TextKind, "", "", "")

  /** Text in the content beside an empty text part. */
  const REFIT_MESSAGE := Message(RoleUser, "\U{1F600}\U{1F600} ", [HOLLOW_PART], PRIORITY_CURRENT)

  /** Its content moves into a part, which costs two tokens more, so that the result does not
      fit the budget and a second fit shortens it. */
  lemma RefitCanChange()
    ensures Fit(Fit([REFIT_MESSAGE], 16), 16) != Fit([REFIT_MESSAGE], 16)
  {
    hide TrimMessage, MessageCost, Fit, TrimText, TextCostFrom;
    var t := "\U{1F600}\U{1F600}";
    RefitFacts();
    var trimmed := TrimMessage(REFIT_MESSAGE, 16).value;
    OnlyMessage(REFIT_MESSAGE, 16);
    OnlyMessage(trimmed, 16);
    SpeakingSurvives(trimmed, 16);
    var again := TrimMessage(trimmed, 16).value;
    assert [again][0] != [trimmed][0];
  }

  lemma RefitFacts()
    ensures MessageCost(REFIT_MESSAGE) == 17
    ensures var r := TrimMessage(REFIT_MESSAGE, 16); r.Some? && MessageCost(r.value) == 18 && Speaks(r.value)
  {
    hide TrimText, TextCostFrom;
    var t := "\U{1F600}\U{1F600}";
    RefitCosts();
    TrimTight(t);
    assert REFIT_MESSAGE.parts[1..] == [];
    assert KeepParts(REFIT_MESSAGE.parts, 8, false) == Kept([], 8, false);
    FittingTextStays(REFIT_MESSAGE.content, 8, false);
    var text := LeadText(t);
    assert [text] + [] == [text] && [text][1..] == [];
    assert StandIn(REFIT_MESSAGE, Kept([], 8, false)) == t;
    assert HasText([text]) && !HasText([HOLLOW_PART]);
    assert PartsCost([text]) == 10 + PartsCost([]);
    assert PartsCost([HOLLOW_PART]) == 0 + PartsCost([]) by {
      assert [HOLLOW_PART][1..] == [];
    }
  }

  lemma RefitCosts()
    ensures TextCost("\U{1F600}\U{1F600}") == 8 && TextCost(REFIT_MESSAGE.content) == 9
    ensures TrimSpace(REFIT_MESSAGE.content) == "\U{1F600}\U{1F600}"
  {
    var c := "\U{1F600}\U{1F600} ";
    assert c[1..] == "\U{1F600} " && c[1..][1..] == " " && c[1..][1..][1..] == "";
    var t := "\U{1F600}\U{1F600}";
    assert t[1..] == "\U{1F600}" && t[1..][1..] == "";
    assert c[..2] == t && c[2] == ' ';
    TrimTight(t);
  }

  // ----- Why a mixed system instruction can silence another

  /** A system instruction with an image and four emoji beside it, another one, and a turn. */
  const GREEDY_INSTRUCTION :=
    Message(RoleSystem, "\U{1F600}\U{1F600}\U{1F600}\U{1F600}", [OVERRUN_IMAGE], PRIORITY_SYSTEM)
  const SHORT_INSTRUCTION := Message(RoleSystem, "a", [], PRIORITY_SYSTEM)
  const TURN := Message(RoleUser, "b", [], PRIORITY_CURRENT)
  const SILENCING := [GREEDY_INSTRUCTION, SHORT_INSTRUCTION, TURN]

  const FIRST := Candidate(0, PRIORITY_SYSTEM, 1048)
  const SECOND := Candidate(1, PRIORITY_SYSTEM, 9)
  const THIRD := Candidate(2, PRIORITY_CURRENT, 9)

  /** The budget pays for the turn and the minimum for both instructions. The first one keeps its
      image with its whole share and its content on top, which leaves nothing for the second. */
  lemma InstructionCanBeSilenced()
    ensures Speaks(SHORT_INSTRUCTION)
    ensures StayCost(SILENCING, 3) + BendCount(SILENCING, 3) * MINIMUM_REQUIRED_COST <= 1057
    ensures 1 !in Choice(SILENCING, 1057)
  {
    hide TrimMessage, MessageCost, SortBy, SelectRequired, SelectOrdered, EffectivePriority, Proportional;
    TrimTight("a");
    SilencingCandidates();
    RequiredCounts(SILENCING);
    SilencingSelection();
    SelectRequiredInOrder(SILENCING, 1057);
    var served := Selection(map[2 := TURN, 0 := GREEDY_INSTRUCTION], 0);
    assert Greedy(SILENCING, Ranked(SILENCING), served) == served;
    assert MessagesCost(SILENCING) == 1066 by {
      assert SILENCING[1..] == [SHORT_INSTRUCTION, TURN];
      assert [SHORT_INSTRUCTION, TURN][1..] == [TURN] && [TURN][1..] == [];
      assert MessagesCost([TURN]) == 9 + MessagesCost([]);
      assert MessagesCost([SHORT_INSTRUCTION, TURN]) == 9 + MessagesCost([TURN]);
    }
  }

  lemma SilencingCosts()
    ensures MessageCost(GREEDY_INSTRUCTION) == 1048 && MessageCost(SHORT_INSTRUCTION) == 9 && MessageCost(TURN) == 9
  {
    hide TrimSpace;
    LowDetail();
    TrimTight("u");
    CostOfRune('a');
    CostOfRune('b');
    FourEmoji();
    assert "a" == ['a'] && "b" == ['b'];
    assert [OVERRUN_IMAGE][1..] == [];
    assert !HasText([OVERRUN_IMAGE]);
    assert PartsCost([OVERRUN_IMAGE]) == 1024;
  }

  lemma FourEmoji()
    ensures TextCost("\U{1F600}\U{1F600}\U{1F600}\U{1F600}") == 16
  {
    var t := "\U{1F600}\U{1F600}\U{1F600}\U{1F600}";
    assert t[1..] == "\U{1F600}\U{1F600}\U{1F600}" && t[1..][1..] == "\U{1F600}\U{1F600}";
    assert t[1..][1..][1..] == "\U{1F600}" && t[1..][1..][1..][1..] == "";
  }

  lemma SilencingCandidates()
    ensures Candidates(SILENCING) == [FIRST, SECOND, THIRD] == RequiredOf(SILENCING)
    ensures Filter(RequiredOf(SILENCING), IsProtected) == [THIRD]
    ensures Filter(RequiredOf(SILENCING), IsFlexible) == [FIRST, SECOND]
    ensures MessageCost(GREEDY_INSTRUCTION) == 1048 && MessageCost(SHORT_INSTRUCTION) == 9 && MessageCost(TURN) == 9
    ensures TotalCost([THIRD]) == 9 && TotalCost([FIRST, SECOND]) == 1057 && TotalCost([FIRST, SECOND, THIRD]) == 1066
  {
    hide MessageCost, Filter, TotalCost;
    SilencingCosts();
    var all := [FIRST, SECOND, THIRD];
    assert Candidates(SILENCING) == all;
    FilterOfThree(FIRST, SECOND, THIRD, IsRequired);
    FilterOfThree(FIRST, SECOND, THIRD, IsProtected);
    FilterOfThree(FIRST, SECOND, THIRD, IsFlexible);
    TotalOfThree(FIRST, SECOND, THIRD);
    TotalOfTwo(FIRST, SECOND);
  }

  lemma FilterOfThree(a: Candidate, b: Candidate, c: Candidate, keep: Candidate -> bool)
    ensures Filter([a, b, c], keep)
         == (if keep(a) then [a] else []) + (if keep(b) then [b] else []) + if keep(c) then [c] else []
  {
    assert [a, b, c][1..] == [b, c] && [b, c][1..] == [c] && [c][1..] == [];
    assert Filter([c], keep) == (if keep(c) then [c] else []) + Filter([], keep);
    assert Filter([b, c], keep) == (if keep(b) then [b] else []) + Filter([c], keep);
  }

  lemma TotalOfTwo(a: Candidate, b: Candidate)
    ensures TotalCost([a, b]) == a.cost + b.cost && TotalCost([b]) == b.cost
  {
    assert [a, b][1..] == [b] && [b][1..] == [];
    assert TotalCost([b]) == b.cost + TotalCost([]);
  }

  lemma TotalOfThree(a: Candidate, b: Candidate, c: Candidate)
    ensures TotalCost([a, b, c]) == a.cost + b.cost + c.cost && TotalCost([c]) == c.cost
  {
    assert [a, b, c][1..] == [b, c];
    TotalOfTwo(b, c);
  }

  lemma SilencingSelection()
    ensures Indexed(SILENCING, RequiredOf(SILENCING))
    ensures SelectOrdered(SILENCING, RequiredOf(SILENCING), TotalCost(RequiredOf(SILENCING)), Selection(map[], 1057))
         == Selection(map[2 := TURN, 0 := GREEDY_INSTRUCTION], 0)
  {
    hide TrimMessage, MessageCost, EffectivePriority, Filter, TotalCost;
    SilencingCandidates();
    FilterMembers([FIRST, SECOND, THIRD], IsProtected);
    FilterMembers([FIRST, SECOND, THIRD], IsFlexible);
    var taken := Selection(map[2 := TURN], 1048);
    assert [THIRD][1..] == [];
    assert TakeWhole(SILENCING, [THIRD], Selection(map[], 1057)) == taken;
    GreedyKeepsAll();
    assert Allocation(1048, 1048, 1057, 1) == 1032;
    assert [FIRST, SECOND][1..] == [SECOND];
    var next := taken.Choose(0, GREEDY_INSTRUCTION, 1048);
    assert Proportional(SILENCING, [FIRST, SECOND], 1057, taken) == Proportional(SILENCING, [SECOND], 9, next) == next;
  }

  /** With 1032 tokens the image is all it pays for. */
  lemma GreedyKeepsAll()
    ensures TrimMessage(GREEDY_INSTRUCTION, 1032) == Some(GREEDY_INSTRUCTION)
  {
    hide TrimText, TextCostFrom, TrimSpace;
    LowDetail();
    TrimTight("u");
    assert [OVERRUN_IMAGE][1..] == [];
    assert KeepParts([], 0, false) == Kept([], 0, false);
    assert KeepParts([OVERRUN_IMAGE], 1024, false) == Kept([OVERRUN_IMAGE], 0, false);
  }
}
