/** Chat messages, their estimated cost, and cutting one message down to a token budget
    (model/llm/context_budget.go). */
module Messages {
  import opened Wrappers
  import opened Text
  import opened TokenCost

  const MESSAGE_OVERHEAD := 8
  const MINIMUM_REQUIRED_COST := MESSAGE_OVERHEAD + 8

  const PRIORITY_DEFAULT := 0
  const PRIORITY_HISTORY := 20
  const PRIORITY_SUMMARY := 60
  const PRIORITY_MEMORY := 80
  const PRIORITY_SYSTEM := 120
  const PRIORITY_PLUGIN := 130
  const PRIORITY_CURRENT := 140

  datatype Role = RoleSystem | RoleUser | RoleAssistant

  datatype PartKind = TextKind | ImageKind | OtherKind

  datatype ContentPart = ContentPart(kind: PartKind, text: string, imageURL: string, detail: string)

  datatype Message = Message(role: Role, content: string, parts: seq<ContentPart>, priority: int)

  // ----- Cost of a message

  /** Lower case as far as the three detail words can tell: the only capitals outside ASCII
      that fold into ASCII letters are the dotted I and the Kelvin sign. */
  function LowerRune(c: char): char {
    if 'A' <= c <= 'Z' then c - 'A' + 'a'
    else if c == '\U{0130}' then 'i'
    else if c == '\U{212A}' then 'k'
    else c
  }

  function Lower(s: string): string { seq(|s|, i requires 0 <= i < |s| => LowerRune(s[i])) }

  function ImageTokens(detail: string): nat {
    var d := Lower(TrimSpace(detail));
    if d == "low" then 1024
    else if d == "high" then 8192
    else if d == "original" then 16384
    else 4096
  }

  predicate IsTextPart(part: ContentPart) { part.kind.TextKind? && !Blank(part.text) }

  function PartCost(part: ContentPart): nat {
    match part.kind
    case TextKind => if !Blank(part.text) then TextCost(part.text) + 2 else 0
    case ImageKind => if !Blank(part.imageURL) then ImageTokens(part.detail) else 0
    case OtherKind => 0
  }

  function PartsCost(parts: seq<ContentPart>): nat {
    if parts == [] then 0 else PartCost(parts[0]) + PartsCost(parts[1..])
  }

  predicate HasText(parts: seq<ContentPart>) {
    parts != [] && (IsTextPart(parts[0]) || HasText(parts[1..]))
  }

  function MessageCost(m: Message): nat {
    MESSAGE_OVERHEAD + PartsCost(m.parts) + if HasText(m.parts) then 0 else TextCost(m.content)
  }

  function MessagesCost(messages: seq<Message>): nat {
    if messages == [] then 0 else MessageCost(messages[0]) + MessagesCost(messages[1..])
  }

  method EstimateMessageTokens(m: Message) returns (total: nat)
    ensures total == MessageCost(m)
  {
    total := MESSAGE_OVERHEAD;
    if m.parts == [] {
      var plain := EstimateTextTokens(m.content);
      return total + plain;
    }
    var hasText := false;
    for i := 0 to |m.parts|
      invariant total + PartsCost(m.parts[i..]) == MESSAGE_OVERHEAD + PartsCost(m.parts)
      invariant (hasText || HasText(m.parts[i..])) == HasText(m.parts)
    {
      var part := m.parts[i];
      assert m.parts[i..][1..] == m.parts[i + 1..];
      match part.kind {
        case TextKind =>
          if !Blank(part.text) {
            hasText := true;
            var cost := EstimateTextTokens(part.text);
            total := total + cost + 2;
          }
        case ImageKind =>
          if !Blank(part.imageURL) {
            total := total + ImageTokens(part.detail);
          }
        case OtherKind =>
      }
    }
    if !hasText {
      var cost := EstimateTextTokens(m.content);
      total := total + cost;
    }
  }

  method EstimateMessagesTokens(messages: seq<Message>) returns (total: nat)
    ensures total == MessagesCost(messages)
  {
    total := 0;
    for i := 0 to |messages|
      invariant total + MessagesCost(messages[i..]) == MessagesCost(messages)
    {
      assert messages[i..][1..] == messages[i + 1..];
      var cost := EstimateMessageTokens(messages[i]);
      total := total + cost;
    }
  }

  // ----- Trimming one message

  predicate PreservePrefix(m: Message) {
    m.priority == PRIORITY_MEMORY || m.priority == PRIORITY_SUMMARY
  }

  /** A part as it is kept, with the tokens it is charged. */
  datatype Charged = Charged(part: ContentPart, charge: nat)

  function KeepPart(part: ContentPart, remaining: int, prefixOnly: bool): Option<Charged> {
    match part.kind
    case TextKind =>
      var text := TrimSpace(part.text);
      if remaining <= 2 || text == "" then None
      else
        var kept := if TextCost(text) > remaining - 2 then TrimText(text, remaining - 2, prefixOnly) else text;
        if kept == "" then None else Some(Charged(part.(text := kept), TextCost(kept) + 2))
    case ImageKind =>
      var cost := ImageTokens(part.detail);
      if Blank(part.imageURL) || cost > remaining then None else Some(Charged(part, cost))
    case OtherKind => None
  }

  datatype Kept = Kept(parts: seq<ContentPart>, remaining: int, hasText: bool)

  function KeepParts(parts: seq<ContentPart>, remaining: int, prefixOnly: bool): Kept {
    if parts == [] then Kept([], remaining, false)
    else
      match KeepPart(parts[0], remaining, prefixOnly)
      case None => KeepParts(parts[1..], remaining, prefixOnly)
      case Some(c) =>
        var rest := KeepParts(parts[1..], remaining - c.charge, prefixOnly);
        Kept([c.part] + rest.parts, rest.remaining, c.part.kind.TextKind? || rest.hasText)
  }

  function LeadText(text: string): ContentPart { ContentPart(TextKind, text, "", "") }

  /** The text that stands in when no text part was kept; empty when nothing is inserted. */
  function StandIn(m: Message, kept: Kept): string {
    if !kept.hasText && kept.remaining > 0 then TrimText(m.content, kept.remaining, PreservePrefix(m)) else ""
  }

  function TrimMessage(m: Message, budget: int): Option<Message> {
    if budget <= MESSAGE_OVERHEAD then None
    else if m.parts == [] then
      var content := TrimText(m.content, budget - MESSAGE_OVERHEAD, PreservePrefix(m));
      if Blank(content) then None else Some(m.(content := content))
    else
      var kept := KeepParts(m.parts, budget - MESSAGE_OVERHEAD, PreservePrefix(m));
      var text := StandIn(m, kept);
      if text != "" then Some(m.(content := text, parts := [LeadText(text)] + kept.parts))
      else if kept.parts == [] then None
      else Some(m.(parts := kept.parts))
  }

  lemma Regroup(a: seq<ContentPart>, x: ContentPart, b: seq<ContentPart>)
    ensures (a + [x]) + b == a + ([x] + b)
  {
  }

  /** The loop over the parts: each one is kept, shortened or dropped, in order. */
  method CollectParts(parts: seq<ContentPart>, budget: int, prefixOnly: bool)
      returns (kept: seq<ContentPart>, remaining: int, hasText: bool)
    ensures Kept(kept, remaining, hasText) == KeepParts(parts, budget, prefixOnly)
  {
    hide TrimText, ImageTokens, TextCost, TrimSpace;
    kept, remaining, hasText := [], budget, false;
    for i := 0 to |parts|
      invariant var rest := KeepParts(parts[i..], remaining, prefixOnly);
                KeepParts(parts, budget, prefixOnly)
                == Kept(kept + rest.parts, rest.remaining, hasText || rest.hasText)
    {
      assert parts[i..][1..] == parts[i + 1..];
      var part := parts[i];
      ghost var step := KeepPart(part, remaining, prefixOnly);
      if part.kind.TextKind? {
        var text := TrimSpace(part.text);
        if remaining <= 2 || text == "" {
          continue;
        }
        var cost := EstimateTextTokens(text);
        if cost > remaining - 2 {
          text := TrimTextToTokenBudget(text, remaining - 2, prefixOnly);
        }
        if text == "" {
          continue;
        }
        cost := EstimateTextTokens(text);
        assert step == Some(Charged(part.(text := text), cost + 2));
        remaining := remaining - (cost + 2);
        Regroup(kept, part.(text := text), KeepParts(parts[i + 1..], remaining, prefixOnly).parts);
        kept := kept + [part.(text := text)];
        hasText := true;
      } else if part.kind.ImageKind? {
        var cost := ImageTokens(part.detail);
        if Blank(part.imageURL) || cost > remaining {
          continue;
        }
        assert step == Some(Charged(part, cost));
        remaining := remaining - cost;
        Regroup(kept, part, KeepParts(parts[i + 1..], remaining, prefixOnly).parts);
        kept := kept + [part];
      }
    }
  }

  method TrimMessageToTokenBudget(m: Message, budget: int) returns (r: Option<Message>)
    ensures r == TrimMessage(m, budget)
  {
    hide TrimText, ImageTokens, TextCost, TrimSpace;
    if budget <= MESSAGE_OVERHEAD {
      return None;
    }
    var textBudget := budget - MESSAGE_OVERHEAD;
    var prefixOnly := PreservePrefix(m);
    if m.parts == [] {
      var content := TrimTextToTokenBudget(m.content, textBudget, prefixOnly);
      return if TrimSpace(content) == "" then None else Some(m.(content := content));
    }
    var parts, remaining, hasText := CollectParts(m.parts, textBudget, prefixOnly);
    var trimmed := m.(parts := parts);
    if !hasText && remaining > 0 {
      var text := TrimTextToTokenBudget(m.content, remaining, prefixOnly);
      if text != "" {
        trimmed := m.(content := text, parts := [LeadText(text)] + parts);
      }
    }
    return if trimmed.parts == [] then None else Some(trimmed);
  }

  // ----- What trimming one message guarantees

  /** The four sizes of an image. */
  lemma ImageSizes(detail: string)
    ensures ImageTokens("low") == 1024 && ImageTokens("high") == 8192 && ImageTokens("original") == 16384
    ensures Lower(TrimSpace(detail)) !in {"low", "high", "original"} ==> ImageTokens(detail) == 4096
  {
    hide TrimSpace, Lower;
    ThreeWords();
  }

  /** The word for one may have capitals and spaces around it. */
  lemma ImageWordIsFolded(detail: string)
    ensures ImageTokens(detail) == ImageTokens(Lower(TrimSpace(detail)))
  {
    var t := TrimSpace(detail);
    var _, _ := TrimSpaceIsSlice(detail);
    hide IsSpace;
    LowerKeepsTight(t);
    TrimTight(Lower(t));
    hide TrimSpace;
    LowerTwice(t);
  }

  lemma ThreeWords()
    ensures forall word :: word in {"low", "high", "original"} ==> Lower(word) == word && TrimSpace(word) == word
  {
    TrimTight("low");
    TrimTight("high");
    TrimTight("original");
    assert Lower("low") == "low" && Lower("high") == "high" && Lower("original") == "original";
  }

  lemma LowerKeepsTight(s: string)
    requires Tight(s)
    ensures Tight(Lower(s))
  {
  }

  lemma LowerTwice(s: string)
    ensures Lower(Lower(s)) == Lower(s)
  {
  }

  /** Which parts are kept and how: a text if it is visible and what remains pays for two tokens
      and the one code point that every clip has, whole if it fits; an image if it has an address
      and fits; nothing else. */
  lemma KeepPartMeans(part: ContentPart, remaining: int, prefixOnly: bool)
    ensures var r, t := KeepPart(part, remaining, prefixOnly), TrimSpace(part.text);
            match part.kind
            case TextKind =>
              && (r.Some? <==> t != "" && TextCost([Anchor(t, prefixOnly)]) + 2 <= remaining)
              && (r.Some? ==> r.value.part == part.(text := TrimText(t, remaining - 2, prefixOnly)))
              && (t != "" && TextCost(t) + 2 <= remaining ==> r.Some? && r.value.part == part.(text := t))
            case ImageKind =>
              && (r.Some? <==> !Blank(part.imageURL) && ImageTokens(part.detail) <= remaining)
              && (r.Some? ==> r.value.part == part)
            case OtherKind => r.None?
  {
    hide IsSpace, ImageTokens, TextCostFrom, SearchKeep, ClippedText;
    if part.kind.TextKind? {
      var t := TrimSpace(part.text);
      TrimTwice(part.text);
      hide TrimSpace;
      TrimTextSurvives(t, remaining - 2, prefixOnly);
      if t != "" {
        SomethingCosts([Anchor(t, prefixOnly)]);
        ClipOfWhole(t, prefixOnly);
        ClipCostsItsAnchor(t, |t|, prefixOnly);
        if TextCost(t) + 2 <= remaining {
          SomethingCosts(t);
          FittingTextStays(t, remaining - 2, prefixOnly);
        }
      }
    }
  }

  /** Of a text-only message, memories and summaries keep their beginning and all others their
      end. */
  lemma TrimMessageKeepsEnd(m: Message, budget: int)
    requires m.parts == [] && TrimMessage(m, budget).Some?
    ensures var t, r := TrimSpace(m.content), TrimMessage(m, budget).value.content;
            && TrimMessage(m, budget).value == m.(content := r) && t != "" && r != ""
            && if m.priority == 80 || m.priority == 60 then r[0] == t[0] else r[|r| - 1] == t[|t| - 1]
  {
    hide TrimText, IsSpace;
    VisibleIfNonEmpty(m.content, budget - MESSAGE_OVERHEAD, PreservePrefix(m));
    TrimTextKeepsEnd(m.content, budget - MESSAGE_OVERHEAD, PreservePrefix(m));
  }

  lemma KeepPartCharge(part: ContentPart, remaining: int, prefixOnly: bool)
    ensures var r := KeepPart(part, remaining, prefixOnly);
            r.Some? ==> r.value.charge == PartCost(r.value.part) <= remaining
                        && (IsTextPart(r.value.part) <==> r.value.part.kind.TextKind?)
  {
    hide TrimText, ImageTokens, TextCost, IsSpace;
    if part.kind.TextKind? {
      TrimTwice(part.text);
      TrimTextFits(TrimSpace(part.text), remaining - 2, prefixOnly);
    }
  }

  /** The kept parts and the remainder account for the whole budget. */
  lemma {:induction false} KeepPartsConserve(parts: seq<ContentPart>, remaining: int, prefixOnly: bool)
    requires remaining >= 0
    ensures var k := KeepParts(parts, remaining, prefixOnly);
            PartsCost(k.parts) + k.remaining == remaining && k.remaining >= 0
            && (HasText(k.parts) <==> k.hasText)
  {
    hide KeepPart, PartCost;
    if parts != [] {
      KeepPartCharge(parts[0], remaining, prefixOnly);
      match KeepPart(parts[0], remaining, prefixOnly)
      case None =>
        KeepPartsConserve(parts[1..], remaining, prefixOnly);
      case Some(c) =>
        var rest := KeepParts(parts[1..], remaining - c.charge, prefixOnly);
        assert ([c.part] + rest.parts)[1..] == rest.parts;
        KeepPartsConserve(parts[1..], remaining - c.charge, prefixOnly);
    }
  }

  /** Text only in the content, or only in the parts. */
  predicate Plain(m: Message) { m.parts == [] || m.content == "" }

  /** What the content is charged in the trimmed message although no budget was set aside
      for all of it: the inserted part with its two tokens, or the content left as it was. */
  function StandInCharge(m: Message, kept: Kept): nat {
    if kept.hasText then 0
    else if StandIn(m, kept) != "" then TextCost(StandIn(m, kept)) + 2
    else TextCost(m.content)
  }

  /** The exact cost of a trimmed message. With parts it is within the budget if and only if
      the leftover pays for the content that stands in for the missing text part. */
  lemma TrimMessageCost(m: Message, budget: int)
    requires TrimMessage(m, budget).Some?
    ensures var r := TrimMessage(m, budget).value;
            var kept := KeepParts(m.parts, budget - MESSAGE_OVERHEAD, PreservePrefix(m));
            && (m.parts == [] ==> MessageCost(r) <= budget)
            && (m.parts != [] ==>
                  && MessageCost(r) == budget - kept.remaining + StandInCharge(m, kept)
                  && (MessageCost(r) <= budget <==> StandInCharge(m, kept) <= kept.remaining))
  {
    hide TrimText, ImageTokens, TextCost, IsSpace;
    var prefixOnly := PreservePrefix(m);
    if m.parts == [] {
      TrimTextFits(m.content, budget - MESSAGE_OVERHEAD, prefixOnly);
      VisibleIfNonEmpty(m.content, budget - MESSAGE_OVERHEAD, prefixOnly);
    } else {
      KeepPartsConserve(m.parts, budget - MESSAGE_OVERHEAD, prefixOnly);
      var kept := KeepParts(m.parts, budget - MESSAGE_OVERHEAD, prefixOnly);
      var text := StandIn(m, kept);
      if text != "" {
        TrimTextFits(m.content, kept.remaining, prefixOnly);
        assert ([LeadText(text)] + kept.parts)[1..] == kept.parts;
      }
    }
  }

  /** When a message with parts fits, told from what its parts leave: always with a kept text
      part; without one, when a blank content is paid for, never when the leftover does not pay
      for one code point of the content, and with two tokens to spare when it pays for all of
      it. (In between, the content is clipped and StandInCharge decides.) */
  lemma TrimMessageFits(m: Message, budget: int)
    requires TrimMessage(m, budget).Some? && m.parts != []
    ensures var kept := KeepParts(m.parts, budget - MESSAGE_OVERHEAD, PreservePrefix(m));
            var fits := MessageCost(TrimMessage(m, budget).value) <= budget;
            var left, t := kept.remaining, TrimSpace(m.content);
            && (kept.hasText ==> fits)
            && (!kept.hasText && t == "" ==> (fits <==> TextCost(m.content) <= left))
            && (!kept.hasText && t != "" && TextCost([Anchor(t, PreservePrefix(m))]) > left ==> !fits)
            && (!kept.hasText && t != "" && TextCost(t) <= left ==> (fits <==> TextCost(t) + 2 <= left))
  {
    hide ImageTokens, TrimSpace, TrimText, ClippedText, TextCostFrom, KeepParts, TrimMessage, MessageCost;
    var prefixOnly := PreservePrefix(m);
    var kept := KeepParts(m.parts, budget - MESSAGE_OVERHEAD, prefixOnly);
    var t := TrimSpace(m.content);
    TrimMessageCost(m, budget);
    TrimTextSurvives(m.content, kept.remaining, prefixOnly);
    KeepPartsLeave(m, budget);
    if t != "" {
      ClipCostsItsAnchor(t, |t|, prefixOnly);
      ClipOfWhole(t, prefixOnly);
      CostOfTrimmed(m.content);
      SomethingCosts(t);
      if TextCost(t) <= kept.remaining {
        FittingTextStays(m.content, kept.remaining, prefixOnly);
      }
    }
  }

  lemma KeepPartsLeave(m: Message, budget: int)
    requires TrimMessage(m, budget).Some?
    ensures KeepParts(m.parts, budget - MESSAGE_OVERHEAD, PreservePrefix(m)).remaining >= 0
  {
    hide KeepParts;
    KeepPartsConserve(m.parts, budget - MESSAGE_OVERHEAD, PreservePrefix(m));
  }

  lemma SomethingCosts(t: string)
    requires t != ""
    ensures TextCost(t) > 0
  {
    CostOfSlice(t, 0, 1);
    CostOfRune(t[0]);
    assert t[0..1] == [t[0]];
  }

  lemma VisibleIfNonEmpty(text: string, budget: int, prefixOnly: bool)
    ensures Blank(TrimText(text, budget, prefixOnly)) <==> TrimText(text, budget, prefixOnly) == ""
  {
    TrimTextFits(text, budget, prefixOnly);
  }

  /** How far past its budget a trimmed message can end up. */
  function Overrun(m: Message): nat {
    if Plain(m) then 0 else if TextCost(m.content) > 2 then TextCost(m.content) else 2
  }

  predicate SameVoice(a: Message, b: Message) { a.role == b.role && a.priority == b.priority }

  lemma EmptyContentStaysEmpty(m: Message, kept: Kept)
    requires m.content == ""
    ensures StandIn(m, kept) == "" && StandInCharge(m, kept) == 0
  {
    assert TextCost("") == 0;
  }

  lemma TrimMessageOverrun(m: Message, budget: int)
    requires TrimMessage(m, budget).Some?
    ensures MessageCost(TrimMessage(m, budget).value) <= budget + Overrun(m)
    ensures SameVoice(TrimMessage(m, budget).value, m)
  {
    hide TrimText, ImageTokens, TextCost;
    TrimMessageCost(m, budget);
    if m.parts != [] {
      var kept := KeepParts(m.parts, budget - MESSAGE_OVERHEAD, PreservePrefix(m));
      KeepPartsConserve(m.parts, budget - MESSAGE_OVERHEAD, PreservePrefix(m));
      TrimTextFits(m.content, kept.remaining, PreservePrefix(m));
      if m.content == "" {
        EmptyContentStaysEmpty(m, kept);
      }
    }
  }

  /** The whole failing family: when images are kept but no text part, and the leftover does
      not pay for one code point of the content, the content stays whole and overruns. */
  lemma StrandedContentOverruns(m: Message, budget: int)
    requires budget > MESSAGE_OVERHEAD && !Blank(m.content)
    requires var kept := KeepParts(m.parts, budget - MESSAGE_OVERHEAD, PreservePrefix(m));
             kept.parts != [] && !kept.hasText
             && kept.remaining < TextCost([Anchor(TrimSpace(m.content), PreservePrefix(m))])
    ensures var r := TrimMessage(m, budget);
            r.Some? && r.value.content == m.content && MessageCost(r.value) > budget
  {
    hide ImageTokens, TrimSpace, TrimText, ClippedText, TextCostFrom;
    var kept := KeepParts(m.parts, budget - MESSAGE_OVERHEAD, PreservePrefix(m));
    TrimTextSurvives(m.content, kept.remaining, PreservePrefix(m));
    assert StandIn(m, kept) == "";
    TrimMessageCost(m, budget);
    var t := TrimSpace(m.content);
    ClipCostsItsAnchor(t, |t|, PreservePrefix(m));
    ClipOfWhole(t, PreservePrefix(m));
    CostOfTrimmed(m.content);
  }

  lemma ClipOfWhole(t: string, prefixOnly: bool)
    ensures ClippedText(t, |t|, prefixOnly) == t
  {
  }

  const OVERRUN_IMAGE := ContentPart(ImageKind, "", "u", "low")

  const OVERRUN_MESSAGE := Message(RoleUser, "\U{1F600}", [OVERRUN_IMAGE], PRIORITY_CURRENT)

  /** One member of the family: a one-image message whose content is an emoji, with a single
      token left for it. */
  lemma TrimMessageCanOverrun()
    ensures var r := TrimMessage(OVERRUN_MESSAGE, 1033);
            r.Some? && MessageCost(r.value) > 1033
  {
    hide TrimText, ClippedText, TextCostFrom, MessageCost, TrimMessage;
    LowDetail();
    TrimTight("u");
    TrimTight("\U{1F600}");
    assert KeepPart(OVERRUN_IMAGE, 1025, false) == Some(Charged(OVERRUN_IMAGE, 1024));
    assert KeepParts(OVERRUN_MESSAGE.parts, 1025, false) == Kept([OVERRUN_IMAGE], 1, false) by {
      assert KeepParts([], 1, false) == Kept([], 1, false);
      assert OVERRUN_MESSAGE.parts[1..] == [];
    }
    CostOfRune('\U{1F600}');
    assert "\U{1F600}" == ['\U{1F600}'];
    StrandedContentOverruns(OVERRUN_MESSAGE, 1033);
  }

  lemma LowDetail()
    ensures ImageTokens("low") == 1024
  {
    TrimTight("low");
    assert Lower("low") == "low";
  }

  /** A part that is never kept and costs nothing. */
  predicate IsHollow(part: ContentPart) {
    part.kind.OtherKind? || (part.kind.TextKind? && Blank(part.text)) || (part.kind.ImageKind? && Blank(part.imageURL))
  }

  /** A visible text part comes before any image. */
  predicate TextLeads(parts: seq<ContentPart>) {
    parts != [] && (IsTextPart(parts[0]) || (IsHollow(parts[0]) && TextLeads(parts[1..])))
  }

  /** The message says something before it shows anything: visible content and no parts, or a
      visible text part before any image. */
  predicate Speaks(m: Message) {
    if m.parts == [] then !Blank(m.content) else TextLeads(m.parts)
  }

  /** With six tokens a leading text part is kept, in front. */
  lemma {:induction false} LeadIsKept(parts: seq<ContentPart>, remaining: int, prefixOnly: bool)
    requires TextLeads(parts) && remaining >= 6
    ensures var k := KeepParts(parts, remaining, prefixOnly);
            k.hasText && k.parts != [] && IsTextPart(k.parts[0])
  {
    hide TrimText, ImageTokens, TextCost, IsSpace;
    if IsTextPart(parts[0]) {
      TrimTwice(parts[0].text);
      TrimTextSurvives(TrimSpace(parts[0].text), remaining - 2, prefixOnly);
      KeepPartCharge(parts[0], remaining, prefixOnly);
    } else {
      LeadIsKept(parts[1..], remaining, prefixOnly);
    }
  }

  /** With the minimum allocation a message that speaks is kept, still speaks, and fits,
      whatever its content. */
  lemma SpeakingSurvives(m: Message, budget: int)
    requires Speaks(m) && budget >= MINIMUM_REQUIRED_COST
    ensures var r := TrimMessage(m, budget);
            r.Some? && Speaks(r.value) && MessageCost(r.value) <= budget
  {
    hide TrimText, ImageTokens, TextCost, IsSpace, KeepPart;
    var prefixOnly := PreservePrefix(m);
    if m.parts == [] {
      TrimTextSurvives(m.content, budget - MESSAGE_OVERHEAD, prefixOnly);
    } else {
      LeadIsKept(m.parts, budget - MESSAGE_OVERHEAD, prefixOnly);
      KeepPartsConserve(m.parts, budget - MESSAGE_OVERHEAD, prefixOnly);
    }
    TrimMessageCost(m, budget);
  }
}
