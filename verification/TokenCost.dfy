/** The token estimator of model/llm/context_budget.go and the text clipping that is
    driven by it. */
module TokenCost {
  import opened Text

  const TRUNCATION_MARKER: string := "\n...[上下文已按 token 预算裁剪]...\n"

  // ----- Cost of a text

  predicate IsAscii(c: char) { c as int <= 127 }

  /** Tokens for a run of consecutive ASCII characters: three per token, rounded up. */
  function AsciiTokens(run: nat): nat { (run + 2) / 3 }

  function WideTokens(c: char): nat { if c as int > 0xffff then 4 else 2 }

  /** Cost of `text` when `run` ASCII characters already precede it. */
  function TextCostFrom(text: string, run: nat): nat
    decreases |text|
  {
    if text == "" then AsciiTokens(run)
    else if IsAscii(text[0]) then TextCostFrom(text[1..], run + 1)
    else AsciiTokens(run) + WideTokens(text[0]) + TextCostFrom(text[1..], 0)
  }

  function TextCost(text: string): nat { TextCostFrom(text, 0) }

  method EstimateTextTokens(text: string) returns (total: nat)
    ensures total == TextCost(text)
  {
    total := 0;
    var asciiRun := 0;
    var i := 0;
    while i < |text|
      invariant i <= |text|
      invariant total + TextCostFrom(text[i..], asciiRun) == TextCost(text)
    {
      var value := text[i];
      assert text[i..][1..] == text[i + 1..];
      if IsAscii(value) {
        asciiRun := asciiRun + 1;
      } else {
        if asciiRun > 0 {
          total := total + (asciiRun + 2) / 3;
          asciiRun := 0;
        }
        total := total + WideTokens(value);
      }
      i := i + 1;
    }
    if asciiRun > 0 {
      total := total + (asciiRun + 2) / 3;
    }
  }

  /** A longer ASCII run in front costs at most one token more. */
  lemma {:induction false} CostOfLongerRun(text: string, run: nat)
    ensures TextCostFrom(text, run) <= TextCostFrom(text, run + 1) <= TextCostFrom(text, run) + 1
    decreases |text|
  {
    if text != "" && IsAscii(text[0]) {
      CostOfLongerRun(text[1..], run + 1);
    }
  }

  /** Splitting a text saves nothing, and costs at most one token. */
  lemma {:induction false} CostOfConcat(a: string, b: string, run: nat)
    ensures TextCostFrom(a + b, run) <= TextCostFrom(a, run) + TextCost(b) <= TextCostFrom(a + b, run) + 1
    decreases |a|
  {
    if a == "" {
      assert a + b == b;
      CostAfterRun(b, run);
    } else {
      assert (a + b)[1..] == a[1..] + b;
      CostOfConcat(a[1..], b, if IsAscii(a[0]) then run + 1 else 0);
    }
  }

  lemma {:induction false} CostAfterRun(text: string, run: nat)
    ensures TextCostFrom(text, run) <= AsciiTokens(run) + TextCost(text) <= TextCostFrom(text, run) + 1
    decreases |text|
  {
    CostAfterRunOffset(text, run, 0);
  }

  lemma {:induction false} CostAfterRunOffset(text: string, run: nat, more: nat)
    ensures TextCostFrom(text, run + more) <= AsciiTokens(run) + TextCostFrom(text, more)
         <= TextCostFrom(text, run + more) + 1
    decreases |text|
  {
    if text != "" && IsAscii(text[0]) {
      CostAfterRunOffset(text[1..], run, more + 1);
    }
  }

  lemma {:induction false} CostOfPrefix(a: string, b: string, run: nat)
    ensures TextCostFrom(a, run) <= TextCostFrom(a + b, run)
    decreases |a|
  {
    if a == "" {
      assert a + b == b;
      RunIsPaid(b, run);
    } else {
      assert (a + b)[1..] == a[1..] + b;
      CostOfPrefix(a[1..], b, if IsAscii(a[0]) then run + 1 else 0);
    }
  }

  lemma {:induction false} RunIsPaid(text: string, run: nat)
    ensures AsciiTokens(run) <= TextCostFrom(text, run)
    ensures TextCost(text) <= TextCostFrom(text, run)
    decreases |text|, run
  {
    if run > 0 {
      CostOfLongerRun(text, run - 1);
      RunIsPaid(text, run - 1);
    }
    if text != "" && IsAscii(text[0]) {
      RunIsPaid(text[1..], run + 1);
    }
  }

  lemma {:induction false} CostOfSuffix(a: string, b: string, run: nat)
    ensures TextCost(b) <= TextCostFrom(a + b, run)
    decreases |a|
  {
    if a == "" {
      assert a + b == b;
      RunIsPaid(b, run);
    } else {
      assert (a + b)[1..] == a[1..] + b;
      CostOfSuffix(a[1..], b, if IsAscii(a[0]) then run + 1 else 0);
    }
  }

  /** The estimator is monotone: a piece of a text never costs more than the text. */
  lemma CostOfSlice(text: string, i: nat, j: nat)
    requires i <= j <= |text|
    ensures TextCost(text[i..j]) <= TextCost(text)
  {
    assert text == text[..i] + text[i..];
    CostOfSuffix(text[..i], text[i..], 0);
    assert text[i..] == text[i..j] + text[j..];
    CostOfPrefix(text[i..j], text[j..], 0);
  }

  lemma CostOfTrimmed(text: string)
    ensures TextCost(TrimSpace(text)) <= TextCost(text)
  {
    var i, j := TrimSpaceIsSlice(text);
    CostOfSlice(text, i, j);
  }

  lemma CostOfRune(c: char)
    ensures TextCost([c]) == if IsAscii(c) then 1 else WideTokens(c)
  {
    assert TextCostFrom([c][1..], 0) == 0 && TextCostFrom([c][1..], 1) == 1;
  }

  // ----- The whole estimate

  /** ASCII alone costs a token for every three characters, rounded up. */
  lemma CostOfAscii(text: string)
    requires forall k :: 0 <= k < |text| ==> text[k] as int <= 127
    ensures TextCost(text) == if |text| % 3 == 0 then |text| / 3 else |text| / 3 + 1
  {
    CostOfAsciiRun(text, 0);
  }

  lemma {:induction false} CostOfAsciiRun(text: string, run: nat)
    requires forall k :: 0 <= k < |text| ==> text[k] as int <= 127
    ensures TextCostFrom(text, run) == AsciiTokens(run + |text|)
    decreases |text|
  {
    if text != "" {
      assert forall k :: 0 <= k < |text| - 1 ==> text[1..][k] == text[k + 1];
      CostOfAsciiRun(text[1..], run + 1);
    }
  }

  /** Any other code point costs two tokens, or four beyond the basic plane, and parts the ASCII on
      its two sides; with CostOfAscii this fixes the cost of every text. */
  lemma {:induction false} CostAroundWide(a: string, c: char, b: string, run: nat)
    requires c as int > 127
    ensures TextCostFrom(a + [c] + b, run)
         == TextCostFrom(a, run) + (if c as int <= 0xffff then 2 else 4) + TextCost(b)
    decreases |a|
  {
    var text := a + [c] + b;
    if a == "" {
      assert text[1..] == b;
    } else {
      assert text[1..] == a[1..] + [c] + b;
      CostAroundWide(a[1..], c, b, if IsAscii(a[0]) then run + 1 else 0);
    }
  }

  // ----- Clipping

  /** `runes` cut down to about `keep` code points, with the marker once there is room. */
  function ClippedText(runes: string, keep: nat, prefixOnly: bool): string {
    if keep >= |runes| then runes
    else if keep <= |TRUNCATION_MARKER| + 2 then
      if prefixOnly then runes[..keep] else runes[|runes| - keep..]
    else
      var contentRunes := keep - |TRUNCATION_MARKER|;
      if prefixOnly then runes[..contentRunes] + TRUNCATION_MARKER
      else
        var head := (contentRunes + 1) / 2;
        var tail := contentRunes - head;
        runes[..head] + TRUNCATION_MARKER + runes[|runes| - tail..]
  }

  function Middle(low: nat, high: int): (mid: nat)
    requires low <= high
    ensures low <= mid <= high
  {
    low + (high - low) / 2
  }

  /** Binary search for a length that fits, in the window low..high; `best` is the longest
      length found to fit so far. `fits` need not be monotone. */
  function SearchKeep(fits: nat -> bool, low: nat, high: int, best: nat): nat
    decreases high - low + 1
  {
    if low > high then best
    else
      var mid := Middle(low, high);
      if fits(mid) then SearchKeep(fits, mid + 1, high, mid)
      else SearchKeep(fits, low, mid - 1, best)
  }

  function ClipFits(runes: string, budget: int, prefixOnly: bool): nat -> bool {
    (keep: nat) => TextCost(ClippedText(runes, keep, prefixOnly)) <= budget
  }

  function TrimText(text: string, budget: int, prefixOnly: bool): string {
    var t := TrimSpace(text);
    if t == "" || budget <= 0 then ""
    else if TextCost(t) <= budget then t
    else TrimSpace(ClippedText(t, SearchKeep(ClipFits(t, budget, prefixOnly), 1, |t|, 0), prefixOnly))
  }

  method SearchClip(runes: string, budget: int, prefixOnly: bool) returns (best: string)
    requires runes != ""
    ensures best == ClippedText(runes, SearchKeep(ClipFits(runes, budget, prefixOnly), 1, |runes|, 0), prefixOnly)
  {
    var low, high := 1, |runes|;
    best := "";
    ghost var fits, keep := ClipFits(runes, budget, prefixOnly), 0 as nat;
    ClipOfZero(runes, prefixOnly);
    while low <= high
      invariant 1 <= low
      invariant best == ClippedText(runes, keep, prefixOnly)
      invariant SearchKeep(fits, low, high, keep) == SearchKeep(fits, 1, |runes|, 0)
      decreases high - low + 1
    {
      var mid := Middle(low, high);
      var candidate := ClippedText(runes, mid, prefixOnly);
      var cost := EstimateTextTokens(candidate);
      SearchStep(runes, budget, prefixOnly, low, high, keep);
      if cost <= budget {
        best := candidate;
        keep := mid;
        low := mid + 1;
      } else {
        high := mid - 1;
      }
    }
  }

  lemma SearchStep(runes: string, budget: int, prefixOnly: bool, low: nat, high: int, keep: nat)
    requires low <= high
    ensures var mid := Middle(low, high);
            var fits := ClipFits(runes, budget, prefixOnly);
            SearchKeep(fits, low, high, keep)
            == if TextCost(ClippedText(runes, mid, prefixOnly)) <= budget then SearchKeep(fits, mid + 1, high, mid)
               else SearchKeep(fits, low, mid - 1, keep)
  {
  }

  method TrimTextToTokenBudget(text: string, budget: int, prefixOnly: bool) returns (r: string)
    ensures r == TrimText(text, budget, prefixOnly)
  {
    var runes := TrimSpace(text);
    if runes == "" || budget <= 0 {
      return "";
    }
    var whole := EstimateTextTokens(runes);
    if whole <= budget {
      return runes;
    }
    var best := SearchClip(runes, budget, prefixOnly);
    return TrimSpace(best);
  }

  /** The code point that every clip keeps. */
  function Anchor(t: string, prefixOnly: bool): char
    requires t != ""
  {
    if prefixOnly then t[0] else t[|t| - 1]
  }

  lemma MarkerLength()
    ensures |TRUNCATION_MARKER| == 26
  {
  }

  /** A clip of a positive length has the anchor at the end it is cut from. */
  lemma ClipKeepsAnchor(t: string, keep: nat, prefixOnly: bool)
    requires t != "" && keep >= 1
    ensures var c := ClippedText(t, keep, prefixOnly);
            c != "" && (if prefixOnly then c[0] else c[|c| - 1]) == Anchor(t, prefixOnly)
  {
    MarkerLength();
  }

  /** What a clip is made of: a beginning and an end of the text with nothing but the marker in
      between, `keep` code points in all. A short one has no marker and only one of the two; a
      long one has the marker, and for the middle cut two pieces that are as long as each other
      or a head that is one longer. */
  lemma ClipKeeps(t: string, keep: nat, prefixOnly: bool) returns (head: string, between: string, tail: string)
    requires keep < |t|
    ensures ClippedText(t, keep, prefixOnly) == head + between + tail
    ensures head <= t && |tail| <= |t| && t[|t| - |tail|..] == tail && |head| + |between| + |tail| == keep
    ensures if keep <= 28 then between == "" && (if prefixOnly then tail == "" else head == "")
            else between == TRUNCATION_MARKER && |between| == 26
    ensures keep > 28 ==> if prefixOnly then tail == "" else |tail| <= |head| <= |tail| + 1
  {
    MarkerLength();
    if keep <= 28 {
      head, between, tail := if prefixOnly then t[..keep] else "", "", if prefixOnly then "" else t[|t| - keep..];
    } else {
      var kept := keep - 26;
      var front := if prefixOnly then kept else (kept + 1) / 2;
      head, between, tail := t[..front], TRUNCATION_MARKER, t[|t| - (kept - front)..];
    }
  }

  lemma ClipCostsItsAnchor(t: string, keep: nat, prefixOnly: bool)
    requires t != "" && keep >= 1
    ensures TextCost([Anchor(t, prefixOnly)]) <= TextCost(ClippedText(t, keep, prefixOnly))
  {
    ClipKeepsAnchor(t, keep, prefixOnly);
    var c := ClippedText(t, keep, prefixOnly);
    var k := if prefixOnly then 0 else |c| - 1;
    assert c[k..k + 1] == [Anchor(t, prefixOnly)];
    CostOfSlice(c, k, k + 1);
  }

  lemma ClipOfOne(t: string, prefixOnly: bool)
    requires t != ""
    ensures ClippedText(t, 1, prefixOnly) == [Anchor(t, prefixOnly)]
  {
    MarkerLength();
  }

  lemma ClipOfZero(t: string, prefixOnly: bool)
    requires t != ""
    ensures ClippedText(t, 0, prefixOnly) == ""
  {
    MarkerLength();
  }

  /** Whatever `fits` is, the search ends on a length that fits (or on none) whose successor
      does not. */
  lemma {:induction false} SearchEndsAtAnEdge(fits: nat -> bool, low: nat, high: int, best: nat, n: nat)
      returns (keep: nat)
    requires 1 <= low <= high + 1 <= n + 1 && best == low - 1
    requires fits(best) || best == 0
    requires !fits(n) && (high < n ==> !fits(high + 1))
    requires n > 0
    ensures best <= keep < n && keep == SearchKeep(fits, low, high, best)
    ensures (fits(keep) || keep == 0) && !fits(keep + 1)
    decreases high - low + 1
  {
    if low > high {
      keep := best;
    } else {
      var mid := Middle(low, high);
      if fits(mid) {
        keep := SearchEndsAtAnEdge(fits, mid + 1, high, mid, n);
      } else {
        keep := SearchEndsAtAnEdge(fits, low, mid - 1, best, n);
      }
    }
  }

  /** What trimming returns for a text that does not fit: the clip of some length, cut so
      that one code point more would break the budget. */
  lemma TrimTextIsEdgeClip(text: string, budget: int, prefixOnly: bool) returns (keep: nat)
    requires TextCost(TrimSpace(text)) > budget > 0
    ensures keep < |TrimSpace(text)|
    ensures TrimText(text, budget, prefixOnly) == TrimSpace(ClippedText(TrimSpace(text), keep, prefixOnly))
    ensures TextCost(ClippedText(TrimSpace(text), keep, prefixOnly)) <= budget
    ensures TextCost(ClippedText(TrimSpace(text), keep + 1, prefixOnly)) > budget
  {
    var t := TrimSpace(text);
    var fits := ClipFits(t, budget, prefixOnly);
    ClipOfZero(t, prefixOnly);
    assert fits(0) && !fits(|t|);
    keep := SearchEndsAtAnEdge(fits, 1, |t|, 0, |t|);
    assert fits(keep) && !fits(keep + 1);
  }

  lemma TrimTextFits(text: string, budget: int, prefixOnly: bool)
    ensures TrimText(text, budget, prefixOnly) != "" ==> TextCost(TrimText(text, budget, prefixOnly)) <= budget
    ensures TrimSpace(TrimText(text, budget, prefixOnly)) == TrimText(text, budget, prefixOnly)
  {
    TrimTwice(text);
    if TextCost(TrimSpace(text)) > budget > 0 {
      var keep := TrimTextIsEdgeClip(text, budget, prefixOnly);
      TrimTwice(ClippedText(TrimSpace(text), keep, prefixOnly));
      CostOfTrimmed(ClippedText(TrimSpace(text), keep, prefixOnly));
    }
  }

  /** Trimming keeps something exactly when the budget pays for the one code point that
      every clip contains; four tokens always do. */
  lemma TrimTextSurvives(text: string, budget: int, prefixOnly: bool)
    ensures TrimText(text, budget, prefixOnly) != "" <==>
            !Blank(text) && TextCost([Anchor(TrimSpace(text), prefixOnly)]) <= budget
    ensures !Blank(text) && budget >= 4 ==> !Blank(TrimText(text, budget, prefixOnly))
  {
    if !Blank(text) {
      var t := TrimSpace(text);
      var _, _ := TrimSpaceIsSlice(text);
      CostOfRune(Anchor(t, prefixOnly));
      ClipCostsItsAnchor(t, |t|, prefixOnly);
      if TextCost(t) > budget > 0 {
        var keep := TrimTextIsEdgeClip(text, budget, prefixOnly);
        var c := ClippedText(t, keep, prefixOnly);
        if keep > 0 {
          ClipCostsItsAnchor(t, keep, prefixOnly);
          ClipKeepsAnchor(t, keep, prefixOnly);
          VisibleNotBlank(c, if prefixOnly then 0 else |c| - 1);
        } else {
          ClipOfOne(t, prefixOnly);
          MarkerLength();
        }
      }
      TrimTextFits(text, budget, prefixOnly);
    }
  }

  /** What is kept has the first visible code point of the text, or else the last one: trimming
      cuts the end off, or the middle out. */
  lemma TrimTextKeepsEnd(text: string, budget: int, prefixOnly: bool)
    requires TrimText(text, budget, prefixOnly) != ""
    ensures var t, r := TrimSpace(text), TrimText(text, budget, prefixOnly);
            t != "" && if prefixOnly then r[0] == t[0] else r[|r| - 1] == t[|t| - 1]
  {
    hide IsSpace;
    var t := TrimSpace(text);
    var _, _ := TrimSpaceIsSlice(text);
    if TextCost(t) > budget {
      var keep := TrimTextIsEdgeClip(text, budget, prefixOnly);
      var c := ClippedText(t, keep, prefixOnly);
      if keep == 0 {
        ClipOfZero(t, prefixOnly);
        TrimTight("");
      } else {
        ClipKeepsAnchor(t, keep, prefixOnly);
        var i, j := TrimSpaceIsSlice(c);
        VisibleNotBlank(c, if prefixOnly then 0 else |c| - 1);
        assert prefixOnly ==> i == 0;
        assert !prefixOnly ==> j == |c|;
      }
    }
  }

  /** A text that fits is kept whole, up to the spaces around it. */
  lemma FittingTextStays(text: string, budget: int, prefixOnly: bool)
    requires budget > 0 && TextCost(TrimSpace(text)) <= budget
    ensures TrimText(text, budget, prefixOnly) == TrimSpace(text)
  {
  }
}
