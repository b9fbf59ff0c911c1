/** The string replacements behind the QQ-identifier masking of
    model/qqbot/llm_qq_privacy.go. */
module Masking {
  import opened Text

  /** strings.Contains, as a scan. */
  predicate Contains(s: string, pat: string) { pat <= s || (s != "" && Contains(s[1..], pat)) }

  /** strings.Index, as a scan. */
  function IndexOf(s: string, pat: string): int {
    if pat <= s then 0
    else if s == "" then -1
    else
      var r := IndexOf(s[1..], pat);
      if r < 0 then -1 else r + 1
  }

  /** strings.ReplaceAll for a non-empty pattern, as a scan. */
  function ReplaceAll(s: string, pat: string, rep: string): string
    requires pat != ""
    decreases |s|
  {
    if s == "" then ""
    else if pat <= s then rep + ReplaceAll(s[|pat|..], pat, rep)
    else [s[0]] + ReplaceAll(s[1..], pat, rep)
  }

  predicate AllDigits(s: string) { s == "" || (IsDigit(s[0]) && AllDigits(s[1..])) }

  predicate HeadDigit(s: string) { s != "" && IsDigit(s[0]) }

  /** Replaces `id` in what remains of a text by `alias` unless a digit stands on either
      side. `prevDigit` says whether the remainder has a digit just before this point; at the
      start of a remainder the program counts none. */
  function Mask(s: string, prevDigit: bool, id: string, alias: string): string
    requires id != ""
    decreases |s|
  {
    if s == "" then ""
    else if id <= s then
      var after := s[|id|..];
      (if prevDigit || HeadDigit(after) then id else alias) + Mask(after, false, id, alias)
    else [s[0]] + Mask(s[1..], IsDigit(s[0]), id, alias)
  }

  lemma {:induction false} IndexFinds(s: string, pat: string)
    ensures var r := IndexOf(s, pat);
            if r < 0 then !Contains(s, pat) && forall k :: 0 <= k <= |s| ==> !(pat <= s[k..])
            else r + |pat| <= |s| && s[r..r + |pat|] == pat && Contains(s, pat)
                 && forall k :: 0 <= k < r ==> !(pat <= s[k..])
  {
    if pat <= s {
      assert s[0..] == s;
    } else if s != "" {
      IndexFinds(s[1..], pat);
      assert forall k :: 1 <= k <= |s| ==> s[k..] == s[1..][k - 1..];
      assert s[0..] == s;
    } else {
      assert s[0..] == s;
    }
  }

  /** Where no occurrence starts, the text is copied. */
  lemma {:induction false} MaskSkips(s: string, i: nat, prevDigit: bool, id: string, alias: string)
    requires id != "" && i <= |s| && forall k :: 0 <= k < i ==> !(id <= s[k..])
    ensures Mask(s, prevDigit, id, alias)
         == s[..i] + Mask(s[i..], if i == 0 then prevDigit else IsDigit(s[i - 1]), id, alias)
    decreases i
  {
    hide Mask, IsDigit;
    assert s[0..] == s;
    if i == 0 {
      assert s[..0] == "";
    } else {
      var rest := s[1..];
      forall k | 0 <= k < i - 1 ensures !(id <= rest[k..]) {
        assert rest[k..] == s[k + 1..];
      }
      MaskSkips(rest, i - 1, IsDigit(s[0]), id, alias);
      MaskStep(s, prevDigit, id, alias);
      var tail := Mask(s[i..], if i == 1 then IsDigit(s[0]) else IsDigit(rest[i - 2]), id, alias);
      assert rest[i - 1..] == s[i..];
      assert [s[0]] + (rest[..i - 1] + tail) == s[..i] + tail;
    }
  }

  method ReplaceNumericIdentifier(text: string, identifier: string, replacement: string) returns (r: string)
    ensures identifier == "" ==> r == text
    ensures identifier != "" ==> r == Mask(text, false, identifier, replacement)
  {
    if identifier == "" {
      return text;
    }
    IndexFinds(text, identifier);
    if !Contains(text, identifier) {
      MaskSkips(text, |text|, false, identifier, replacement);
      return text;
    }
    var builder := "";
    var remaining := text;
    while true
      invariant builder + Mask(remaining, false, identifier, replacement) == Mask(text, false, identifier, replacement)
      decreases |remaining|
    {
      var index := IndexOf(remaining, identifier);
      IndexFinds(remaining, identifier);
      if index < 0 {
        MaskSkips(remaining, |remaining|, false, identifier, replacement);
        return builder + remaining;
      }
      var afterIndex := index + |identifier|;
      var beforeDigit := index > 0 && IsDigit(remaining[index - 1]);
      var afterDigit := afterIndex < |remaining| && IsDigit(remaining[afterIndex]);
      var middle := if beforeDigit || afterDigit then identifier else replacement;
      MaskAt(remaining, index, identifier, replacement);
      Regroup(builder, remaining[..index], middle, Mask(remaining[afterIndex..], false, identifier, replacement));
      builder := builder + remaining[..index] + middle;
      remaining := remaining[afterIndex..];
    }
  }

  lemma Regroup(a: string, b: string, c: string, d: string)
    ensures a + (b + (c + d)) == (a + b + c) + d
  {
  }

  /** One turn of the loop: copy up to the first occurrence, decide it, go on behind it. */
  lemma MaskAt(s: string, index: nat, id: string, alias: string)
    requires id != "" && index + |id| <= |s| && s[index..index + |id|] == id
    requires forall k :: 0 <= k < index ==> !(id <= s[k..])
    ensures var beforeDigit := index > 0 && IsDigit(s[index - 1]);
            var after := s[index + |id|..];
            Mask(s, false, id, alias)
            == s[..index] + ((if beforeDigit || HeadDigit(after) then id else alias) + Mask(after, false, id, alias))
  {
    MaskSkips(s, index, false, id, alias);
    assert s[index..][..|id|] == id;
    assert s[index..][|id|..] == s[index + |id|..];
  }

  /** One unfolding of the scan. */
  lemma MaskStep(s: string, prevDigit: bool, id: string, alias: string)
    requires id != ""
    ensures s == "" ==> Mask(s, prevDigit, id, alias) == ""
    ensures s != "" && id <= s ==>
              Mask(s, prevDigit, id, alias)
              == (if prevDigit || HeadDigit(s[|id|..]) then id else alias) + Mask(s[|id|..], false, id, alias)
    ensures s != "" && !(id <= s) ==>
              Mask(s, prevDigit, id, alias) == [s[0]] + Mask(s[1..], IsDigit(s[0]), id, alias)
  {
  }

  /** Not two digits at the seam of `a` and `b`. */
  predicate Apart(a: string, b: string) {
    a == "" || b == "" || !IsDigit(a[|a| - 1]) || !IsDigit(b[0])
  }

  lemma {:induction false} DigitsInside(s: string, k: nat)
    requires AllDigits(s) && k < |s|
    ensures IsDigit(s[k])
  {
    if k > 0 {
      DigitsInside(s[1..], k - 1);
    }
  }

  lemma {:induction false} AllDigitsIff(s: string)
    ensures AllDigits(s) <==> forall k :: 0 <= k < |s| ==> IsDigit(s[k])
  {
    if s != "" {
      AllDigitsIff(s[1..]);
      assert forall k :: 1 <= k < |s| ==> s[k] == s[1..][k - 1];
    }
  }

  /** A number never lies across a seam that is not digit to digit. */
  lemma NoNumberAcross(a: string, b: string, id: string)
    requires AllDigits(id) && Apart(a, b) && a != "" && id <= a + b
    ensures |id| <= |a| && id <= a
  {
    if |id| > |a| {
      DigitsInside(id, |a| - 1);
      DigitsInside(id, |a|);
    }
  }

  /** Masking treats the two sides of such a seam independently. */
  lemma {:induction false} MaskSplits(a: string, b: string, prevDigit: bool, id: string, alias: string)
    requires id != "" && AllDigits(id) && Apart(a, b)
    requires a == "" ==> !prevDigit || !HeadDigit(b)
    ensures Mask(a + b, prevDigit, id, alias) == Mask(a, prevDigit, id, alias) + Mask(b, false, id, alias)
    decreases |a|
  {
    hide Mask;
    MaskStep(a, prevDigit, id, alias);
    MaskStep(a + b, prevDigit, id, alias);
    DigitsInside(id, 0);
    if a == "" {
      assert a + b == b;
      MaskStep(b, false, id, alias);
    } else if id <= a + b {
      NoNumberAcross(a, b, id);
      assert (a + b)[|id|..] == a[|id|..] + b;
      if a[|id|..] == "" {
        DigitsInside(id, |id| - 1);
        assert a == id;
      }
      MaskSplits(a[|id|..], b, false, id, alias);
    } else {
      assert (a + b)[1..] == a[1..] + b;
      MaskSplits(a[1..], b, IsDigit(a[0]), id, alias);
    }
  }

  lemma {:induction false} MaskKeepsEdges(s: string, prevDigit: bool, id: string, alias: string)
    requires id != "" && AllDigits(id) && s != "" && alias != ""
    ensures var r := Mask(s, prevDigit, id, alias);
            && r != ""
            && (!IsDigit(s[0]) ==> r[0] == s[0])
            && (!IsDigit(s[|s| - 1]) ==> r[|r| - 1] == s[|s| - 1])
    decreases |s|
  {
    hide Mask;
    DigitsInside(id, 0);
    DigitsInside(id, |id| - 1);
    MaskStep(s, prevDigit, id, alias);
    var rest := if id <= s then s[|id|..] else s[1..];
    if rest == "" {
      MaskStep(rest, false, id, alias);
      MaskStep(rest, true, id, alias);
      assert s == if id <= s then id else [s[0]];
    } else {
      MaskKeepsEdges(rest, !(id <= s) && IsDigit(s[0]), id, alias);
    }
  }

  lemma MaskKeepsApart(a: string, b: string, id: string, alias: string)
    requires id != "" && AllDigits(id) && alias != "" && Apart(a, b)
    ensures Apart(Mask(a, false, id, alias), Mask(b, false, id, alias))
  {
    if a != "" {
      MaskKeepsEdges(a, false, id, alias);
    }
    if b != "" {
      MaskKeepsEdges(b, false, id, alias);
    }
  }

  lemma {:induction false} ContainsIff(s: string, pat: string)
    ensures Contains(s, pat) <==> exists k :: 0 <= k <= |s| && pat <= s[k..]
  {
    IndexFinds(s, pat);
    if Contains(s, pat) {
      var r := IndexOf(s, pat);
      assert pat <= s[r..];
    }
  }

  lemma {:induction false} ContainsSplits(a: string, b: string, id: string)
    requires id != "" && AllDigits(id) && Apart(a, b)
    ensures Contains(a + b, id) <==> Contains(a, id) || Contains(b, id)
    decreases |a|
  {
    if a == "" {
      assert a + b == b;
    } else {
      assert (a + b)[1..] == a[1..] + b;
      ContainsSplits(a[1..], b, id);
      if id <= a + b {
        NoNumberAcross(a, b, id);
      }
      if id <= a {
        assert id <= a + b;
      }
    }
  }

  lemma {:induction false} ContainsSuffix(a: string, b: string, pat: string)
    requires Contains(b, pat)
    ensures Contains(a + b, pat)
  {
    if a == "" {
      assert a + b == b;
    } else {
      assert (a + b)[1..] == a[1..] + b;
      ContainsSuffix(a[1..], b, pat);
    }
  }

  lemma ContainsLength(s: string, pat: string)
    requires Contains(s, pat)
    ensures |pat| <= |s| && (|pat| == |s| ==> pat == s)
  {
    IndexFinds(s, pat);
    var r := IndexOf(s, pat);
    if |pat| == |s| {
      assert s[0..|s|] == s;
    }
  }

  lemma MaskAbsent(s: string, prevDigit: bool, id: string, alias: string)
    requires id != "" && !Contains(s, id)
    ensures Mask(s, prevDigit, id, alias) == s
  {
    IndexFinds(s, id);
    MaskSkips(s, |s|, prevDigit, id, alias);
    MaskStep("", true, id, alias);
    MaskStep("", false, id, alias);
  }

  lemma MaskWhole(id: string, alias: string)
    requires id != ""
    ensures Mask(id, false, id, alias) == alias
  {
    assert id[|id|..] == "" && alias + "" == alias;
    MaskStep(id, false, id, alias);
    MaskStep("", false, id, alias);
  }

  lemma {:induction false} CharsAreIn(s: string, pat: string, i: nat)
    requires i < |pat|
    ensures Contains(s, pat) ==> pat[i] in s
  {
    if pat <= s {
      assert s[i] == pat[i];
    } else if s != "" {
      CharsAreIn(s[1..], pat, i);
    }
  }
}
