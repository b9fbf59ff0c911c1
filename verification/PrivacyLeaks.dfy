/** What masking hides: every isolated registered number, and exactly which texts keep a
    registered number in the clear. */
module PrivacyLeaks {
  import opened Text
  import opened Masking
  import opened QQPrivacy

  ghost predicate GoodPairs(pairs: seq<Pair>) {
    forall p :: p in pairs ==> p.from != "" && AllDigits(p.from) && p.to != "" && !HeadDigit(p.to)
  }

  ghost predicate AliasesHideNumbers(pairs: seq<Pair>) {
    forall p, q :: p in pairs && q in pairs ==> !Contains(p.to, q.from)
  }

  ghost predicate DistinctFroms(pairs: seq<Pair>) {
    forall i, j :: 0 <= i < j < |pairs| ==> pairs[i].from != pairs[j].from
  }

  /** The pairs the program masks with: all entries of a usable registry, longest first. */
  ghost predicate Ready(pairs: seq<Pair>) {
    GoodPairs(pairs) && AliasesHideNumbers(pairs) && DistinctFroms(pairs) && LongestFirst(pairs)
  }

  lemma RegistryIsReady(reg: Registry, pairs: seq<Pair>)
    requires Usable(reg) && Lists(pairs, reg.realToAlias) && LongestFirst(pairs)
    ensures Ready(pairs)
  {
    hide IsAlias, Contains;
    forall p | p in pairs ensures p.from != "" && AllDigits(p.from) && p.to != "" && !HeadDigit(p.to) {
      AliasShape(p.to);
    }
  }

  ghost predicate ContainsAny(s: string, pairs: seq<Pair>) {
    exists p :: p in pairs && Contains(s, p.from)
  }

  lemma {:induction false} MaskAllSplits(a: string, b: string, pairs: seq<Pair>)
    requires GoodPairs(pairs) && Apart(a, b)
    ensures MaskAll(a + b, pairs) == MaskAll(a, pairs) + MaskAll(b, pairs)
    ensures Apart(MaskAll(a, pairs), MaskAll(b, pairs))
    decreases |pairs|
  {
    hide Mask;
    if pairs != [] {
      var p := pairs[0];
      MaskSplits(a, b, false, p.from, p.to);
      MaskKeepsApart(a, b, p.from, p.to);
      MaskAllSplits(Mask(a, false, p.from, p.to), Mask(b, false, p.from, p.to), pairs[1..]);
    }
  }

  lemma {:induction false} MaskAllAbsent(s: string, pairs: seq<Pair>)
    requires GoodPairs(pairs) && !ContainsAny(s, pairs)
    ensures MaskAll(s, pairs) == s
    decreases |pairs|
  {
    hide Mask, Contains;
    if pairs != [] {
      assert pairs[0] in pairs;
      MaskAbsent(s, false, pairs[0].from, pairs[0].to);
      MaskAllAbsent(s, pairs[1..]);
    }
  }

  /** A registered number on its own becomes its alias, whatever else is registered. */
  lemma {:induction false} MaskAllOfNumber(pairs: seq<Pair>, k: nat)
    requires Ready(pairs) && k < |pairs|
    ensures MaskAll(pairs[k].from, pairs) == pairs[k].to
    decreases |pairs|
  {
    hide Mask, Contains;
    var p, h := pairs[k], pairs[0];
    if k == 0 {
      MaskWhole(p.from, p.to);
      MaskAllAbsent(p.to, pairs[1..]);
    } else {
      if Contains(p.from, h.from) {
        ContainsLength(p.from, h.from);
      }
      MaskAbsent(p.from, false, h.from, h.to);
      MaskAllOfNumber(pairs[1..], k - 1);
    }
  }

  lemma {:induction false} SpaceHoldsNoNumber(s: string, id: string)
    requires AllSpace(s) && id != "" && AllDigits(id)
    ensures !Contains(s, id)
  {
    DigitsInside(id, 0);
    if s != "" {
      assert forall k :: 0 <= k < |s| - 1 ==> s[1..][k] == s[k + 1];
      SpaceHoldsNoNumber(s[1..], id);
    }
  }

  /** Blank texts are skipped, which makes no difference. */
  lemma ProtectIsMaskAll(text: string, pairs: seq<Pair>)
    requires GoodPairs(pairs)
    ensures ProtectText(text, pairs) == MaskAll(text, pairs)
  {
    hide MaskAll, Contains;
    if Blank(text) {
      BlankIsAllSpace(text);
      forall p | p in pairs ensures !Contains(text, p.from) {
        SpaceHoldsNoNumber(text, p.from);
      }
      MaskAllAbsent(text, pairs);
    }
  }

  /** Completeness: a maximal run of digits that is a registered number is replaced by its
      alias, and what stands around it is protected as if it stood alone. */
  lemma IsolatedNumberIsMasked(x: string, y: string, pairs: seq<Pair>, k: nat)
    requires Ready(pairs) && k < |pairs|
    requires (x != "" ==> !IsDigit(x[|x| - 1])) && !HeadDigit(y)
    ensures ProtectText(x + pairs[k].from + y, pairs)
         == ProtectText(x, pairs) + pairs[k].to + ProtectText(y, pairs)
  {
    hide ProtectText;
    var id := pairs[k].from;
    ProtectIsMaskAll(x, pairs);
    ProtectIsMaskAll(y, pairs);
    ProtectIsMaskAll(x + id + y, pairs);
    MaskAllSplits(x + id, y, pairs);
    MaskAllSplits(x, id, pairs);
    MaskAllOfNumber(pairs, k);
  }

  // ----- Exactly which texts leak

  function RunLength(s: string): (n: nat)
    ensures n <= |s|
  {
    if HeadDigit(s) then 1 + RunLength(s[1..]) else 0
  }

  lemma {:induction false} RunIsMaximal(s: string)
    ensures AllDigits(s[..RunLength(s)]) && !HeadDigit(s[RunLength(s)..])
  {
    if HeadDigit(s) {
      RunIsMaximal(s[1..]);
      var n := RunLength(s);
      assert s[..n][1..] == s[1..][..n - 1] && s[n..] == s[1..][n - 1..];
    } else {
      assert s[0..] == s && s[..0] == "";
    }
  }

  /** A run of digits that is a registered number or contains none. */
  ghost predicate CleanRun(d: string, pairs: seq<Pair>) {
    (exists p :: p in pairs && p.from == d) || !ContainsAny(d, pairs)
  }

  /** Every maximal run of digits of the text is clean. */
  ghost predicate CleanRuns(s: string, pairs: seq<Pair>)
    decreases |s|
  {
    if s == "" then true
    else if !HeadDigit(s) then CleanRuns(s[1..], pairs)
    else CleanRun(s[..RunLength(s)], pairs) && CleanRuns(s[RunLength(s)..], pairs)
  }

  /** In a run that is not the number itself, the first occurrence stays in the clear, at the
      front of a run of digits. */
  lemma FirstOccurrenceStays(d: string, id: string, alias: string) returns (v: string, y: string)
    requires AllDigits(d) && id != "" && AllDigits(id) && d != id && Contains(d, id)
    ensures Mask(d, false, id, alias) == v + y && AllDigits(v) && !HeadDigit(y) && Contains(v, id)
  {
    hide Mask, AllDigits, Contains;
    IndexFinds(d, id);
    var i := IndexOf(d, id);
    MaskAt(d, i, id, alias);
    assert d == d[..i] + d[i..] && d[i..] == id + d[i + |id|..];
    DigitsOfConcat(d[..i], d[i..]);
    DigitsOfConcat(id, d[i + |id|..]);
    KeptUnlessWhole(d, i, id);
    var tail := Mask(d[i + |id|..], false, id, alias);
    RunIsMaximal(tail);
    var n := RunLength(tail);
    v, y := d[..i] + (id + tail[..n]), tail[n..];
    assert tail == tail[..n] + y;
    assert d[..i] + (id + tail) == v + y;
    DigitsOfConcat(id, tail[..n]);
    DigitsOfConcat(d[..i], id + tail[..n]);
    ContainsPrefix(id, tail[..n]);
    ContainsSuffix(d[..i], id + tail[..n], id);
  }

  lemma DigitsOfConcat(a: string, b: string)
    ensures AllDigits(a + b) <==> AllDigits(a) && AllDigits(b)
  {
    AllDigitsIff(a);
    AllDigitsIff(b);
    AllDigitsIff(a + b);
    assert forall k :: 0 <= k < |a| ==> a[k] == (a + b)[k];
    assert forall k :: 0 <= k < |b| ==> b[k] == (a + b)[|a| + k];
  }

  lemma ContainsPrefix(a: string, b: string)
    ensures Contains(a + b, a)
  {
    assert a <= a + b;
  }

  /** Inside a longer run of digits an occurrence always has a digit beside it. */
  lemma KeptUnlessWhole(d: string, i: nat, id: string)
    requires AllDigits(d) && i + |id| <= |d| && d[i..i + |id|] == id && d != id
    ensures (i > 0 && IsDigit(d[i - 1])) || HeadDigit(d[i + |id|..])
  {
    AllDigitsIff(d);
    assert d[0..|d|] == d;
  }

  lemma ContainsAnySplits(a: string, b: string, pairs: seq<Pair>)
    requires GoodPairs(pairs) && Apart(a, b)
    ensures ContainsAny(a + b, pairs) <==> ContainsAny(a, pairs) || ContainsAny(b, pairs)
  {
    hide Contains;
    forall p | p in pairs ensures Contains(a + b, p.from) <==> Contains(a, p.from) || Contains(b, p.from) {
      ContainsSplits(a, b, p.from);
    }
  }

  lemma {:induction false} DirtyRunLeaks(d: string, pairs: seq<Pair>)
    requires Ready(pairs) && AllDigits(d) && !CleanRun(d, pairs)
    ensures ContainsAny(MaskAll(d, pairs), pairs)
    decreases |pairs|
  {
    hide Mask, Contains;
    var h, tail := pairs[0], pairs[1..];
    assert Ready(tail);
    if !Contains(d, h.from) {
      MaskAbsent(d, false, h.from, h.to);
      DirtyRunLeaks(d, tail);
    } else {
      var v, y := FirstOccurrenceStays(d, h.from, h.to);
      ContainsLength(v, h.from);
      assert forall p :: p in tail ==> p.from != v;
      MaskAllSplits(v, y, tail);
      assert MaskAll(d, pairs) == MaskAll(v, tail) + MaskAll(y, tail);
      if ContainsAny(v, tail) {
        DirtyRunLeaks(v, tail);
        ContainsAnySplits(MaskAll(v, tail), MaskAll(y, tail), tail);
      } else {
        MaskAllAbsent(v, tail);
        ContainsSplits(v, MaskAll(y, tail), h.from);
      }
    }
  }

  lemma RunLeaksIffDirty(d: string, pairs: seq<Pair>)
    requires Ready(pairs) && AllDigits(d)
    ensures ContainsAny(MaskAll(d, pairs), pairs) <==> !CleanRun(d, pairs)
  {
    hide Contains, MaskAll;
    if k :| 0 <= k < |pairs| && pairs[k].from == d {
      MaskAllOfNumber(pairs, k);
    } else if !ContainsAny(d, pairs) {
      MaskAllAbsent(d, pairs);
    } else {
      DirtyRunLeaks(d, pairs);
    }
  }

  /** A protected text contains a registered number if and only if some run of digits of the
      original contains one without being one. */
  lemma {:induction false} LeaksIffDirty(text: string, pairs: seq<Pair>)
    requires Ready(pairs)
    ensures ContainsAny(ProtectText(text, pairs), pairs) <==> !CleanRuns(text, pairs)
    decreases |text|
  {
    hide Contains, MaskAll, ProtectText;
    ProtectIsMaskAll(text, pairs);
    if text == "" {
      MaskAllOfEmpty(pairs);
    } else {
      RunIsMaximal(text);
      var n := if HeadDigit(text) then RunLength(text) else 1;
      var d, rest := text[..n], text[n..];
      assert text == d + rest;
      MaskAllSplits(d, rest, pairs);
      ContainsAnySplits(MaskAll(d, pairs), MaskAll(rest, pairs), pairs);
      ProtectIsMaskAll(rest, pairs);
      LeaksIffDirty(rest, pairs);
      if HeadDigit(text) {
        RunLeaksIffDirty(d, pairs);
      } else {
        NonDigitHidesNothing(d, pairs);
      }
    }
  }

  lemma MaskAllOfEmpty(pairs: seq<Pair>)
    requires GoodPairs(pairs)
    ensures MaskAll("", pairs) == "" && !ContainsAny("", pairs)
  {
    assert !ContainsAny("", pairs);
    MaskAllAbsent("", pairs);
  }

  lemma NonDigitHidesNothing(c: string, pairs: seq<Pair>)
    requires GoodPairs(pairs) && |c| == 1 && !HeadDigit(c)
    ensures MaskAll(c, pairs) == c && !ContainsAny(c, pairs)
  {
    forall p | p in pairs ensures !Contains(c, p.from) {
      DigitsInside(p.from, 0);
      assert !(p.from <= c);
      assert c[1..] == "";
    }
    MaskAllAbsent(c, pairs);
  }

  // ----- The same of a registry

  ghost predicate HoldsNumber(s: string, reg: Registry) {
    exists n :: n in reg.realToAlias && Contains(s, n)
  }

  /** A maximal run of digits. */
  ghost predicate IsRun(s: string, i: nat, j: nat) {
    && i < j <= |s| && AllDigits(s[i..j])
    && (i > 0 ==> !IsDigit(s[i - 1])) && !HeadDigit(s[j..])
  }

  /** Completeness for a registry: every registered number that stands alone is masked. */
  lemma RegisteredNumberIsMasked(reg: Registry, pairs: seq<Pair>, x: string, number: string, y: string)
    requires Usable(reg) && Lists(pairs, reg.realToAlias) && LongestFirst(pairs) && number in reg.realToAlias
    requires (x != "" ==> !IsDigit(x[|x| - 1])) && !HeadDigit(y)
    ensures forall p :: p in pairs ==> p.from != ""
    ensures ProtectText(x + number + y, pairs)
         == ProtectText(x, pairs) + reg.realToAlias[number] + ProtectText(y, pairs)
  {
    hide Usable, ProtectText;
    RegistryIsReady(reg, pairs);
    var p := Pair(number, reg.realToAlias[number]);
    assert p in pairs;
    var k: nat :| k < |pairs| && pairs[k] == p;
    IsolatedNumberIsMasked(x, y, pairs, k);
  }

  /** A protected text still shows a registered number if and only if some maximal run of digits
      of the original is not registered itself but holds a registered number. */
  lemma ShowsNumberIff(reg: Registry, pairs: seq<Pair>, text: string)
    requires Usable(reg) && Lists(pairs, reg.realToAlias) && LongestFirst(pairs)
    ensures forall p :: p in pairs ==> p.from != ""
    ensures HoldsNumber(ProtectText(text, pairs), reg)
            <==> exists i: nat, j: nat ::
                   IsRun(text, i, j) && text[i..j] !in reg.realToAlias && HoldsNumber(text[i..j], reg)
  {
    hide Usable, ProtectText, CleanRuns, Contains, IsRun, LongestFirst;
    RegistryIsReady(reg, pairs);
    hide Ready;
    LeaksIffDirty(text, pairs);
    CleanRunsMeans(text, pairs);
    ListedNumbers(reg, pairs, ProtectText(text, pairs));
    forall i: nat, j: nat | i < j <= |text|
      ensures CleanRun(text[i..j], pairs) <==> text[i..j] in reg.realToAlias || !HoldsNumber(text[i..j], reg)
    {
      ListedNumbers(reg, pairs, text[i..j]);
    }
  }

  lemma ListedNumbers(reg: Registry, pairs: seq<Pair>, s: string)
    requires Lists(pairs, reg.realToAlias)
    ensures ContainsAny(s, pairs) <==> HoldsNumber(s, reg)
    ensures (exists p :: p in pairs && p.from == s) <==> s in reg.realToAlias
  {
    hide Contains;
    forall n | n in reg.realToAlias ensures Pair(n, reg.realToAlias[n]) in pairs {
    }
  }

  /** The runs that CleanRuns goes through are the maximal ones. */
  lemma {:induction false} CleanRunsMeans(s: string, pairs: seq<Pair>)
    ensures CleanRuns(s, pairs) <==> forall i: nat, j: nat :: IsRun(s, i, j) ==> CleanRun(s[i..j], pairs)
    decreases |s|
  {
    hide CleanRun, IsRun;
    if s == "" {
      NoRunInNothing();
    } else {
      var n := if HeadDigit(s) then RunLength(s) else 1;
      RunIsMaximal(s);
      var rest := s[n..];
      CleanRunsMeans(rest, pairs);
      FirstRun(s);
      forall i: nat, j: nat | n <= i < j <= |s|
        ensures IsRun(s, i, j) <==> IsRun(rest, i - n, j - n)
        ensures s[i..j] == rest[i - n..j - n]
      {
        RunBehind(s, n, i, j);
      }
      forall i: nat, j: nat | i < j <= |rest|
        ensures IsRun(rest, i, j) <==> IsRun(s, i + n, j + n)
        ensures rest[i..j] == s[i + n..j + n]
      {
        RunBehind(s, n, i + n, j + n);
      }
      forall t: string, i: nat, j: nat | IsRun(t, i, j) ensures i < j <= |t| {
        RunIsInside(t, i, j);
      }
    }
  }

  lemma NoRunInNothing()
    ensures forall i: nat, j: nat :: !IsRun("", i, j)
  {
  }

  lemma RunIsInside(s: string, i: nat, j: nat)
    requires IsRun(s, i, j)
    ensures i < j <= |s|
  {
  }

  /** Behind the first run, or the first character that is no digit, the runs are those of the
      rest. */
  lemma RunBehind(s: string, n: nat, i: nat, j: nat)
    requires 0 < n <= i < j <= |s| && (!IsDigit(s[n - 1]) || !HeadDigit(s[n..]))
    ensures IsRun(s, i, j) <==> IsRun(s[n..], i - n, j - n)
    ensures s[i..j] == s[n..][i - n..j - n]
  {
    var rest := s[n..];
    assert s[i..j] == rest[i - n..j - n] && s[j..] == rest[j - n..];
    if i == n {
      assert s[i..j][0] == rest[0];
    } else {
      assert s[i - 1] == rest[i - n - 1];
    }
  }

  /** A run that starts in the first one, or at a first character that is no digit, is the
      first run. */
  lemma FirstRun(s: string)
    requires s != ""
    ensures HeadDigit(s) ==> RunLength(s) > 0 && IsRun(s, 0, RunLength(s))
    ensures forall i: nat, j: nat :: i < (if HeadDigit(s) then RunLength(s) else 1) && IsRun(s, i, j) ==>
                                       HeadDigit(s) && i == 0 && j == RunLength(s)
  {
    RunIsMaximal(s);
    var n := RunLength(s);
    AllDigitsIff(s[..n]);
    assert forall k :: 0 <= k < n ==> s[..n][k] == s[k] && IsDigit(s[k]);
    assert HeadDigit(s[n..]) <==> n < |s| && IsDigit(s[n]);
    forall i: nat, j: nat | i < (if HeadDigit(s) then n else 1) && IsRun(s, i, j)
      ensures HeadDigit(s) && i == 0 && j == n
    {
      AllDigitsIff(s[i..j]);
      assert forall k :: i <= k < j ==> s[i..j][k - i] == s[k] && IsDigit(s[k]);
      assert HeadDigit(s[j..]) <==> j < |s| && IsDigit(s[j]);
    }
  }

  /** The quirk at work: a registered number written twice in a row keeps its first copy. */
  lemma DoubledNumberLeaks(id: string, alias: string)
    requires Ready([Pair(id, alias)])
    ensures ProtectText(id + id, [Pair(id, alias)]) == id + alias
  {
    hide Mask, Contains;
    var pairs := [Pair(id, alias)];
    assert pairs[0] in pairs;
    ProtectIsMaskAll(id + id, pairs);
    DigitsInside(id, 0);
    MaskStep(id + id, false, id, alias);
    assert (id + id)[|id|..] == id;
    MaskWhole(id, alias);
    assert pairs[1..] == [];
  }

  /** An alias that already stands in the text is turned into the number by the restore step,
      so the round trip needs a text without aliases. */
  lemma AliasInTextIsResolved(number: string, alias: string)
    requires Ready([Pair(number, alias)]) && !Blank(alias)
    ensures RestoreText(ProtectText(alias, [Pair(number, alias)]), [Pair(alias, number)]) == number
  {
    hide Mask, Contains;
    var pairs, back := [Pair(number, alias)], [Pair(alias, number)];
    assert pairs[0] in pairs;
    ProtectIsMaskAll(alias, pairs);
    MaskAllAbsent(alias, pairs);
    assert alias[|alias|..] == "" && number + "" == number;
    assert ReplaceAll(alias, alias, number) == number + ReplaceAll("", alias, number);
    assert back[1..] == [] && UnmaskAll(number, []) == number;
    assert ProtectText(alias, pairs) == alias;
  }

  /** Why the aliases must not contain registered numbers: one that does is masked a second
      time, so that it no longer stands in the protected text. */
  lemma NumberInAliasIsMaskedAgain(outer: Pair, inner: Pair, x: string, y: string)
    requires GoodPairs([outer, inner]) && |outer.from| >= |inner.from| && outer.from != inner.from
    requires outer.to == x + inner.from + y && !Contains(x, inner.from) && !Contains(y, inner.from)
    requires (x != "" ==> !IsDigit(x[|x| - 1])) && !HeadDigit(y)
    ensures ProtectText(outer.from, [outer, inner]) == x + inner.to + y
  {
    hide Mask, Contains;
    var pairs := [outer, inner];
    assert pairs[0] in pairs && pairs[1] in pairs && pairs[1..] == [inner] && [inner][1..] == [];
    ProtectIsMaskAll(outer.from, pairs);
    MaskWhole(outer.from, outer.to);
    MaskSplits(x + inner.from, y, false, inner.from, inner.to);
    MaskSplits(x, inner.from, false, inner.from, inner.to);
    MaskWhole(inner.from, inner.to);
    MaskAbsent(x, false, inner.from, inner.to);
    MaskAbsent(y, false, inner.from, inner.to);
    assert MaskAll(outer.from, pairs) == MaskAll(outer.to, [inner]);
  }

}
