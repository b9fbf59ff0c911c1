/** Restoring is complete: no registered alias is left standing on its own, and so a text with
    such an alias in it never comes back from the round trip. */
module PrivacyRestore {
  import opened Text
  import opened Masking
  import opened QQPrivacy
  import opened PrivacyRoundTrip
  import opened PrivacyLeaks

  /** The text `t` starts `s` and no digit follows it. */
  predicate StartsAlone(s: string, t: string) { t <= s && !HeadDigit(s[|t|..]) }

  /** The alias occurs somewhere with no digit right behind it. */
  predicate Exposed(s: string, alias: string) { StartsAlone(s, alias) || (s != "" && Exposed(s[1..], alias)) }

  ghost predicate HoldsAlias(s: string, aliases: map<string, string>) {
    exists a :: a in aliases && Contains(s, a)
  }

  lemma {:induction false} ContainedIsExposed(s: string, alias: string)
    requires Contains(s, alias) && !DigitBehind(s, alias)
    ensures Exposed(s, alias)
  {
    if s != "" && !(alias <= s) {
      ContainedIsExposed(s[1..], alias);
    }
  }

  /** Somewhere the alias is followed by a digit. */
  predicate DigitBehind(s: string, alias: string) {
    (alias <= s && HeadDigit(s[|alias|..])) || (s != "" && DigitBehind(s[1..], alias))
  }

  // ----- One replacement

  /** A replacement of `other` by `number`, as the restore step makes it, and a tail of an alias
      that cannot hold the number. */
  ghost predicate Restores(other: string, number: string, tail: string) {
    && other != "" && number != "" && AllDigits(number) && !Contains(tail, number)
  }

  /** What a replaced text starts with, alone, the text itself started with: a number written
      in would lie inside it, or stand right behind it. */
  lemma {:induction false} StartWasThere(s: string, other: string, number: string, tail: string)
    requires Restores(other, number, tail)
    requires StartsAlone(ReplaceAll(s, other, number), tail)
    ensures StartsAlone(s, tail)
    decreases |s|
  {
    var r := ReplaceAll(s, other, number);
    if s != "" && other <= s {
      assert r[0] == number[0] && IsDigit(r[0]);
      NumberInFront(r, number, tail);
    } else if s != "" && tail != "" {
      assert r[1..] == ReplaceAll(s[1..], other, number) && r[1..][|tail| - 1..] == r[|tail|..];
      StartWasThere(s[1..], other, number, tail[1..]);
      assert s[1..][|tail| - 1..] == s[|tail|..];
    }
  }

  /** A text that starts with a number starts, alone, with nothing that cannot hold it. */
  lemma NumberInFront(r: string, number: string, tail: string)
    requires number != "" && AllDigits(number) && number <= r && !Contains(tail, number)
    ensures !StartsAlone(r, tail)
  {
    AllDigitsIff(number);
    if tail <= r && |tail| < |number| {
      assert r[|tail|] == number[|tail|];
    }
  }

  /** A replacement exposes no alias anew, and none of its own alias at all. */
  lemma {:induction false} ReplacingExposesNothing(s: string, other: string, number: string, alias: string)
    requires IsAlias(alias) && Restores(other, number, alias)
    ensures Exposed(ReplaceAll(s, other, number), alias) ==> Exposed(s, alias) && other != alias
    decreases |s|
  {
    hide Contains;
    AliasShape(alias);
    var r := ReplaceAll(s, other, number);
    if s != "" && other <= s {
      var rest := s[|other|..];
      AfterNumber(number, ReplaceAll(rest, other, number), alias);
      ReplacingExposesNothing(rest, other, number, alias);
      ExposedInSuffix(s, |other|, alias);
    } else if s != "" {
      assert r[1..] == ReplaceAll(s[1..], other, number);
      ReplacingExposesNothing(s[1..], other, number, alias);
      if StartsAlone(r, alias) {
        StartWasThere(s, other, number, alias);
      }
    }
  }

  /** No alias starts inside a number. */
  lemma {:induction false} AfterNumber(number: string, rest: string, alias: string)
    requires AllDigits(number) && alias != "" && alias[0] == 'q'
    ensures Exposed(number + rest, alias) ==> Exposed(rest, alias)
    decreases |number|
  {
    if number == "" {
      assert number + rest == rest;
    } else {
      assert (number + rest)[1..] == number[1..] + rest;
      AfterNumber(number[1..], rest, alias);
    }
  }

  lemma {:induction false} ExposedInSuffix(s: string, k: nat, alias: string)
    requires k <= |s|
    ensures Exposed(s[k..], alias) ==> Exposed(s, alias)
    decreases k
  {
    if k == 0 {
      assert s[0..] == s;
    } else {
      assert s[1..][k - 1..] == s[k..];
      ExposedInSuffix(s[1..], k - 1, alias);
    }
  }

  // ----- All replacements

  lemma {:induction false} UnmaskingExposesNothing(s: string, back: seq<Pair>, alias: string)
    requires IsAlias(alias) && forall p :: p in back ==> Restores(p.from, p.to, alias)
    ensures forall p :: p in back ==> p.from != ""
    ensures Exposed(UnmaskAll(s, back), alias) ==> Exposed(s, alias) && forall p :: p in back ==> p.from != alias
    decreases |back|
  {
    hide Contains, Exposed, ReplaceAll, AllDigits;
    if back != [] {
      var p := back[0];
      ReplacingExposesNothing(s, p.from, p.to, alias);
      UnmaskingExposesNothing(ReplaceAll(s, p.from, p.to), back[1..], alias);
    }
  }

  /** Whatever text is restored, no registered alias stands in the result without a digit right
      behind it. */
  lemma RestoredShowsNoAlias(s: string, reg: Registry, back: seq<Pair>, alias: string)
    requires Usable(reg) && Lists(back, reg.aliasToReal) && alias in reg.aliasToReal
    ensures (forall p :: p in back ==> p.from != "") && !Exposed(RestoreText(s, back), alias)
  {
    hide Contains, Exposed, ReplaceAll;
    AliasesNonEmpty(reg, back);
    if Blank(s) {
      BlankIsAllSpace(s);
      SpaceExposesNothing(s, alias);
    } else {
      assert Pair(alias, reg.aliasToReal[alias]) in back;
      assert alias == reg.realToAlias[reg.aliasToReal[alias]];
      forall p | p in back ensures Restores(p.from, p.to, alias) {
        assert p.to in reg.realToAlias;
      }
      UnmaskingExposesNothing(s, back, alias);
    }
  }

  lemma {:induction false} SpaceExposesNothing(s: string, alias: string)
    requires AllSpace(s) && IsAlias(alias)
    ensures !Exposed(s, alias)
  {
    AliasShape(alias);
    if s != "" {
      assert forall k :: 0 <= k < |s| - 1 ==> s[1..][k] == s[k + 1];
      SpaceExposesNothing(s[1..], alias);
    }
  }

  /** For texts without aliases, and for those in which one stands without a digit behind it, the
      round trip works exactly for the former. */
  lemma RoundTripIff(text: string, reg: Registry, pairs: seq<Pair>, back: seq<Pair>)
    requires Usable(reg) && Lists(pairs, reg.realToAlias) && Lists(back, reg.aliasToReal)
    requires HoldsAlias(text, reg.aliasToReal) ==> exists a :: a in reg.aliasToReal && Exposed(text, a)
    ensures (forall p :: p in pairs ==> p.from != "") && (forall p :: p in back ==> p.from != "")
    ensures RestoreText(ProtectText(text, pairs), back) == text <==> !HoldsAlias(text, reg.aliasToReal)
  {
    hide Contains, Exposed, RestoreText, ProtectText, IsAlias;
    FromsNonEmpty(reg, pairs);
    AliasesNonEmpty(reg, back);
    if HoldsAlias(text, reg.aliasToReal) {
      var a :| a in reg.aliasToReal && Exposed(text, a);
      RestoredShowsNoAlias(ProtectText(text, pairs), reg, back, a);
    } else {
      UsableIsSettled(reg, pairs);
      RoundTrip(text, reg, pairs, reg, back);
    }
  }

  /** In particular where no alias is followed by a digit. */
  lemma HeldIsExposed(text: string, aliases: map<string, string>)
    requires forall a :: a in aliases ==> !DigitBehind(text, a)
    ensures HoldsAlias(text, aliases) ==> exists a :: a in aliases && Exposed(text, a)
  {
    hide Contains, Exposed, DigitBehind;
    if HoldsAlias(text, aliases) {
      var a :| a in aliases && Contains(text, a);
      ContainedIsExposed(text, a);
    }
  }

  // ----- What is left: an alias with a digit behind it

  /** Behind the beginning of an alias another alias starts nowhere but at its end, or in front. */
  lemma NoAliasInside(x: string, whole: string, next: string, alias: string)
    requires IsAlias(whole) && IsAlias(alias) && 3 <= |x| && x <= whole
    ensures forall k :: 1 <= k < |x| ==> !(alias <= (x + next)[k..])
  {
    AliasShape(whole);
    AliasShape(alias);
    var s := x + next;
    forall k | 1 <= k < |x| ensures !(alias <= s[k..]) {
      assert s[k..][0] == whole[k];
      if k == 1 {
        assert s[1..][1] == whole[2];
      }
    }
  }

  /** The beginning of an alias, then another alias: only that one is found. */
  lemma UnmaskBehindCut(x: string, whole: string, next: string, number: string)
    requires IsAlias(whole) && IsAlias(next) && whole != next
    requires 3 <= |x| < |whole| && x <= whole
    ensures ReplaceAll(x + next, whole, number) == x + next
    ensures ReplaceAll(x + next, next, number) == x + number
  {
    hide IsAlias, ReplaceAll;
    var s := x + next;
    assert s[0..] == s && s[|x|..] == next && next + "" == next;
    NoAliasInside(x, whole, next, whole);
    NoAliasInside(x, whole, next, next);
    if whole <= s {
      assert whole[|x|..] <= s[|x|..];
      AliasClash(whole, next, "", |x|);
    }
    if next <= s {
      if |x| < |next| {
        assert next[|x|..] <= s[|x|..];
        AliasClash(next, next, "", |x|);
      } else {
        assert next <= whole;
        AliasesArePrefixFree(next, whole, whole);
      }
    }
    forall k | 0 <= k < |s| ensures !(whole <= s[k..]) {
      if k >= |x| {
        NoAliasFromOther(whole, next, "");
        assert s[k..] == next[k - |x|..];
      }
    }
    ReplaceAllSkips(s, |s|, whole, number);
    ReplaceAllStep("", whole, number);
    assert s[|s|..] == "" && s[..|s|] == s;
    ReplaceAllSkips(s, |x|, next, number);
    ReplaceAllStep(next, next, number);
    ReplaceAllStep("", next, number);
    assert next[|next|..] == "" && number + "" == number && s[..|x|] == x;
  }

  /** An alias that ends in digits, with the rest of a registered number behind it. Masking turns
      the number into its own alias, and then the text comes back if the first alias is looked
      for first and does not if it is looked for last. The two are equally long, so the program
      may take either order. */
  lemma OrderMatters(first: Pair, second: Pair, x: string, d: string, y: string)
    requires IsAlias(first.to) && IsAlias(second.to) && first.to != second.to && |first.to| == |second.to|
    requires Ready([second, first])
    requires first.to == x + d && d != "" && AllDigits(d) && second.from == d + y && AllDigits(y)
    requires 3 <= |x| && !IsDigit(x[|x| - 1])
    ensures var text := first.to + y;
            var one, other := Pair(first.to, first.from), Pair(second.to, second.from);
            && LongestFirst([one, other]) && LongestFirst([other, one])
            && RestoreText(ProtectText(text, [second, first]), [one, other]) == text
            && RestoreText(ProtectText(text, [second, first]), [other, one]) == first.from + y != text
  {
    ReadyNumber([second, first], first);
    ReadyNumber([second, first], second);
    EitherOrder(Pair(first.to, first.from), Pair(second.to, second.from));
    hide IsAlias, ReplaceAll, RestoreText, ProtectText, Ready, Contains, AllDigits, LongestFirst;
    ThreePieces(x, d, y);
    CutIsMasked([second, first], x, d, y);
    BothOrders(x, first, second);
    AliasThenDigits(first, y);
  }

  lemma EitherOrder(one: Pair, other: Pair)
    requires |one.from| == |other.from|
    ensures LongestFirst([one, other]) && LongestFirst([other, one])
  {
  }

  lemma ThreePieces(a: string, b: string, c: string)
    ensures (a + b) + c == a + (b + c) && a <= a + b
  {
  }

  lemma BothOrders(x: string, first: Pair, second: Pair)
    requires IsAlias(first.to) && IsAlias(second.to) && first.to != second.to
    requires 3 <= |x| < |first.to| && x <= first.to
    ensures first.to != "" && second.to != ""
    ensures var masked, one, other := x + second.to, Pair(first.to, first.from), Pair(second.to, second.from);
            && RestoreText(masked, [one, other]) == x + second.from
            && RestoreText(masked, [other, one]) == ReplaceAll(x + second.from, first.to, first.from)
  {
    hide IsAlias, ReplaceAll, RestoreText;
    AliasShape(first.to);
    AliasShape(second.to);
    var masked, one, other := x + second.to, Pair(first.to, first.from), Pair(second.to, second.from);
    assert masked[0] == first.to[0];
    UnmaskBehindCut(x, first.to, second.to, second.from);
    UnmaskBehindCut(x, first.to, second.to, first.from);
    TwoReplacements(masked, one, other);
    TwoReplacements(masked, other, one);
  }

  lemma ReadyNumber(pairs: seq<Pair>, p: Pair)
    requires Ready(pairs) && p in pairs
    ensures p.from != "" && AllDigits(p.from)
  {
  }

  lemma AliasThenDigits(p: Pair, y: string)
    requires IsAlias(p.to) && p.from != "" && AllDigits(p.from) && AllDigits(y) && p.to != ""
    ensures ReplaceAll(p.to + y, p.to, p.from) == p.from + y != p.to + y
  {
    hide IsAlias, ReplaceAll;
    AliasShape(p.to);
    var text := p.to + y;
    assert text[|p.to|..] == y;
    ReplaceAllStep(text, p.to, p.from);
    NumberHoldsNoAlias(y, p.to, p.from);
    DigitsInside(p.from, 0);
    assert (p.from + y)[0] == p.from[0] && text[0] == p.to[0];
  }

  lemma TwoReplacements(s: string, a: Pair, b: Pair)
    requires a.from != "" && b.from != "" && s != "" && s[0] == 'q'
    ensures RestoreText(s, [a, b]) == ReplaceAll(ReplaceAll(s, a.from, a.to), b.from, b.to)
  {
    hide ReplaceAll, Blank;
    QIsVisible(s);
    var mid := ReplaceAll(s, a.from, a.to);
    assert [a, b][1..] == [b] && [b][1..] == [];
    assert UnmaskAll(s, [a, b]) == UnmaskAll(mid, [b]);
    assert UnmaskAll(mid, [b]) == UnmaskAll(ReplaceAll(mid, b.from, b.to), []);
  }

  lemma QIsVisible(s: string)
    requires s != "" && s[0] == 'q'
    ensures !Blank(s)
  {
    VisibleNotBlank(s, 0);
  }

  lemma {:induction false} NumberHoldsNoAlias(y: string, alias: string, number: string)
    requires AllDigits(y) && alias != "" && alias[0] == 'q'
    ensures ReplaceAll(y, alias, number) == y
  {
    if y != "" {
      NumberHoldsNoAlias(y[1..], alias, number);
    }
  }

  lemma CutIsMasked(pairs: seq<Pair>, x: string, d: string, y: string)
    requires |pairs| == 2 && Ready(pairs) && pairs[0].from == d + y && pairs[1].to == x + d
    requires x != "" && !IsDigit(x[|x| - 1])
    ensures ProtectText(x + (d + y), pairs) == x + pairs[0].to
  {
    hide IsAlias, Mask, Contains, MaskAll, ProtectText;
    IsolatedNumberIsMasked(x, "", pairs, 0);
    assert x + (d + y) + "" == x + (d + y);
    ProtectIsMaskAll(x, pairs);
    ProtectIsMaskAll("", pairs);
    MaskAllOfEmpty(pairs);
    assert pairs[1] in pairs;
    forall p | p in pairs ensures !Contains(x, p.from) {
      HoldsIfBeginningDoes(x, d, p.from);
    }
    MaskAllAbsent(x, pairs);
    assert x + pairs[0].to + "" == x + pairs[0].to;
  }

  lemma {:induction false} HoldsIfBeginningDoes(a: string, b: string, pat: string)
    ensures Contains(a, pat) ==> Contains(a + b, pat)
  {
    if a != "" && !(pat <= a) {
      HoldsIfBeginningDoes(a[1..], b, pat);
      assert (a + b)[1..] == a[1..] + b;
    }
  }

  const ALIAS_ONE := "qq_user_" + "abcdefabcd12"
  const ALIAS_TWO := "qq_user_" + "abcdefabcdef"

  /** Two such numbers and a text. */
  lemma OrderMattersForOneText()
    ensures var one, other := Pair(ALIAS_ONE, "98765"), Pair(ALIAS_TWO, "123456");
            var masked := ProtectText(ALIAS_ONE + "3456", [Pair("123456", ALIAS_TWO), Pair("98765", ALIAS_ONE)]);
            && RestoreText(masked, [one, other]) == ALIAS_ONE + "3456"
            && RestoreText(masked, [other, one]) == "98765" + "3456"
  {
    hide Contains, RestoreText, ProtectText, IsAlias, LongestFirst, Ready, AllDigits;
    OneAndTwoAreAliases();
    OneAndTwoAreReady();
    DigitsOf("12");
    DigitsOf("3456");
    assert "12" + "3456" == "123456";
    var x := "qq_user_" + "abcdefabcd";
    assert "abcdefabcd" + "12" == "abcdefabcd12";
    assert ALIAS_ONE == x + "12";
    OrderMatters(Pair("98765", ALIAS_ONE), Pair("123456", ALIAS_TWO), x, "12", "3456");
  }

  lemma OneAndTwoAreAliases()
    ensures IsAlias(ALIAS_ONE) && IsAlias(ALIAS_TWO)
  {
    IsUserAlias("abcdefabcd12");
    IsUserAlias("abcdefabcdef");
  }

  lemma IsUserAlias(tag: string)
    requires IsTag(tag)
    ensures IsAlias("qq_user_" + tag)
  {
    var a := AliasOf(User, tag);
    assert "qq_" + "user" + "_" == "qq_user_";
    assert a == "qq_user_" + tag && a[|a| - 12..] == tag;
  }

  lemma DigitsOf(s: string)
    requires forall k :: 0 <= k < |s| ==> IsDigit(s[k])
    ensures AllDigits(s)
  {
    AllDigitsIff(s);
  }

  lemma OneAndTwoAreReady()
    ensures Ready([Pair("123456", ALIAS_TWO), Pair("98765", ALIAS_ONE)])
  {
    hide Contains, AliasesHideNumbers, AllDigits;
    DigitsOf("123456");
    DigitsOf("98765");
    OneAndTwoHideNumbers();
  }

  lemma OneAndTwoHideNumbers()
    ensures AliasesHideNumbers([Pair("123456", ALIAS_TWO), Pair("98765", ALIAS_ONE)])
  {
    hide Contains;
    var pairs := [Pair("123456", ALIAS_TWO), Pair("98765", ALIAS_ONE)];
    forall alias, number | alias in {ALIAS_ONE, ALIAS_TWO} && number in {"98765", "123456"}
      ensures !Contains(alias, number)
    {
      NoSixIn(alias);
      CharsAreIn(alias, number, if number == "98765" then 3 else 5);
    }
  }

  lemma NoSixIn(alias: string)
    requires alias in {ALIAS_ONE, ALIAS_TWO}
    ensures '6' !in alias
  {
  }

}
