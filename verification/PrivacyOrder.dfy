/** In which order masking can be undone when an alias holds a registered number: in the reverse
    order always, and for two numbers exactly when. */
module PrivacyOrder {
  import opened Text
  import opened Masking
  import opened QQPrivacy
  import opened PrivacyRoundTrip

  /** The replacement that undoes `p`. */
  function Flip(p: Pair): Pair { Pair(p.to, p.from) }

  /** The replacements that undo `pairs`, the last one first. */
  function Undoing(pairs: seq<Pair>): seq<Pair> {
    if pairs == [] then [] else Undoing(pairs[1..]) + [Flip(pairs[0])]
  }

  ghost predicate Typed(pairs: seq<Pair>) {
    && (forall p :: p in pairs ==> IsQQNumber(p.from) && IsAlias(p.to) && p.to != "")
    && (forall i, j :: 0 <= i < j < |pairs| ==> pairs[i].to != pairs[j].to)
  }

  ghost predicate FreeOf(text: string, pairs: seq<Pair>) { forall p :: p in pairs ==> !Contains(text, p.to) }

  // ----- One number

  /** What masking one number of a text amounts to. */
  lemma Masked(s: string, p: Pair) returns (cells: seq<Cell>)
    requires IsQQNumber(p.from) && IsAlias(p.to)
    ensures Render(cells, map[p.from := p.to]) == Mask(s, false, p.from, p.to) && Render(cells, map[]) == s
    ensures WellMasked(cells, map[p.from := p.to]) && KnownNumbers(cells)
  {
    hide IsAlias, IsQQNumber, Mask;
    RenderChars(s, map[]);
    cells := MaskLifts(Chars(s), map[], p.from, p.to, false);
    assert map[][p.from := p.to] == map[p.from := p.to];
    WellMaskedKnown(cells, map[p.from := p.to]);
  }

  /** One replacement is undone in every text without the alias. */
  lemma OneUndone(s: string, p: Pair)
    requires IsQQNumber(p.from) && IsAlias(p.to) && p.to != "" && !Contains(s, p.to)
    ensures ReplaceAll(Mask(s, false, p.from, p.to), p.to, p.from) == s
  {
    hide IsAlias, IsQQNumber, Mask, Contains, ReplaceAll, Render;
    var cells := Masked(s, p);
    var hidden := map[p.from := p.to];
    UnmaskShows(cells, hidden, p.from, p.to);
    assert hidden - {p.from} == map[];
  }

  /** Writing one alias brings no other one about. */
  lemma {:induction false} RenderedHoldsNoOther(cells: seq<Cell>, hidden: map<string, string>, alias: string)
    requires AliasMap(hidden) && KnownNumbers(cells) && IsAlias(alias)
    requires (forall r :: r in hidden ==> hidden[r] != alias) && !Contains(Render(cells, map[]), alias)
    ensures !Contains(Render(cells, hidden), alias)
  {
    hide IsAlias, IsQQNumber;
    if cells != [] {
      PlainDropsHead(cells, alias);
      RenderedHoldsNoOther(cells[1..], hidden, alias);
      var w, rest := Show(cells[0], hidden), Render(cells[1..], hidden);
      var s := w + rest;
      if cells[0].Id? && cells[0].number in hidden {
        NoAliasFromOther(alias, w, rest);
      } else {
        NoAliasFromShown(cells, hidden, alias);
      }
      ContainsIff(s, alias);
      ContainsIff(rest, alias);
      forall k | |w| <= k <= |s| ensures !(alias <= s[k..]) {
        assert s[k..] == rest[k - |w|..];
      }
    }
  }

  lemma MaskKeepsFree(s: string, p: Pair, alias: string)
    requires IsQQNumber(p.from) && IsAlias(p.to) && IsAlias(alias) && alias != p.to && !Contains(s, alias)
    ensures !Contains(Mask(s, false, p.from, p.to), alias)
  {
    hide IsAlias, IsQQNumber, Mask, Contains, Render;
    var cells := Masked(s, p);
    RenderedHoldsNoOther(cells, map[p.from := p.to], alias);
  }

  lemma MaskKeepsVisible(s: string, p: Pair)
    requires IsQQNumber(p.from) && IsAlias(p.to)
    ensures Blank(Mask(s, false, p.from, p.to)) ==> Blank(s)
  {
    assert p.from != "";
    hide IsAlias, IsQQNumber, Mask, Render, IsSpace;
    var cells := Masked(s, p);
    BlankIsAllSpace(s);
    BlankIsAllSpace(Mask(s, false, p.from, p.to));
    if Blank(Mask(s, false, p.from, p.to)) {
      BlankHidesNothing(cells, map[p.from := p.to]);
    }
  }

  // ----- The reverse order

  lemma {:induction false} UnmaskOneMore(s: string, a: seq<Pair>, q: Pair)
    requires (forall p :: p in a ==> p.from != "") && q.from != ""
    ensures UnmaskAll(s, a + [q]) == ReplaceAll(UnmaskAll(s, a), q.from, q.to)
    decreases |a|
  {
    hide ReplaceAll;
    if a == [] {
      assert ([] + [q])[1..] == [];
      assert UnmaskAll(s, [q]) == UnmaskAll(ReplaceAll(s, q.from, q.to), []);
    } else {
      assert (a + [q])[1..] == a[1..] + [q];
      UnmaskOneMore(ReplaceAll(s, a[0].from, a[0].to), a[1..], q);
    }
  }

  lemma {:induction false} UndoingMembers(pairs: seq<Pair>)
    ensures forall q :: q in Undoing(pairs) <==> exists p :: p in pairs && q == Flip(p)
  {
    if pairs != [] {
      UndoingMembers(pairs[1..]);
      assert pairs == [pairs[0]] + pairs[1..];
    }
  }

  /** Whatever numbers the aliases hold: undone from the last replacement to the first, masking is
      undone in every text without aliases. */
  lemma {:induction false} ReverseOrderUndoes(text: string, pairs: seq<Pair>)
    requires Typed(pairs) && FreeOf(text, pairs)
    ensures (forall p :: p in pairs ==> p.from != "") && (forall q :: q in Undoing(pairs) ==> q.from != "")
    ensures UnmaskAll(MaskAll(text, pairs), Undoing(pairs)) == text
    ensures Blank(MaskAll(text, pairs)) ==> Blank(text)
    decreases |pairs|
  {
    hide IsAlias, Mask, Contains, ReplaceAll, Blank;
    UndoingMembers(pairs);
    if pairs != [] {
      var p, rest := pairs[0], pairs[1..];
      var once := Mask(text, false, p.from, p.to);
      forall q | q in rest ensures !Contains(once, q.to) {
        var j :| 0 <= j < |rest| && rest[j] == q;
        assert pairs[j + 1] == q;
        MaskKeepsFree(text, p, q.to);
      }
      MaskKeepsVisible(text, p);
      ReverseOrderUndoes(once, rest);
      UnmaskOneMore(MaskAll(once, rest), Undoing(rest), Flip(p));
      OneUndone(text, p);
    }
  }

  /** So protecting and restoring in that order gives the text back. */
  lemma ReverseRoundTrip(text: string, pairs: seq<Pair>)
    requires Typed(pairs) && FreeOf(text, pairs)
    ensures (forall p :: p in pairs ==> p.from != "") && (forall q :: q in Undoing(pairs) ==> q.from != "")
    ensures RestoreText(ProtectText(text, pairs), Undoing(pairs)) == text
  {
    hide Blank, MaskAll, UnmaskAll;
    ReverseOrderUndoes(text, pairs);
  }

  // ----- Two numbers, the alias written first looked for first

  /** In a text without the letter q a replacement shows at the first place it is made. */
  lemma {:induction false} NothingReplaced(u: string, prevDigit: bool, p: Pair)
    requires p.from != "" && AllDigits(p.from) && p.to != "" && p.to[0] == 'q' && 'q' !in u
    ensures u <= Mask(u, prevDigit, p.from, p.to) ==> Mask(u, prevDigit, p.from, p.to) == u
    decreases |u|
  {
    hide Mask;
    var n := |p.from|;
    MaskStep(u, prevDigit, p.from, p.to);
    if u != "" && p.from <= u {
      var rest := u[n..];
      assert u == p.from + rest;
      if prevDigit || HeadDigit(rest) {
        NothingReplaced(rest, false, p);
      }
    } else if u != "" {
      var rest := u[1..];
      assert u == [u[0]] + rest;
      NothingReplaced(rest, IsDigit(u[0]), p);
    }
  }

  /** An alias that masking changes no longer stands in the result. */
  lemma AliasIsBroken(a: string, p: Pair)
    requires IsAlias(a) && IsAlias(p.to) && p.to != a && IsQQNumber(p.from) && !Leaves(a, p)
    ensures !Contains(Mask(a, false, p.from, p.to), a)
  {
    AliasShape(a);
    AliasShape(p.to);
    assert p.from != "" && IsDigit(p.from[0]);
    hide IsAlias, Mask, IsQQNumber, Leaves;
    var t, u := a[1..], a[2..];
    assert t[1..] == u && t[0] == 'q' && a == ['q'] + t && t == ['q'] + u;
    var m, mt, mu := Mask(a, false, p.from, p.to), Mask(t, false, p.from, p.to), Mask(u, false, p.from, p.to);
    MaskStep(a, false, p.from, p.to);
    MaskStep(t, false, p.from, p.to);
    assert m == ['q'] + mt && mt == ['q'] + mu && m[1..] == mt && mt[1..] == mu;
    AliasLongerThanTail(a);
    MaskKeepsFree(t, p, a);
    assert a <= m ==> u <= mu;
    NothingReplaced(u, false, p);
  }

  lemma AliasLongerThanTail(a: string)
    requires a != ""
    ensures !Contains(a[1..], a)
  {
    if Contains(a[1..], a) {
      ContainsLength(a[1..], a);
    }
  }

  lemma {:induction false} ReplaceAbsent(s: string, pat: string, rep: string)
    requires pat != "" && !Contains(s, pat)
    ensures ReplaceAll(s, pat, rep) == s
  {
    if s != "" {
      ReplaceAbsent(s[1..], pat, rep);
    }
  }

  lemma NoAliasInAlias(a: string, b: string)
    requires IsAlias(a) && IsAlias(b) && a != b
    ensures !Contains(b, a)
  {
    NoAliasFromOther(a, b, "");
    ContainsIff(b, a);
    AliasShape(a);
    assert b + "" == b;
  }

  /** A number has no alias in it, and is visible. */
  lemma NumberIsPlain(number: string, alias: string)
    requires IsQQNumber(number) && IsAlias(alias)
    ensures !Contains(number, alias) && !Blank(number)
  {
    AliasShape(alias);
    AllDigitsIff(number);
    CharsAreIn(number, alias, 0);
    VisibleNotBlank(number, 0);
  }

  lemma AliasIsVisible(alias: string)
    requires IsAlias(alias)
    ensures !Blank(alias)
  {
    AliasShape(alias);
    VisibleNotBlank(alias, 0);
  }

  lemma TwoSteps(text: string, a: Pair, b: Pair)
    requires a.from != "" && b.from != ""
    ensures MaskAll(text, [a, b]) == Mask(Mask(text, false, a.from, a.to), false, b.from, b.to)
    ensures UnmaskAll(text, [a, b]) == ReplaceAll(ReplaceAll(text, a.from, a.to), b.from, b.to)
  {
    hide Mask, ReplaceAll;
    var m, u := Mask(text, false, a.from, a.to), ReplaceAll(text, a.from, a.to);
    assert [a, b][1..] == [b] && [b][1..] == [];
    assert MaskAll(m, [b]) == MaskAll(Mask(m, false, b.from, b.to), []);
    assert UnmaskAll(u, [b]) == UnmaskAll(ReplaceAll(u, b.from, b.to), []);
  }

  /** When masking the second number changes the first one's alias and that alias is looked for
      first, the restore step gives the alias in place of the number. */
  lemma AliasIsLeft(outer: Pair, inner: Pair)
    requires Typed([outer, inner]) && outer.from != "" && inner.from != "" && !Leaves(outer.to, inner)
    ensures FreeOf(outer.from, [outer, inner])
    ensures RestoreText(ProtectText(outer.from, [outer, inner]), [Flip(outer), Flip(inner)]) == outer.to
  {
    TypedPairs(outer, inner);
    hide IsAlias, IsQQNumber, Mask, Contains, ReplaceAll, Blank, Leaves, MaskAll, UnmaskAll, Typed;
    NumberIsPlain(outer.from, outer.to);
    NumberIsPlain(outer.from, inner.to);
    var masked := Mask(outer.to, false, inner.from, inner.to);
    TwoSteps(outer.from, outer, inner);
    MaskWhole(outer.from, outer.to);
    AliasIsVisible(outer.to);
    MaskKeepsVisible(outer.to, inner);
    TwoSteps(masked, Flip(outer), Flip(inner));
    AliasIsBroken(outer.to, inner);
    ReplaceAbsent(masked, outer.to, outer.from);
    NoAliasInAlias(inner.to, outer.to);
    OneUndone(outer.to, inner);
  }

  lemma TypedPairs(outer: Pair, inner: Pair)
    requires Typed([outer, inner])
    ensures forall p :: p in [outer, inner] ==> IsQQNumber(p.from) && IsAlias(p.to) && p.to != ""
    ensures IsQQNumber(outer.from) && IsAlias(outer.to) && IsQQNumber(inner.from) && IsAlias(inner.to)
    ensures outer.to != inner.to && outer.from != "" && inner.from != "" && outer.to != "" && inner.to != ""
  {
    hide IsAlias;
    var pairs := [outer, inner];
    assert pairs[0] in pairs && pairs[1] in pairs && pairs[0].to != pairs[1].to;
  }

  /** For two numbers, looked for in the order in which they were masked, the round trip works for
      every text without aliases if and only if masking the second leaves the first one's alias
      as it is. (In the other order it always works: ReverseRoundTrip.) */
  lemma TwoNumbersIff(outer: Pair, inner: Pair)
    requires Typed([outer, inner]) && outer.from != inner.from
    ensures outer.from != "" && inner.from != "" && outer.to != "" && inner.to != ""
    ensures (forall text :: FreeOf(text, [outer, inner]) ==>
                              RestoreText(ProtectText(text, [outer, inner]), [Flip(outer), Flip(inner)]) == text)
            <==> Leaves(outer.to, inner)
  {
    TypedPairs(outer, inner);
    hide IsAlias, Leaves, RestoreText, ProtectText, Contains;
    if Leaves(outer.to, inner) {
      forall text | FreeOf(text, [outer, inner])
        ensures RestoreText(ProtectText(text, [outer, inner]), [Flip(outer), Flip(inner)]) == text
      {
        TwoNumbersReturn(text, outer, inner);
      }
    } else {
      AliasIsLeft(outer, inner);
      NumberIsNoAlias(outer);
    }
  }

  lemma NumberIsNoAlias(p: Pair)
    requires IsQQNumber(p.from) && IsAlias(p.to)
    ensures p.from != p.to
  {
    AliasShape(p.to);
  }

  lemma TwoNumbersReturn(text: string, outer: Pair, inner: Pair)
    requires Typed([outer, inner]) && outer.from != inner.from && FreeOf(text, [outer, inner])
    requires inner.from != "" && outer.from != "" && outer.to != "" && inner.to != "" && Leaves(outer.to, inner)
    ensures RestoreText(ProtectText(text, [outer, inner]), [Flip(outer), Flip(inner)]) == text
  {
    TypedPairs(outer, inner);
    hide IsAlias, Leaves, RestoreText, ProtectText, Contains, IsQQNumber;
    var reg := Registry(map[outer.from := outer.to, inner.from := inner.to],
                        map[outer.to := outer.from, inner.to := inner.from]);
    var pairs := [outer, inner];
    assert pairs[0] in pairs && pairs[1] in pairs;
    var back := [Flip(outer), Flip(inner)];
    assert back[0] in back && back[1] in back;
    RoundTrip(text, reg, pairs, reg, back);
  }
}
