/** Unmasking undoes masking: a masked text is a sequence of cells, each a character or a
    hidden number, and the two directions only change which numbers are hidden. */
module PrivacyRoundTrip {
  import opened Text
  import opened Masking
  import opened QQPrivacy

  datatype Cell = Ch(c: char) | Id(number: string)

  function Show(cell: Cell, hidden: map<string, string>): string {
    match cell
    case Ch(c) => [c]
    case Id(number) => if number in hidden then hidden[number] else number
  }

  /** The text of `cells` when the numbers in `hidden` are shown as their aliases. */
  function Render(cells: seq<Cell>, hidden: map<string, string>): string {
    if cells == [] then "" else Show(cells[0], hidden) + Render(cells[1..], hidden)
  }

  function Chars(s: string): seq<Cell> { if s == "" then [] else [Ch(s[0])] + Chars(s[1..]) }

  predicate StartsWithDigit(cells: seq<Cell>) { cells != [] && cells[0].Ch? && IsDigit(cells[0].c) }

  /** Every hidden number is known and no digit follows it. */
  predicate WellMasked(cells: seq<Cell>, hidden: map<string, string>) {
    cells == [] ||
    (&& (cells[0].Id? ==> cells[0].number in hidden && !StartsWithDigit(cells[1..]))
     && WellMasked(cells[1..], hidden))
  }

  ghost predicate AliasMap(hidden: map<string, string>) {
    forall r :: r in hidden ==> IsQQNumber(r) && IsAlias(hidden[r])
  }

  lemma {:induction false} RenderConcat(a: seq<Cell>, b: seq<Cell>, hidden: map<string, string>)
    ensures Render(a + b, hidden) == Render(a, hidden) + Render(b, hidden)
  {
    if a == [] {
      assert a + b == b;
    } else {
      assert (a + b)[1..] == a[1..] + b;
      RenderConcat(a[1..], b, hidden);
    }
  }

  lemma {:induction false} RenderChars(s: string, hidden: map<string, string>)
    ensures Render(Chars(s), hidden) == s && WellMasked(Chars(s), hidden)
  {
    if s != "" {
      RenderChars(s[1..], hidden);
      assert ([Ch(s[0])] + Chars(s[1..]))[1..] == Chars(s[1..]);
    }
  }

  lemma HeadOfRender(cells: seq<Cell>, hidden: map<string, string>)
    requires AliasMap(hidden) && WellMasked(cells, hidden)
    ensures HeadDigit(Render(cells, hidden)) <==> StartsWithDigit(cells)
    ensures cells != [] ==> Render(cells, hidden) != ""
  {
    if cells != [] && cells[0].Id? {
      AliasShape(hidden[cells[0].number]);
    }
  }

  // ----- Masking hides numbers and changes nothing else

  /** Digits at the front of a rendering are characters, not part of an alias. */
  lemma {:induction false} DigitsAreChars(cells: seq<Cell>, hidden: map<string, string>, d: string)
      returns (after: seq<Cell>)
    requires AliasMap(hidden) && WellMasked(cells, hidden)
    requires AllDigits(d) && d <= Render(cells, hidden)
    ensures cells == Chars(d) + after && WellMasked(after, hidden)
    decreases |d|
  {
    hide IsAlias, IsQQNumber;
    if d == "" {
      after := cells;
    } else {
      HeadOfRender(cells, hidden);
      var rest := Render(cells[1..], hidden);
      assert Render(cells, hidden) == [cells[0].c] + rest;
      assert d[1..] <= ([cells[0].c] + rest)[1..] == rest;
      after := DigitsAreChars(cells[1..], hidden, d[1..]);
      assert [Ch(d[0])] + (Chars(d[1..]) + after) == ([Ch(d[0])] + Chars(d[1..])) + after;
    }
  }

  /** Masking the number of `p` leaves the alias as it is. */
  predicate Leaves(alias: string, p: Pair)
    requires p.from != ""
  {
    Mask(alias, false, p.from, p.to) == alias
  }

  /** Nor does it change the alias where a text goes on behind it without a digit. */
  lemma MaskPassesAlias(a: string, rest: string, prevDigit: bool, p: Pair)
    requires p.from != "" && AllDigits(p.from) && IsAlias(a) && Leaves(a, p) && !HeadDigit(rest)
    ensures Mask(a + rest, prevDigit, p.from, p.to) == a + Mask(rest, false, p.from, p.to)
  {
    hide IsAlias, Mask;
    AliasShape(a);
    MaskSplits(a, rest, prevDigit, p.from, p.to);
    DigitsInside(p.from, 0);
    MaskStep(a, prevDigit, p.from, p.to);
    MaskStep(a, false, p.from, p.to);
  }

  /** Masking one more number turns some runs of characters into that number's cell. */
  lemma {:induction false} MaskLifts(cells: seq<Cell>, hidden: map<string, string>, id: string, alias: string,
      prevDigit: bool)
      returns (out: seq<Cell>)
    requires AliasMap(hidden) && WellMasked(cells, hidden) && id !in hidden
    requires IsQQNumber(id) && IsAlias(alias) && forall r :: r in hidden ==> Leaves(hidden[r], Pair(id, alias))
    ensures Render(out, hidden[id := alias]) == Mask(Render(cells, hidden), prevDigit, id, alias)
    ensures Render(out, map[]) == Render(cells, map[])
    ensures WellMasked(out, hidden[id := alias])
    ensures StartsWithDigit(out) ==> StartsWithDigit(cells)
    decreases |cells|
  {
    hide Mask, Contains, IsAlias;
    var s, more := Render(cells, hidden), hidden[id := alias];
    MaskStep(s, prevDigit, id, alias);
    if cells == [] {
      out := [];
    } else if cells[0].Id? {
      var rest, a := Render(cells[1..], hidden), hidden[cells[0].number];
      HeadOfRender(cells[1..], hidden);
      AliasShape(a);
      MaskPassesAlias(a, rest, prevDigit, Pair(id, alias));
      var tail := MaskLifts(cells[1..], hidden, id, alias, false);
      out := [cells[0]] + tail;
      assert s == a + rest && out[1..] == tail;
    } else if id <= s {
      out := MaskLiftsHere(cells, hidden, id, alias, prevDigit);
    } else {
      var tail := MaskLifts(cells[1..], hidden, id, alias, IsDigit(cells[0].c));
      out := [cells[0]] + tail;
      assert out[1..] == tail && s[1..] == Render(cells[1..], hidden);
      HeadOfRender(cells, hidden);
    }
  }

  lemma RenderOfCut(d: string, after: seq<Cell>, hidden: map<string, string>)
    ensures Render(Chars(d) + after, hidden) == d + Render(after, hidden)
  {
    RenderChars(d, hidden);
    RenderConcat(Chars(d), after, hidden);
  }

  lemma {:induction false} CharsLength(d: string)
    ensures |Chars(d)| == |d|
  {
    if d != "" {
      CharsLength(d[1..]);
    }
  }

  /** The step at an occurrence of the number. */
  lemma MaskLiftsHere(cells: seq<Cell>, hidden: map<string, string>, id: string, alias: string, prevDigit: bool)
      returns (out: seq<Cell>)
    requires AliasMap(hidden) && WellMasked(cells, hidden) && id !in hidden
    requires IsQQNumber(id) && IsAlias(alias) && forall r :: r in hidden ==> Leaves(hidden[r], Pair(id, alias))
    requires cells != [] && cells[0].Ch? && id <= Render(cells, hidden)
    ensures Render(out, hidden[id := alias]) == Mask(Render(cells, hidden), prevDigit, id, alias)
    ensures Render(out, map[]) == Render(cells, map[])
    ensures WellMasked(out, hidden[id := alias])
    ensures StartsWithDigit(out) ==> StartsWithDigit(cells)
    decreases |cells|, 0
  {
    hide Mask, Contains, IsAlias;
    var s, more := Render(cells, hidden), hidden[id := alias];
    MaskStep(s, prevDigit, id, alias);
    var after := DigitsAreChars(cells, hidden, id);
    RenderOfCut(id, after, hidden);
    RenderOfCut(id, after, map[]);
    HeadOfRender(cells, hidden);
    HeadOfRender(after, hidden);
    CharsLength(id);
    var tail := MaskLifts(after, hidden, id, alias, false);
    if prevDigit || StartsWithDigit(after) {
      out := Chars(id) + tail;
      RenderOfCut(id, tail, more);
      RenderOfCut(id, tail, map[]);
      CharsThenWellMasked(id, tail, more);
    } else {
      out := [Id(id)] + tail;
      assert out[1..] == tail;
    }
  }

  lemma {:induction false} CharsThenWellMasked(s: string, tail: seq<Cell>, hidden: map<string, string>)
    requires WellMasked(tail, hidden)
    ensures WellMasked(Chars(s) + tail, hidden)
  {
    if s == "" {
      assert Chars(s) + tail == tail;
    } else {
      assert (Chars(s) + tail)[1..] == Chars(s[1..]) + tail;
      CharsThenWellMasked(s[1..], tail, hidden);
    }
  }

  ghost predicate SubMap(small: map<string, string>, large: map<string, string>) {
    forall k :: k in small ==> k in large && small[k] == large[k]
  }

  /** Masking a later number leaves every alias as it is that may have been written before. */
  ghost predicate Settled(pairs: seq<Pair>)
    requires forall p :: p in pairs ==> p.from != ""
  {
    forall i, j :: 0 <= i < j < |pairs| ==> Leaves(pairs[i].to, pairs[j])
  }

  lemma SettledRest(pairs: seq<Pair>)
    requires pairs != [] && (forall p :: p in pairs ==> p.from != "") && Settled(pairs)
    ensures forall q :: q in pairs[1..] ==> q in pairs && Leaves(pairs[0].to, q)
    ensures Settled(pairs[1..])
  {
    hide Leaves;
    var rest := pairs[1..];
    forall q | q in rest ensures q in pairs && Leaves(pairs[0].to, q) {
      var j :| 0 <= j < |rest| && rest[j] == q;
      assert pairs[j + 1] == q;
    }
    forall i, j | 0 <= i < j < |rest| ensures Leaves(rest[i].to, rest[j]) {
      assert rest[i] == pairs[i + 1] && rest[j] == pairs[j + 1];
    }
  }

  /** So it is when no alias contains a registered number. */
  lemma UsableIsSettled(reg: Registry, pairs: seq<Pair>)
    requires Usable(reg) && Lists(pairs, reg.realToAlias)
    ensures (forall p :: p in pairs ==> p.from != "") && Settled(pairs)
  {
    hide IsAlias, Contains, Mask;
    forall i, j | 0 <= i < j < |pairs| ensures Leaves(pairs[i].to, pairs[j]) {
      assert pairs[i] in pairs && pairs[j] in pairs;
      MaskAbsent(pairs[i].to, false, pairs[j].from, pairs[j].to);
    }
  }

  /** Masking all pairs hides a part of the registry and leaves the plain text alone. */
  lemma {:induction false} MaskAllLifts(cells: seq<Cell>, hidden: map<string, string>, reg: Registry, pairs: seq<Pair>)
      returns (out: seq<Cell>, more: map<string, string>)
    requires WellTyped(reg) && SubMap(hidden, reg.realToAlias)
    requires forall p :: p in pairs ==> p.from in reg.realToAlias && reg.realToAlias[p.from] == p.to
    requires forall p :: p in pairs ==> p.from !in hidden
    requires Settled(pairs) && forall r, p :: r in hidden && p in pairs ==> Leaves(hidden[r], p)
    requires forall i, j :: 0 <= i < j < |pairs| ==> pairs[i].from != pairs[j].from
    requires WellMasked(cells, hidden)
    ensures forall p :: p in pairs ==> p.from != ""
    ensures Render(out, more) == MaskAll(Render(cells, hidden), pairs)
    ensures Render(out, map[]) == Render(cells, map[])
    ensures SubMap(more, reg.realToAlias) && WellMasked(out, more)
    decreases |pairs|
  {
    hide Contains, IsAlias, Mask, Render, IsQQNumber, Leaves, Settled;
    FromsNonEmpty(reg, pairs);
    if pairs == [] {
      out, more := cells, hidden;
    } else {
      var p := pairs[0];
      SettledRest(pairs);
      assert p in pairs && p == Pair(p.from, p.to);
      var next := MaskLifts(cells, hidden, p.from, p.to, false);
      out, more := MaskAllLifts(next, hidden[p.from := p.to], reg, pairs[1..]);
    }
  }

  lemma FromsNonEmpty(reg: Registry, pairs: seq<Pair>)
    requires WellTyped(reg) && forall p :: p in pairs ==> p.from in reg.realToAlias
    ensures forall p :: p in pairs ==> p.from != ""
  {
  }

  // ----- Unmasking shows them again

  predicate KnownNumbers(cells: seq<Cell>) {
    cells == [] || ((cells[0].Id? ==> IsQQNumber(cells[0].number)) && KnownNumbers(cells[1..]))
  }

  lemma {:induction false} WellMaskedKnown(cells: seq<Cell>, hidden: map<string, string>)
    requires AliasMap(hidden) && WellMasked(cells, hidden)
    ensures KnownNumbers(cells)
  {
    if cells != [] {
      WellMaskedKnown(cells[1..], hidden);
    }
  }

  lemma {:induction false} ReplaceAllSkips(s: string, i: nat, pat: string, rep: string)
    requires pat != "" && i <= |s| && forall k :: 0 <= k < i ==> !(pat <= s[k..])
    ensures ReplaceAll(s, pat, rep) == s[..i] + ReplaceAll(s[i..], pat, rep)
    decreases i
  {
    assert s[0..] == s;
    if i > 0 {
      assert forall k :: 1 <= k < i ==> s[k..] == s[1..][k - 1..];
      ReplaceAllSkips(s[1..], i - 1, pat, rep);
      assert s[1..][i - 1..] == s[i..];
      assert [s[0]] + s[1..][..i - 1] == s[..i];
    }
  }

  lemma AliasClash(alias: string, other: string, rest: string, j: nat)
    requires IsAlias(alias) && IsAlias(other) && 1 <= j < |alias|
    ensures !(alias[j..] <= other + rest)
  {
    AliasShape(alias);
    AliasShape(other);
    assert alias[j..][0] == alias[j] && (j + 1 < |alias| ==> alias[j..][1] == alias[j + 1]);
  }

  /** An alias that started before these cells cannot run into a hidden number, so what it
      takes from the rendering it also takes from the plain text. */
  lemma {:induction false} TailIsPlain(cells: seq<Cell>, hidden: map<string, string>, alias: string, j: nat)
    requires AliasMap(hidden) && IsAlias(alias) && 1 <= j <= |alias|
    requires alias[j..] <= Render(cells, hidden)
    ensures alias[j..] <= Render(cells, map[])
    decreases |cells|
  {
    hide IsAlias, IsQQNumber;
    AliasShape(alias);
    if j < |alias| && cells != [] {
      var rest := Render(cells[1..], hidden);
      var w := Show(cells[0], hidden);
      assert w + rest == Render(cells, hidden);
      if cells[0].Id? && cells[0].number in hidden {
        AliasClash(alias, w, rest, j);
      } else {
        var plain := Render(cells[1..], map[]);
        assert w + plain == Render(cells, map[]);
        if |alias| - j > |w| {
          assert alias[j..][|w|..] == alias[j + |w|..];
          assert (w + rest)[|w|..] == rest;
          assert alias[j..][|w|..] <= (w + rest)[|w|..];
          TailIsPlain(cells[1..], hidden, alias, j + |w|);
          assert alias[j..] == w + alias[j + |w|..];
        }
      }
    }
  }

  lemma PlainDropsHead(cells: seq<Cell>, alias: string)
    requires cells != [] && !Contains(Render(cells, map[]), alias)
    ensures !Contains(Render(cells[1..], map[]), alias)
  {
    if Contains(Render(cells[1..], map[]), alias) {
      ContainsSuffix(Show(cells[0], map[]), Render(cells[1..], map[]), alias);
    }
  }

  lemma CharStartsPlain(cells: seq<Cell>, hidden: map<string, string>, alias: string)
    requires AliasMap(hidden) && IsAlias(alias) && alias != "" && cells != [] && cells[0].Ch?
    requires alias <= Render(cells, hidden)
    ensures alias <= Render(cells, map[])
  {
    hide IsAlias;
    var w, rest := [cells[0].c], Render(cells[1..], hidden);
    assert (w + rest)[1..] == rest && alias[1..] <= (w + rest)[1..];
    TailIsPlain(cells[1..], hidden, alias, 1);
    assert alias == w + alias[1..];
  }

  /** In a plain text without the alias, no occurrence of it starts in a shown cell. */
  lemma NoAliasFromShown(cells: seq<Cell>, hidden: map<string, string>, alias: string)
    requires AliasMap(hidden) && IsAlias(alias) && KnownNumbers(cells)
    requires cells != [] && (cells[0].Id? ==> cells[0].number !in hidden)
    requires !Contains(Render(cells, map[]), alias)
    ensures var w := Show(cells[0], hidden);
            w + Render(cells[1..], hidden) == Render(cells, hidden)
            && forall k :: 0 <= k < |w| ==> !(alias <= Render(cells, hidden)[k..])
  {
    hide IsAlias;
    AliasShape(alias);
    var w, rest := Show(cells[0], hidden), Render(cells[1..], hidden);
    var s := w + rest;
    forall k | 0 <= k < |w| ensures !(alias <= s[k..]) {
      assert s[k..][0] == w[k] && s[0..] == s;
      if cells[0].Id? {
        DigitsInside(w, k);
      } else if alias <= s[k..] {
        CharStartsPlain(cells, hidden, alias);
      }
    }
  }

  lemma NoAliasFromOther(alias: string, other: string, rest: string)
    requires IsAlias(alias) && IsAlias(other) && alias != other
    ensures forall k :: 0 <= k < |other| ==> !(alias <= (other + rest)[k..])
  {
    forall k | 0 <= k < |other| ensures !(alias <= (other + rest)[k..]) {
      if alias <= (other + rest)[k..] {
        AliasesDoNotOverlap(alias, other, rest, k);
      }
    }
  }

  /** Replacing one alias shows its number everywhere and changes nothing else. */
  lemma {:induction false} UnmaskShows(cells: seq<Cell>, hidden: map<string, string>, number: string, alias: string)
    requires AliasMap(hidden) && IsAlias(alias) && alias != "" && KnownNumbers(cells)
    requires number in hidden ==> hidden[number] == alias
    requires forall r :: r in hidden && hidden[r] == alias ==> r == number
    requires !Contains(Render(cells, map[]), alias)
    ensures ReplaceAll(Render(cells, hidden), alias, number) == Render(cells, hidden - {number})
    decreases |cells|
  {
    hide IsAlias, Contains, IsQQNumber, ReplaceAll;
    if cells == [] {
      ReplaceAllStep("", alias, number);
    } else {
      PlainDropsHead(cells, alias);
      UnmaskShows(cells[1..], hidden, number, alias);
      var w, rest := Show(cells[0], hidden), Render(cells[1..], hidden);
      var s := w + rest;
      assert s == Render(cells, hidden) && s[..|w|] == w && s[|w|..] == rest;
      if cells[0].Id? && cells[0].number == number && number in hidden {
        ReplaceAllStep(s, alias, number);
      } else {
        if cells[0].Id? && cells[0].number in hidden {
          NoAliasFromOther(alias, w, rest);
        } else {
          NoAliasFromShown(cells, hidden, alias);
        }
        ReplaceAllSkips(s, |w|, alias, number);
      }
    }
  }

  lemma ReplaceAllStep(s: string, pat: string, rep: string)
    requires pat != "" && (s == "" || pat <= s)
    ensures ReplaceAll(s, pat, rep) == if s == "" then "" else rep + ReplaceAll(s[|pat|..], pat, rep)
  {
  }

  function Targets(pairs: seq<Pair>): set<string> { set p | p in pairs :: p.to }

  lemma {:induction false} UnmaskAllShows(cells: seq<Cell>, hidden: map<string, string>, reg: Registry, back: seq<Pair>)
    requires Inverse(reg) && WellTyped(reg) && SubMap(hidden, reg.realToAlias) && KnownNumbers(cells)
    requires forall p :: p in back ==> p.from in reg.aliasToReal && reg.aliasToReal[p.from] == p.to && p.from != ""
    requires forall a :: a in reg.aliasToReal ==> !Contains(Render(cells, map[]), a)
    ensures UnmaskAll(Render(cells, hidden), back) == Render(cells, hidden - Targets(back))
    decreases |back|
  {
    hide IsAlias, Contains, IsQQNumber, ReplaceAll, Render;
    if back == [] {
      assert hidden - Targets(back) == hidden;
    } else {
      var p := back[0];
      UnmaskShows(cells, hidden, p.to, p.from);
      UnmaskAllShows(cells, hidden - {p.to}, reg, back[1..]);
      assert Targets(back) == {p.to} + Targets(back[1..]);
      assert hidden - {p.to} - Targets(back[1..]) == hidden - Targets(back);
    }
  }

  // ----- The round trip

  lemma {:induction false} BlankHidesNothing(cells: seq<Cell>, hidden: map<string, string>)
    requires AliasMap(hidden) && WellMasked(cells, hidden) && AllSpace(Render(cells, hidden))
    ensures Render(cells, hidden) == Render(cells, map[])
  {
    if cells != [] {
      var w, rest := Show(cells[0], hidden), Render(cells[1..], hidden);
      var s := w + rest;
      assert s == Render(cells, hidden);
      assert forall k :: 0 <= k < |rest| ==> rest[k] == s[|w| + k];
      BlankHidesNothing(cells[1..], hidden);
      assert w != "" ==> IsSpace(s[0]) && s[0] == w[0];
      if cells[0].Id? {
        AliasShape(w);
      }
    }
  }

  /** Restoring a protected text gives the text back, even when the registry has grown in
      between, provided the text holds no alias to begin with. */
  lemma RoundTrip(text: string, reg: Registry, pairs: seq<Pair>, later: Registry, back: seq<Pair>)
    requires Inverse(reg) && WellTyped(reg) && Lists(pairs, reg.realToAlias)
    requires (forall p :: p in pairs ==> p.from != "") && Settled(pairs)
    requires Inverse(later) && WellTyped(later) && Grows(reg, later) && Lists(back, later.aliasToReal)
    requires forall a :: a in later.aliasToReal ==> !Contains(text, a)
    ensures forall p :: p in back ==> p.from != ""
    ensures RestoreText(ProtectText(text, pairs), back) == text
  {
    hide IsAlias, Contains, IsQQNumber, Render, IsSpace, Leaves;
    AliasesNonEmpty(later, back);
    if !Blank(text) {
      RenderChars(text, map[]);
      var cells, hidden := MaskAllLifts(Chars(text), map[], reg, pairs);
      var masked := Render(cells, hidden);
      if Blank(masked) {
        BlankIsAllSpace(masked);
        BlankHidesNothing(cells, hidden);
      } else {
        WellMaskedKnown(cells, hidden);
        UnmaskAllShows(cells, hidden, later, back);
        AllAreShown(hidden, reg, later, back);
      }
    }
  }

  /** The restore step shows whatever was hidden. */
  lemma AllAreShown(hidden: map<string, string>, reg: Registry, later: Registry, back: seq<Pair>)
    requires SubMap(hidden, reg.realToAlias) && Grows(reg, later)
    requires Inverse(later) && Lists(back, later.aliasToReal)
    ensures hidden - Targets(back) == map[]
  {
    forall r | r in hidden ensures r in Targets(back) {
      assert Pair(later.realToAlias[r], r) in back;
    }
  }
}
