/** The privacy scope object: two maps updated in place, and the texts it protects and
    restores. */
module PrivacyScope {
  import opened Text
  import opened Masking
  import opened QQPrivacy
  import opened PrivacyLeaks

  function LowerAscii(c: char): char { if 'A' <= c <= 'Z' then c - 'A' + 'a' else c }

  function LowerWord(s: string): string { seq(|s|, i requires 0 <= i < |s| => LowerAscii(s[i])) }

  function RoleFor(role: string): PrivacyRole {
    var r := LowerWord(TrimSpace(role));
    if r == "owner" then Owner
    else if r in {"current", "current_user", "sender"} then CurrentUser
    else if r in {"bot", "self"} then Bot
    else if r == "group" then Group
    else User
  }

  /** The name of every role stands for that role, and neither capitals nor spaces around it
      matter. */
  lemma RoleNamesItself(role: PrivacyRole, spelled: string)
    ensures RoleFor(role.Name()) == role
    ensures LowerWord(TrimSpace(spelled)) == role.Name() ==> RoleFor(spelled) == role
  {
    hide IsSpace;
    NameIsTight(role);
    TrimTight(role.Name());
    assert LowerWord(role.Name()) == role.Name();
  }

  function UpperAscii(c: char): char { if 'a' <= c <= 'z' then c - 'a' + 'A' else c }

  function UpperWord(s: string): string { seq(|s|, i requires 0 <= i < |s| => UpperAscii(s[i])) }

  /** Also in capitals. */
  lemma RoleInCapitals(role: PrivacyRole)
    ensures RoleFor(UpperWord(role.Name())) == role
  {
    hide IsSpace;
    CapitalsAreTight(role);
    TrimTight(UpperWord(role.Name()));
    assert LowerWord(UpperWord(role.Name())) == role.Name();
  }

  lemma CapitalsAreTight(role: PrivacyRole)
    ensures Tight(UpperWord(role.Name()))
  {
  }

  /** The other spellings; any further word stands for a user. */
  lemma SpellingsOfRoles(word: string)
    ensures RoleFor("current") == RoleFor("sender") == CurrentUser && RoleFor("self") == Bot
    ensures LowerWord(TrimSpace(word)) !in {"owner", "current", "current_user", "sender", "bot", "self", "group"} ==>
              RoleFor(word) == User
  {
    hide IsSpace;
    SpellingIsTight();
    TrimTight("current");
    TrimTight("sender");
    TrimTight("self");
    assert LowerWord("current") == "current" && LowerWord("sender") == "sender" && LowerWord("self") == "self";
  }

  lemma SpellingIsTight()
    ensures Tight("current") && Tight("sender") && Tight("self")
  {
  }

  lemma NameIsTight(role: PrivacyRole)
    ensures Tight(role.Name())
  {
  }

  /** A number found in a text, with the role its context gives it. */
  datatype Discovery = Discovery(number: string, role: string)
  {
    function Number(): string { TrimSpace(number) }
  }

  /** The first discovery of a number. */
  predicate FirstFound(found: seq<Discovery>, k: nat, number: string) {
    && k < |found| && found[k].Number() == number
    && forall j :: 0 <= j < k ==> found[j].Number() != number
  }

  lemma FoundLater(found: seq<Discovery>, k: nat, number: string)
    requires found != [] && FirstFound(found[1..], k, number) && found[0].Number() != number
    ensures FirstFound(found, k + 1, number)
  {
    hide TrimSpace;
    assert forall j :: 0 < j <= k ==> found[j] == found[1..][j - 1];
  }

  lemma FoundFirst(found: seq<Discovery>)
    requires found != []
    ensures FirstFound(found, 0, found[0].Number())
  {
  }

  /** `number` stands in the text with no digit beside it. */
  predicate Isolated(text: string, x: string, number: string, y: string) {
    text == x + number + y && (x != "" ==> !IsDigit(x[|x| - 1])) && !HeadDigit(y)
  }

  /** Every registered number that stands alone in the text comes out as its alias, between what
      becomes of the text on either side. */
  ghost predicate NumbersHidden(text: string, out: string, reg: Registry, pairs: seq<Pair>)
    requires forall p :: p in pairs ==> p.from != ""
  {
    forall number, x, y :: number in reg.realToAlias && Isolated(text, x, number, y) ==>
      out == QQPrivacy.ProtectText(x, pairs) + reg.realToAlias[number] + QQPrivacy.ProtectText(y, pairs)
  }

  lemma NumbersAreHidden(text: string, reg: Registry, pairs: seq<Pair>)
    requires Usable(reg) && Lists(pairs, reg.realToAlias) && LongestFirst(pairs)
    ensures (forall p :: p in pairs ==> p.from != "")
    ensures NumbersHidden(text, QQPrivacy.ProtectText(text, pairs), reg, pairs)
  {
    NumbersNonEmpty(reg, pairs);
    hide Usable;
    forall number, x, y | number in reg.realToAlias && Isolated(text, x, number, y)
      ensures QQPrivacy.ProtectText(text, pairs)
           == QQPrivacy.ProtectText(x, pairs) + reg.realToAlias[number] + QQPrivacy.ProtectText(y, pairs)
    {
      RegisteredNumberIsMasked(reg, pairs, x, number, y);
    }
  }

  /** Whether a value looks like a QQ number: 5 to 14 digits without a leading zero. */
  method IsLikelyQQIdentifier(value: string) returns (likely: bool)
    ensures likely <==> 5 <= |value| <= 14 && value[0] != '0' && forall k :: 0 <= k < |value| ==> '0' <= value[k] <= '9'
    ensures likely <==> IsQQNumber(value)
  {
    AllDigitsIff(value);
    if |value| < 5 || |value| > 14 || value[0] == '0' {
      return false;
    }
    for i := 0 to |value|
      invariant forall k :: 0 <= k < i ==> '0' <= value[k] <= '9'
    {
      if value[i] < '0' || value[i] > '9' {
        return false;
      }
    }
    return true;
  }

  class QQPrivacyScope {
    var realToAlias: map<string, string>
    var aliasToReal: map<string, string>
    /** Twelve hexadecimal digits of the digest of salt, role and number. */
    const tag: (PrivacyRole, string) -> string

    ghost predicate Valid()
      reads this
    {
      WellTyped(State()) && forall role, number :: IsTag(tag(role, number))
    }

    ghost function State(): Registry
      reads this
    {
      Registry(realToAlias, aliasToReal)
    }

    function Alias(role: string, number: string): string { AliasOf(RoleFor(role), tag(RoleFor(role), number)) }

    /** The registry after the discoveries are registered in turn. */
    ghost function Registered(reg: Registry, found: seq<Discovery>): Registry
      decreases |found|
    {
      if found == [] then reg
      else
        var number := TrimSpace(found[0].number);
        Registered(Register(reg, number, Alias(found[0].role, number)), found[1..])
    }

    /** The new registry knows just what the old one knew and every discovered number, the latter
        by an alias with the role of its first discovery. */
    ghost predicate Learned(reg: Registry, later: Registry, found: seq<Discovery>) {
      && Grows(reg, later)
      && (forall d :: d in found && IsQQNumber(d.Number()) ==> d.Number() in later.realToAlias)
      && (forall r :: r in later.realToAlias && r !in reg.realToAlias ==>
                        IsQQNumber(r) && exists k: nat ::
                          k < |found| && FirstFound(found, k, r) && later.realToAlias[r] == Alias(found[k].role, r))
    }

    lemma {:induction false} RegisteredIsLearned(reg: Registry, found: seq<Discovery>)
      ensures Learned(reg, Registered(reg, found), found)
      decreases |found|
    {
      hide TrimSpace, IsQQNumber, RoleFor, AliasOf, FirstFound;
      if found != [] {
        var number, rest := found[0].Number(), found[1..];
        var next := Register(reg, number, Alias(found[0].role, number));
        RegisteredIsLearned(next, rest);
        var later := Registered(reg, found);
        assert found == [found[0]] + rest;
        forall r | r in later.realToAlias && r !in reg.realToAlias
          ensures IsQQNumber(r)
          ensures exists k: nat ::
                    k < |found| && FirstFound(found, k, r) && later.realToAlias[r] == Alias(found[k].role, r)
        {
          if r in next.realToAlias {
            FoundFirst(found);
          } else {
            var k: nat :| k < |rest| && FirstFound(rest, k, r) && later.realToAlias[r] == Alias(rest[k].role, r);
            FoundLater(found, k, r);
          }
        }
      }
    }

    constructor (tag: (PrivacyRole, string) -> string)
      requires forall role, number :: IsTag(tag(role, number))
      ensures Valid() && State() == Registry(map[], map[]) && this.tag == tag
    {
      this.tag := tag;
      realToAlias, aliasToReal := map[], map[];
    }

    method RegisterID(realID: string, role: string) returns (alias: string)
      requires Valid()
      modifies this`realToAlias, this`aliasToReal
      ensures Valid() && State() == Register(old(State()), TrimSpace(realID), Alias(role, TrimSpace(realID)))
      ensures Grows(old(State()), State())
      ensures alias == if IsQQNumber(TrimSpace(realID)) then realToAlias[TrimSpace(realID)] else TrimSpace(realID)
    {
      hide TrimSpace, AllDigits, RoleFor;
      var number := TrimSpace(realID);
      var likely := IsLikelyQQIdentifier(number);
      if !likely {
        return number;
      }
      if number in realToAlias {
        return realToAlias[number];
      }
      alias := Alias(role, number);
      AliasOfIsAlias(RoleFor(role), tag(RoleFor(role), number));
      realToAlias := realToAlias[number := alias];
      aliasToReal := aliasToReal[alias := number];
    }

    method DiscoverStructuredIDs(found: seq<Discovery>)
      requires Valid()
      modifies this`realToAlias, this`aliasToReal
      ensures Valid() && State() == Registered(old(State()), found)
      ensures Learned(old(State()), State(), found)
    {
      RegisteredIsLearned(State(), found);
      hide TrimSpace, AllDigits, RoleFor, IsAlias;
      for i := 0 to |found|
        invariant Valid()
        invariant Registered(State(), found[i..]) == Registered(old(State()), found)
        invariant Grows(old(State()), State())
      {
        assert found[i..][1..] == found[i + 1..];
        var _ := RegisterID(found[i].number, found[i].role);
      }
    }

    method ProtectText(text: string, found: seq<Discovery>) returns (out: string, ghost pairs: seq<Pair>)
      requires Valid()
      modifies this`realToAlias, this`aliasToReal
      ensures Valid()
      ensures State() == if Blank(text) then old(State()) else Registered(old(State()), found)
      ensures Learned(old(State()), State(), if Blank(text) then [] else found)
      ensures Lists(pairs, realToAlias) && LongestFirst(pairs) && forall p :: p in pairs ==> p.from != ""
      ensures out == QQPrivacy.ProtectText(text, pairs)
      ensures Usable(State()) ==> NumbersHidden(text, out, State(), pairs)
    {
      hide Blank, IsAlias, AllDigits, NumbersHidden, Usable, Learned, MaskAll;
      if Blank(text) {
        var none := SortedPairs(realToAlias);
        NumbersNonEmpty(State(), none);
        RegisteredIsLearned(State(), []);
        if Usable(State()) {
          NumbersAreHidden(text, State(), none);
        }
        return text, none;
      }
      DiscoverStructuredIDs(found);
      var list := SortedPairs(realToAlias);
      pairs := list;
      NumbersNonEmpty(State(), pairs);
      out := MaskEach(text, list);
      if Usable(State()) {
        NumbersAreHidden(text, State(), pairs);
      }
    }

    method RestoreText(text: string) returns (out: string, ghost pairs: seq<Pair>)
      requires Valid()
      ensures Lists(pairs, aliasToReal) && LongestFirst(pairs) && forall p :: p in pairs ==> p.from != ""
      ensures out == QQPrivacy.RestoreText(text, pairs)
    {
      hide Blank, IsAlias, AllDigits, ReplaceAll;
      var list := SortedPairs(aliasToReal);
      pairs := list;
      AliasesNonEmpty(State(), pairs);
      out := text;
      if Blank(text) {
        return;
      }
      for i := 0 to |list|
        invariant UnmaskAll(out, pairs[i..]) == UnmaskAll(text, pairs)
      {
        assert pairs[i..][1..] == pairs[i + 1..] && list[i] in pairs;
        out := ReplaceAll(out, list[i].from, list[i].to);
      }
    }
  }

  method MaskEach(text: string, pairs: seq<Pair>) returns (out: string)
    requires forall p :: p in pairs ==> p.from != ""
    ensures out == MaskAll(text, pairs)
  {
    out := text;
    for i := 0 to |pairs|
      invariant MaskAll(out, pairs[i..]) == MaskAll(text, pairs)
    {
      assert pairs[i..][1..] == pairs[i + 1..] && pairs[i] in pairs;
      out := ReplaceNumericIdentifier(out, pairs[i].from, pairs[i].to);
    }
  }

  lemma AliasOfIsAlias(role: PrivacyRole, tag: string)
    requires IsTag(tag)
    ensures IsAlias(AliasOf(role, tag))
  {
    var a := AliasOf(role, tag);
    assert a[|a| - 12..] == tag;
  }

  function InsertByLength(p: Pair, s: seq<Pair>): seq<Pair> {
    if s == [] || |p.from| >= |s[0].from| then [p] + s else [s[0]] + InsertByLength(p, s[1..])
  }

  lemma {:induction false} InsertByLengthKeeps(p: Pair, s: seq<Pair>)
    requires LongestFirst(s)
    ensures var r := InsertByLength(p, s);
            LongestFirst(r) && |r| == |s| + 1 && (forall q :: q in r <==> q == p || q in s)
  {
    if s == [] || |p.from| >= |s[0].from| {
    } else {
      InsertByLengthKeeps(p, s[1..]);
      var t := InsertByLength(p, s[1..]);
      assert forall j :: 0 <= j < |t| ==> t[j] in t;
    }
  }

  lemma {:induction false} InsertByLengthDistinct(p: Pair, s: seq<Pair>)
    requires LongestFirst(s)
    requires forall i, j :: 0 <= i < j < |s| ==> s[i].from != s[j].from
    requires forall q :: q in s ==> q.from != p.from
    ensures var r := InsertByLength(p, s);
            forall i, j :: 0 <= i < j < |r| ==> r[i].from != r[j].from
  {
    if s == [] || |p.from| >= |s[0].from| {
    } else {
      InsertByLengthKeeps(p, s[1..]);
      InsertByLengthDistinct(p, s[1..]);
      var t := InsertByLength(p, s[1..]);
      assert forall j :: 0 <= j < |t| ==> t[j] in t;
    }
  }

  /** The entries of a map in any order, then longest key first. */
  method SortedPairs(m: map<string, string>) returns (pairs: seq<Pair>)
    ensures Lists(pairs, m) && LongestFirst(pairs)
  {
    pairs := [];
    var left := m.Keys;
    while left != {}
      invariant left <= m.Keys && LongestFirst(pairs)
      invariant forall p :: p in pairs ==> p.from in m && p.from !in left && m[p.from] == p.to
      invariant forall k :: k in m && k !in left ==> Pair(k, m[k]) in pairs
      invariant forall i, j :: 0 <= i < j < |pairs| ==> pairs[i].from != pairs[j].from
      decreases |left|
    {
      var k :| k in left;
      InsertByLengthKeeps(Pair(k, m[k]), pairs);
      InsertByLengthDistinct(Pair(k, m[k]), pairs);
      pairs := InsertByLength(Pair(k, m[k]), pairs);
      left := left - {k};
    }
  }
}
