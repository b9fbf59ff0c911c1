/** The QQ-identifier privacy scope of model/qqbot/llm_qq_privacy.go: the registry of
    identifiers and aliases, masking a text and unmasking a reply. */
module QQPrivacy {
  import opened Text
  import opened Masking

  // ----- Identifiers and aliases

  predicate IsQQNumber(s: string) { 5 <= |s| <= 14 && s[0] != '0' && AllDigits(s) }

  datatype PrivacyRole = Owner | CurrentUser | Bot | User | Group
  {
    function Name(): string {
      match this
      case Owner => "owner"
      case CurrentUser => "current_user"
      case Bot => "bot"
      case User => "user"
      case Group => "group"
    }
  }

  predicate IsHex(c: char) { IsDigit(c) || 'a' <= c <= 'f' }

  /** Twelve lower-case hexadecimal digits: six bytes of a digest. */
  predicate IsTag(s: string) { |s| == 12 && forall i :: 0 <= i < |s| ==> IsHex(s[i]) }

  function AliasOf(role: PrivacyRole, tag: string): string { "qq_" + role.Name() + "_" + tag }

  predicate IsAlias(a: string) {
    exists role: PrivacyRole ::
      |a| == |role.Name()| + 16 && IsTag(a[|a| - 12..]) && a == AliasOf(role, a[|a| - 12..])
  }

  /** The letter after the prefix tells the role, and the role tells the length. */
  lemma RoleInitial(role: PrivacyRole, other: PrivacyRole)
    ensures role.Name()[0] == other.Name()[0] ==> role == other
    ensures forall i :: 0 <= i < |role.Name()| ==> role.Name()[i] != 'q'
    ensures |role.Name()| >= 3
  {
  }

  /** In an alias the letter q stands in the first two places and nowhere else. */
  lemma AliasShape(a: string)
    requires IsAlias(a)
    ensures |a| >= 19 && a[0] == 'q' && a[1] == 'q' && a[2] == '_'
    ensures forall i :: 2 <= i < |a| ==> a[i] != 'q'
  {
    var role: PrivacyRole :| |a| == |role.Name()| + 16 && IsTag(a[|a| - 12..]) && a == AliasOf(role, a[|a| - 12..]);
    RoleInitial(role, role);
    var tag := a[|a| - 12..];
    var n := |role.Name()|;
    forall i | 2 <= i < |a| ensures a[i] != 'q' {
      if i >= n + 4 {
        assert a[i] == tag[i - n - 4];
      } else if 3 <= i < n + 3 {
        assert a[i] == role.Name()[i - 3];
      }
    }
  }

  /** An alias tells its role and its tag. */
  lemma AliasTellsRole(role: PrivacyRole, tag: string, other: PrivacyRole, otherTag: string)
    requires IsTag(tag) && IsTag(otherTag)
    ensures AliasOf(role, tag) == AliasOf(other, otherTag) <==> role == other && tag == otherTag
  {
    RoleInitial(role, other);
    var a, b := AliasOf(role, tag), AliasOf(other, otherTag);
    assert a[3] == role.Name()[0] && b[3] == other.Name()[0];
    assert a[|a| - 12..] == tag && b[|b| - 12..] == otherTag;
  }

  /** No alias is a proper prefix of another. */
  lemma AliasesArePrefixFree(a: string, b: string, s: string)
    requires IsAlias(a) && IsAlias(b) && a <= s && b <= s
    ensures a == b
  {
    var r: PrivacyRole :| |a| == |r.Name()| + 16 && IsTag(a[|a| - 12..]) && a == AliasOf(r, a[|a| - 12..]);
    var q: PrivacyRole :| |b| == |q.Name()| + 16 && IsTag(b[|b| - 12..]) && b == AliasOf(q, b[|b| - 12..]);
    RoleInitial(r, q);
    assert a[3] == r.Name()[0] && b[3] == q.Name()[0];
    assert s[3] == a[3] == b[3];
  }

  /** An alias can only start at the start of another alias. */
  lemma AliasesDoNotOverlap(a: string, b: string, rest: string, k: nat)
    requires IsAlias(a) && IsAlias(b) && k < |b| && a <= (b + rest)[k..]
    ensures k == 0 && a == b
  {
    AliasShape(a);
    AliasShape(b);
    var s := b + rest;
    assert s[k..][0] == s[k] == b[k] && s[k..][1] == s[k + 1] && s[2] == b[2];
    if k == 0 {
      assert s[0..] == s;
      AliasesArePrefixFree(a, b, s);
    }
  }

  // ----- The registry

  datatype Registry = Registry(realToAlias: map<string, string>, aliasToReal: map<string, string>)

  /** The two maps are inverses of each other. */
  ghost predicate Inverse(reg: Registry) {
    && (forall r :: r in reg.realToAlias ==>
                      reg.realToAlias[r] in reg.aliasToReal && reg.aliasToReal[reg.realToAlias[r]] == r)
    && (forall a :: a in reg.aliasToReal ==>
                      reg.aliasToReal[a] in reg.realToAlias && reg.realToAlias[reg.aliasToReal[a]] == a)
  }

  ghost predicate WellTyped(reg: Registry) {
    && (forall r :: r in reg.realToAlias ==> IsQQNumber(r) && IsAlias(reg.realToAlias[r]))
    && (forall a :: a in reg.aliasToReal ==> IsAlias(a) && IsQQNumber(reg.aliasToReal[a]))
  }

  /** No alias contains the digits of a registered number. */
  ghost predicate NoNumberInAliases(reg: Registry) {
    forall r, q :: r in reg.realToAlias && q in reg.realToAlias ==> !Contains(reg.realToAlias[r], q)
  }

  ghost predicate Usable(reg: Registry) { Inverse(reg) && WellTyped(reg) && NoNumberInAliases(reg) }

  function Register(reg: Registry, number: string, alias: string): Registry {
    if !IsQQNumber(number) || number in reg.realToAlias then reg
    else Registry(reg.realToAlias[number := alias], reg.aliasToReal[alias := number])
  }

  /** Registering a new number keeps the maps inverse exactly when its alias is new. */
  lemma RegisterKeepsInverse(reg: Registry, number: string, alias: string)
    requires Inverse(reg)
    ensures Inverse(Register(reg, number, alias)) <==>
            !IsQQNumber(number) || number in reg.realToAlias || alias !in reg.aliasToReal
  {
    if IsQQNumber(number) && number !in reg.realToAlias && alias in reg.aliasToReal {
      var other := reg.aliasToReal[alias];
      var r := Register(reg, number, alias);
      assert other in r.realToAlias && r.realToAlias[other] == alias && r.aliasToReal[alias] == number;
    }
  }

  /** A later registry knows everything an earlier one knew. */
  ghost predicate Grows(reg: Registry, later: Registry) {
    forall r :: r in reg.realToAlias ==> r in later.realToAlias && later.realToAlias[r] == reg.realToAlias[r]
  }

  lemma RegisterGrows(reg: Registry, number: string, alias: string)
    ensures Grows(reg, Register(reg, number, alias))
  {
  }

  // ----- Masking and unmasking with a list of pairs

  /** A replacement: what to look for and what to write. */
  datatype Pair = Pair(from: string, to: string)

  ghost predicate LongestFirst(pairs: seq<Pair>) {
    forall i, j :: 0 <= i < j < |pairs| ==> |pairs[i].from| >= |pairs[j].from|
  }

  /** `pairs` lists the entries of `m`, each once. */
  ghost predicate Lists(pairs: seq<Pair>, m: map<string, string>) {
    && (forall p :: p in pairs ==> p.from in m && m[p.from] == p.to)
    && (forall k :: k in m ==> Pair(k, m[k]) in pairs)
    && (forall i, j :: 0 <= i < j < |pairs| ==> pairs[i].from != pairs[j].from)
  }

  function MaskAll(text: string, pairs: seq<Pair>): string
    requires forall p :: p in pairs ==> p.from != ""
    decreases |pairs|
  {
    if pairs == [] then text else MaskAll(Mask(text, false, pairs[0].from, pairs[0].to), pairs[1..])
  }

  function UnmaskAll(text: string, pairs: seq<Pair>): string
    requires forall p :: p in pairs ==> p.from != ""
    decreases |pairs|
  {
    if pairs == [] then text else UnmaskAll(ReplaceAll(text, pairs[0].from, pairs[0].to), pairs[1..])
  }

  function ProtectText(text: string, pairs: seq<Pair>): string
    requires forall p :: p in pairs ==> p.from != ""
  {
    if Blank(text) then text else MaskAll(text, pairs)
  }

  function RestoreText(text: string, pairs: seq<Pair>): string
    requires forall p :: p in pairs ==> p.from != ""
  {
    if Blank(text) then text else UnmaskAll(text, pairs)
  }

  lemma NumbersNonEmpty(reg: Registry, pairs: seq<Pair>)
    requires WellTyped(reg) && Lists(pairs, reg.realToAlias)
    ensures forall p :: p in pairs ==> p.from != "" && AllDigits(p.from) && IsAlias(p.to)
  {
  }

  lemma AliasesNonEmpty(reg: Registry, pairs: seq<Pair>)
    requires WellTyped(reg) && Lists(pairs, reg.aliasToReal)
    ensures forall p :: p in pairs ==> p.from != "" && IsAlias(p.from)
  {
    forall p | p in pairs ensures p.from != "" {
      AliasShape(p.from);
    }
  }
}
