/** Text as a sequence of Unicode code points, with the trimming the program gets
    from its string library. */
module Text {

  /** The code points that Go's unicode.IsSpace accepts. */
  predicate IsSpace(c: char) {
    var v := c as int;
    9 <= v <= 13 || v == 0x20 || v == 0x85 || v == 0xA0 || v == 0x1680
    || 0x2000 <= v <= 0x200a || v == 0x2028 || v == 0x2029 || v == 0x202f
    || v == 0x205f || v == 0x3000
  }

  predicate IsDigit(c: char) { '0' <= c <= '9' }

  ghost predicate AllSpace(s: string) { forall i :: 0 <= i < |s| ==> IsSpace(s[i]) }

  function TrimLeft(s: string): string {
    if s != "" && IsSpace(s[0]) then TrimLeft(s[1..]) else s
  }

  function TrimRight(s: string): string {
    if s != "" && IsSpace(s[|s| - 1]) then TrimRight(s[..|s| - 1]) else s
  }

  function TrimSpace(s: string): string { TrimRight(TrimLeft(s)) }

  predicate Blank(s: string) { TrimSpace(s) == "" }

  /** No space at either end. */
  predicate Tight(s: string) { s != "" ==> !IsSpace(s[0]) && !IsSpace(s[|s| - 1]) }

  lemma {:induction false} TrimLeftSuffix(s: string) returns (i: nat)
    ensures i <= |s| && TrimLeft(s) == s[i..] && AllSpace(s[..i])
    ensures i < |s| ==> !IsSpace(s[i])
  {
    if s != "" && IsSpace(s[0]) {
      var j := TrimLeftSuffix(s[1..]);
      i := j + 1;
      assert s[1..][..j] == s[1..i];
      assert s[1..][j..] == s[i..];
      assert forall k :: 1 <= k < i ==> s[k] == s[1..][..j][k - 1];
    } else {
      i := 0;
    }
  }

  lemma {:induction false} TrimRightPrefix(s: string) returns (j: nat)
    ensures j <= |s| && TrimRight(s) == s[..j] && AllSpace(s[j..])
    ensures j > 0 ==> !IsSpace(s[j - 1])
  {
    if s != "" && IsSpace(s[|s| - 1]) {
      var p := s[..|s| - 1];
      j := TrimRightPrefix(p);
      assert p[..j] == s[..j];
      assert forall k :: j <= k < |p| ==> s[k] == p[j..][k - j];
    } else {
      j := |s|;
      assert s[..j] == s;
    }
  }

  /** Trimming cuts a run of spaces off each end and leaves what lies between. */
  lemma TrimSpaceIsSlice(s: string) returns (i: nat, j: nat)
    ensures i <= j <= |s| && TrimSpace(s) == s[i..j]
    ensures forall k :: 0 <= k < i || j <= k < |s| ==> IsSpace(s[k])
    ensures Tight(TrimSpace(s))
    ensures s == s[..i] + TrimSpace(s) + s[j..]
  {
    i := TrimLeftSuffix(s);
    var k := TrimRightPrefix(s[i..]);
    j := i + k;
    assert s[i..][..k] == s[i..j];
    assert forall p :: 0 <= p < i ==> s[p] == s[..i][p];
    assert forall p :: j <= p < |s| ==> s[p] == s[i..][k..][p - j];
  }

  lemma TrimTight(s: string)
    requires Tight(s)
    ensures TrimSpace(s) == s
  {
  }

  lemma TrimTwice(s: string)
    ensures TrimSpace(TrimSpace(s)) == TrimSpace(s)
  {
    var _, _ := TrimSpaceIsSlice(s);
    TrimTight(TrimSpace(s));
  }

  /** A text with one visible character is not blank. */
  lemma VisibleNotBlank(s: string, k: nat)
    requires k < |s| && !IsSpace(s[k])
    ensures !Blank(s)
  {
    var i, j := TrimSpaceIsSlice(s);
  }

  lemma BlankIsAllSpace(s: string)
    ensures Blank(s) <==> AllSpace(s)
  {
    if Blank(s) {
      if k: nat :| k < |s| && !IsSpace(s[k]) {
        VisibleNotBlank(s, k);
      }
    } else {
      var i, j := TrimSpaceIsSlice(s);
      assert s[i] == TrimSpace(s)[0];
    }
  }
}
