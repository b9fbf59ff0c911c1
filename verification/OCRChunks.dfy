/** Splitting recognised text into chunks of bounded size
    (splitOCRContext in model/qqbot/document_ocr.go). */
module OCRChunks {
  import opened Text
  import opened Masking

  const DEFAULT_CHUNK := 20000
  const BREAK := "\n\n"

  /** strings.Split at blank lines. */
  function Paragraphs(s: string): seq<string>
    decreases |s|
  {
    var i := IndexOf(s, BREAK);
    IndexFinds(s, BREAK);
    if i < 0 then [s] else [s[..i]] + Paragraphs(s[i + |BREAK|..])
  }

  /** The visible characters, in order. */
  function Visible(s: string): string {
    if s == "" then "" else (if IsSpace(s[0]) then "" else [s[0]]) + Visible(s[1..])
  }

  function Joined(chunks: seq<string>): string {
    if chunks == [] then "" else Joined(chunks[..|chunks| - 1]) + chunks[|chunks| - 1]
  }

  function VisibleIn(paragraphs: seq<string>): string {
    if paragraphs == [] then "" else Visible(paragraphs[0]) + VisibleIn(paragraphs[1..])
  }

  lemma {:induction false} VisibleConcat(a: string, b: string)
    ensures Visible(a + b) == Visible(a) + Visible(b)
  {
    if a == "" {
      assert a + b == b;
    } else {
      assert (a + b)[1..] == a[1..] + b;
      VisibleConcat(a[1..], b);
    }
  }

  lemma {:induction false} SpaceIsInvisible(s: string)
    requires forall k :: 0 <= k < |s| ==> IsSpace(s[k])
    ensures Visible(s) == ""
  {
    if s != "" {
      assert forall k :: 0 <= k < |s| - 1 ==> s[1..][k] == s[k + 1];
      SpaceIsInvisible(s[1..]);
    }
  }

  lemma TrimKeepsVisible(s: string)
    ensures Visible(TrimSpace(s)) == Visible(s)
  {
    var i, j := TrimSpaceIsSlice(s);
    SpaceIsInvisible(s[..i]);
    SpaceIsInvisible(s[j..]);
    VisibleConcat(s[..i] + TrimSpace(s), s[j..]);
    VisibleConcat(s[..i], TrimSpace(s));
  }

  /** Splitting at blank lines loses blank lines only. */
  lemma {:induction false} ParagraphsKeepVisible(s: string)
    ensures VisibleIn(Paragraphs(s)) == Visible(s)
    decreases |s|
  {
    hide IsSpace, Visible, IndexOf;
    var i := IndexOf(s, BREAK);
    IndexFinds(s, BREAK);
    if i < 0 {
      assert [s][1..] == [] && Visible(s) + "" == Visible(s);
    } else {
      var rest := s[i + |BREAK|..];
      ParagraphsKeepVisible(rest);
      BreakIsInvisible();
      assert s == s[..i] + (BREAK + rest);
      VisibleConcat(s[..i], BREAK + rest);
      VisibleConcat(BREAK, rest);
      assert ([s[..i]] + Paragraphs(rest))[1..] == Paragraphs(rest);
    }
  }

  lemma BreakIsInvisible()
    ensures Visible(BREAK) == ""
  {
    SpaceIsInvisible(BREAK);
  }

  /** The visible characters of the chunks, in order. */
  function VisibleOf(chunks: seq<string>): string {
    if chunks == [] then "" else VisibleOf(chunks[..|chunks| - 1]) + Visible(chunks[|chunks| - 1])
  }

  lemma VisibleOfOneMore(chunks: seq<string>, chunk: string)
    ensures VisibleOf(chunks + [chunk]) == VisibleOf(chunks) + Visible(chunk)
  {
    assert (chunks + [chunk])[..|chunks|] == chunks;
  }

  lemma {:induction false} VisibleOfJoined(chunks: seq<string>)
    ensures VisibleOf(chunks) == Visible(Joined(chunks))
  {
    if chunks != [] {
      VisibleOfJoined(chunks[..|chunks| - 1]);
      VisibleConcat(Joined(chunks[..|chunks| - 1]), chunks[|chunks| - 1]);
    }
  }

  // ----- Packing

  /** A paragraph on the end of the text gathered so far. */
  function Gathered(builder: string, paragraph: string): string {
    if paragraph == "" then builder else if builder == "" then paragraph else builder + BREAK + paragraph
  }

  /** All the paragraphs, trimmed, in one text. */
  function Packed(builder: string, paragraphs: seq<string>): string
    decreases |paragraphs|
  {
    if paragraphs == [] then builder else Packed(Gathered(builder, TrimSpace(paragraphs[0])), paragraphs[1..])
  }

  lemma {:induction false} PackedGrows(builder: string, paragraphs: seq<string>)
    ensures |builder| <= |Packed(builder, paragraphs)|
    decreases |paragraphs|
  {
    if paragraphs != [] {
      PackedGrows(Gathered(builder, TrimSpace(paragraphs[0])), paragraphs[1..]);
    }
  }

  lemma {:induction false} PackedIsTight(builder: string, paragraphs: seq<string>)
    requires Tight(builder)
    ensures Tight(Packed(builder, paragraphs))
    decreases |paragraphs|
  {
    hide IsSpace;
    if paragraphs != [] {
      var i, j := TrimSpaceIsSlice(paragraphs[0]);
      PackedIsTight(Gathered(builder, TrimSpace(paragraphs[0])), paragraphs[1..]);
    }
  }

  predicate Clean(paragraph: string) { paragraph != "" && Tight(paragraph) }

  /** Splitting at blank lines and packing is the identity on clean paragraphs, so a text of
      clean paragraphs that is short enough is its own only chunk. */
  lemma PackingUndoesSplitting(text: string)
    requires forall p :: p in Paragraphs(text) ==> Clean(p)
    ensures Packed("", Paragraphs(text)) == text
  {
    PackedFrom("", text);
  }

  lemma {:induction false} PackedFrom(builder: string, text: string)
    requires forall p :: p in Paragraphs(text) ==> Clean(p)
    ensures Packed(builder, Paragraphs(text)) == if builder == "" then text else builder + BREAK + text
    decreases |text|
  {
    hide IsSpace, IndexOf, TrimSpace, Contains;
    var i := IndexOf(text, BREAK);
    IndexFinds(text, BREAK);
    var first := Paragraphs(text)[0];
    assert first in Paragraphs(text);
    TrimTight(first);
    if i >= 0 {
      var rest := text[i + |BREAK|..];
      assert Paragraphs(text)[1..] == Paragraphs(rest);
      PackedFrom(Gathered(builder, first), rest);
      assert text == first + BREAK + rest;
      Stitch(builder, BREAK, first, rest);
    }
  }

  lemma Stitch(a: string, between: string, b: string, c: string)
    ensures (a + between + b) + between + c == a + between + (b + between + c)
  {
  }

  // ----- The loop

  ghost predicate Bounded(chunks: seq<string>, limit: nat) {
    forall c :: c in chunks ==> 0 < |c| <= limit
  }

  /** Adds the trimmed `pending` text as a chunk unless it is blank. */
  method Flush(chunks: seq<string>, pending: string, ghost limit: nat) returns (out: seq<string>)
    requires Bounded(chunks, limit) && |pending| <= limit
    ensures Bounded(out, limit) && VisibleOf(out) == VisibleOf(chunks) + Visible(pending)
    ensures out == if Blank(pending) then chunks else chunks + [TrimSpace(pending)]
  {
    hide IsSpace, Visible, VisibleOf;
    var value := TrimSpace(pending);
    ghost var i, j := TrimSpaceIsSlice(pending);
    TrimKeepsVisible(pending);
    if value != "" {
      VisibleOfOneMore(chunks, value);
      return chunks + [value];
    }
    NothingVisible();
    return chunks;
  }

  lemma NothingVisible()
    ensures Visible("") == ""
  {
  }

  /** Cuts `limit` characters off `runes` for as long as it is longer. */
  method CutLong(chunks: seq<string>, pending: string, runes: string, limit: nat)
      returns (out: seq<string>, left: string, rest: string)
    requires limit > 0 && Bounded(chunks, limit) && |pending| <= limit
    requires |runes| > limit || pending == "" || |pending| + |runes| + 2 <= limit
    ensures Bounded(out, limit) && |rest| <= limit
    ensures left == "" || (left == pending && |left| + |rest| + 2 <= limit)
    ensures VisibleOf(out) + Visible(left) + Visible(rest) == VisibleOf(chunks) + Visible(pending) + Visible(runes)
    ensures |runes| <= limit ==> out == chunks && left == pending && rest == runes
  {
    hide IsSpace, Visible, VisibleOf;
    NothingVisible();
    out, left, rest := chunks, pending, runes;
    while |rest| > limit
      invariant Bounded(out, limit)
      invariant left == "" || (left == pending && rest == runes)
      invariant |runes| <= limit ==> out == chunks && left == pending && rest == runes
      invariant |rest| > limit || left == "" || |left| + |rest| + 2 <= limit
      invariant VisibleOf(out) + Visible(left) + Visible(rest) == VisibleOf(chunks) + Visible(pending) + Visible(runes)
    {
      if left != "" {
        out := Flush(out, left, limit);
        left := "";
      }
      VisibleOfOneMore(out, rest[..limit]);
      assert rest == rest[..limit] + rest[limit..];
      VisibleConcat(rest[..limit], rest[limit..]);
      out := out + [rest[..limit]];
      rest := rest[limit..];
    }
  }

  /** One turn of the loop over the trimmed paragraphs. */
  method AddParagraph(chunks: seq<string>, pending: string, paragraph: string, limit: nat)
      returns (out: seq<string>, builder: string)
    requires limit > 0 && Bounded(chunks, limit) && |pending| <= limit
    ensures Bounded(out, limit) && |builder| <= limit
    ensures VisibleOf(out) + Visible(builder) == VisibleOf(chunks) + Visible(pending) + Visible(paragraph)
    ensures |Gathered(pending, paragraph)| <= limit ==> out == chunks && builder == Gathered(pending, paragraph)
  {
    hide IsSpace, Visible, VisibleOf;
    NothingVisible();
    out, builder := chunks, pending;
    if paragraph == "" {
      return;
    }
    if builder != "" && |builder| + |paragraph| + 2 > limit {
      out := Flush(out, builder, limit);
      builder := "";
    }
    var runes: string;
    out, builder, runes := CutLong(out, builder, paragraph, limit);
    assert VisibleOf(out) + Visible(builder) + Visible(runes) == VisibleOf(out) + (Visible(builder) + Visible(runes));
    if runes != "" {
      if builder != "" {
        BreakIsInvisible();
        VisibleConcat(builder, BREAK);
        builder := builder + BREAK;
      }
      VisibleConcat(builder, runes);
      builder := builder + runes;
    }
  }

  /** Every chunk has at most the limit of characters, and the visible characters of the
      chunks in order are those of the text; and when the packed paragraphs fit the limit they
      are the only chunk. */
  method SplitOCRContext(text: string, maxChars: int) returns (chunks: seq<string>)
    ensures Bounded(chunks, if maxChars <= 0 then DEFAULT_CHUNK else maxChars)
    ensures Visible(Joined(chunks)) == Visible(text)
    ensures var packed := Packed("", Paragraphs(TrimSpace(text)));
            |packed| <= (if maxChars <= 0 then DEFAULT_CHUNK else maxChars) ==>
              chunks == if packed == "" then [] else [packed]
  {
    hide IsSpace, Visible, VisibleOf, Paragraphs, Joined, Gathered, TrimSpace;
    NothingVisible();
    var limit := if maxChars <= 0 then DEFAULT_CHUNK else maxChars;
    var paragraphs := Paragraphs(TrimSpace(text));
    ParagraphsKeepVisible(TrimSpace(text));
    TrimKeepsVisible(text);
    chunks := [];
    EmptyVisible();
    var builder := "";
    ghost var packed := Packed("", paragraphs);
    assert paragraphs[0..] == paragraphs;
    for n := 0 to |paragraphs|
      invariant Bounded(chunks, limit) && |builder| <= limit
      invariant VisibleOf(chunks) + Visible(builder) + VisibleIn(paragraphs[n..]) == Visible(text)
      invariant |packed| <= limit ==> chunks == [] && Packed(builder, paragraphs[n..]) == packed
    {
      PackedGrows(Gathered(builder, TrimSpace(paragraphs[n])), paragraphs[n + 1..]);
      TrimKeepsVisible(paragraphs[n]);
      assert paragraphs[n..][1..] == paragraphs[n + 1..];
      chunks, builder := AddParagraph(chunks, builder, TrimSpace(paragraphs[n]), limit);
    }
    PackedIsTight("", paragraphs);
    TrimTight(packed);
    chunks := Flush(chunks, builder, limit);
    VisibleOfJoined(chunks);
  }

  lemma EmptyVisible()
    ensures VisibleOf([]) == ""
  {
  }
}
