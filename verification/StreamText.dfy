/** Putting a streamed answer together from keyed deltas and snapshots
    (the text accumulator in model/llm/openai_compatible.go). */
module StreamText {
  import opened Text

  const DEFAULT_KEY := "default"

  datatype Part = Part(key: string, text: string)

  function KeyOf(key: string): string { if key == "" then DEFAULT_KEY else key }

  /** The longer of two texts of which one continues the other; else both in a row. */
  function Reconcile(current: string, snapshot: string): string {
    if snapshot == "" then current
    else if current == "" then snapshot
    else if current <= snapshot then snapshot
    else if snapshot <= current then current
    else current + snapshot
  }

  /** A snapshot has the last word exactly when it continues what is there. */
  lemma ReconcileAdopts(current: string, snapshot: string)
    ensures Reconcile(current, snapshot) == snapshot <==> current <= snapshot
    ensures Reconcile(current, snapshot) == current <==> snapshot <= current
    ensures current <= Reconcile(current, snapshot)
  {
  }

  /** The text of `key`; empty when there is no such part. */
  function TextAt(parts: seq<Part>, key: string): string {
    if parts == [] then ""
    else if parts[0].key == key then parts[0].text
    else TextAt(parts[1..], key)
  }

  /** `parts` with the text of `key` set, the part added at the end if it is new. */
  function WithText(parts: seq<Part>, key: string, text: string): seq<Part> {
    if parts == [] then [Part(key, text)]
    else if parts[0].key == key then [Part(key, text)] + parts[1..]
    else [parts[0]] + WithText(parts[1..], key, text)
  }

  function Whole(parts: seq<Part>): string {
    if parts == [] then "" else parts[0].text + Whole(parts[1..])
  }

  function Append(parts: seq<Part>, key: string, text: string): seq<Part> {
    if text == "" then parts else WithText(parts, KeyOf(key), TextAt(parts, KeyOf(key)) + text)
  }

  function Snapshot(parts: seq<Part>, key: string, text: string): seq<Part> {
    if text == "" then parts else WithText(parts, KeyOf(key), Reconcile(TextAt(parts, KeyOf(key)), text))
  }

  function GlobalSnapshot(parts: seq<Part>, text: string): seq<Part> {
    if text == "" then parts else [Part(DEFAULT_KEY, Reconcile(Whole(parts), text))]
  }

  /** A decoded event: some delta text, and a final text that is either more text, the text of
      one part, or (with an empty key) the text of the whole answer. */
  datatype StreamEvent = StreamEvent(deltaKey: string, delta: string, finalKey: string, final: string, aggregate: bool)

  function Apply(parts: seq<Part>, e: StreamEvent): seq<Part> {
    var more := Append(parts, e.deltaKey, e.delta);
    if Blank(e.final) then more
    else if !e.aggregate then Append(more, e.finalKey, e.final)
    else if e.finalKey == "" then GlobalSnapshot(more, e.final)
    else Snapshot(more, e.finalKey, e.final)
  }

  function ApplyAll(parts: seq<Part>, events: seq<StreamEvent>): seq<Part>
    decreases |events|
  {
    if events == [] then parts else ApplyAll(Apply(parts, events[0]), events[1..])
  }

  /** What reading and writing `key` amount to when `index` is its place. */
  ghost predicate FoundAt(parts: seq<Part>, key: string, index: nat, text: string)
    requires index <= |parts|
  {
    && TextAt(parts, key) == (if index < |parts| then parts[index].text else "")
    && WithText(parts, key, text)
       == if index < |parts| then parts[index := Part(key, text)] else parts + [Part(key, text)]
  }

  /** The first part with the key, or else the end, is the place of that key. */
  lemma {:induction false} FirstWithKey(parts: seq<Part>, key: string, index: nat, text: string)
    requires index <= |parts| && forall i :: 0 <= i < index ==> parts[i].key != key
    requires index < |parts| ==> parts[index].key == key
    ensures FoundAt(parts, key, index, text)
  {
    if 0 < index {
      FirstWithKey(parts[1..], key, index - 1, text);
    }
  }

  class StreamTextAccumulator {
    var parts: seq<Part>

    constructor ()
      ensures parts == []
    {
      parts := [];
    }

    /** The position of `key`, adding an empty part for a new key. */
    method PartIndex(key: string) returns (index: nat)
      modifies this
      ensures index < |parts| && parts[index] == Part(KeyOf(key), TextAt(old(parts), KeyOf(key)))
      ensures forall text :: parts[index := Part(KeyOf(key), text)] == WithText(old(parts), KeyOf(key), text)
    {
      var k := KeyOf(key);
      index := 0;
      while index < |parts|
        invariant index <= |parts| && parts == old(parts)
        invariant forall i :: 0 <= i < index ==> parts[i].key != k
      {
        if parts[index].key == k {
          break;
        }
        index := index + 1;
      }
      if index == |parts| {
        parts := parts + [Part(k, "")];
      }
      forall text
        ensures FoundAt(old(parts), k, index, text)
        ensures parts[index := Part(k, text)] == WithText(old(parts), k, text)
      {
        FirstWithKey(old(parts), k, index, text);
      }
      assert FoundAt(old(parts), k, index, "");
    }

    method AppendText(key: string, text: string)
      modifies this
      ensures parts == Append(old(parts), key, text)
    {
      if text == "" {
        return;
      }
      var index := PartIndex(key);
      parts := parts[index := parts[index].(text := parts[index].text + text)];
    }

    method ApplySnapshot(key: string, text: string)
      modifies this
      ensures parts == Snapshot(old(parts), key, text)
    {
      if text == "" {
        return;
      }
      var index := PartIndex(key);
      parts := parts[index := parts[index].(text := Reconcile(parts[index].text, text))];
    }

    method ApplyGlobalSnapshot(text: string)
      modifies this
      ensures parts == GlobalSnapshot(old(parts), text)
    {
      if text == "" {
        return;
      }
      var whole := WholeText();
      parts := [Part(DEFAULT_KEY, Reconcile(whole, text))];
    }

    method WholeText() returns (text: string)
      ensures text == Whole(parts)
    {
      text := "";
      for i := 0 to |parts|
        invariant text + Whole(parts[i..]) == Whole(parts)
      {
        assert parts[i..][1..] == parts[i + 1..];
        text := text + parts[i].text;
      }
    }

    method HandleEvent(e: StreamEvent)
      modifies this
      ensures parts == Apply(old(parts), e)
    {
      AppendText(e.deltaKey, e.delta);
      if !Blank(e.final) {
        if !e.aggregate {
          AppendText(e.finalKey, e.final);
        } else if e.finalKey == "" {
          ApplyGlobalSnapshot(e.final);
        } else {
          ApplySnapshot(e.finalKey, e.final);
        }
      }
    }
  }

  // ----- What a stream amounts to

  lemma {:induction false} TextAtWithText(parts: seq<Part>, key: string, text: string, other: string)
    ensures TextAt(WithText(parts, key, text), other) == if other == key then text else TextAt(parts, other)
  {
    if parts != [] && parts[0].key != key {
      TextAtWithText(parts[1..], key, text, other);
      assert ([parts[0]] + WithText(parts[1..], key, text))[1..] == WithText(parts[1..], key, text);
    } else if parts != [] {
      assert ([Part(key, text)] + parts[1..])[1..] == parts[1..];
    }
  }

  predicate HasKey(parts: seq<Part>, key: string) { parts != [] && (parts[0].key == key || HasKey(parts[1..], key)) }

  /** Setting the text a part already has changes nothing. */
  lemma {:induction false} WithSameText(parts: seq<Part>, key: string)
    ensures WithText(parts, key, TextAt(parts, key)) == parts <==> HasKey(parts, key)
  {
    if parts != [] && parts[0].key != key {
      WithSameText(parts[1..], key);
      assert parts == [parts[0]] + parts[1..];
      var t := WithText(parts[1..], key, TextAt(parts[1..], key));
      assert ([parts[0]] + t)[1..] == t;
    } else if parts != [] {
      assert parts == [parts[0]] + parts[1..];
    }
  }

  /** The event touches single parts only. */
  predicate Keyed(e: StreamEvent) { Blank(e.final) || !e.aggregate || e.finalKey != "" }

  /** Whatever a keyed event says, every part's text is only ever extended; the whole answer
      only ever extended by an event about the whole. */
  lemma EventExtends(parts: seq<Part>, e: StreamEvent, key: string)
    ensures Keyed(e) ==> TextAt(parts, key) <= TextAt(Apply(parts, e), key)
    ensures !Keyed(e) && e.delta == "" ==> Whole(parts) <= Whole(Apply(parts, e))
  {
    hide Blank;
    var more := Append(parts, e.deltaKey, e.delta);
    TextAtWithText(parts, KeyOf(e.deltaKey), TextAt(parts, KeyOf(e.deltaKey)) + e.delta, key);
    if Keyed(e) {
      var k := KeyOf(e.finalKey);
      TextAtWithText(more, k, TextAt(more, k) + e.final, key);
      TextAtWithText(more, k, Reconcile(TextAt(more, k), e.final), key);
    } else {
      ReconcileAdopts(Whole(parts), e.final);
      WholeOfOne(DEFAULT_KEY, Reconcile(Whole(parts), e.final));
    }
  }

  lemma WholeOfOne(key: string, text: string)
    ensures Whole([Part(key, text)]) == text
  {
    assert [Part(key, text)][1..] == [] && text + "" == text;
  }

  lemma {:induction false} TextsOnlyGrow(parts: seq<Part>, events: seq<StreamEvent>, key: string)
    requires forall e :: e in events ==> Keyed(e)
    ensures TextAt(parts, key) <= TextAt(ApplyAll(parts, events), key)
    decreases |events|
  {
    hide Apply, TextAt, Keyed;
    if events != [] {
      EventExtends(parts, events[0], key);
      TextsOnlyGrow(Apply(parts, events[0]), events[1..], key);
    }
  }

  function PartDone(key: string, text: string): StreamEvent { StreamEvent("", "", key, text, true) }

  function Completed(text: string): StreamEvent { StreamEvent("", "", "", text, true) }

  /** A part's snapshot is redundant exactly when it is blank or the part already begins
      with it. */
  lemma RedundantSnapshot(parts: seq<Part>, key: string, text: string)
    requires key != ""
    ensures Apply(parts, PartDone(key, text)) == parts <==>
            Blank(text) || (HasKey(parts, key) && text <= TextAt(parts, key))
  {
    hide Blank;
    ReconcileAdopts(TextAt(parts, key), text);
    WithSameText(parts, key);
    var r := Reconcile(TextAt(parts, key), text);
    TextAtWithText(parts, key, r, key);
    BlankEmpty();
  }

  lemma BlankEmpty()
    ensures Blank("")
  {
  }

  /** Snapshots of parts that repeat no more than is there. */
  predicate Redundant(parts: seq<Part>, events: seq<StreamEvent>) {
    forall e :: e in events ==>
                  e == PartDone(e.finalKey, e.final) && e.finalKey != ""
                  && HasKey(parts, e.finalKey) && e.final <= TextAt(parts, e.finalKey)
  }

  lemma {:induction false} RedundantRun(parts: seq<Part>, events: seq<StreamEvent>)
    requires Redundant(parts, events)
    ensures ApplyAll(parts, events) == parts
    decreases |events|
  {
    hide Apply, TextAt, HasKey;
    if events != [] {
      assert events[0] in events;
      RedundantSnapshot(parts, events[0].finalKey, events[0].final);
      RedundantRun(parts, events[1..]);
    }
  }

  lemma {:induction false} ApplyInStages(parts: seq<Part>, a: seq<StreamEvent>, b: seq<StreamEvent>)
    ensures ApplyAll(parts, a + b) == ApplyAll(ApplyAll(parts, a), b)
    decreases |a|
  {
    hide Apply;
    if a == [] {
      assert a + b == b;
    } else {
      assert (a + b)[1..] == a[1..] + b;
      ApplyInStages(Apply(parts, a[0]), a[1..], b);
    }
  }

  /** Any events, then snapshots of parts that only repeat what the events brought, then a
      completed text: the answer is the completed text if and only if that text continues
      what had been gathered, and the snapshots make no difference. */
  lemma CompletedTextWins(events: seq<StreamEvent>, snapshots: seq<StreamEvent>, completed: string)
    requires Redundant(ApplyAll([], events), snapshots) && !Blank(completed)
    ensures var gathered := Whole(ApplyAll([], events));
            Whole(ApplyAll([], events + snapshots + [Completed(completed)])) == completed <==> gathered <= completed
    ensures ApplyAll([], events + snapshots + [Completed(completed)]) == ApplyAll([], events + [Completed(completed)])
  {
    hide Blank, Redundant;
    var parts := ApplyAll([], events);
    ApplyInStages([], events, snapshots);
    RedundantRun(parts, snapshots);
    ApplyInStages([], events + snapshots, [Completed(completed)]);
    ApplyInStages([], events, [Completed(completed)]);
    assert [Completed(completed)][1..] == [];
    ReconcileAdopts(Whole(parts), completed);
    WholeOfOne(DEFAULT_KEY, Reconcile(Whole(parts), completed));
    BlankEmpty();
  }

  /** The event agrees with the full texts: it carries no text, or its delta continues a part
      towards its full text, or its snapshot of a part is the beginning of it. */
  predicate Agrees(parts: seq<Part>, e: StreamEvent, full: string -> string) {
    if e.delta == "" && Blank(e.final) then true
    else if e.delta != "" then
      e.final == "" && TextAt(parts, KeyOf(e.deltaKey)) + e.delta <= full(KeyOf(e.deltaKey))
    else e.aggregate && e.finalKey != "" && e.final <= full(e.finalKey)
  }

  predicate AllAgree(parts: seq<Part>, events: seq<StreamEvent>, full: string -> string)
    decreases |events|
  {
    events == [] || (Agrees(parts, events[0], full) && AllAgree(Apply(parts, events[0]), events[1..], full))
  }

  /** However deltas and snapshots of the parts interleave, no part ever leaves its full text,
      and a part whose full text has been announced has it from then on. */
  lemma {:induction false} PartsFollowFullText(parts: seq<Part>, events: seq<StreamEvent>, full: string -> string,
      key: string)
    requires AllAgree(parts, events, full) && TextAt(parts, key) <= full(key)
    ensures TextAt(ApplyAll(parts, events), key) <= full(key)
    ensures !Blank(full(key)) && key != "" && PartDone(key, full(key)) in events ==>
              TextAt(ApplyAll(parts, events), key) == full(key)
    decreases |events|
  {
    hide Blank;
    if events != [] {
      var e := events[0];
      FollowOne(parts, e, full, key);
      PartsFollowFullText(Apply(parts, e), events[1..], full, key);
      if !Blank(full(key)) && key != "" && e == PartDone(key, full(key)) {
        assert forall x :: x in events[1..] ==> x in events;
        AgreeingAreKeyed(Apply(parts, e), events[1..], full);
        TextsOnlyGrow(Apply(parts, e), events[1..], key);
      }
    }
  }

  lemma {:induction false} AgreeingAreKeyed(parts: seq<Part>, events: seq<StreamEvent>, full: string -> string)
    requires AllAgree(parts, events, full)
    ensures forall e :: e in events ==> Keyed(e)
    decreases |events|
  {
    hide Blank, Apply;
    BlankEmpty();
    if events != [] {
      AgreeingAreKeyed(Apply(parts, events[0]), events[1..], full);
    }
  }

  lemma FollowOne(parts: seq<Part>, e: StreamEvent, full: string -> string, key: string)
    requires Agrees(parts, e, full) && TextAt(parts, key) <= full(key)
    ensures TextAt(Apply(parts, e), key) <= full(key)
    ensures !Blank(full(key)) && key != "" && e == PartDone(key, full(key)) ==>
            TextAt(Apply(parts, e), key) == full(key)
  {
    hide Blank;
    BlankEmpty();
    var k := KeyOf(e.deltaKey);
    TextAtWithText(parts, k, TextAt(parts, k) + e.delta, key);
    TextAtWithText(parts, e.finalKey, Reconcile(TextAt(parts, e.finalKey), e.final), key);
    ReconcileAdopts(TextAt(parts, key), e.final);
    PrefixesAreComparable(TextAt(parts, key), e.final, full(key));
  }

  lemma PrefixesAreComparable(a: string, b: string, c: string)
    requires a <= c
    ensures b <= c ==> a <= b || b <= a
  {
  }

  lemma {:induction false} WholeOfBoth(a: seq<Part>, b: seq<Part>)
    ensures Whole(a + b) == Whole(a) + Whole(b)
  {
    if a == [] {
      assert a + b == b;
    } else {
      assert (a + b)[1..] == a[1..] + b;
      WholeOfBoth(a[1..], b);
    }
  }

  /** After a completed text there is one part, under the default key, and text without a key goes
      on there. */
  lemma UnkeyedTextContinues(parts: seq<Part>, completed: string, more: string)
    requires !Blank(completed)
    ensures var done := Apply(parts, Completed(completed));
            && |done| == 1 && done[0].key == "default"
            && Apply(done, StreamEvent("", more, "", "", false)) == [Part("default", done[0].text + more)]
  {
    hide Blank;
    BlankEmpty();
    var done := Apply(parts, Completed(completed));
    assert Part(done[0].key, done[0].text + "") == done[0];
  }
}
