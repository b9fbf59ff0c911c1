/** What streamed text amounts to as long as it is only added: every part is its additions one
    after the other, and the parts stand in the order in which they first appeared. */
module StreamOrder {
  import opened Text
  import opened StreamText

  datatype Addition = Addition(key: string, text: string)

  /** The event only adds text. */
  predicate Adds(e: StreamEvent) { Blank(e.final) || !e.aggregate }

  /** What the event adds, in order. */
  function AdditionsOf(e: StreamEvent): seq<Addition> {
    (if e.delta == "" then [] else [Addition(KeyOf(e.deltaKey), e.delta)])
    + if Blank(e.final) then [] else [Addition(KeyOf(e.finalKey), e.final)]
  }

  function AllAdditions(events: seq<StreamEvent>): seq<Addition> {
    if events == [] then [] else AllAdditions(events[..|events| - 1]) + AdditionsOf(events[|events| - 1])
  }

  /** The keys by first appearance. */
  function Keys(adds: seq<Addition>): seq<string> {
    if adds == [] then []
    else
      var before, key := Keys(adds[..|adds| - 1]), adds[|adds| - 1].key;
      if key in before then before else before + [key]
  }

  /** All that was added to `key`, one after the other. */
  function TextFor(adds: seq<Addition>, key: string): string {
    if adds == [] then ""
    else
      var last := adds[|adds| - 1];
      TextFor(adds[..|adds| - 1], key) + if last.key == key then last.text else ""
  }

  /** One part per key, in order. */
  function Assembled(keys: seq<string>, adds: seq<Addition>): seq<Part> {
    seq(|keys|, i requires 0 <= i < |keys| => Part(keys[i], TextFor(adds, keys[i])))
  }

  lemma {:induction false} KeysAreDistinct(adds: seq<Addition>)
    ensures forall i, j :: 0 <= i < j < |Keys(adds)| ==> Keys(adds)[i] != Keys(adds)[j]
    ensures forall key :: key !in Keys(adds) ==> TextFor(adds, key) == ""
  {
    if adds != [] {
      KeysAreDistinct(adds[..|adds| - 1]);
    }
  }

  /** Adding to one part is adding to the assembled ones. */
  lemma OneAddition(adds: seq<Addition>, a: Addition)
    ensures var parts := Assembled(Keys(adds), adds);
            WithText(parts, a.key, TextAt(parts, a.key) + a.text) == Assembled(Keys(adds + [a]), adds + [a])
  {
    var keys, parts, more := Keys(adds), Assembled(Keys(adds), adds), adds + [a];
    KeysAreDistinct(adds);
    assert more[..|adds|] == adds;
    var index: nat := |keys|;
    if a.key in keys {
      index :| index < |keys| && keys[index] == a.key;
    }
    var text := TextAt(parts, a.key) + a.text;
    FirstWithKey(parts, a.key, index, text);
    forall key ensures TextFor(more, key) == TextFor(adds, key) + if key == a.key then a.text else "" {
    }
    assert text == TextFor(more, a.key);
    assert Keys(more) == if index < |keys| then keys else keys + [a.key];
    hide WithText, TextAt, Keys;
    AssembledWith(keys, adds, a, index);
  }

  lemma AssembledWith(keys: seq<string>, adds: seq<Addition>, a: Addition, index: nat)
    requires index <= |keys| && forall i :: 0 <= i < |keys| ==> (keys[i] == a.key <==> i == index)
    ensures var parts, more := Assembled(keys, adds), adds + [a];
            var part := Part(a.key, TextFor(more, a.key));
            if index < |keys| then Assembled(keys, more) == parts[index := part]
            else Assembled(keys + [a.key], more) == parts + [part]
  {
    var more := adds + [a];
    assert more[..|adds|] == adds;
    forall key ensures TextFor(more, key) == TextFor(adds, key) + if key == a.key then a.text else "" {
    }
    hide TextFor;
    var parts, all := Assembled(keys, adds), if index < |keys| then keys else keys + [a.key];
    forall i | 0 <= i < |keys| && i != index ensures Assembled(all, more)[i] == parts[i] {
      assert TextFor(adds, keys[i]) + "" == TextFor(adds, keys[i]);
    }
  }

  lemma {:induction false} ApplyOneMore(parts: seq<Part>, events: seq<StreamEvent>, e: StreamEvent)
    ensures ApplyAll(parts, events + [e]) == Apply(ApplyAll(parts, events), e)
  {
    ApplyInStages(parts, events, [e]);
    assert [e][1..] == [];
    assert ApplyAll(ApplyAll(parts, events), [e]) == ApplyAll(Apply(ApplyAll(parts, events), e), []);
  }

  /** After any events that only add text, the parts are those of the additions. */
  lemma {:induction false} AddedTextIsAssembled(events: seq<StreamEvent>)
    requires forall e :: e in events ==> Adds(e)
    ensures var adds := AllAdditions(events); ApplyAll([], events) == Assembled(Keys(adds), adds)
  {
    hide Apply, Adds, AdditionsOf, Keys, Assembled;
    if events == [] {
      NothingIsAssembled();
    } else {
      var front, e := events[..|events| - 1], events[|events| - 1];
      assert forall x :: x in front ==> x in events;
      AddedTextIsAssembled(front);
      assert events == front + [e] && e in events;
      ApplyOneMore([], front, e);
      EventIsAdded(AllAdditions(front), e);
      hide ApplyAll;
    }
  }

  lemma NothingIsAssembled()
    ensures Keys([]) == [] && Assembled([], []) == []
  {
  }

  lemma EventIsAdded(adds: seq<Addition>, e: StreamEvent)
    requires Adds(e)
    ensures var more := adds + AdditionsOf(e);
            Apply(Assembled(Keys(adds), adds), e) == Assembled(Keys(more), more)
  {
    hide Blank, WithText, Keys, Assembled;
    BlankEmpty();
    var delta, final := Addition(KeyOf(e.deltaKey), e.delta), Addition(KeyOf(e.finalKey), e.final);
    OneAddition(adds, delta);
    var once := if e.delta == "" then adds else adds + [delta];
    OneAddition(once, final);
    assert adds + AdditionsOf(e) == if Blank(e.final) then once else once + [final];
  }

  /** So each part has the concatenation of what was added to it. */
  lemma PartIsItsAdditions(events: seq<StreamEvent>, key: string)
    requires forall e :: e in events ==> Adds(e)
    ensures TextAt(ApplyAll([], events), key) == TextFor(AllAdditions(events), key)
  {
    var adds := AllAdditions(events);
    AddedTextIsAssembled(events);
    KeysAreDistinct(adds);
    var keys, parts := Keys(adds), Assembled(Keys(adds), adds);
    var index: nat := |keys|;
    if key in keys {
      index :| index < |keys| && keys[index] == key;
    }
    FirstWithKey(parts, key, index, "");
  }

  /** And a stream with a single part is its text in the order in which it came. */
  lemma {:induction false} OnePartIsTheStream(adds: seq<Addition>, key: string)
    requires adds != [] && forall a :: a in adds ==> a.key == key
    ensures Keys(adds) == [key] && Whole(Assembled(Keys(adds), adds)) == TextFor(adds, key)
  {
    if |adds| > 1 {
      OnePartIsTheStream(adds[..|adds| - 1], key);
    } else {
      assert adds[..0] == [] && Keys([]) == [];
    }
    assert adds[|adds| - 1] in adds;
    WholeOfOne(key, TextFor(adds, key));
    assert Assembled([key], adds) == [Part(key, TextFor(adds, key))];
  }

  /** The texts of the keys, one after the other. */
  function Joined(keys: seq<string>, adds: seq<Addition>): string {
    if keys == [] then "" else Joined(keys[..|keys| - 1], adds) + TextFor(adds, keys[|keys| - 1])
  }

  lemma {:induction false} WholeIsJoined(keys: seq<string>, adds: seq<Addition>)
    ensures Whole(Assembled(keys, adds)) == Joined(keys, adds)
  {
    if keys != [] {
      var front, key := keys[..|keys| - 1], keys[|keys| - 1];
      WholeIsJoined(front, adds);
      var last := Part(key, TextFor(adds, key));
      assert Assembled(keys, adds) == Assembled(front, adds) + [last];
      WholeOfBoth(Assembled(front, adds), [last]);
      WholeOfOne(key, last.text);
    }
  }

  /** The whole text is the parts by first appearance. */
  lemma WholeIsByAppearance(events: seq<StreamEvent>)
    requires forall e :: e in events ==> Adds(e)
    ensures var adds := AllAdditions(events); Whole(ApplyAll([], events)) == Joined(Keys(adds), adds)
  {
    AddedTextIsAssembled(events);
    WholeIsJoined(Keys(AllAdditions(events)), AllAdditions(events));
  }
}
