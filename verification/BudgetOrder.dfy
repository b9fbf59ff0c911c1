/** What the allocator's two sorts deliver: the ranking, and the required messages back in
    conversation order. */
module BudgetOrder {
  import opened Messages
  import opened ContextBudget

  type Order = (Candidate, Candidate) -> bool

  /** Asymmetric and negatively transitive, which is what sorting needs. */
  ghost predicate WeakOrder(before: Order) {
    && (forall a, b :: before(a, b) ==> !before(b, a))
    && (forall a, b, c :: !before(a, b) && !before(b, c) ==> !before(a, c))
  }

  ghost predicate Sorted(s: seq<Candidate>, before: Order) {
    forall i, j :: 0 <= i < j < |s| ==> !before(s[j], s[i])
  }

  lemma {:induction false} InsertSorted(x: Candidate, s: seq<Candidate>, before: Order)
    requires WeakOrder(before) && Sorted(s, before)
    ensures Sorted(Insert(x, s, before), before)
  {
    if s == [] || !before(s[0], x) {
    } else {
      InsertSorted(x, s[1..], before);
      var t := Insert(x, s[1..], before);
      InsertMultiset(x, s[1..], before);
      forall j | 0 <= j < |t| ensures !before(t[j], s[0]) {
        assert t[j] in multiset(t);
        assert t[j] == x || t[j] in s[1..];
      }
    }
  }

  lemma {:induction false} SortSorts(s: seq<Candidate>, before: Order)
    requires WeakOrder(before)
    ensures Sorted(SortBy(s, before), before)
  {
    if s != [] {
      SortSorts(s[1..], before);
      InsertSorted(s[0], SortBy(s[1..], before), before);
    }
  }

  ghost predicate Ascending(s: seq<Candidate>) {
    forall i, j :: 0 <= i < j < |s| ==> s[i].index < s[j].index
  }

  ghost predicate Strict(s: seq<Candidate>, before: Order) {
    forall i, j :: 0 <= i < j < |s| ==> before(s[i], s[j])
  }

  lemma HeadsAgree(a: seq<Candidate>, b: seq<Candidate>, before: Order)
    requires a != [] && b != [] && multiset(a) == multiset(b)
    requires Sorted(a, before) && Strict(b, before)
    ensures a[0] == b[0]
  {
    assert a[0] in multiset(b) && b[0] in multiset(a);
    var j, k :| 0 <= j < |a| && a[j] == b[0] && 0 <= k < |b| && b[k] == a[0];
    assert j == 0 || !before(a[j], a[0]);
  }

  lemma TailMultiset(a: seq<Candidate>)
    requires a != []
    ensures multiset(a[1..]) == multiset(a) - multiset{a[0]}
  {
    assert a == [a[0]] + a[1..];
  }

  /** A list that strictly follows an order is the only sorted list of its elements, whatever
      algorithm sorted them. */
  lemma {:induction false} StrictIsUnique(a: seq<Candidate>, b: seq<Candidate>, before: Order)
    requires multiset(a) == multiset(b) && Sorted(a, before) && Strict(b, before)
    ensures a == b
  {
    assert |a| == |multiset(a)| == |multiset(b)| == |b|;
    if a != [] {
      HeadsAgree(a, b, before);
      TailMultiset(a);
      TailMultiset(b);
      StrictIsUnique(a[1..], b[1..], before);
      assert a == [a[0]] + a[1..] && b == [b[0]] + b[1..];
    }
  }

  lemma {:induction false} FilterCounts(s: seq<Candidate>, keep: Candidate -> bool, c: Candidate)
    ensures multiset(Filter(s, keep))[c] == if keep(c) then multiset(s)[c] else 0
  {
    if s != [] {
      FilterCounts(s[1..], keep, c);
      assert s == [s[0]] + s[1..];
    }
  }

  lemma {:induction false} FilterAscends(s: seq<Candidate>, keep: Candidate -> bool)
    requires Ascending(s)
    ensures Ascending(Filter(s, keep))
  {
    if s != [] {
      FilterAscends(s[1..], keep);
      FilterMembers(s[1..], keep);
      var t := Filter(s[1..], keep);
      forall k | 0 <= k < |t| ensures s[0].index < t[k].index {
        assert t[k] in s[1..];
      }
    }
  }

  /** Filtering the ranking and sorting it by index gives the required messages in
      conversation order. */
  lemma RequiredInOrder(messages: seq<Message>)
    ensures SortBy(Filter(Ranked(messages), IsRequired), ByIndex) == Filter(Candidates(messages), IsRequired)
    ensures Ascending(Filter(Candidates(messages), IsRequired))
  {
    var all := Candidates(messages);
    var picked := Filter(Ranked(messages), IsRequired);
    SortMultiset(all, ByPriority);
    forall c ensures multiset(picked)[c] == multiset(Filter(all, IsRequired))[c] {
      FilterCounts(Ranked(messages), IsRequired, c);
      FilterCounts(all, IsRequired, c);
    }
    SortMultiset(picked, ByIndex);
    SortSorts(picked, ByIndex);
    FilterAscends(all, IsRequired);
    StrictIsUnique(SortBy(picked, ByIndex), Filter(all, IsRequired), ByIndex);
  }

  ghost predicate Distinct(s: seq<Candidate>) {
    forall i, j :: 0 <= i < j < |s| ==> s[i].index != s[j].index
  }

  lemma {:induction false} InsertDistinct(x: Candidate, s: seq<Candidate>, before: Order)
    requires Distinct(s) && forall c :: c in s ==> c.index != x.index
    ensures Distinct(Insert(x, s, before))
  {
    if s == [] || !before(s[0], x) {
    } else {
      InsertDistinct(x, s[1..], before);
      var t := Insert(x, s[1..], before);
      InsertMultiset(x, s[1..], before);
      forall j | 0 <= j < |t| ensures t[j].index != s[0].index {
        assert t[j] in multiset(t);
        assert t[j] == x || t[j] in s[1..];
      }
    }
  }

  lemma {:induction false} SortDistinct(s: seq<Candidate>, before: Order)
    requires Distinct(s)
    ensures Distinct(SortBy(s, before))
  {
    if s != [] {
      var t := SortBy(s[1..], before);
      SortDistinct(s[1..], before);
      SortMembers(s[1..], before);
      InsertDistinct(s[0], t, before);
    }
  }

  /** The ranking lists every message once, the more important and, among equals, the later
      one first. */
  lemma RankingOrder(messages: seq<Message>)
    ensures multiset(Ranked(messages)) == multiset(Candidates(messages))
    ensures forall i, j :: 0 <= i < j < |Ranked(messages)| ==> ByPriority(Ranked(messages)[i], Ranked(messages)[j])
    ensures Distinct(Ranked(messages)) && |Ranked(messages)| == |messages|
  {
    SortMultiset(Candidates(messages), ByPriority);
    SortSorts(Candidates(messages), ByPriority);
    SortDistinct(Candidates(messages), ByPriority);
    assert |multiset(Ranked(messages))| == |Ranked(messages)|;
    assert |multiset(Candidates(messages))| == |messages|;
  }

  /** Whatever algorithm ranks the messages, sorted by the comparator they come out in this one
      order, and so do the required ones when they are put back into conversation order. */
  lemma RankingIsUnique(messages: seq<Message>, ranked: seq<Candidate>, required: seq<Candidate>)
    requires multiset(ranked) == multiset(Candidates(messages)) && Sorted(ranked, ByPriority)
    requires multiset(required) == multiset(Filter(ranked, IsRequired)) && Sorted(required, ByIndex)
    ensures ranked == Ranked(messages)
    ensures required == Filter(Candidates(messages), IsRequired)
  {
    RankingOrder(messages);
    StrictIsUnique(ranked, Ranked(messages), ByPriority);
    RequiredInOrder(messages);
    SortMultiset(Filter(ranked, IsRequired), ByIndex);
    StrictIsUnique(required, Filter(Candidates(messages), IsRequired), ByIndex);
  }
}
