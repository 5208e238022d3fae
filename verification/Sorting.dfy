/** Finite sequences without repetition, stable sorting and the order Python gives to strings. */
module Sorting {

  ghost predicate NoDup<T>(s: seq<T>) {
    forall i, j :: 0 <= i < j < |s| ==> s[i] != s[j]
  }

  function Elems<T>(s: seq<T>): (r: set<T>) {
    set x | x in s
  }

  lemma NoDupCardinality<T>(s: seq<T>)
    requires NoDup(s)
    ensures |Elems(s)| == |s|
  {
    if s != [] {
      NoDupCardinality(s[1..]);
      assert Elems(s) == {s[0]} + Elems(s[1..]);
    }
  }

  /** A sequence without repetition is no longer than a set that holds its elements. */
  lemma NoDupFits<T>(s: seq<T>, within: set<T>)
    requires NoDup(s) && forall x :: x in s ==> x in within
    ensures |s| <= |within|
  {
    NoDupCardinality(s);
    SubsetCardinality(Elems(s), within);
  }

  lemma SubsetCardinality<T>(a: set<T>, b: set<T>)
    requires a <= b
    ensures |a| <= |b|
    ensures |a| == |b| ==> a == b
  {
    if a != {} {
      var x :| x in a;
      SubsetCardinality(a - {x}, b - {x});
      assert (a - {x}) + {x} == a && (b - {x}) + {x} == b;
    }
  }

  lemma EmptyDifference<T>(a: set<T>, b: set<T>)
    ensures a - b == {} <==> a <= b
  {
    if a - b == {} {
      forall x | x in a ensures x in b {
        assert x in b || x in a - b;
      }
    }
  }

  /** The first position of x, as Python's list.index gives it. */
  function IndexOf<T(==)>(s: seq<T>, x: T): (i: nat)
    requires x in s
    ensures i < |s| && s[i] == x && x !in s[..i]
  {
    if s[0] == x then 0 else 1 + IndexOf(s[1..], x)
  }

  lemma {:induction false} NoDupSize<T>(s: seq<T>)
    requires NoDup(s)
    ensures |Elems(s)| == |s|
  {
    if s != [] {
      NoDupSize(s[1..]);
      assert Elems(s) == Elems(s[1..]) + {s[0]} && s[0] !in s[1..];
    }
  }

  lemma FirstIndex<T>(s: seq<T>, x: T, i: nat)
    requires i < |s| && s[i] == x && x !in s[..i]
    ensures IndexOf(s, x) == i
  {
    var j := IndexOf(s, x);
  }

  lemma IndexOfAppended<T>(s: seq<T>, more: T, x: T)
    ensures x in s ==> IndexOf(s + [more], x) == IndexOf(s, x)
    ensures x !in s && x == more ==> IndexOf(s + [more], x) == |s|
  {
    if x in s {
      assert (s + [more])[..IndexOf(s, x)] == s[..IndexOf(s, x)];
      FirstIndex(s + [more], x, IndexOf(s, x));
    } else if x == more {
      assert (s + [more])[..|s|] == s;
      FirstIndex(s + [more], x, |s|);
    }
  }

  lemma NoDupAppended<T>(s: seq<T>, last: T)
    ensures NoDup(s + [last]) <==> NoDup(s) && last !in s
  {
    var all := s + [last];
    if NoDup(all) {
      forall i, j | 0 <= i < j < |s| ensures s[i] != s[j] {
        assert all[i] != all[j];
      }
      forall i | 0 <= i < |s| ensures s[i] != last {
        assert all[i] != all[|s|];
      }
    } else if NoDup(s) {
      var i, j :| 0 <= i < j < |all| && all[i] == all[j];
      assert j == |s| && all[i] == s[i];
    }
  }

  function Filter<T(!new)>(keep: T -> bool, s: seq<T>): (r: seq<T>)
    ensures forall x :: x in r <==> x in s && keep(x)
    ensures |r| <= |s|
  {
    if s == [] then [] else (if keep(s[0]) then [s[0]] else []) + Filter(keep, s[1..])
  }

  lemma {:induction false} FilterNoDup<T(!new)>(keep: T -> bool, s: seq<T>)
    requires NoDup(s)
    ensures NoDup(Filter(keep, s))
  {
    if s != [] {
      FilterNoDup(keep, s[1..]);
    }
  }

  lemma {:induction false} FilterAppended<T(!new)>(keep: T -> bool, s: seq<T>, last: T)
    ensures Filter(keep, s + [last]) == Filter(keep, s) + if keep(last) then [last] else []
  {
    if s == [] {
      assert s + [last] == [last] && [last][1..] == [];
    } else {
      var head, tail := if keep(s[0]) then [s[0]] else [], if keep(last) then [last] else [];
      assert s + [last] == [s[0]] + (s[1..] + [last]);
      calc {
        Filter(keep, s + [last]);
        { FilterCons(keep, s[0], s[1..] + [last]); }
        head + Filter(keep, s[1..] + [last]);
        { FilterAppended(keep, s[1..], last); }
        head + (Filter(keep, s[1..]) + tail);
        { Associates(head, Filter(keep, s[1..]), tail); }
        (head + Filter(keep, s[1..])) + tail;
      }
    }
  }

  lemma Associates<T>(a: seq<T>, b: seq<T>, c: seq<T>)
    ensures a + (b + c) == (a + b) + c
  {
  }

  lemma FilterCons<T(!new)>(keep: T -> bool, first: T, rest: seq<T>)
    ensures Filter(keep, [first] + rest) == (if keep(first) then [first] else []) + Filter(keep, rest)
  {
    assert ([first] + rest)[1..] == rest;
  }

  lemma {:induction false} FilterKeepsAll<T(!new)>(keep: T -> bool, s: seq<T>)
    ensures Filter(keep, s) == s <==> forall x :: x in s ==> keep(x)
  {
    if s != [] {
      FilterKeepsAll(keep, s[1..]);
      assert s == [s[0]] + s[1..];
    }
  }

  lemma {:induction false} FilterMultiset<T(!new)>(keep: T -> bool, s: seq<T>, x: T)
    ensures multiset(Filter(keep, s))[x] == if keep(x) then multiset(s)[x] else 0
  {
    if s != [] {
      FilterMultiset(keep, s[1..], x);
      assert s == [s[0]] + s[1..];
    }
  }

  /** Filtering a permutation permutes the result. */
  lemma FilterPermuted<T(!new)>(keep: T -> bool, a: seq<T>, b: seq<T>)
    requires multiset(a) == multiset(b)
    ensures multiset(Filter(keep, a)) == multiset(Filter(keep, b))
  {
    forall x ensures multiset(Filter(keep, a))[x] == multiset(Filter(keep, b))[x] {
      FilterMultiset(keep, a, x);
      FilterMultiset(keep, b, x);
    }
  }

  lemma {:induction false} SameSetSameMultiset<T>(a: seq<T>, b: seq<T>)
    requires NoDup(a) && NoDup(b) && forall x :: x in a <==> x in b
    ensures multiset(a) == multiset(b)
  {
    forall x ensures multiset(a)[x] == multiset(b)[x] {
      MultiplicityAtMostOne(a, x);
      MultiplicityAtMostOne(b, x);
      assert x in a <==> x in multiset(a);
      assert x in b <==> x in multiset(b);
    }
  }

  /** The first x moved to the front. */
  function MoveToFront<T(==)>(x: T, s: seq<T>): (r: seq<T>)
    requires x in s
    ensures r != [] && r[0] == x
  {
    [x] + (s[..IndexOf(s, x)] + s[IndexOf(s, x) + 1..])
  }

  lemma MoveToFrontPermutes<T>(x: T, s: seq<T>)
    requires x in s
    ensures multiset(MoveToFront(x, s)) == multiset(s)
  {
    var i := IndexOf(s, x);
    Rotated(s[..i], x, s[i + 1..]);
    assert s == s[..i] + ([x] + s[i + 1..]);
  }

  lemma Rotated<T>(a: seq<T>, x: T, b: seq<T>)
    ensures multiset([x] + (a + b)) == multiset(a + ([x] + b))
  {
    assert multiset([x] + (a + b)) == multiset{x} + (multiset(a) + multiset(b));
    assert multiset(a + ([x] + b)) == multiset(a) + (multiset{x} + multiset(b));
  }

  // ----- sorting -------------------------------------------------------------

  ghost predicate TotalPreorder<T(!new)>(leq: (T, T) -> bool) {
    && (forall x, y :: leq(x, y) || leq(y, x))
    && (forall x, y, z :: leq(x, y) && leq(y, z) ==> leq(x, z))
  }

  ghost predicate SortedBy<T>(leq: (T, T) -> bool, s: seq<T>) {
    forall i, j :: 0 <= i < j < |s| ==> leq(s[i], s[j])
  }

  function Insert<T>(leq: (T, T) -> bool, x: T, s: seq<T>): seq<T> {
    if s == [] then [x]
    else if leq(x, s[0]) then [x] + s
    else [s[0]] + Insert(leq, x, s[1..])
  }

  /** Python's sorted with the order leq: stable, so equal elements keep their order. */
  function Sort<T>(leq: (T, T) -> bool, s: seq<T>): seq<T> {
    if s == [] then [] else Insert(leq, s[0], Sort(leq, s[1..]))
  }

  lemma {:induction false} InsertMultiset<T>(leq: (T, T) -> bool, x: T, s: seq<T>)
    ensures multiset(Insert(leq, x, s)) == multiset{x} + multiset(s)
  {
    if s != [] {
      InsertMultiset(leq, x, s[1..]);
      assert s == [s[0]] + s[1..];
    }
  }

  lemma {:induction false} SortMultiset<T>(leq: (T, T) -> bool, s: seq<T>)
    ensures multiset(Sort(leq, s)) == multiset(s)
  {
    if s != [] {
      SortMultiset(leq, s[1..]);
      InsertMultiset(leq, s[0], Sort(leq, s[1..]));
      assert s == [s[0]] + s[1..];
    }
  }

  lemma {:induction false} InsertSorted<T(!new)>(leq: (T, T) -> bool, x: T, s: seq<T>)
    requires TotalPreorder(leq) && SortedBy(leq, s)
    ensures SortedBy(leq, Insert(leq, x, s))
  {
    if s != [] && !leq(x, s[0]) {
      InsertSorted(leq, x, s[1..]);
      var rest := Insert(leq, x, s[1..]);
      InsertMultiset(leq, x, s[1..]);
      forall i | 0 <= i < |rest| ensures leq(s[0], rest[i]) {
        assert rest[i] in multiset(rest);
        assert rest[i] == x || rest[i] in s[1..];
      }
    }
  }

  lemma {:induction false} SortSorted<T(!new)>(leq: (T, T) -> bool, s: seq<T>)
    requires TotalPreorder(leq)
    ensures SortedBy(leq, Sort(leq, s))
  {
    if s != [] {
      SortSorted(leq, s[1..]);
      InsertSorted(leq, s[0], Sort(leq, s[1..]));
    }
  }

  lemma SameElements<T>(a: seq<T>, b: seq<T>)
    requires multiset(a) == multiset(b)
    ensures |a| == |b|
    ensures forall x :: x in a <==> x in b
  {
    assert |multiset(a)| == |a| && |multiset(b)| == |b|;
    forall x ensures x in a <==> x in b {
      assert x in a <==> x in multiset(a);
      assert x in b <==> x in multiset(b);
    }
  }

  lemma {:induction false} SameMultisetNoDup<T>(a: seq<T>, b: seq<T>)
    requires multiset(a) == multiset(b) && NoDup(a)
    ensures NoDup(b)
  {
    SameElements(a, b);
    forall i, j | 0 <= i < j < |b| ensures b[i] != b[j] {
      if b[i] == b[j] {
        var x := b[i];
        MultiplicityAtLeastTwo(b, i, j);
        MultiplicityAtMostOne(a, x);
      }
    }
  }

  lemma {:induction false} MultiplicityAtLeastTwo<T>(s: seq<T>, i: nat, j: nat)
    requires i < j < |s| && s[i] == s[j]
    ensures multiset(s)[s[i]] >= 2
  {
    assert s == s[..j] + ([s[j]] + s[j + 1..]);
    assert s[i] in s[..j];
    assert multiset(s) == multiset(s[..j]) + (multiset{s[j]} + multiset(s[j + 1..]));
  }

  lemma {:induction false} MultiplicityAtMostOne<T>(s: seq<T>, x: T)
    requires NoDup(s)
    ensures multiset(s)[x] <= 1
  {
    if s != [] {
      MultiplicityAtMostOne(s[1..], x);
      assert s == [s[0]] + s[1..];
      if x == s[0] {
        assert x !in s[1..];
      }
    }
  }

  /** Two sorted arrangements of the same elements are equal when the order separates those elements. */
  lemma {:induction false} SortedUnique<T(!new)>(leq: (T, T) -> bool, a: seq<T>, b: seq<T>)
    requires multiset(a) == multiset(b)
    requires SortedBy(leq, a) && SortedBy(leq, b)
    requires forall x, y :: x in a && y in a && leq(x, y) && leq(y, x) ==> x == y
    ensures a == b
    decreases |a|
  {
    SameElements(a, b);
    if a != [] {
      assert a[0] in b && b[0] in a;
      SortedHeadLeq(leq, a, b[0]);
      SortedHeadLeq(leq, b, a[0]);
      TailMultiset(a);
      TailMultiset(b);
      SortedUnique(leq, a[1..], b[1..]);
    }
  }

  lemma SortedHeadLeq<T(!new)>(leq: (T, T) -> bool, s: seq<T>, x: T)
    requires SortedBy(leq, s) && x in s
    ensures s[0] == x || leq(s[0], x)
  {
  }

  lemma TailMultiset<T>(s: seq<T>)
    requires s != []
    ensures multiset(s[1..]) == multiset(s) - multiset{s[0]}
  {
    assert s == [s[0]] + s[1..];
  }

  // ----- strings ---------------------------------------------------------------

  /** Code point order, which is Python's order on str and, on ASCII text, its order on bytes. */
  predicate StringLeq(a: string, b: string) {
    a == [] || (b != [] && (a[0] < b[0] || (a[0] == b[0] && StringLeq(a[1..], b[1..]))))
  }

  lemma {:induction false} StringTotal(a: string, b: string)
    ensures StringLeq(a, b) || StringLeq(b, a)
    ensures StringLeq(a, b) && StringLeq(b, a) ==> a == b
  {
    if a != [] && b != [] {
      StringTotal(a[1..], b[1..]);
    }
  }

  lemma {:induction false} StringTransitive(a: string, b: string, c: string)
    requires StringLeq(a, b) && StringLeq(b, c)
    ensures StringLeq(a, c)
  {
    if a != [] && b != [] && c != [] && a[0] == b[0] == c[0] {
      StringTransitive(a[1..], b[1..], c[1..]);
    }
  }

  /** a is a prefix of b, or smaller at the first character in which they differ. */
  ghost predicate Precedes(a: string, b: string) {
    a <= b || exists k: nat :: k < |a| && k < |b| && a[..k] == b[..k] && a[k] < b[k]
  }

  lemma {:induction false} StringLeqIs(a: string, b: string)
    ensures StringLeq(a, b) <==> Precedes(a, b)
  {
    if a != [] && b != [] {
      if a[0] == b[0] {
        StringLeqIs(a[1..], b[1..]);
        SameHeadPrecedes(a, b);
      } else {
        OtherHeadPrecedes(a, b);
      }
    }
  }

  lemma OtherHeadPrecedes(a: string, b: string)
    requires a != [] && b != [] && a[0] != b[0]
    ensures Precedes(a, b) <==> a[0] < b[0]
  {
    if a[0] < b[0] { assert a[..0] == b[..0]; }
    if k: nat :| k < |a| && k < |b| && a[..k] == b[..k] && a[k] < b[k] {
      assert k > 0 ==> a[..k][0] == b[..k][0];
    }
  }

  lemma SameHeadPrecedes(a: string, b: string)
    requires a != [] && b != [] && a[0] == b[0]
    ensures Precedes(a, b) <==> Precedes(a[1..], b[1..])
  {
    assert a == [a[0]] + a[1..] && b == [b[0]] + b[1..];
    if k: nat :| k < |a| && k < |b| && a[..k] == b[..k] && a[k] < b[k] {
      assert k > 0 && a[1..][..k - 1] == a[..k][1..] && b[1..][..k - 1] == b[..k][1..];
      assert a[1..][k - 1] < b[1..][k - 1];
    }
    if k: nat :| k < |a[1..]| && k < |b[1..]| && a[1..][..k] == b[1..][..k] && a[1..][k] < b[1..][k] {
      assert a[..k + 1] == [a[0]] + a[1..][..k] && b[..k + 1] == [b[0]] + b[1..][..k];
      assert a[k + 1] < b[k + 1];
    }
  }

  lemma StringOrder()
    ensures TotalPreorder(StringLeq)
    ensures forall a, b :: StringLeq(a, b) && StringLeq(b, a) ==> a == b
  {
    forall a, b ensures StringLeq(a, b) || StringLeq(b, a) { StringTotal(a, b); }
    forall a, b | StringLeq(a, b) && StringLeq(b, a) ensures a == b { StringTotal(a, b); }
    forall a, b, c | StringLeq(a, b) && StringLeq(b, c) ensures StringLeq(a, c) { StringTransitive(a, b, c); }
  }

  ghost predicate StrictlySorted(s: seq<string>) {
    SortedBy(StringLeq, s) && NoDup(s)
  }

  function SortStrings(s: seq<string>): (r: seq<string>) {
    Sort(StringLeq, s)
  }

  lemma SortStringsCorrect(s: seq<string>)
    ensures SortedBy(StringLeq, SortStrings(s))
    ensures multiset(SortStrings(s)) == multiset(s)
    ensures Elems(SortStrings(s)) == Elems(s)
    ensures NoDup(s) ==> StrictlySorted(SortStrings(s))
  {
    StringOrder();
    SortSorted(StringLeq, s);
    SortMultiset(StringLeq, s);
    SameElements(SortStrings(s), s);
    if NoDup(s) {
      SameMultisetNoDup(s, SortStrings(s));
    }
  }

  ghost predicate IsLeastOf(least: string, s: set<string>) {
    least in s && forall y :: y in s ==> StringLeq(least, y)
  }

  lemma LeastWith(x: string, other: string, s: set<string>)
    requires IsLeastOf(other, s)
    ensures IsLeastOf(if StringLeq(x, other) then x else other, s + {x})
  {
    StringTotal(x, other);
    StringTotal(x, x);
    if StringLeq(x, other) {
      forall y | y in s ensures StringLeq(x, y) {
        StringTransitive(x, other, y);
      }
    }
  }

  lemma {:induction false} LeastExists(s: set<string>)
    requires s != {}
    ensures exists least :: IsLeastOf(least, s)
  {
    var x :| x in s;
    StringTotal(x, x);
    if s == {x} {
      assert IsLeastOf(x, s);
    } else {
      LeastExists(s - {x});
      var other :| IsLeastOf(other, s - {x});
      LeastWith(x, other, s - {x});
      assert s - {x} + {x} == s;
    }
  }

  function Least(s: set<string>): (x: string)
    requires s != {}
    ensures x in s && forall y :: y in s ==> StringLeq(x, y)
  {
    LeastExists(s);
    StringOrder();
    var x :| x in s && forall y :: y in s ==> StringLeq(x, y);
    x
  }

  /** sorted(set), which is how the sources turn a set into something with an order. */
  function SortedSet(s: set<string>): seq<string> {
    if s == {} then [] else [Least(s)] + SortedSet(s - {Least(s)})
  }

  lemma {:induction false} SortedSetCorrect(s: set<string>)
    ensures forall x :: x in SortedSet(s) <==> x in s
    ensures StrictlySorted(SortedSet(s))
  {
    if s != {} {
      SortedSetCorrect(s - {Least(s)});
    }
  }
}
