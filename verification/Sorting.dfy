/** Stable sorting by a comparison, as Python's sorted() and numpy's sort behave. */
module Sorting {

  ghost predicate TotalPreorder<T(!new)>(leq: (T, T) -> bool) {
    && (forall a, b :: leq(a, b) || leq(b, a))
    && (forall a, b, c :: leq(a, b) && leq(b, c) ==> leq(a, c))
  }

  ghost predicate Ordered<T>(s: seq<T>, leq: (T, T) -> bool) {
    forall i, j | 0 <= i < j < |s| :: leq(s[i], s[j])
  }

  /** Insert before the first element that is not smaller, so equal elements keep their order. */
  function Insert<T>(x: T, s: seq<T>, leq: (T, T) -> bool): seq<T> {
    if s == [] || leq(x, s[0]) then [x] + s else [s[0]] + Insert(x, s[1..], leq)
  }

  function Sort<T>(s: seq<T>, leq: (T, T) -> bool): seq<T> {
    if s == [] then [] else Insert(s[0], Sort(s[1..], leq), leq)
  }

  lemma {:induction false} InsertProperties<T(!new)>(x: T, s: seq<T>, leq: (T, T) -> bool)
    requires TotalPreorder(leq) && Ordered(s, leq)
    ensures Ordered(Insert(x, s, leq), leq)
    ensures multiset(Insert(x, s, leq)) == multiset{x} + multiset(s)
    ensures |Insert(x, s, leq)| == |s| + 1
  {
    if s == [] || leq(x, s[0]) {
      assert multiset([x] + s) == multiset{x} + multiset(s);
      forall i, j | 0 <= i < j < |s| + 1 ensures leq(([x] + s)[i], ([x] + s)[j]) {
        if i == 0 {
          assert leq(s[0], s[j - 1]) by { assert j == 1 ==> leq(s[0], s[0]); }
        }
      }
    } else {
      var rest := Insert(x, s[1..], leq);
      InsertProperties(x, s[1..], leq);
      assert s == [s[0]] + s[1..];
      assert multiset([s[0]] + rest) == multiset{s[0]} + multiset(rest);
      forall j | 0 <= j < |rest| ensures leq(s[0], rest[j]) {
        assert rest[j] in multiset(rest);
        assert rest[j] == x || rest[j] in multiset(s[1..]);
      }
    }
  }

  lemma {:induction false} SortProperties<T(!new)>(s: seq<T>, leq: (T, T) -> bool)
    requires TotalPreorder(leq)
    ensures Ordered(Sort(s, leq), leq)
    ensures multiset(Sort(s, leq)) == multiset(s)
    ensures |Sort(s, leq)| == |s|
  {
    if s != [] {
      SortProperties(s[1..], leq);
      InsertProperties(s[0], Sort(s[1..], leq), leq);
      assert s == [s[0]] + s[1..];
    }
  }

  lemma SortMembers<T(!new)>(s: seq<T>, leq: (T, T) -> bool)
    requires TotalPreorder(leq)
    ensures forall x :: x in Sort(s, leq) <==> x in s
  {
    SortProperties(s, leq);
    assert forall x :: x in Sort(s, leq) <==> x in multiset(Sort(s, leq));
    assert forall x :: x in s <==> x in multiset(s);
  }

  lemma HeadIsLeast<T(!new)>(s: seq<T>, x: T, leq: (T, T) -> bool)
    requires TotalPreorder(leq) && Ordered(s, leq) && x in s
    ensures leq(s[0], x)
  {
    var i :| 0 <= i < |s| && s[i] == x;
    assert leq(s[0], s[0]);
  }

  lemma TailMultiset<T>(s: seq<T>)
    requires s != []
    ensures multiset(s[1..]) == multiset(s) - multiset{s[0]}
  {
    assert s == [s[0]] + s[1..];
  }

  lemma SameMembers<T>(a: seq<T>, b: seq<T>)
    requires multiset(a) == multiset(b)
    ensures |a| == |b| && forall x :: x in a <==> x in b
  {
    assert |a| == |multiset(a)| && |b| == |multiset(b)|;
    assert forall x :: x in a <==> x in multiset(a);
    assert forall x :: x in b <==> x in multiset(b);
  }

  ghost predicate Distinguishes<T>(leq: (T, T) -> bool, s: seq<T>) {
    forall x, y | x in s && y in s :: leq(x, y) && leq(y, x) ==> x == y
  }

  /** Where the comparison identifies no two different members, the ordered permutation is unique. */
  lemma {:induction false} OrderedUnique<T(!new)>(a: seq<T>, b: seq<T>, leq: (T, T) -> bool)
    requires TotalPreorder(leq) && Ordered(a, leq) && Ordered(b, leq)
    requires multiset(a) == multiset(b) && Distinguishes(leq, a)
    ensures a == b
    decreases |a|
  {
    SameMembers(a, b);
    if a != [] {
      HeadIsLeast(a, b[0], leq);
      HeadIsLeast(b, a[0], leq);
      assert b[0] in a && a[0] == b[0];
      TailMultiset(a);
      TailMultiset(b);
      OrderedUnique(a[1..], b[1..], leq);
      assert a == [a[0]] + a[1..] && b == [b[0]] + b[1..];
    }
  }

  /** Sorting does not see the order its input arrives in. */
  lemma SortPermutation<T(!new)>(a: seq<T>, b: seq<T>, leq: (T, T) -> bool)
    requires TotalPreorder(leq) && multiset(a) == multiset(b)
    requires Distinguishes(leq, a)
    ensures Sort(a, leq) == Sort(b, leq)
  {
    SortProperties(a, leq);
    SortProperties(b, leq);
    SortMembers(a, leq);
    OrderedUnique(Sort(a, leq), Sort(b, leq), leq);
  }
}
