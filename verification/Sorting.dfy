/** What sort.Slice leaves: the same elements, each before those it comes before. */
module Sorting {

  ghost predicate Ordered<T>(before: (T, T) -> bool, q: seq<T>) {
    forall i, j | 0 <= i < j < |q| :: before(q[i], q[j])
  }

  ghost predicate Transitive<T(!new)>(before: (T, T) -> bool) {
    forall a, b, c | before(a, b) && before(b, c) :: before(a, c)
  }

  /** Any two elements can be told apart. */
  ghost predicate Comparable<T>(before: (T, T) -> bool, q: seq<T>) {
    forall i, j | 0 <= i < j < |q| :: before(q[i], q[j]) || before(q[j], q[i])
  }

  function Insert<T>(before: (T, T) -> bool, x: T, q: seq<T>): (r: seq<T>)
    ensures multiset(r) == multiset(q) + multiset{x} && |r| == |q| + 1
  {
    if q == [] then [x]
    else if before(x, q[0]) then [x] + q
    else
      assert q == [q[0]] + q[1..];
      [q[0]] + Insert(before, x, q[1..])
  }

  function Sort<T>(before: (T, T) -> bool, q: seq<T>): (r: seq<T>)
    ensures multiset(r) == multiset(q) && |r| == |q|
  {
    if q == [] then []
    else
      assert q == [q[0]] + q[1..];
      Insert(before, q[0], Sort(before, q[1..]))
  }

  lemma {:induction false} SameElements<T>(a: seq<T>, b: seq<T>)
    requires multiset(a) == multiset(b)
    ensures |a| == |b| && forall x :: x in a <==> x in b
  {
    forall x
      ensures x in a <==> x in b
    {
      assert x in a <==> x in multiset(a);
      assert x in b <==> x in multiset(b);
    }
    assert |multiset(a)| == |a| && |multiset(b)| == |b|;
  }

  lemma {:induction false} InsertKeepsOrder<T(!new)>(before: (T, T) -> bool, x: T, q: seq<T>)
    requires Transitive(before) && Ordered(before, q) && forall y | y in q :: before(x, y) || before(y, x)
    ensures Ordered(before, Insert(before, x, q))
  {
    if q != [] && !before(x, q[0]) {
      InsertKeepsOrder(before, x, q[1..]);
      var rest := Insert(before, x, q[1..]);
      forall y | y in rest
        ensures before(q[0], y)
      {
        assert y in multiset(rest);
        assert y == x || y in q[1..];
      }
    }
  }

  lemma {:induction false} SortOrders<T(!new)>(before: (T, T) -> bool, q: seq<T>)
    requires Transitive(before) && Comparable(before, q)
    ensures Ordered(before, Sort(before, q))
    ensures |Sort(before, q)| == |q| && forall x :: x in Sort(before, q) <==> x in q
  {
    if q != [] {
      SortOrders(before, q[1..]);
      InsertKeepsOrder(before, q[0], Sort(before, q[1..]));
    }
    SameElements(Sort(before, q), q);
  }
}
