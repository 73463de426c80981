/** The newest-first order retention uses, and what "the newest k" means without any sorting. */
module Ordering {
  import opened Text
  import opened Sorting

  datatype Stamp = Stamp(at: int, number: nat, name: string)

  /** Go's string order: character by character, a proper prefix first. */
  predicate Before(a: string, b: string) {
    if a == [] then b != []
    else b != [] && (a[0] < b[0] || (a[0] == b[0] && Before(a[1..], b[1..])))
  }

  lemma {:induction false} BeforeIsStrict(a: string, b: string)
    ensures !(Before(a, b) && Before(b, a)) && !Before(a, a)
    ensures a != b ==> Before(a, b) || Before(b, a)
  {
    if a != [] {
      BeforeIsStrict(a[1..], a[1..]);
      if b != [] {
        BeforeIsStrict(a[1..], b[1..]);
        assert a == [a[0]] + a[1..] && b == [b[0]] + b[1..];
      }
    }
  }

  lemma {:induction false} BeforeIsTransitive(a: string, b: string, c: string)
    requires Before(a, b) && Before(b, c)
    ensures Before(a, c)
  {
    if a != [] && a[0] == b[0] == c[0] {
      BeforeIsTransitive(a[1..], b[1..], c[1..]);
    }
  }

  /** Later time first, then the higher collision number, then the later name. */
  predicate Newer(a: Stamp, b: Stamp) {
    if a.at != b.at then a.at > b.at
    else if a.number != b.number then a.number > b.number
    else Before(b.name, a.name)
  }

  /** A strict total order on stamps with different names. */
  lemma {:induction false} NewerIsTotalOrder(a: Stamp, b: Stamp, c: Stamp)
    ensures !Newer(a, a) && !(Newer(a, b) && Newer(b, a))
    ensures a != b ==> Newer(a, b) || Newer(b, a)
    ensures Newer(a, b) && Newer(b, c) ==> Newer(a, c)
  {
    BeforeIsStrict(a.name, a.name);
    BeforeIsStrict(a.name, b.name);
    if Before(b.name, a.name) && Before(c.name, b.name) {
      BeforeIsTransitive(c.name, b.name, a.name);
    }
  }

  // --- sorting -----------------------------------------------------------

  predicate Sorted(q: seq<Stamp>) {
    forall i, j | 0 <= i < j < |q| :: Newer(q[i], q[j])
  }

  ghost function Elements<T>(q: seq<T>): (s: set<T>) {
    set x | x in q
  }

  /** The same stamps, newest first. */
  function SortNewest(q: seq<Stamp>): (r: seq<Stamp>)
    ensures |r| == |q|
  {
    Sort(Newer, q)
  }

  lemma {:induction false} DistinctTogether<T>(a: seq<T>, b: seq<T>)
    requires Distinct(a) && Distinct(b) && forall x | x in b :: x !in a
    ensures Distinct(a + b)
  {
    forall i, j | 0 <= i < j < |a + b|
      ensures (a + b)[i] != (a + b)[j]
    {
      if i < |a| <= j {
        assert a[i] in a && b[j - |a|] in b;
      }
    }
  }

  lemma {:induction false} DistinctAppend<T>(q: seq<T>, x: T)
    requires Distinct(q) && x !in q
    ensures Distinct(q + [x]) && forall y :: y in q + [x] <==> y in q || y == x
  {
  }

  lemma {:induction false} SortedIsSorted(q: seq<Stamp>)
    requires Distinct(q)
    ensures Sorted(SortNewest(q)) && Elements(SortNewest(q)) == Elements(q) && |SortNewest(q)| == |q|
  {
    hide Newer;
    forall a, b, c | Newer(a, b) && Newer(b, c)
      ensures Newer(a, c)
    {
      NewerIsTotalOrder(a, b, c);
    }
    forall i, j | 0 <= i < j < |q|
      ensures Newer(q[i], q[j]) || Newer(q[j], q[i])
    {
      NewerIsTotalOrder(q[i], q[j], q[j]);
    }
    SortOrders(Newer, q);
  }

  // --- the newest k ------------------------------------------------------

  const DEFAULT_KEEP := 7   // how many backups retention keeps unless told otherwise

  ghost function NewerThan(all: set<Stamp>, x: Stamp): set<Stamp> {
    set y | y in all && Newer(y, x)
  }

  /** The stamps fewer than `k` others are newer than. */
  ghost function Newest(all: set<Stamp>, k: nat): set<Stamp> {
    set x | x in all && |NewerThan(all, x)| < k
  }

  ghost function NamesOf(stamps: set<Stamp>): set<string> {
    set x | x in stamps :: x.name
  }

  lemma {:induction false} Subset<T>(a: set<T>, b: set<T>)
    requires a <= b
    ensures |a| <= |b|
  {
    if a != {} {
      var x :| x in a;
      Subset(a - {x}, b - {x});
    }
  }

  lemma {:induction false} DistinctCount<T>(q: seq<T>)
    requires Distinct(q)
    ensures |Elements(q)| == |q|
  {
    if q != [] {
      DistinctCount(q[1..]);
      assert q[0] !in q[1..];
      assert Elements(q) == {q[0]} + Elements(q[1..]);
    }
  }

  lemma {:induction false} SortedIsDistinct(q: seq<Stamp>)
    requires Sorted(q)
    ensures Distinct(q)
  {
    forall i, j | 0 <= i < j < |q|
      ensures q[i] != q[j]
    {
      NewerIsTotalOrder(q[i], q[j], q[j]);
    }
  }

  /** In a newest-first list the position of a stamp is the number of stamps newer than it. */
  lemma {:induction false} PositionIsRank(q: seq<Stamp>, i: nat)
    requires Sorted(q) && i < |q|
    ensures |NewerThan(Elements(q), q[i])| == i
  {
    SortedIsDistinct(q);
    forall j | 0 <= j < |q|
      ensures Newer(q[j], q[i]) <==> j < i
    {
      NewerIsTotalOrder(q[i], q[j], q[j]);
    }
    assert NewerThan(Elements(q), q[i]) == Elements(q[..i]);
    DistinctCount(q[..i]);
  }

  lemma {:induction false} RankDecides(q: seq<Stamp>, i: nat, k: nat)
    requires Sorted(q) && i < |q|
    ensures q[i] in Newest(Elements(q), k) <==> i < k
  {
    PositionIsRank(q, i);
    assert q[i] in Elements(q);
  }

  lemma {:induction false} CutAt<T>(q: seq<T>, n: nat, i: nat)
    requires n <= |q| && i < |q|
    ensures if i < n then q[i] in q[..n] else q[i] in q[n..]
  {
    assert i < n ==> q[..n][i] == q[i];
    assert i >= n ==> q[n..][i - n] == q[i];
  }

  lemma {:induction false} NewestAreListed(q: seq<Stamp>, k: nat)
    ensures Newest(Elements(q), k) <= Elements(q)
  {
  }

  /** Cutting a newest-first list after `k` entries keeps exactly the newest `k`. */
  lemma {:induction false} CutIsNewest(q: seq<Stamp>, k: nat)
    requires Sorted(q)
    ensures Elements(q[..if k < |q| then k else |q|]) == Newest(Elements(q), k)
    ensures k <= |q| ==> Elements(q[k..]) == Elements(q) - Newest(Elements(q), k)
  {
    hide Newest;
    NewestAreListed(q, k);
    var n := if k < |q| then k else |q|;
    forall x | x in q
      ensures x in q[..n] <==> x in Newest(Elements(q), k)
      ensures k <= |q| ==> (x in q[k..] <==> x !in Newest(Elements(q), k))
    {
      InEither(q, n, x, k);
    }
    assert forall x | x in q[..n] :: x in q;
    assert k <= |q| ==> forall x | x in q[k..] :: x in q;
  }

  lemma {:induction false} InEither(q: seq<Stamp>, n: nat, x: Stamp, k: nat)
    requires Sorted(q) && x in q && n == if k < |q| then k else |q|
    ensures x in q[..n] <==> x in Newest(Elements(q), k)
    ensures x in q[n..] <==> x !in Newest(Elements(q), k)
  {
    hide Newest;
    SortedIsDistinct(q);
    var i :| 0 <= i < |q| && q[i] == x;
    RankDecides(q, i, k);
    CutAt(q, n, i);
    assert forall j | 0 <= j < n && q[..n][j] == x :: j == i;
    assert forall j | 0 <= j < |q| - n && q[n..][j] == x :: j + n == i;
  }

  lemma {:induction false} SubsetNewest(some: set<Stamp>, all: set<Stamp>, k: nat)
    requires some <= all
    ensures Newest(all, k) * some <= Newest(some, k) && Newest(some, k) <= some
  {
    forall x | x in Newest(all, k) && x in some
      ensures x in Newest(some, k)
    {
      Subset(NewerThan(some, x), NewerThan(all, x));
    }
  }

  /** What lies beyond the cut in a list of some of the stamps lies beyond the newest `k` of all of them. */
  lemma {:induction false} BeyondIsBeyond(q: seq<Stamp>, all: set<Stamp>, k: nat)
    requires Sorted(q) && Elements(q) <= all && k <= |q|
    ensures Elements(q[k..]) <= all - Newest(all, k)
    ensures Elements(q) == all ==> Elements(q[k..]) == all - Newest(all, k)
  {
    CutIsNewest(q, k);
    SubsetNewest(Elements(q), all, k);
    forall x | x in q[k..]
      ensures x in all - Newest(all, k)
    {
      assert x in Elements(q[k..]);
    }
  }

  /** Some listing of a set, newest first. */
  lemma {:induction false} Listing(all: set<Stamp>) returns (q: seq<Stamp>)
    ensures Sorted(q) && Elements(q) == all && |q| == |all|
  {
    if all == {} {
      q := [];
    } else {
      var x :| x in all;
      var rest := Listing(all - {x});
      assert forall y :: y in rest <==> y in Elements(rest);
      SortedIsDistinct(rest);
      DistinctAppend(rest, x);
      SortedIsSorted(rest + [x]);
      q := SortNewest(rest + [x]);
      assert Elements(rest + [x]) == all;
    }
  }

  lemma {:induction false} NewestCount(all: set<Stamp>, k: nat)
    ensures |Newest(all, k)| == if k < |all| then k else |all|
  {
    var q := Listing(all);
    CutIsNewest(q, k);
    SortedIsDistinct(q);
    DistinctCount(q[..if k < |q| then k else |q|]);
  }

  /** Bringing stamps back after the cut and cutting again changes nothing. */
  lemma {:induction false} CutAgain(all: set<Stamp>, back: set<Stamp>, k: nat)
    requires back <= all
    ensures Newest(Newest(all, k) + back, k) == Newest(all, k)
  {
    var top := Newest(all, k);
    var again := top + back;
    NewestCount(all, k);
    forall x | x in top
      ensures x in Newest(again, k)
    {
      Subset(NewerThan(again, x), NewerThan(all, x));
    }
    forall x | x in again && x !in top
      ensures x !in Newest(again, k)
    {
      forall y | y in top
        ensures Newer(y, x)
      {
        NewerIsTotalOrder(x, y, y);
        if Newer(x, y) {
          forall z | z in NewerThan(all, x)
            ensures z in NewerThan(all, y)
          {
            NewerIsTotalOrder(z, x, y);
          }
          Subset(NewerThan(all, x), NewerThan(all, y));
        }
      }
      Subset(NewerThan(all, x), all);
      Subset(top, NewerThan(again, x));
    }
  }
}
