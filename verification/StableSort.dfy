/** Sorting by a comparator, as Array.prototype.sort does: stable, and a permutation. */
module StableSort {

  /** Puts x behind every element that is not larger. */
  function Insert<T>(cmp: (T, T) -> int, sorted: seq<T>, x: T): seq<T>
  {
    if sorted == [] || cmp(sorted[|sorted| - 1], x) <= 0 then sorted + [x]
    else Insert(cmp, sorted[..|sorted| - 1], x) + [sorted[|sorted| - 1]]
  }

  function Sort<T>(cmp: (T, T) -> int, xs: seq<T>): seq<T>
  {
    if xs == [] then [] else Insert(cmp, Sort(cmp, xs[..|xs| - 1]), xs[|xs| - 1])
  }

  ghost predicate Ordered<T>(cmp: (T, T) -> int, xs: seq<T>)
  {
    forall i, j :: 0 <= i < j < |xs| ==> cmp(xs[i], xs[j]) <= 0
  }

  /** A comparator that compares any two values, and transitively. */
  ghost predicate Consistent<T(!new)>(cmp: (T, T) -> int, domain: set<T>)
  {
    && (forall a, b :: a in domain && b in domain ==> (cmp(a, b) <= 0 || cmp(b, a) <= 0))
    && (forall a, b, c :: a in domain && b in domain && c in domain && cmp(a, b) <= 0 && cmp(b, c) <= 0 ==>
        cmp(a, c) <= 0)
  }

  /** A consistent comparator that tells every two values apart. */
  ghost predicate Total<T(!new)>(cmp: (T, T) -> int, domain: set<T>)
  {
    && Consistent(cmp, domain)
    && (forall a, b :: a in domain && b in domain && cmp(a, b) <= 0 && cmp(b, a) <= 0 ==> a == b)
  }

  lemma TotalIsConsistent<T(!new)>(cmp: (T, T) -> int, domain: set<T>)
    requires Total(cmp, domain)
    ensures Consistent(cmp, domain)
  {
  }

  function Elements<T>(xs: seq<T>): set<T>
  {
    set x | x in xs
  }

  lemma {:induction false} InsertPermutes<T>(cmp: (T, T) -> int, sorted: seq<T>, x: T)
    ensures multiset(Insert(cmp, sorted, x)) == multiset(sorted) + multiset{x}
  {
    if sorted != [] && cmp(sorted[|sorted| - 1], x) > 0 {
      InsertPermutes(cmp, sorted[..|sorted| - 1], x);
      assert sorted == sorted[..|sorted| - 1] + [sorted[|sorted| - 1]];
    }
  }

  lemma {:induction false} SortPermutes<T>(cmp: (T, T) -> int, xs: seq<T>)
    ensures multiset(Sort(cmp, xs)) == multiset(xs)
  {
    if xs != [] {
      SortPermutes(cmp, xs[..|xs| - 1]);
      InsertPermutes(cmp, Sort(cmp, xs[..|xs| - 1]), xs[|xs| - 1]);
      assert xs == xs[..|xs| - 1] + [xs[|xs| - 1]];
    }
  }

  lemma SameElements<T>(a: seq<T>, b: seq<T>)
    requires multiset(a) == multiset(b)
    ensures Elements(a) == Elements(b) && |a| == |b|
  {
    forall x
      ensures x in a <==> x in b
    {
      assert x in a <==> x in multiset(a);
      assert x in b <==> x in multiset(b);
    }
    assert |multiset(a)| == |a| && |multiset(b)| == |b|;
  }

  lemma {:induction false} InsertOrdered<T(!new)>(cmp: (T, T) -> int, sorted: seq<T>, x: T, domain: set<T>)
    requires Consistent(cmp, domain) && Ordered(cmp, sorted)
    requires x in domain && forall y :: y in sorted ==> y in domain
    ensures Ordered(cmp, Insert(cmp, sorted, x))
  {
    if sorted == [] {
    } else if cmp(sorted[|sorted| - 1], x) <= 0 {
      forall i | 0 <= i < |sorted|
        ensures cmp(sorted[i], x) <= 0
      {
        assert sorted[i] in sorted && sorted[|sorted| - 1] in sorted;
        assert i < |sorted| - 1 ==> cmp(sorted[i], sorted[|sorted| - 1]) <= 0;
      }
    } else {
      var init, last := sorted[..|sorted| - 1], sorted[|sorted| - 1];
      assert last in sorted && forall y :: y in init ==> y in sorted;
      InsertOrdered(cmp, init, x, domain);
      InsertPermutes(cmp, init, x);
      assert cmp(x, last) <= 0;
      forall i | 0 <= i < |init|
        ensures cmp(init[i], last) <= 0
      {
        assert cmp(sorted[i], sorted[|sorted| - 1]) <= 0;
      }
      AppendLargest(cmp, init, x, Insert(cmp, init, x), last);
    }
  }

  lemma AppendLargest<T>(cmp: (T, T) -> int, init: seq<T>, x: T, grown: seq<T>, last: T)
    requires multiset(grown) == multiset(init) + multiset{x}
    requires cmp(x, last) <= 0 && forall i :: 0 <= i < |init| ==> cmp(init[i], last) <= 0
    requires Ordered(cmp, grown)
    ensures Ordered(cmp, grown + [last])
  {
    forall i | 0 <= i < |grown|
      ensures cmp(grown[i], last) <= 0
    {
      assert grown[i] in multiset(grown);
      if grown[i] != x {
        assert grown[i] in multiset(init);
      }
    }
  }

  lemma {:induction false} SortOrdered<T(!new)>(cmp: (T, T) -> int, xs: seq<T>, domain: set<T>)
    requires Consistent(cmp, domain) && forall x :: x in xs ==> x in domain
    ensures Ordered(cmp, Sort(cmp, xs))
  {
    if xs != [] {
      var init := xs[..|xs| - 1];
      assert forall x :: x in init ==> x in xs;
      SortOrdered(cmp, init, domain);
      SortPermutes(cmp, init);
      SameElements(init, Sort(cmp, init));
      forall y | y in Sort(cmp, init)
        ensures y in domain
      {
        assert y in Elements(init);
      }
      InsertOrdered(cmp, Sort(cmp, init), xs[|xs| - 1], domain);
    }
  }

  // ---- stability ----

  function Filter<T>(p: T -> bool, xs: seq<T>): seq<T>
  {
    if xs == [] then [] else Filter(p, xs[..|xs| - 1]) + if p(xs[|xs| - 1]) then [xs[|xs| - 1]] else []
  }

  lemma FilterSnoc<T>(p: T -> bool, xs: seq<T>, x: T)
    ensures Filter(p, xs + [x]) == Filter(p, xs) + if p(x) then [x] else []
  {
    assert (xs + [x])[..|xs|] == xs;
  }

  lemma {:induction false} InsertKeeps<T>(cmp: (T, T) -> int, sorted: seq<T>, x: T, p: T -> bool)
    requires forall a :: a in sorted && p(a) && p(x) ==> cmp(a, x) <= 0
    ensures Filter(p, Insert(cmp, sorted, x)) == Filter(p, sorted) + if p(x) then [x] else []
  {
    if sorted == [] || cmp(sorted[|sorted| - 1], x) <= 0 {
      FilterSnoc(p, sorted, x);
    } else {
      var init, last := sorted[..|sorted| - 1], sorted[|sorted| - 1];
      assert forall a :: a in init ==> a in sorted;
      assert last in sorted;
      InsertKeeps(cmp, init, x, p);
      FilterSnoc(p, Insert(cmp, init, x), last);
    }
  }

  /** Elements that are not larger than one another keep their order. */
  lemma {:induction false} SortKeeps<T>(cmp: (T, T) -> int, xs: seq<T>, p: T -> bool)
    requires forall a, b :: a in xs && b in xs && p(a) && p(b) ==> cmp(a, b) <= 0
    ensures Filter(p, Sort(cmp, xs)) == Filter(p, xs)
  {
    if xs != [] {
      var init, last := xs[..|xs| - 1], xs[|xs| - 1];
      assert forall a :: a in init ==> a in xs;
      SortKeeps(cmp, init, p);
      SortPermutes(cmp, init);
      SameElements(init, Sort(cmp, init));
      forall a | a in Sort(cmp, init)
        ensures a in init
      {
        assert a in Elements(init);
      }
      InsertKeeps(cmp, Sort(cmp, init), last, p);
    }
  }

  /** Only one ordered permutation exists, so the sorting algorithm does not matter. */
  lemma {:induction false} OrderedUnique<T(!new)>(cmp: (T, T) -> int, a: seq<T>, b: seq<T>, domain: set<T>)
    requires Total(cmp, domain) && Elements(a) <= domain
    requires Ordered(cmp, a) && Ordered(cmp, b) && multiset(a) == multiset(b)
    ensures a == b
  {
    hide *;
    SameElements(a, b);
    if a != [] {
      assert a[0] == b[0] by {
        FirstUnique(cmp, a, b, domain);
      }
      assert a[1..] == b[1..] by {
        Tail(cmp, a);
        Tail(cmp, b);
        OrderedUnique(cmp, a[1..], b[1..], domain);
      }
      assert a == [a[0]] + a[1..] && b == [b[0]] + b[1..];
    }
  }

  lemma Tail<T>(cmp: (T, T) -> int, xs: seq<T>)
    requires xs != [] && Ordered(cmp, xs)
    ensures multiset(xs[1..]) == multiset(xs) - multiset{xs[0]}
    ensures Ordered(cmp, xs[1..]) && Elements(xs[1..]) <= Elements(xs)
  {
    assert xs == [xs[0]] + xs[1..];
    forall i, j | 0 <= i < j < |xs[1..]|
      ensures cmp(xs[1..][i], xs[1..][j]) <= 0
    {
      assert cmp(xs[i + 1], xs[j + 1]) <= 0;
    }
  }

  lemma FirstUnique<T(!new)>(cmp: (T, T) -> int, a: seq<T>, b: seq<T>, domain: set<T>)
    requires Total(cmp, domain) && Elements(a) == Elements(b) <= domain
    requires Ordered(cmp, a) && Ordered(cmp, b) && a != [] && b != []
    ensures a[0] == b[0]
  {
    assert a[0] in Elements(b) && b[0] in Elements(a);
    var i :| 0 <= i < |b| && b[i] == a[0];
    var j :| 0 <= j < |a| && a[j] == b[0];
    if i > 0 && j > 0 {
      assert cmp(a[0], a[j]) <= 0 && cmp(b[0], b[i]) <= 0;
    }
  }

  lemma Twice<T>(xs: seq<T>, i: nat, j: nat)
    requires i < j < |xs| && xs[i] == xs[j]
    ensures multiset(xs)[xs[i]] >= 2
  {
    assert xs == xs[..j] + [xs[j]] + xs[j + 1..];
    assert xs[i] in xs[..j];
    assert xs[i] in multiset(xs[..j]);
  }

  /** Any two positions hold values that are apart. */
  ghost predicate PairwiseApart<T(!new)>(apart: (T, T) -> bool, xs: seq<T>)
  {
    forall i, j :: 0 <= i < |xs| && 0 <= j < |xs| && i != j ==> apart(xs[i], xs[j])
  }

  lemma Again<T>(xs: seq<T>, p: nat) returns (q: nat)
    requires p < |xs| && multiset(xs)[xs[p]] >= 2
    ensures q < |xs| && q != p && xs[q] == xs[p]
  {
    assert xs == xs[..p] + [xs[p]] + xs[p + 1..];
    if xs[p] in xs[..p] {
      q :| 0 <= q < p && xs[..p][q] == xs[p];
    } else {
      assert xs[p] in multiset(xs[p + 1..]);
      var k :| 0 <= k < |xs| - p - 1 && xs[p + 1..][k] == xs[p];
      q := p + 1 + k;
    }
  }

  lemma ApartPermutes<T(!new)>(apart: (T, T) -> bool, xs: seq<T>, other: seq<T>)
    requires PairwiseApart(apart, xs) && multiset(xs) == multiset(other)
    ensures PairwiseApart(apart, other)
  {
    SameElements(xs, other);
    forall i, j | 0 <= i < |other| && 0 <= j < |other| && i != j
      ensures apart(other[i], other[j])
    {
      assert other[i] in Elements(xs) && other[j] in Elements(xs);
      var p :| 0 <= p < |xs| && xs[p] == other[i];
      if other[i] == other[j] {
        Twice(other, if i < j then i else j, if i < j then j else i);
        var q := Again(xs, p);
      } else {
        var q :| 0 <= q < |xs| && xs[q] == other[j];
      }
    }
  }

  ghost predicate NoDuplicates<T>(xs: seq<T>)
  {
    forall i, j :: 0 <= i < j < |xs| ==> xs[i] != xs[j]
  }

  lemma NoDuplicatesPermutes<T(!new)>(a: seq<T>, b: seq<T>)
    requires NoDuplicates(a) && multiset(a) == multiset(b)
    ensures NoDuplicates(b)
  {
    ApartPermutes((x, y) => x != y, a, b);
  }
}
