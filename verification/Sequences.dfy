/** Facts about sequences that several components share. */
module Sequences {

  function Flatten<T>(chunks: seq<seq<T>>): seq<T>
  {
    if chunks == [] then [] else chunks[0] + Flatten(chunks[1..])
  }

  lemma Regroup<T>(a: seq<T>, b: seq<T>, c: seq<T>)
    ensures a + (b + c) == a + b + c
  {
  }

  lemma {:induction false} FlattenAppend<T>(a: seq<seq<T>>, b: seq<seq<T>>)
    ensures Flatten(a + b) == Flatten(a) + Flatten(b)
  {
    if a == [] {
      assert a + b == b;
    } else {
      FlattenAppend(a[1..], b);
      assert (a + b)[0] == a[0] && (a + b)[1..] == a[1..] + b;
      Regroup(a[0], Flatten(a[1..]), Flatten(b));
    }
  }

  lemma FlattenCons<T>(first: seq<T>, rest: seq<seq<T>>)
    ensures Flatten([first] + rest) == first + Flatten(rest)
  {
    assert ([first] + rest)[1..] == rest;
  }

  lemma FlattenSnoc<T>(a: seq<seq<T>>, last: seq<T>)
    ensures Flatten(a + [last]) == Flatten(a) + last
  {
    FlattenAppend(a, [last]);
    assert Flatten([last]) == last + Flatten([]);
  }

  method FindFirst<T>(xs: seq<T>, wanted: T -> bool) returns (k: nat)
    ensures k <= |xs| && (k < |xs| ==> wanted(xs[k]))
    ensures forall i :: 0 <= i < k ==> !wanted(xs[i])
  {
    k := 0;
    while k < |xs| && !wanted(xs[k])
      invariant k <= |xs| && forall i :: 0 <= i < k ==> !wanted(xs[i])
    {
      k := k + 1;
    }
  }

  function Repeat<T>(x: T, n: nat): (r: seq<T>)
    ensures |r| == n && forall i :: 0 <= i < n ==> r[i] == x
  {
    seq(n, _ => x)
  }

  function Sum(s: seq<real>): real
  {
    if s == [] then 0.0 else Sum(s[..|s| - 1]) + s[|s| - 1]
  }

  lemma {:induction false} SumAppend(a: seq<real>, b: seq<real>)
    ensures Sum(a + b) == Sum(a) + Sum(b)
  {
    if b == [] {
      assert a + b == a;
    } else {
      SumAppend(a, b[..|b| - 1]);
      assert (a + b)[..|a + b| - 1] == a + b[..|b| - 1];
    }
  }

  /** A sum lies between the number of terms times any bounds of the terms. */
  lemma {:induction false} SumBetween(s: seq<real>, lo: real, hi: real)
    requires forall i :: 0 <= i < |s| ==> lo <= s[i] <= hi
    ensures lo * |s| as real <= Sum(s) <= hi * |s| as real
  {
    if s != [] {
      SumBetween(s[..|s| - 1], lo, hi);
      assert lo * |s| as real == lo * (|s| - 1) as real + lo;
      assert hi * |s| as real == hi * (|s| - 1) as real + hi;
    }
  }

  lemma {:induction false} SumShift(s: seq<real>, k: nat, d: real)
    requires k < |s|
    ensures Sum(s[k := s[k] + d]) == Sum(s) + d
  {
    var init := s[..|s| - 1];
    if k == |s| - 1 {
      assert s[k := s[k] + d][..|s| - 1] == init;
    } else {
      SumShift(init, k, d);
      assert s[k := s[k] + d][..|s| - 1] == init[k := init[k] + d];
    }
  }

  /** A mean lies between any bounds of its terms. */
  lemma MeanBetween(sum: real, n: nat, lo: real, hi: real)
    requires n > 0 && lo * n as real <= sum <= hi * n as real
    ensures lo <= sum / n as real <= hi
  {
    var mean := sum / n as real;
    assert mean * n as real == sum;
    if mean < lo {
      MulLess(mean, lo, n);
    }
    if mean > hi {
      MulLess(hi, mean, n);
    }
  }

  lemma DivideSum(a: real, b: real, n: nat)
    requires n > 0
    ensures (a + b) / n as real == a / n as real + b / n as real
  {
    var x, y := a / n as real, b / n as real;
    assert x * n as real == a && y * n as real == b;
    assert (x + y) * n as real == x * n as real + y * n as real;
    DivideUnique(a + b, x + y, n);
  }

  lemma DivideUnique(sum: real, quotient: real, n: nat)
    requires n > 0 && quotient * n as real == sum
    ensures sum / n as real == quotient
  {
  }

  lemma MulLess(a: real, b: real, n: nat)
    requires a < b && n > 0
    ensures a * n as real < b * n as real
  {
    assert (b - a) * n as real > 0.0;
    assert (b - a) * n as real == b * n as real - a * n as real;
  }

  lemma {:induction false} SumRepeat(x: real, n: nat)
    ensures Sum(Repeat(x, n)) == x * n as real
  {
    if n != 0 {
      SumRepeat(x, n - 1);
      assert Repeat(x, n)[..n - 1] == Repeat(x, n - 1);
    }
  }
}
