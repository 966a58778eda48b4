/** A reference definition of the converter that knows nothing about streaming: the k-th
    output is the mean of the clamped input over source time [k*S/T, (k+1)*S/T), cut off
    at the end of the input. The streaming form is proved equal to it, and the amount of
    signal is proved to be conserved before quantisation. */
module Pcm16ClosedForm {
  import opened Sequences
  import opened Pcm16

  /** The integral of the clamped input over the units [lo, hi); sample i covers [i*t, (i+1)*t). */
  function Area(input: seq<real>, t: nat, lo: nat, hi: nat): real
    requires t > 0 && lo <= hi <= |input| * t
    decreases hi
  {
    if lo == hi then 0.0
    else
      UnitSample(|input|, t, hi - 1);
      Area(input, t, lo, hi - 1) + Clamp(input[(hi - 1) / t])
  }

  /** The window of output k, in units, among n units of input. */
  function WindowEnd(n: nat, s: nat, k: nat): nat
  {
    if (k + 1) * s <= n then (k + 1) * s else n
  }

  function OutputCount(n: nat, s: nat): nat
    requires s > 0
  {
    (n + s - 1) / s
  }

  function OutputAt(input: seq<real>, s: nat, t: nat, k: nat): int
    requires s > 0 && t > 0 && k < OutputCount(|input| * t, s)
  {
    LastWindow(|input| * t, s, k);
    var lo, hi := k * s, WindowEnd(|input| * t, s, k);
    FloatToPCM16(Area(input, t, lo, hi) / (hi - lo) as real)
  }

  function Resampled(input: seq<real>, s: nat, t: nat): (r: seq<int>)
    requires s > 0 && t > 0
    ensures |r| == OutputCount(|input| * t, s)
    ensures forall k :: 0 <= k < |r| ==> -32768 <= r[k] <= 32767
  {
    seq(OutputCount(|input| * t, s), k requires 0 <= k < OutputCount(|input| * t, s) => OutputAt(input, s, t, k))
  }

  // ---- arithmetic of units ----

  lemma UnitSample(n: nat, t: nat, j: nat)
    requires t > 0 && j < n * t
    ensures 0 <= j / t < n
  {
    if j / t >= n {
      assert j / t * t >= n * t by { MulMonotone(n, j / t, t); }
      assert false;
    }
  }

  lemma MulMonotone(a: nat, b: nat, t: nat)
    requires a <= b
    ensures a * t <= b * t
  {
    assert (b - a) * t >= 0;
    assert b * t == a * t + (b - a) * t;
  }

  lemma LastWindow(n: nat, s: nat, k: nat)
    requires s > 0 && k < OutputCount(n, s)
    ensures k * s < WindowEnd(n, s, k) <= n
  {
    var count := OutputCount(n, s);
    assert count * s <= n + s - 1;
    MulMonotone(k + 1, count, s);
    assert (k + 1) * s == k * s + s;
  }

  // ---- the pieces of the signal ----

  lemma {:induction false} SpreadAt(input: seq<real>, t: nat)
    requires t > 0
    ensures |Spread(input, t)| == |input| * t
    ensures forall j {:trigger Spread(input, t)[j]} :: 0 <= j < |input| * t ==>
              0 <= j / t < |input| && Spread(input, t)[j] == Clamp(input[j / t])
  {
    hide Clamp;
    if input != [] {
      var init := input[..|input| - 1];
      SpreadAt(init, t);
      assert |input| * t == |init| * t + t;
      forall j | 0 <= j < |input| * t
        ensures 0 <= j / t < |input| && Spread(input, t)[j] == Clamp(input[j / t])
      {
        UnitSample(|input|, t, j);
        if j < |init| * t {
          assert Spread(input, t)[j] == Spread(init, t)[j];
          UnitSample(|init|, t, j);
        } else {
          DivUnique(j, t, |init|, j - |init| * t);
        }
      }
    }
  }

  lemma {:induction false} AreaIsSum(input: seq<real>, t: nat, lo: nat, hi: nat)
    requires t > 0 && lo <= hi <= |input| * t
    ensures hi <= |Spread(input, t)| && Area(input, t, lo, hi) == Sum(Spread(input, t)[lo..hi])
    decreases hi
  {
    SpreadAt(input, t);
    if lo < hi {
      AreaIsSum(input, t, lo, hi - 1);
      var window := Spread(input, t)[lo..hi];
      assert window[..|window| - 1] == Spread(input, t)[lo..hi - 1];
    }
  }

  lemma {:induction false} WindowsCount(signal: seq<real>, s: nat)
    requires s > 0
    ensures |Windows(signal, s)| * s + |Residue(signal, s)| == |signal|
    ensures Residue(signal, s) == signal[|signal| - |Residue(signal, s)|..]
  {
    if |signal| >= s {
      var rest := signal[s..];
      WindowsCount(rest, s);
      assert |Windows(signal, s)| == |Windows(rest, s)| + 1;
      assert (|Windows(rest, s)| + 1) * s == |Windows(rest, s)| * s + s;
      assert Residue(signal, s) == Residue(rest, s);
    }
  }

  lemma {:induction false} WindowAt(signal: seq<real>, s: nat, k: nat)
    requires s > 0 && k < |Windows(signal, s)|
    ensures 0 <= k * s <= k * s + s <= |signal|
    ensures Windows(signal, s)[k] == signal[k * s..k * s + s]
  {
    if k > 0 {
      WindowAt(signal[s..], s, k - 1);
      assert k * s == (k - 1) * s + s;
      assert Windows(signal, s)[k] == Windows(signal[s..], s)[k - 1];
    } else {
      assert k * s == 0;
    }
  }

  lemma EmittedCount(input: seq<real>, s: nat, t: nat)
    requires s > 0 && t > 0
    ensures var n, rest := |input| * t, |Residue(Spread(input, t), s)|;
            && |Spread(input, t)| == n
            && |Emitted(Spread(input, t), s)| == n / s
            && n / s * s + rest == n
            && OutputCount(n, s) == n / s + (if rest > 0 then 1 else 0)
  {
    SpreadAt(input, t);
    WindowsCount(Spread(input, t), s);
    DivUnique(|input| * t, s, |Windows(Spread(input, t), s)|, |Residue(Spread(input, t), s)|);
    CountParts(|input| * t, s);
  }

  // ---- streaming refines the closed form ----

  lemma EmittedAt(input: seq<real>, s: nat, t: nat, k: nat)
    requires s > 0 && t > 0 && k < |Emitted(Spread(input, t), s)|
    ensures k < OutputCount(|input| * t, s)
    ensures Emitted(Spread(input, t), s)[k] == OutputAt(input, s, t, k)
  {
    var signal := Spread(input, t);
    var n, lo, hi := |input| * t, k * s, k * s + s;
    EmittedCount(input, s, t);
    FullMean(signal, s, k);
    WindowAt(signal, s, k);
    FullWindowEnd(n, s, k);
    AreaIsSum(input, t, lo, hi);
    OutputAtWindow(input, s, t, k, lo, hi);
  }

  lemma FullWindowEnd(n: nat, s: nat, k: nat)
    ensures WindowEnd(n, s, k) == if k * s + s <= n then k * s + s else n
  {
    assert (k + 1) * s == k * s + s;
  }

  lemma OutputAtWindow(input: seq<real>, s: nat, t: nat, k: nat, lo: nat, hi: nat)
    requires s > 0 && t > 0 && k < OutputCount(|input| * t, s)
    requires lo == k * s && hi == WindowEnd(|input| * t, s, k)
    ensures lo < hi <= |input| * t
    ensures OutputAt(input, s, t, k) == FloatToPCM16(Area(input, t, lo, hi) / (hi - lo) as real)
  {
    LastWindow(|input| * t, s, k);
  }

  lemma FullMean(signal: seq<real>, s: nat, k: nat)
    requires s > 0 && k < |Windows(signal, s)|
    ensures k < |Emitted(signal, s)|
    ensures |Windows(signal, s)[k]| == s
    ensures Emitted(signal, s)[k] == FloatToPCM16(Sum(Windows(signal, s)[k]) / s as real)
  {
    WindowsFull(signal, s);
    assert Windows(signal, s)[k] in Windows(signal, s);
  }

  lemma TailAt(input: seq<real>, s: nat, t: nat, n: nat, k: nat)
    requires s > 0 && t > 0 && n == |input| * t && k == n / s
    requires Residue(Spread(input, t), s) != []
    ensures k < OutputCount(|input| * t, s)
    ensures Tail(Spread(input, t), s) == [OutputAt(input, s, t, k)]
  {
    hide OutputAt, OutputCount, WindowEnd, Area, Spread, Residue, Windows, Emitted, FloatToPCM16, Sum;
    var signal, rest := Spread(input, t), Residue(Spread(input, t), s);
    EmittedCount(input, s, t);
    WindowsCount(signal, s);
    var lo := n - |rest|;
    FullWindowEnd(n, s, k);
    AreaIsSum(input, t, lo, n);
    assert signal[lo..n] == rest;
    OutputAtWindow(input, s, t, k, lo, n);
  }

  /** Windows are emitted exactly when complete: floor(n*T/S) of them before a flush, and
      with the flush ceil(n*T/S), each the quantised mean over its own stretch of time. */
  lemma StreamingRefinesClosedForm(input: seq<real>, s: nat, t: nat)
    requires s > 0 && t > 0
    ensures |Emitted(Spread(input, t), s)| == |input| * t / s
    ensures Emitted(Spread(input, t), s) + Tail(Spread(input, t), s) == Resampled(input, s, t)
  {
    EmittedCount(input, s, t);
    forall k | 0 <= k < |Emitted(Spread(input, t), s)|
      ensures k < OutputCount(|input| * t, s) && Emitted(Spread(input, t), s)[k] == OutputAt(input, s, t, k)
    {
      EmittedAt(input, s, t, k);
    }
    if Residue(Spread(input, t), s) != [] {
      TailAt(input, s, t, |input| * t, |input| * t / s);
    }
  }

  lemma CountParts(n: nat, s: nat)
    requires s > 0
    ensures OutputCount(n, s) == n / s + (if n / s * s < n then 1 else 0)
    ensures n / s * s <= n < n / s * s + s
  {
    var q, r := n / s, n % s;
    assert n == q * s + r;
    if r == 0 {
      assert n + s - 1 == q * s + (s - 1);
      DivUnique(n + s - 1, s, q, s - 1);
    } else {
      assert (q + 1) * s == q * s + s;
      DivUnique(n + s - 1, s, q + 1, r - 1);
    }
  }

  lemma DivUnique(n: nat, s: nat, q: nat, r: nat)
    requires s > 0 && r < s && n == q * s + r
    ensures n / s == q
  {
    var d := n / s;
    assert n == d * s + n % s;
    assert (d + 1) * s == d * s + s && (q + 1) * s == q * s + s;
    if d < q {
      MulMonotone(d + 1, q, s);
    } else if d > q {
      MulMonotone(q + 1, d, s);
    }
  }

  // ---- what an output is worth ----

  /** Sample i overlaps the window of units [k*s, k*s + s). */
  predicate Overlaps(s: nat, t: nat, k: nat, i: nat)
  {
    i * t < k * s + s && k * s < i * t + t
  }

  lemma OverlapAt(n: nat, s: nat, t: nat, k: nat, j: nat)
    requires t > 0 && j < n * t && k * s <= j < k * s + s
    ensures 0 <= j / t < n && Overlaps(s, t, k, j / t)
  {
    UnitSample(n, t, j);
    assert j / t * t <= j < j / t * t + t;
  }

  /** Output k lies between what any bounds of the samples that overlap its source time
      [k*S/T, (k+1)*S/T) convert to. In particular a constant signal stays constant. */
  lemma OutputBetween(input: seq<real>, s: nat, t: nat, k: nat, low: real, high: real)
    requires s > 0 && t > 0 && k < OutputCount(|input| * t, s)
    requires forall i :: 0 <= i < |input| && i * t < k * s + s && k * s < i * t + t ==> low <= input[i] <= high
    ensures FloatToPCM16(low) <= OutputAt(input, s, t, k) <= FloatToPCM16(high)
  {
    hide Area, Spread, Clamp, FloatToPCM16, OutputAt, OutputCount, Sum;
    assert forall i :: 0 <= i < |input| && Overlaps(s, t, k, i) ==> low <= input[i] <= high;
    hide Overlaps;
    var n, lo, hi := |input| * t, k * s, WindowEnd(|input| * t, s, k);
    OutputAtWindow(input, s, t, k, lo, hi);
    FullWindowEnd(n, s, k);
    WindowBetween(input, s, t, k, lo, hi, low, high);
    AreaIsSum(input, t, lo, hi);
    MeanBetween(Area(input, t, lo, hi), hi - lo, Clamp(low), Clamp(high));
    FloatToPCM16Monotone(Clamp(low), Area(input, t, lo, hi) / (hi - lo) as real);
    FloatToPCM16Monotone(Area(input, t, lo, hi) / (hi - lo) as real, Clamp(high));
    ClampTwice(low);
    ClampTwice(high);
  }

  lemma WindowBetween(input: seq<real>, s: nat, t: nat, k: nat, lo: nat, hi: nat, low: real, high: real)
    requires s > 0 && t > 0 && k * s == lo < hi <= k * s + s && hi <= |input| * t
    requires forall i :: 0 <= i < |input| && Overlaps(s, t, k, i) ==> low <= input[i] <= high
    ensures hi <= |Spread(input, t)|
    ensures var window := Spread(input, t)[lo..hi];
            Clamp(low) * (hi - lo) as real <= Sum(window) <= Clamp(high) * (hi - lo) as real
  {
    hide Spread, Overlaps, Sum;
    SpreadAt(input, t);
    var window := Spread(input, t)[lo..hi];
    forall j | 0 <= j < |window|
      ensures Clamp(low) <= window[j] <= Clamp(high)
    {
      OverlapAt(|input|, s, t, k, lo + j);
      assert window[j] == Spread(input, t)[lo + j] == Clamp(input[(lo + j) / t]);
    }
    SumBetween(window, Clamp(low), Clamp(high));
  }

  lemma ClampTwice(x: real)
    ensures FloatToPCM16(Clamp(x)) == FloatToPCM16(x)
  {
  }

  // ---- conservation ----

  /** Each clamped sample with the weight of its t units. */
  function Weighted(input: seq<real>, t: nat): seq<real>
  {
    seq(|input|, i requires 0 <= i < |input| => WeightOf(input[i], t))
  }

  function WeightOf(x: real, t: nat): real
  {
    Clamp(x) * t as real
  }

  function Areas(windows: seq<seq<real>>): seq<real>
  {
    seq(|windows|, k requires 0 <= k < |windows| => Sum(windows[k]))
  }

  lemma {:induction false} WindowsPartition(signal: seq<real>, s: nat)
    requires s > 0
    ensures Flatten(Windows(signal, s)) + Residue(signal, s) == signal
  {
    if |signal| >= s {
      var first, rest := signal[..s], signal[s..];
      WindowsPartition(rest, s);
      assert Windows(signal, s) == [first] + Windows(rest, s) && Residue(signal, s) == Residue(rest, s);
      FlattenCons(first, Windows(rest, s));
      assert first + Flatten(Windows(rest, s)) + Residue(rest, s) == first + rest;
    } else {
      assert Windows(signal, s) == [] && Residue(signal, s) == signal;
    }
  }

  lemma {:induction false} AreasFlatten(windows: seq<seq<real>>)
    ensures Sum(Areas(windows)) == Sum(Flatten(windows))
  {
    if windows != [] {
      AreasFlatten(windows[1..]);
      assert Areas(windows) == [Sum(windows[0])] + Areas(windows[1..]);
      SumAppend([Sum(windows[0])], Areas(windows[1..]));
      SumAppend(windows[0], Flatten(windows[1..]));
      assert [Sum(windows[0])][..0] == [];
    }
  }

  lemma SumSnoc(s: seq<real>, x: real)
    ensures Sum(s + [x]) == Sum(s) + x
  {
    assert (s + [x])[..|s|] == s;
  }

  lemma SpreadSnoc(init: seq<real>, last: real, t: nat)
    ensures Sum(Spread(init + [last], t)) == Sum(Spread(init, t)) + WeightOf(last, t)
  {
    hide Sum;
    assert (init + [last])[..|init|] == init;
    SumAppend(Spread(init, t), Repeat(Clamp(last), t));
    SumRepeat(Clamp(last), t);
  }

  lemma WeightedSnoc(init: seq<real>, last: real, t: nat)
    ensures Sum(Weighted(init + [last], t)) == Sum(Weighted(init, t)) + WeightOf(last, t)
  {
    hide WeightOf;
    assert Weighted(init + [last], t) == Weighted(init, t) + [WeightOf(last, t)];
    SumSnoc(Weighted(init, t), WeightOf(last, t));
  }

  lemma {:induction false} SpreadSum(input: seq<real>, t: nat)
    ensures Sum(Spread(input, t)) == Sum(Weighted(input, t))
  {
    if input == [] {
      assert Spread(input, t) == [] == Weighted(input, t);
    } else {
      hide *;
      var init, last := input[..|input| - 1], input[|input| - 1];
      assert input == init + [last];
      SpreadSum(init, t);
      SpreadSnoc(init, last, t);
      WeightedSnoc(init, last, t);
    }
  }

  /** No signal is lost or counted twice: the areas that are averaged, including the one
      that a flush averages, add up to the area of the clamped input. */
  lemma SignalConserved(input: seq<real>, s: nat, t: nat)
    requires s > 0 && t > 0
    ensures Sum(Areas(Windows(Spread(input, t), s))) + Sum(Residue(Spread(input, t), s))
         == Sum(Weighted(input, t))
  {
    var signal := Spread(input, t);
    WindowsPartition(signal, s);
    AreasFlatten(Windows(signal, s));
    SumAppend(Flatten(Windows(signal, s)), Residue(signal, s));
    SpreadSum(input, t);
  }
}
