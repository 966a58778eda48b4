/** The streaming box-filter rate converter of apps/webchat/src/audio/pcm16.ts.

    Rates are positive integers S (source) and T (target). Time is counted in units of
    1/T of a source sample: every input sample lasts T units and every output window S
    units. In these units all window arithmetic is exact. The source's `weight` and
    `windowRemaining` are the fields below divided by T, and so is `weightedSum`, so the
    mean it quantises is the same number. */
module Pcm16 {
  import opened Outcomes
  import opened Sequences

  const CANONICAL_SAMPLE_RATE := 16_000

  // ---- quantisation ----

  function Clamp(x: real): real
  {
    if x < -1.0 then -1.0 else if x > 1.0 then 1.0 else x
  }

  /** JavaScript's Math.round: to the nearest integer, ties upward. */
  function RoundHalfUp(x: real): int
  {
    (x + 0.5).Floor
  }

  function Scale(sample: real): real
  {
    if sample < 0.0 then sample * 32768.0 else sample * 32767.0
  }

  function FloatToPCM16(sample: real): (r: int)
    ensures -32768 <= r <= 32767
  {
    var scaled := Scale(Clamp(sample));
    assert -32768.0 <= scaled <= 32767.0;
    RoundHalfUp(scaled)
  }

  /** The result is the closest 16-bit value to the scaled sample, the upper one on a tie. */
  lemma FloatToPCM16Nearest(sample: real, other: int)
    ensures var exact := Scale(Clamp(sample));
            var r := FloatToPCM16(sample) as real;
            -0.5 < r - exact <= 0.5
            && (other as real < r ==> r - exact < exact - other as real || r - exact == exact - other as real)
            && (other as real > r ==> exact - r < other as real - exact)
  {
    var exact := Scale(Clamp(sample));
    var r := FloatToPCM16(sample);
    assert r as real <= exact + 0.5 < r as real + 1.0;
    if other < r {
      assert other as real <= r as real - 1.0;
    } else if other > r {
      assert other as real >= r as real + 1.0;
    }
  }

  /** Directly in the sample: full scale from -1 down and from 1 up; in between at most half a
      step from x * 32768 below zero and from x * 32767 otherwise. */
  lemma FloatToPCM16Exact(x: real)
    ensures x <= -1.0 ==> Clamp(x) == -1.0 && FloatToPCM16(x) == -32768
    ensures x >= 1.0 ==> Clamp(x) == 1.0 && FloatToPCM16(x) == 32767
    ensures -1.0 <= x <= 1.0 ==> Clamp(x) == x
    ensures -1.0 <= x < 0.0 ==> -0.5 < FloatToPCM16(x) as real - x * 32768.0 <= 0.5
    ensures 0.0 <= x <= 1.0 ==> -0.5 < FloatToPCM16(x) as real - x * 32767.0 <= 0.5
  {
    FloatToPCM16Nearest(x, 0);
  }

  lemma FloatToPCM16Monotone(a: real, b: real)
    requires a <= b
    ensures FloatToPCM16(a) <= FloatToPCM16(b)
    ensures FloatToPCM16(-1.0) == -32768 && FloatToPCM16(0.0) == 0 && FloatToPCM16(1.0) == 32767
  {
    assert Scale(Clamp(a)) <= Scale(Clamp(b));
  }

  // ---- the signal, and the windows cut from it ----

  /** The clamped input as a signal over units: each sample repeated t times. */
  function Spread(input: seq<real>, t: nat): (u: seq<real>)
  {
    if input == [] then []
    else Spread(input[..|input| - 1], t) + Repeat(Clamp(input[|input| - 1]), t)
  }

  function Mean(window: seq<real>): real
    requires window != []
  {
    Sum(window) / |window| as real
  }

  /** The full windows of s units at the front of the signal, and what is left over. */
  function Windows(signal: seq<real>, s: nat): seq<seq<real>>
    requires s > 0
  {
    if |signal| < s then [] else [signal[..s]] + Windows(signal[s..], s)
  }

  function Residue(signal: seq<real>, s: nat): (r: seq<real>)
    requires s > 0
    ensures |r| < s
  {
    if |signal| < s then signal else Residue(signal[s..], s)
  }

  function Quantise(windows: seq<seq<real>>): (r: seq<int>)
    requires forall w :: w in windows ==> w != []
    ensures |r| == |windows|
  {
    seq(|windows|, k requires 0 <= k < |windows| => assert windows[k] in windows; FloatToPCM16(Mean(windows[k])))
  }

  lemma {:induction false} WindowsFull(signal: seq<real>, s: nat)
    requires s > 0
    ensures forall w :: w in Windows(signal, s) ==> |w| == s
  {
    if |signal| >= s {
      WindowsFull(signal[s..], s);
    }
  }

  /** Everything emitted for a whole signal before a flush. */
  function Emitted(signal: seq<real>, s: nat): seq<int>
    requires s > 0
  {
    WindowsFull(signal, s);
    Quantise(Windows(signal, s))
  }

  /** What a flush then adds: the mean of the incomplete window, if there is one. */
  function Tail(signal: seq<real>, s: nat): seq<int>
    requires s > 0
  {
    var rest := Residue(signal, s);
    if rest == [] then [] else [FloatToPCM16(Mean(rest))]
  }

  lemma {:induction false} WindowsAppend(a: seq<real>, b: seq<real>, s: nat)
    requires s > 0
    ensures Windows(a + b, s) == Windows(a, s) + Windows(Residue(a, s) + b, s)
    ensures Residue(a + b, s) == Residue(Residue(a, s) + b, s)
  {
    if |a| >= s {
      WindowsAppend(a[s..], b, s);
      assert (a + b)[..s] == a[..s] && (a + b)[s..] == a[s..] + b;
    }
  }

  lemma EmittedAppend(a: seq<real>, b: seq<real>, s: nat)
    requires s > 0
    ensures Emitted(a + b, s) == Emitted(a, s) + Emitted(Residue(a, s) + b, s)
    ensures Residue(a + b, s) == Residue(Residue(a, s) + b, s)
  {
    hide FloatToPCM16, Mean;
    WindowsAppend(a, b, s);
    WindowsFull(a, s);
    WindowsFull(Residue(a, s) + b, s);
    QuantiseAppend(Windows(a, s), Windows(Residue(a, s) + b, s));
  }

  lemma QuantiseAppend(a: seq<seq<real>>, b: seq<seq<real>>)
    requires (forall w :: w in a ==> w != []) && forall w :: w in b ==> w != []
    ensures Quantise(a + b) == Quantise(a) + Quantise(b)
  {
    hide FloatToPCM16, Mean;
  }

  /** How one more input sample moves both halves of the specification. */
  lemma OneMoreSample(input: seq<real>, x: real, s: nat, t: nat)
    requires s > 0
    ensures var signal := Residue(Spread(input, t), s) + Repeat(Clamp(x), t);
            && Emitted(Spread(input + [x], t), s) == Emitted(Spread(input, t), s) + Emitted(signal, s)
            && Residue(Spread(input + [x], t), s) == Residue(signal, s)
  {
    assert (input + [x])[..|input|] == input;
    EmittedAppend(Spread(input, t), Repeat(Clamp(x), t), s);
  }

  // ---- the resampler ----

  class StatefulPCM16Resampler {
    const sourceRate: int
    const targetRate: int
    var windowRemaining: int
    var weightedSum: real
    var weight: int
    ghost var History: seq<real>  // every sample since construction or the last flush

    ghost predicate Valid()
      reads this
    {
      && sourceRate > 0 && targetRate > 0
      && var window := Residue(Spread(History, targetRate), sourceRate);
         weight == |window| && windowRemaining == sourceRate - |window| && weightedSum == Sum(window)
    }

    /** Only reached through Create, which refuses the rates the source refuses. */
    constructor (sourceRate: int, targetRate: int)
      requires sourceRate > 0 && targetRate > 0
      ensures Valid() && History == []
      ensures this.sourceRate == sourceRate && this.targetRate == targetRate
    {
      this.sourceRate := sourceRate;
      this.targetRate := targetRate;
      windowRemaining := sourceRate;
      weightedSum := 0.0;
      weight := 0;
      History := [];
    }

    static method Create(sourceRate: int, targetRate: int := CANONICAL_SAMPLE_RATE)
      returns (r: Result<StatefulPCM16Resampler>)
      ensures r.Ok? <==> sourceRate > 0 && targetRate > 0
      ensures r.Ok? ==> fresh(r.value) && r.value.Valid() && r.value.History == []
                        && r.value.sourceRate == sourceRate && r.value.targetRate == targetRate
      ensures r.Err? ==> r.error == "voice_capture_invalid_sample_rate"
    {
      if sourceRate <= 0 || targetRate <= 0 {
        return Err("voice_capture_invalid_sample_rate");
      }
      var resampler := new StatefulPCM16Resampler(sourceRate, targetRate);
      return Ok(resampler);
    }

    method Process(input: seq<real>) returns (output: seq<int>)
      requires Valid()
      modifies this
      ensures Valid()
      ensures History == old(History) + input
      ensures Emitted(Spread(History, targetRate), sourceRate)
           == Emitted(Spread(old(History), targetRate), sourceRate) + output
    {
      hide Emitted, Spread, Residue, Sum;
      output := [];
      if |input| == 0 {
        assert History + input == History;
        return;
      }
      var i := 0;
      while i < |input|
        invariant 0 <= i <= |input|
        invariant Valid()
        invariant History == old(History) + input[..i]
        invariant Emitted(Spread(History, targetRate), sourceRate)
               == Emitted(Spread(old(History), targetRate), sourceRate) + output
      {
        var emitted := ProcessSample(input[i]);
        assert input[..i + 1] == input[..i] + [input[i]];
        output := output + emitted;
        i := i + 1;
      }
      assert input[..i] == input;
    }

    method ProcessSample(rawSample: real) returns (output: seq<int>)
      requires Valid()
      modifies this
      ensures Valid()
      ensures History == old(History) + [rawSample]
      ensures Emitted(Spread(History, targetRate), sourceRate)
           == Emitted(Spread(old(History), targetRate), sourceRate) + output
    {
      OneMoreSample(History, rawSample, sourceRate, targetRate);
      output := Consume(Clamp(rawSample));
      History := History + [rawSample];
    }

    /** The inner loop: spends the targetRate units of one clamped sample. */
    method Consume(sample: real) returns (output: seq<int>)
      requires Valid()
      modifies this`windowRemaining, this`weightedSum, this`weight
      ensures var signal := Residue(Spread(History, targetRate), sourceRate) + Repeat(sample, targetRate);
              var window := Residue(signal, sourceRate);
              output == Emitted(signal, sourceRate)
              && weight == |window| && windowRemaining == sourceRate - |window| && weightedSum == Sum(window)
    {
      hide Emitted, Residue, Spread, Sum, FloatToPCM16;
      output := [];
      ghost var window := Residue(Spread(History, targetRate), sourceRate);
      ghost var signal := window + Repeat(sample, targetRate);
      var sourceWeight := targetRate;
      while sourceWeight > 0
        invariant 0 <= sourceWeight <= targetRate
        invariant weight == |window| < sourceRate && windowRemaining == sourceRate - |window|
            && weightedSum == Sum(window)
        invariant Emitted(signal, sourceRate) == output + Emitted(window + Repeat(sample, sourceWeight), sourceRate)
        invariant Residue(signal, sourceRate) == Residue(window + Repeat(sample, sourceWeight), sourceRate)
      {
        var consumed := if sourceWeight < windowRemaining then sourceWeight else windowRemaining;
        ghost var grown := window + Repeat(sample, consumed);
        SumAppend(window, Repeat(sample, consumed));
        SumRepeat(sample, consumed);
        assert window + Repeat(sample, sourceWeight) == grown + Repeat(sample, sourceWeight - consumed);
        EmittedAppend(grown, Repeat(sample, sourceWeight - consumed), sourceRate);
        weightedSum := weightedSum + sample * consumed as real;
        weight := weight + consumed;
        sourceWeight := sourceWeight - consumed;
        windowRemaining := windowRemaining - consumed;
        if windowRemaining <= 0 {
          FullWindow(grown, sourceRate);
          output := output + [FloatToPCM16(weightedSum / weight as real)];
          weightedSum := 0.0;
          weight := 0;
          windowRemaining := sourceRate;
          grown := [];
          assert Sum(grown) == 0.0 by { SumRepeat(0.0, 0); assert Repeat(0.0, 0) == []; }
          assert [] + Repeat(sample, sourceWeight) == Repeat(sample, sourceWeight);
        }
        window := grown;
      }
      assert window + Repeat(sample, 0) == window;
      PartialWindow(window, sourceRate);
    }

    method Flush() returns (output: seq<int>)
      requires Valid()
      modifies this
      ensures Valid() && History == []
      ensures output == Tail(Spread(old(History), targetRate), sourceRate)
    {
      History := [];
      if weight <= 0 {
        return [];
      }
      output := [FloatToPCM16(weightedSum / weight as real)];
      weightedSum := 0.0;
      weight := 0;
      windowRemaining := sourceRate;
    }
  }

  lemma PartialWindow(window: seq<real>, s: nat)
    requires |window| < s
    ensures Emitted(window, s) == [] && Residue(window, s) == window
  {
  }

  lemma FullWindow(window: seq<real>, s: nat)
    requires |window| == s > 0
    ensures Emitted(window, s) == [FloatToPCM16(Mean(window))]
    ensures Residue(window, s) == []
  {
    assert window[..s] == window && window[s..] == [];
    assert Windows(window, s) == [window] + Windows([], s);
  }

  method MergePCM16Chunks(chunks: seq<seq<int>>) returns (merged: array<int>)
    ensures fresh(merged) && merged[..] == Flatten(chunks)
  {
    var total := 0;
    for i := 0 to |chunks|
      invariant total == |Flatten(chunks[..i])|
    {
      assert chunks[..i + 1] == chunks[..i] + [chunks[i]];
      FlattenSnoc(chunks[..i], chunks[i]);
      total := total + |chunks[i]|;
    }
    assert chunks[..|chunks|] == chunks;
    merged := new int[total];
    var offset := 0;
    for i := 0 to |chunks|
      invariant offset == |Flatten(chunks[..i])| <= total
      invariant merged[..offset] == Flatten(chunks[..i])
    {
      FlattenSnoc(chunks[..i], chunks[i]);
      FlattenAppend(chunks[..i + 1], chunks[i + 1..]);
      assert chunks[..i + 1] == chunks[..i] + [chunks[i]];
      assert chunks[..i + 1] + chunks[i + 1..] == chunks;
      forall j | 0 <= j < |chunks[i]| {
        merged[offset + j] := chunks[i][j];
      }
      offset := offset + |chunks[i]|;
    }
  }
}
