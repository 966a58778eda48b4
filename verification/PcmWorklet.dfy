/** The audio worklet of apps/webchat/public/pcm-worklet.js: mixes the channels of each
    render quantum down to one and posts the mix in buffers of 4096 samples, or sooner
    when asked to flush. */
module PcmWorklet {
  import opened Sequences

  const BUFFER_SIZE := 4096

  /** What is posted to the page. The level is the root of meanSquare. */
  datatype Message = Samples(samples: seq<real>, meanSquare: real) | Flushed(id: int)

  function Sample(channel: seq<real>, index: nat): real
  {
    if index < |channel| then channel[index] else 0.0
  }

  /** What each channel carries at an index. */
  function Column(channels: seq<seq<real>>, index: nat): seq<real>
  {
    seq(|channels|, c requires 0 <= c < |channels| => Sample(channels[c], index))
  }

  function MixAt(channels: seq<seq<real>>, index: nat): real
    requires channels != []
  {
    Sum(Column(channels, index)) / |channels| as real
  }

  /** The samples that one call of process contributes. */
  function Mix(channels: seq<seq<real>>): seq<real>
  {
    if channels == [] then []
    else seq(|channels[0]|, i requires 0 <= i < |channels[0]| => MixAt(channels, i))
  }

  /** One mixed sample per sample of the first channel. It lies between any bounds of the
      channels' samples, a missing sample counting as silence. */
  lemma MixBetween(channels: seq<seq<real>>, i: nat, lo: real, hi: real)
    requires channels != [] && i < |channels[0]|
    requires forall c :: 0 <= c < |channels| ==>
               if i < |channels[c]| then lo <= channels[c][i] <= hi else lo <= 0.0 <= hi
    ensures |Mix(channels)| == |channels[0]| && Mix([]) == []
    ensures lo <= Mix(channels)[i] <= hi
  {
    var column := Column(channels, i);
    SumBetween(column, lo, hi);
    MeanBetween(Sum(column), |channels|, lo, hi);
  }

  /** Channels that all carry x mix to x. */
  lemma MixConstant(channels: seq<seq<real>>, i: nat, x: real)
    requires channels != [] && i < |channels[0]|
    requires forall c :: 0 <= c < |channels| ==> x == if i < |channels[c]| then channels[c][i] else 0.0
    ensures i < |Mix(channels)| && Mix(channels)[i] == x
  {
    MixBetween(channels, i, x, x);
  }

  /** Every channel has the same share: raising one sample of one of them by d raises the mix
      there by d divided by the number of channels, and nowhere else. */
  lemma MixShift(channels: seq<seq<real>>, c: nat, i: nat, d: real)
    requires c < |channels| && i < |channels[c]| && i < |channels[0]|
    ensures var raised := channels[c := channels[c][i := channels[c][i] + d]];
            && |Mix(raised)| == |Mix(channels)| == |channels[0]|
            && Mix(raised)[i] == Mix(channels)[i] + d / |channels| as real
            && forall j :: 0 <= j < |channels[0]| && j != i ==> Mix(raised)[j] == Mix(channels)[j]
  {
    hide Sum;
    var raised := channels[c := channels[c][i := channels[c][i] + d]];
    var column := Column(channels, i);
    SumShift(column, c, d);
    assert Column(raised, i) == column[c := column[c] + d];
    DivideSum(Sum(column), d, |channels|);
    forall j | 0 <= j < |channels[0]| && j != i
      ensures Mix(raised)[j] == Mix(channels)[j]
    {
      assert Column(raised, j) == Column(channels, j);
    }
  }

  function Square(x: real): real
  {
    x * x
  }

  function Squares(samples: seq<real>): seq<real>
  {
    seq(|samples|, i requires 0 <= i < |samples| => Square(samples[i]))
  }

  lemma SquaresSnoc(samples: seq<real>, x: real)
    ensures Sum(Squares(samples + [x])) == Sum(Squares(samples)) + Square(x)
  {
    assert Squares(samples + [x])[..|samples|] == Squares(samples);
  }

  lemma NoSquares(samples: seq<real>)
    requires samples == []
    ensures Sum(Squares(samples)) == 0.0
  {
  }

  /** The samples carried by a posted history. */
  function Delivered(port: seq<Message>): seq<real>
  {
    if port == [] then []
    else Delivered(port[..|port| - 1]) + match port[|port| - 1] { case Samples(s, _) => s case Flushed(_) => [] }
  }

  lemma DeliveredSnoc(port: seq<Message>, m: Message)
    ensures Delivered(port + [m]) == Delivered(port) + if m.Samples? then m.samples else []
  {
    assert (port + [m])[..|port|] == port;
  }

  ghost predicate WellFormedMessage(m: Message)
  {
    m.Samples? ==> 0 < |m.samples| <= BUFFER_SIZE
                   && m.meanSquare == Sum(Squares(m.samples)) / |m.samples| as real
  }

  /** The mean square of a posted buffer lies between any bounds of its squares. */
  lemma LevelBetween(m: Message, lo: real, hi: real)
    requires m.Samples? && WellFormedMessage(m)
    requires forall i :: 0 <= i < |m.samples| ==> lo <= m.samples[i] * m.samples[i] <= hi
    ensures lo <= m.meanSquare <= hi
  {
    SumBetween(Squares(m.samples), lo, hi);
    MeanBetween(Sum(Squares(m.samples)), |m.samples|, lo, hi);
  }

  /** Only a flush may cut a buffer short. */
  ghost predicate ShortOnlyBeforeFlush(port: seq<Message>)
  {
    forall i :: 0 <= i < |port| && port[i].Samples? && |port[i].samples| < BUFFER_SIZE ==>
      i + 1 < |port| && port[i + 1].Flushed?
  }

  predicate FullBuffer(m: Message)
  {
    m.Samples? && |m.samples| == 4096
  }

  class PcmProcessor {
    var buffer: array<real>
    var length: nat
    var levelSum: real
    var levelCount: int
    var port: seq<Message>
    ghost var Heard: seq<real>  // the whole mixed input so far

    ghost predicate Consistent()
      reads this, buffer
    {
      && buffer.Length == BUFFER_SIZE
      && length <= BUFFER_SIZE
      && levelCount == length
      && levelSum == Sum(Squares(buffer[..length]))
      && Heard == Delivered(port) + buffer[..length]
      && forall m :: m in port ==> WellFormedMessage(m)
    }

    ghost predicate Valid()
      reads this, buffer
    {
      Consistent() && length < BUFFER_SIZE && ShortOnlyBeforeFlush(port)
    }

    constructor ()
      ensures Valid() && fresh(buffer) && Heard == [] && port == []
    {
      buffer := new real[BUFFER_SIZE];
      length := 0;
      levelSum := 0.0;
      levelCount := 0;
      port := [];
      Heard := [];
    }

    method Process(channels: seq<seq<real>>) returns (keepAlive: bool)
      requires Valid()
      modifies this, buffer
      ensures Valid() && buffer == old(buffer) && keepAlive
      ensures Heard == old(Heard) + Mix(channels)
      ensures old(port) <= port && forall i :: |old(port)| <= i < |port| ==> FullBuffer(port[i])
    {
      hide Valid;
      if |channels| == 0 || |channels[0]| == 0 {
        assert Heard == Heard + Mix(channels);
        return true;
      }
      var frameLength := |channels[0]|;
      for index := 0 to frameLength
        invariant Valid() && buffer == old(buffer)
        invariant Heard == old(Heard) + Mix(channels)[..index]
        invariant old(port) <= port && forall i :: |old(port)| <= i < |port| ==> FullBuffer(port[i])
      {
        var sample := MixSample(channels, index);
        Push(sample);
        assert Mix(channels)[..index + 1] == Mix(channels)[..index] + [sample];
      }
      return true;
    }

    /** The channel loop for one sample position. */
    static method MixSample(channels: seq<seq<real>>, index: nat) returns (sample: real)
      requires channels != []
      ensures sample == MixAt(channels, index)
    {
      sample := 0.0;
      ghost var column := Column(channels, index);
      for c := 0 to |channels|
        invariant sample == Sum(column[..c])
      {
        assert column[..c + 1][..c] == column[..c];
        sample := sample + Sample(channels[c], index);
      }
      assert column[..|channels|] == column;
      sample := sample / |channels| as real;
    }

    /** The body of the sample loop once the mix is known. */
    method Push(sample: real)
      requires Valid()
      modifies this, buffer
      ensures Valid() && buffer == old(buffer)
      ensures Heard == old(Heard) + [sample]
      ensures old(port) <= port && forall i :: |old(port)| <= i < |port| ==> FullBuffer(port[i])
    {
      SquaresSnoc(buffer[..length], sample);
      buffer[length] := sample;
      assert buffer[..length + 1] == old(buffer[..length]) + [sample];
      length := length + 1;
      levelSum := levelSum + Square(sample);
      levelCount := levelCount + 1;
      Heard := Heard + [sample];
      if length == buffer.Length {
        EmitBuffer();
      }
    }

    method EmitBuffer()
      requires Consistent()
      modifies this
      ensures Consistent() && length == 0 && buffer == old(buffer) && Heard == old(Heard)
      ensures old(length) == 0 ==> port == old(port)
      ensures old(length) > 0 ==> |port| == |old(port)| + 1 && old(port) <= port && port[|old(port)|].Samples?
                                  && port[|old(port)|].samples == old(buffer[..length])
    {
      hide Sum, Squares, Delivered;
      if length == 0 {
        return;
      }
      var samples := buffer[..length];
      var meanSquare := levelSum / (if levelCount > 1 then levelCount else 1) as real;
      DeliveredSnoc(port, Samples(samples, meanSquare));
      NoSquares(buffer[..0]);
      port := port + [Samples(samples, meanSquare)];
      length := 0;
      levelSum := 0.0;
      levelCount := 0;
    }

    /** The message handler, for a flush request. */
    method Flush(id: int)
      requires Valid()
      modifies this
      ensures Valid() && buffer == old(buffer)
      ensures Heard == old(Heard) && Delivered(port) == Heard
      ensures old(port) < port && port[|port| - 1] == Flushed(id)
      ensures |port| == |old(port)| + (if old(length) == 0 then 1 else 2)
    {
      EmitBuffer();
      port := port + [Flushed(id)];
    }
  }
}
