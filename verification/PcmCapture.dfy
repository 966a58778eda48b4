/** The capture object of apps/webchat/src/audio/pcmCapture.ts, reduced to the path of the
    samples: worklet buffers are resampled as they arrive, and stopping flushes the worklet,
    flushes the resampler and merges the retained chunks. */
module PcmCapture {
  import opened Sequences
  import opened Pcm16
  import opened Pcm16ClosedForm
  import opened PcmWorklet

  /** What can happen to the worklet while a recording runs. */
  datatype Activity = Quantum(channels: seq<seq<real>>) | FlushRequest(id: int)

  function Spoken(activities: seq<Activity>): seq<real>
  {
    if activities == [] then []
    else Spoken(activities[..|activities| - 1])
         + match activities[|activities| - 1] { case Quantum(channels) => Mix(channels) case FlushRequest(_) => [] }
  }

  lemma SpokenSnoc(activities: seq<Activity>, i: nat)
    requires i < |activities|
    ensures Spoken(activities[..i + 1])
         == Spoken(activities[..i])
             + match activities[i] { case Quantum(channels) => Mix(channels) case FlushRequest(_) => [] }
  {
    assert activities[..i + 1][..i] == activities[..i];
  }

  class PCMInputCapture {
    const resampler: StatefulPCM16Resampler
    const retainSamples: bool
    var chunks: seq<seq<int>>
    var handed: seq<seq<int>>  // what onSamples was called with
    var accepting: bool
    var stopped: bool

    /** What was handed on, and retained if asked for, is the conversion of what was delivered. */
    ghost predicate Valid()
      reads this, resampler
    {
      && resampler.Valid()
      && Flatten(handed) == Emitted(Spread(resampler.History, resampler.targetRate), resampler.sourceRate)
      && chunks == if retainSamples then handed else []
    }

    /** A started capture. */
    constructor (sourceRate: int, targetRate: int, retainSamples: bool)
      requires sourceRate > 0 && targetRate > 0
      ensures Valid() && fresh(resampler) && resampler.History == [] && accepting && !stopped
      ensures resampler.sourceRate == sourceRate && resampler.targetRate == targetRate
      ensures this.retainSamples == retainSamples
    {
      resampler := new StatefulPCM16Resampler(sourceRate, targetRate);
      this.retainSamples := retainSamples;
      chunks, handed := [], [];
      accepting, stopped := true, false;
    }

    /** Only sample buffers count, and only while the capture accepts. */
    method HandleWorkletMessage(message: Message)
      requires Valid()
      modifies this`chunks, this`handed, resampler
      ensures Valid()
      ensures resampler.History
           == old(resampler.History) + (if message.Samples? && accepting && !stopped then message.samples else [])
    {
      if message.Flushed? || !accepting || stopped {
        return;
      }
      var canonical := resampler.Process(message.samples);
      if |canonical| > 0 {
        AcceptCanonicalSamples(canonical);
      }
    }

    method AcceptCanonicalSamples(samples: seq<int>)
      modifies this`chunks, this`handed
      ensures handed == old(handed) + [samples] && Flatten(handed) == Flatten(old(handed)) + samples
      ensures chunks == if retainSamples then old(chunks) + [samples] else old(chunks)
    {
      FlattenSnoc(handed, samples);
      if retainSamples {
        chunks := chunks + [samples];
      }
      handed := handed + [samples];
    }

    /** Ends the capture once the wait for the worklet is over. */
    method FinishCapture() returns (samples: array<int>, durationMs: int)
      requires Valid()
      modifies this, resampler
      ensures Flatten(handed) == Resampled(old(resampler.History), resampler.sourceRate, resampler.targetRate)
      ensures samples[..] == if retainSamples then Flatten(handed) else []
      ensures -0.5 < durationMs as real - samples.Length as real / 16.0 <= 0.5
      ensures !accepting && stopped
    {
      StreamingRefinesClosedForm(resampler.History, resampler.sourceRate, resampler.targetRate);
      var tail := resampler.Flush();
      if |tail| > 0 {
        AcceptCanonicalSamples(tail);
      }
      samples := MergePCM16Chunks(chunks);
      durationMs := RoundHalfUp(samples.Length as real * 1000.0 / CANONICAL_SAMPLE_RATE as real);
      accepting, stopped := false, true;
    }
  }

  lemma NothingYet()
    ensures Spoken([]) == [] == Delivered([])
  {
  }

  lemma {:induction false} DeliveredPrefix(port: seq<Message>, k: nat)
    requires k <= |port|
    ensures Delivered(port[..k]) <= Delivered(port)
  {
    if k == |port| {
      assert port[..k] == port;
    } else {
      var init := port[..|port| - 1];
      DeliveredPrefix(init, k);
      assert init[..k] == port[..k];
      assert Delivered(init) <= Delivered(port);
    }
  }

  /** A whole recording. However the microphone stream is cut into render quanta, wherever
      flushes fall and however late messages arrive, it is the one-pass conversion of the
      mixed input, up to the sample `kept`. That is all of it if the last flush was answered
      in time; otherwise the messages still on their way are lost. `arrived` says how many
      messages have arrived by each activity, and by the end of the wait. */
  method Record(activities: seq<Activity>, sourceRate: int, targetRate: int, retainSamples: bool,
                arrived: nat -> nat, answered: bool)
    returns (capture: PCMInputCapture, samples: array<int>, ghost kept: nat)
    requires sourceRate > 0 && targetRate > 0
    ensures kept <= |Spoken(activities)| && (answered ==> kept == |Spoken(activities)|)
    ensures Flatten(capture.handed) == Resampled(Spoken(activities)[..kept], sourceRate, targetRate)
    ensures retainSamples ==> samples[..] == Resampled(Spoken(activities)[..kept], sourceRate, targetRate)
  {
    hide Emitted, Spread, Resampled, Spoken, Delivered, Residue, Flatten, Sum, Squares;
    var worklet := new PcmProcessor();
    capture := new PCMInputCapture(sourceRate, targetRate, retainSamples);
    NothingYet();
    var seen := Listen(worklet, capture, activities, arrived);
    AwaitFlush(worklet, capture, seen, arrived(|activities|), answered);
    kept := |capture.resampler.History|;
    assert Spoken(activities)[..kept] == capture.resampler.History;
    var durationMs;
    samples, durationMs := capture.FinishCapture();
  }

  /** The last flush, and the messages that arrive while it is awaited. */
  method AwaitFlush(worklet: PcmProcessor, capture: PCMInputCapture, seen: nat, until: nat, answered: bool)
    requires worklet.Valid() && Hears(capture, worklet, seen)
    modifies worklet, capture`chunks, capture`handed, capture.resampler
    ensures capture.Valid()
    ensures capture.resampler.History <= old(worklet.Heard)
    ensures answered ==> capture.resampler.History == old(worklet.Heard)
  {
    hide Emitted, Spread, Delivered, Residue, Flatten;
    ghost var posted := worklet.port;
    worklet.Flush(0);
    assert worklet.port[..seen] == posted[..seen];
    var now := Deliver(worklet, capture, seen, if answered then |worklet.port| else until);
    assert answered ==> worklet.port[..now] == worklet.port;
    DeliveredPrefix(worklet.port, now);
  }

  /** The recording itself, before the last flush. */
  method Listen(worklet: PcmProcessor, capture: PCMInputCapture, activities: seq<Activity>, arrived: nat -> nat)
    returns (seen: nat)
    requires worklet.Valid() && worklet.Heard == Spoken([]) && Hears(capture, worklet, 0)
    modifies worklet, worklet.buffer, capture`chunks, capture`handed, capture.resampler
    ensures worklet.Valid() && worklet.buffer == old(worklet.buffer) && Hears(capture, worklet, seen)
    ensures worklet.Heard == Spoken(activities)
  {
    hide Emitted, Spread, Mix, Spoken, Delivered, Residue, Sum, Squares, Flatten;
    seen := 0;
    for i := 0 to |activities|
      invariant worklet.Valid() && worklet.buffer == old(worklet.buffer) && Hears(capture, worklet, seen)
      invariant worklet.Heard == Spoken(activities[..i])
    {
      SpokenSnoc(activities, i);
      Act(worklet, capture, seen, activities[i]);
      seen := Deliver(worklet, capture, seen, arrived(i));
    }
    assert activities[..|activities|] == activities;
  }

  /** One activity; the capture hears of it only when messages arrive. */
  method Act(worklet: PcmProcessor, ghost capture: PCMInputCapture, ghost seen: nat, activity: Activity)
    requires worklet.Valid() && Hears(capture, worklet, seen)
    modifies worklet, worklet.buffer
    ensures worklet.Valid() && worklet.buffer == old(worklet.buffer) && Hears(capture, worklet, seen)
    ensures worklet.Heard
         == old(worklet.Heard) + match activity { case Quantum(channels) => Mix(channels) case FlushRequest(_) => [] }
  {
    hide Emitted, Spread, Mix, Delivered, Residue, Sum, Squares, Flatten;
    ghost var posted := worklet.port;
    match activity {
      case Quantum(channels) => var _ := worklet.Process(channels);
      case FlushRequest(id) => worklet.Flush(id);
    }
    assert worklet.port[..seen] == posted[..seen];
  }

  /** An accepting capture has heard the first `seen` messages of the worklet. */
  ghost predicate Hears(capture: PCMInputCapture, worklet: PcmProcessor, seen: nat)
    reads capture, capture.resampler, worklet
  {
    && capture.Valid() && capture.accepting && !capture.stopped
    && seen <= |worklet.port| && capture.resampler.History == Delivered(worklet.port[..seen])
  }

  /** The message channel hands over in order what arrives, up to the message `until`. */
  method Deliver(worklet: PcmProcessor, capture: PCMInputCapture, seen: nat, until: nat) returns (now: nat)
    requires worklet.Valid() && Hears(capture, worklet, seen)
    modifies capture`chunks, capture`handed, capture.resampler
    ensures Hears(capture, worklet, now)
    ensures now == if until < seen then seen else if until > |worklet.port| then |worklet.port| else until
  {
    now := seen;
    while now < |worklet.port| && now < until
      invariant seen <= now <= |worklet.port| && (now <= until || now == seen)
      invariant Hears(capture, worklet, now)
      invariant worklet.port == old(worklet.port)
    {
      assert worklet.port[..now + 1][..now] == worklet.port[..now];
      capture.HandleWorkletMessage(worklet.port[now]);
      now := now + 1;
    }
  }
}
