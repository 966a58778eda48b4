/** What every realtime session keeps, whatever arrives: proved about Serve, which
    ServeRealtime computes. */
module RealtimeProtocol {
  import opened Outcomes
  import opened Sequences
  import opened AudioFrame
  import opened RealtimeSession

  function Acks(events: seq<Event>): seq<Event>
  {
    if events == [] then []
    else Acks(events[..|events| - 1]) + if events[|events| - 1].Ack? then [events[|events| - 1]] else []
  }

  function Partials(events: seq<Event>): (r: seq<Event>)
    ensures forall p :: p in r ==> p.Partial?
  {
    if events == [] then []
    else Partials(events[..|events| - 1]) + if events[|events| - 1].Partial? then [events[|events| - 1]] else []
  }

  lemma FiltersSnoc(events: seq<Event>, e: Event)
    ensures Acks(events + [e]) == Acks(events) + if e.Ack? then [e] else []
    ensures Partials(events + [e]) == Partials(events) + if e.Partial? then [e] else []
  {
    assert (events + [e])[..|events|] == events;
  }

  lemma FiltersStep(trace: seq<Event>, ack: Event, changes: seq<Event>)
    requires ack.Ack? && |changes| <= 1 && forall e :: e in changes ==> e.Partial?
    ensures Acks(trace + [ack] + changes) == Acks(trace) + [ack]
    ensures Partials(trace + [ack] + changes) == Partials(trace) + changes
  {
    var one := trace + [ack];
    FiltersSnoc(trace, ack);
    if changes == [] {
      assert one + changes == one;
    } else {
      var p := changes[0];
      assert changes == [p] && p.Partial?;
      FiltersSnoc(one, p);
    }
  }

  lemma TraceFilters<S>(model: Recogniser<S>, initial: S, frames: seq<seq<int>>)
    requires frames != []
    ensures var before := frames[..|frames| - 1];
            && Acks(Trace(model, initial, frames))
               == Acks(Trace(model, initial, before)) + [Ack(|before|, SamplesToMs(Samples(frames)))]
            && Partials(Trace(model, initial, frames))
               == Partials(Trace(model, initial, before)) + Changes(model, initial, frames)
  {
    var before := frames[..|frames| - 1];
    FiltersStep(Trace(model, initial, before), Ack(|before|, SamplesToMs(Samples(frames))),
        Changes(model, initial, frames));
  }

  // ---- acknowledgements ----

  function ExpectedAck(frames: seq<seq<int>>, k: nat): Event
    requires k < |frames|
  {
    Ack(k, SamplesToMs(Samples(frames[..k + 1])))
  }

  function ExpectedAcks(frames: seq<seq<int>>): (r: seq<Event>)
    ensures |r| == |frames|
  {
    seq(|frames|, k requires 0 <= k < |frames| => ExpectedAck(frames, k))
  }

  lemma ExpectedAcksStep(frames: seq<seq<int>>)
    requires frames != []
    ensures ExpectedAcks(frames)
         == ExpectedAcks(frames[..|frames| - 1]) + [Ack(|frames| - 1, SamplesToMs(Samples(frames)))]
  {
    var before := frames[..|frames| - 1];
    assert frames[..|frames|] == frames;
    forall k | 0 <= k < |before|
      ensures ExpectedAck(before, k) == ExpectedAck(frames, k)
    {
      assert before[..k + 1] == frames[..k + 1];
    }
  }

  /** One acknowledgement per accepted frame, numbered 0, 1, 2, ..., each with the rounded
      duration of everything accepted so far. */
  lemma {:induction false} AcksInOrder<S>(model: Recogniser<S>, initial: S, frames: seq<seq<int>>)
    ensures Acks(Trace(model, initial, frames)) == ExpectedAcks(frames)
  {
    if frames != [] {
      AcksInOrder(model, initial, frames[..|frames| - 1]);
      TraceFilters(model, initial, frames);
      ExpectedAcksStep(frames);
    }
  }

  // ---- partial results ----

  ghost predicate Rising(partials: seq<Event>)
    requires forall p :: p in partials ==> p.Partial?
  {
    && (forall i :: 0 <= i < |partials| ==> partials[i].revision == i + 1)
    && (forall i :: 0 < i < |partials| ==>
          (partials[i - 1].text, partials[i - 1].language) != (partials[i].text, partials[i].language))
    && (partials != [] ==> (partials[0].text, partials[0].language) != ("", ""))
  }

  /** Revisions rise by exactly one from 1, consecutive partials differ, and the last one
      shows the text and the language that the recogniser now gives; without one both are empty. */
  lemma {:induction false} PartialsRise<S>(model: Recogniser<S>, initial: S, frames: seq<seq<int>>)
    ensures PartialsTrack(model, initial, frames)
    ensures frames != [] && Heard(model, initial, frames).Some? ==>
              var state, partials := Heard(model, initial, frames).value, Partials(Trace(model, initial, frames));
              if partials == [] then model.text(state) == "" && model.language(state) == ""
              else
                && partials[|partials| - 1].text == model.text(state)
                && partials[|partials| - 1].language == model.language(state)
  {
    if frames != [] {
      hide Trace, Partials, Rising;
      PartialsRise(model, initial, frames[..|frames| - 1]);
      PartialsStep(model, initial, frames);
    }
  }

  /** Each partial directly follows an acknowledgement and covers the same audio. */
  lemma {:induction false} PartialsFollowAcks<S>(model: Recogniser<S>, initial: S, frames: seq<seq<int>>)
    ensures FollowsAcks(Trace(model, initial, frames))
  {
    if frames != [] {
      var before := frames[..|frames| - 1];
      PartialsFollowAcks(model, initial, before);
      ChangesShape(model, initial, frames);
      AckedThenChanged(Trace(model, initial, before), |before|, SamplesToMs(Samples(frames)),
                       Changes(model, initial, frames));
    }
  }

  lemma AckedThenChanged(before: seq<Event>, n: nat, ms: nat, changes: seq<Event>)
    requires FollowsAcks(before) && |changes| <= 1
    requires forall e :: e in changes ==> e.Partial? && e.audioEndMs == ms
    ensures FollowsAcks(before + [Ack(n, ms)] + changes)
  {
    var trace := before + [Ack(n, ms)] + changes;
    forall j | 0 <= j < |trace| && trace[j].Partial?
      ensures j > 0 && trace[j - 1].Ack? && trace[j].audioEndMs == trace[j - 1].receivedAudioMs
    {
      if j < |before| {
        assert trace[j] == before[j] && trace[j - 1] == before[j - 1];
      } else {
        assert j == |before| + 1 && trace[j] == changes[0] && trace[j - 1] == Ack(n, ms);
      }
    }
  }

  ghost predicate FollowsAcks(trace: seq<Event>)
  {
    forall j :: 0 <= j < |trace| && trace[j].Partial? ==>
      j > 0 && trace[j - 1].Ack? && trace[j].audioEndMs == trace[j - 1].receivedAudioMs
  }

  ghost predicate PartialsTrack<S>(model: Recogniser<S>, initial: S, frames: seq<seq<int>>)
  {
    var partials := Partials(Trace(model, initial, frames));
    && Rising(partials)
    && |partials| == Revision(model, initial, frames)
    && LastShown(partials) == Shown(model, initial, frames)
  }

  lemma PartialsStep<S>(model: Recogniser<S>, initial: S, frames: seq<seq<int>>)
    requires frames != [] && PartialsTrack(model, initial, frames[..|frames| - 1])
    ensures PartialsTrack(model, initial, frames)
  {
    var before := frames[..|frames| - 1];
    TraceFilters(model, initial, frames);
    ChangesShape(model, initial, frames);
    hide Trace, Changes, Revision, Shown, Rising, LastShown, Samples, Partials, Acks;
    RisingStep(Partials(Trace(model, initial, before)), Changes(model, initial, frames),
               Shown(model, initial, before), Shown(model, initial, frames), SamplesToMs(Samples(frames)));
  }

  lemma ChangesShape<S>(model: Recogniser<S>, initial: S, frames: seq<seq<int>>)
    requires frames != []
    ensures var before := frames[..|frames| - 1];
            var now := Shown(model, initial, frames);
            && Changes(model, initial, frames)
               == (if now == Shown(model, initial, before) then []
                   else [Partial(Revision(model, initial, before) + 1, now.0, now.1, SamplesToMs(Samples(frames)))])
            && Revision(model, initial, frames) == Revision(model, initial, before) + |Changes(model, initial, frames)|
  {
  }

  ghost function LastShown(partials: seq<Event>): (string, string)
    requires forall p :: p in partials ==> p.Partial?
  {
    if partials == [] then ("", "") else (partials[|partials| - 1].text, partials[|partials| - 1].language)
  }

  lemma RisingStep(partials: seq<Event>, changes: seq<Event>, before: (string, string), now: (string, string), ms: nat)
    requires forall p :: p in partials ==> p.Partial?
    requires Rising(partials) && LastShown(partials) == before
    requires changes == if now == before then [] else [Partial(|partials| + 1, now.0, now.1, ms)]
    ensures forall p :: p in partials + changes ==> p.Partial?
    ensures Rising(partials + changes) && LastShown(partials + changes) == now
  {
    if now == before {
      assert partials + changes == partials;
    }
  }

  // ---- what was accepted ----

  ghost predicate SentAs(frames: seq<seq<int>>, messages: seq<Message>, from: nat)
  {
    && from <= |frames| <= from + |messages|
    && forall i :: from <= i < |frames| ==>
         && IsFrame(frames[i]) && i < 0x1_0000_0000
         && messages[i - from] == Binary(EncodeFrame(i, frames[i]))
  }

  /** The accepted frames are a prefix of the messages, each exactly its sender's encoding
      under the next number; they fit the configured maximum; and the model heard exactly
      them, in order, without raising. */
  lemma {:induction false} AcceptedFrames<S>(model: Recogniser<S>, initial: S, settings: Settings,
                                        frames: seq<seq<int>>, messages: seq<Message>)
    requires Heard(model, initial, frames).Some?
    ensures var accepted := Accepted(model, initial, settings, frames, messages);
            && SentAs(accepted, messages, |frames|)
            && (accepted != frames ==> Samples(accepted) <= settings.maxAudioSeconds * SAMPLE_RATE)
            && Heard(model, initial, accepted).Some?
    decreases messages
  {
    if messages != [] && NextFrame(model, initial, settings, frames, messages[0]).Some? {
      var pcm, rest := NextFrame(model, initial, settings, frames, messages[0]).value, messages[1..];
      FrameTaken(model, initial, settings, frames, messages[0]);
      AcceptedFrames(model, initial, settings, frames + [pcm], rest);
      var accepted := Accepted(model, initial, settings, frames + [pcm], rest);
      assert Accepted(model, initial, settings, frames, messages) == accepted;
      SentAsStep(accepted, frames, pcm, messages);
    }
  }

  lemma AcceptedHeard<S>(model: Recogniser<S>, initial: S, settings: Settings, messages: seq<Message>)
    ensures Heard(model, initial, Accepted(model, initial, settings, [], messages)).Some?
  {
    AcceptedFrames(model, initial, settings, [], messages);
  }

  lemma FrameTaken<S>(model: Recogniser<S>, initial: S, settings: Settings, frames: seq<seq<int>>, message: Message)
    requires NextFrame(model, initial, settings, frames, message).Some?
    ensures var pcm := NextFrame(model, initial, settings, frames, message).value;
            && IsFrame(pcm) && |frames| < 0x1_0000_0000
            && message == Binary(EncodeFrame(|frames|, pcm))
            && Samples(frames + [pcm]) <= settings.maxAudioSeconds * SAMPLE_RATE
            && Heard(model, initial, frames + [pcm]).Some?
  {
    var pcm := NextFrame(model, initial, settings, frames, message).value;
    EncodeDecoded(message.raw, |frames|);
    FlattenSnoc(frames, pcm);
  }

  lemma SentAsStep(accepted: seq<seq<int>>, frames: seq<seq<int>>, pcm: seq<int>, messages: seq<Message>)
    requires messages != [] && frames + [pcm] <= accepted
    requires IsFrame(pcm) && |frames| < 0x1_0000_0000 && messages[0] == Binary(EncodeFrame(|frames|, pcm))
    requires SentAs(accepted, messages[1..], |frames| + 1)
    ensures SentAs(accepted, messages, |frames|)
  {
    assert accepted[|frames|] == pcm;
    forall i | |frames| < i < |accepted|
      ensures IsFrame(accepted[i]) && i < 0x1_0000_0000 && messages[i - |frames|] == Binary(EncodeFrame(i, accepted[i]))
    {
      assert messages[i - |frames|] == messages[1..][i - (|frames| + 1)];
    }
  }

  /** A run stops at the first message that is not an acceptable frame, and at no other. */
  lemma {:induction false} StopsAtFirst<S>(model: Recogniser<S>, initial: S, settings: Settings,
                                        frames: seq<seq<int>>, messages: seq<Message>)
    ensures var accepted := Accepted(model, initial, settings, frames, messages);
            var k := |accepted| - |frames|;
            k < |messages| ==> NextFrame(model, initial, settings, accepted, messages[k]).None?
    decreases messages
  {
    if messages != [] {
      var next := NextFrame(model, initial, settings, frames, messages[0]);
      if next.Some? {
        StopsAtFirst(model, initial, settings, frames + [next.value], messages[1..]);
      }
    }
  }

  // ---- the final result ----

  /** A control message of at most 4096 bytes whose event is this text. */
  predicate Commands(message: Message, event: string)
  {
    && message.Text? && message.size <= 4096 && message.body.Control?
    && message.body.event.Present? && message.body.event.text == Some(event)
  }

  predicate GivesReason(body: Body)
    requires body.Control?
  {
    && body.reason.Present? && body.reason.hashable && body.reason.text.Some?
    && body.reason.text.value in {"manual_stop", "silence_stop", "max_duration"}
  }

  /** The field is there and int() makes this of it. */
  predicate Names(field: Field, n: int)
  {
    field.Present? && field.number == Some(n)
  }

  /** The field is there, and int() makes of it a duration within 10 ms of this one. */
  predicate Near(field: Field, ms: int)
  {
    field.Present? && field.number.Some? && -10 <= field.number.value - ms <= 10
  }

  /** What a client must send for a final result, over `frames`. */
  predicate Finishes<S>(model: Recogniser<S>, initial: S, frames: seq<seq<int>>, message: Message)
  {
    && Commands(message, "finish") && GivesReason(message.body)
    && Names(message.body.lastSequence, |frames| - 1)
    && Near(message.body.capturedMs, SamplesToMs(Samples(frames)))
    && SamplesToMs(Samples(frames)) >= 300
    && Heard(model, initial, frames).Some?
    && model.finish(Heard(model, initial, frames).value).Some?
  }

  function Total(durations: seq<int>): int
  {
    if durations == [] then 0 else Total(durations[..|durations| - 1]) + durations[|durations| - 1]
  }

  function Durations<S>(model: Recogniser<S>, calls: nat): seq<int>
  {
    seq(calls, i requires 0 <= i < calls => model.elapsedMs(i))
  }

  /** The final event of a session over `frames` that this message finishes: what the model
      says when it is done, one revision above every partial's, the accepted duration, the
      time of all model calls, the client's reason and the configured name. */
  ghost predicate Concludes<S>(model: Recogniser<S>, initial: S, settings: Settings, frames: seq<seq<int>>,
                               message: Message, e: Event)
    requires Finishes(model, initial, frames, message)
  {
    var done := model.finish(Heard(model, initial, frames).value).value;
    && e.Final?
    && e.text == model.text(done) && e.language == model.language(done)
    && e.revision == |Partials(Trace(model, initial, frames))| + 1
    && e.durationMs == SamplesToMs(Samples(frames))
    && e.inferenceMs == Total(Durations(model, |frames| + 1))
    && Some(e.stopReason) == message.body.reason.text
    && e.model == settings.servedModelName
  }

  ghost predicate SentFinal(sent: seq<Event>)
  {
    exists i :: 0 <= i < |sent| && sent[i].Final?
  }

  /** A final event can only stand last, in a run that returned. */
  ghost predicate FinalOnlyLast(run: Run)
  {
    forall i :: 0 <= i < |run.sent| && run.sent[i].Final? ==> i == |run.sent| - 1 && run.outcome == Returned
  }

  /** A final event is sent exactly when the first message that is not an accepted frame
      finishes the session; it is then the last event, and this is what it says. */
  lemma FinalExactlyWhen<S>(model: Recogniser<S>, initial: S, settings: Settings, messages: seq<Message>)
    ensures var run := Serve(model, initial, settings, messages);
            var finished :=
              |run.accepted| < |messages| && Finishes(model, initial, run.accepted, messages[|run.accepted|]);
            && (SentFinal(run.sent) <==> finished)
            && (finished ==>
                  var message := messages[|run.accepted|];
                  |run.sent| > 0
                  && Concludes(model, initial, settings, run.accepted, message, run.sent[|run.sent| - 1]))
            && FinalOnlyLast(run)
            && SentShape(Trace(model, initial, run.accepted), run.sent)
  {
    hide Finishes, Concludes, Trace, Heard, End, Accepted, SentAs, SentShape, SentFinal, Samples;
    var run := Serve(model, initial, settings, messages);
    var trace := Trace(model, initial, run.accepted);
    NoFinalInTrace(model, initial, run.accepted);
    AcceptedHeard(model, initial, settings, messages);
    if |run.accepted| < |messages| {
      var message := messages[|run.accepted|];
      EndFinal(model, initial, settings, run.accepted, message);
      ShapeOf(trace, End(model, initial, settings, run.accepted, message).1);
    } else {
      assert trace + [] == trace;
      ShapeOf(trace, []);
    }
  }

  /** The events of accepted frames, and at most a final one after them. */
  ghost predicate SentShape(trace: seq<Event>, sent: seq<Event>)
  {
    sent == trace || (|sent| == |trace| + 1 && sent[..|trace|] == trace && sent[|trace|].Final?)
  }

  lemma ShapeOf(trace: seq<Event>, extra: seq<Event>)
    requires forall e :: e in trace ==> e.Ack? || e.Partial?
    requires extra == [] || (|extra| == 1 && extra[0].Final?)
    ensures SentShape(trace, trace + extra)
    ensures SentFinal(trace + extra) <==> extra != []
    ensures forall i :: 0 <= i < |trace + extra| && (trace + extra)[i].Final? ==>
        i == |trace| && (trace + extra)[i] == extra[0]
  {
    var sent := trace + extra;
    forall i | 0 <= i < |trace|
      ensures !sent[i].Final?
    {
      assert sent[i] == trace[i] && trace[i] in trace;
    }
    assert extra != [] ==> sent[|trace|].Final?;
  }

  lemma {:induction false} NoFinalInTrace<S>(model: Recogniser<S>, initial: S, frames: seq<seq<int>>)
    ensures forall e :: e in Trace(model, initial, frames) ==> e.Ack? || e.Partial?
  {
    if frames != [] {
      NoFinalInTrace(model, initial, frames[..|frames| - 1]);
    }
  }

  lemma EndFinal<S>(model: Recogniser<S>, initial: S, settings: Settings, frames: seq<seq<int>>, message: Message)
    requires Heard(model, initial, frames).Some?
    ensures var end := End(model, initial, settings, frames, message);
            if Finishes(model, initial, frames, message)
            then end.0 == Returned && |end.1| == 1 && end.1[0].Final?
                 && Concludes(model, initial, settings, frames, message, end.1[0])
            else end.1 == []
  {
    hide Trace, Heard, Samples, SamplesToMs, Total, TotalElapsed, Rising, LastShown, Partials;
    PartialsRise(model, initial, frames);
    ElapsedTotal(model, |frames| + 1);
  }

  lemma {:induction false} ElapsedTotal<S>(model: Recogniser<S>, calls: nat)
    ensures TotalElapsed(model, calls) == Total(Durations(model, calls))
  {
    if calls > 0 {
      ElapsedTotal(model, calls - 1);
      assert Durations(model, calls)[..calls - 1] == Durations(model, calls - 1);
    }
  }

  /** What a client must send to end a session over `frames` without a further event: the last
      accepted frame is frame 0 when there is none. */
  predicate Leaves(frames: seq<seq<int>>, message: Message)
  {
    || message.Disconnect?
    || (Commands(message, "cancel") && Names(message.body.lastSequence, if frames == [] then 0 else |frames| - 1))
  }

  /** A session returns without a final event exactly when the first message that is not an
      accepted frame disconnects, or cancels naming the last accepted frame. */
  lemma SilentExactlyWhen<S>(model: Recogniser<S>, initial: S, settings: Settings, messages: seq<Message>)
    ensures var run := Serve(model, initial, settings, messages);
            run.outcome == Returned && !SentFinal(run.sent)
            <==> |run.accepted| < |messages| && Leaves(run.accepted, messages[|run.accepted|])
  {
    var run := Serve(model, initial, settings, messages);
    AcceptedFrames(model, initial, settings, [], messages);
    FinalExactlyWhen(model, initial, settings, messages);
    if |run.accepted| < |messages| {
      EndLeaves(model, initial, settings, run.accepted, messages[|run.accepted|]);
    }
  }

  lemma EndLeaves<S>(model: Recogniser<S>, initial: S, settings: Settings, frames: seq<seq<int>>, message: Message)
    requires Heard(model, initial, frames).Some?
    ensures End(model, initial, settings, frames, message).0 == Returned
            <==> Leaves(frames, message) || Finishes(model, initial, frames, message)
    ensures !(Leaves(frames, message) && Finishes(model, initial, frames, message))
  {
  }

  // ---- why a session is refused ----

  /** How a run ends on its first message that is not an accepted frame, when that message
      neither leaves nor finishes: the code names the first thing wrong with it. */
  lemma RefusalCodes<S>(model: Recogniser<S>, initial: S, settings: Settings, messages: seq<Message>)
    requires |Serve(model, initial, settings, messages).accepted| < |messages|
    ensures var run := Serve(model, initial, settings, messages);
            var message, n := messages[|run.accepted|], |run.accepted|;
            && (message.Expired? ==> run.outcome == Refused("speech_stream_session_expired"))
            && (message.NoPayload? || (message.Text? && (message.size > 4096 || !message.body.Control?)) ==>
                  run.outcome == Refused("speech_stream_control_invalid"))
            && (message.Binary? ==> FrameRefused(settings, run, DecodeAudioFrame(message.raw, n)))
            && (message.Text? && message.size <= 4096 && message.body.Control? ==>
                  ControlRefused(run, message, if n == 0 then 0 else n - 1, SamplesToMs(Samples(run.accepted))))
  {
    hide Heard, Trace, Revision, Accepted, Samples, SamplesToMs, DecodeAudioFrame, SentAs;
    AcceptedHeard(model, initial, settings, messages);
    StopsAtFirst(model, initial, settings, [], messages);
  }

  /** A frame ends a session undecodable, over the maximum, or because the model raised on it. */
  ghost predicate FrameRefused(settings: Settings, run: Run, decoded: Result<seq<int>>)
  {
    if decoded.Err? then run.outcome == Refused(decoded.error)
    else if Samples(run.accepted) + |decoded.value| > settings.maxAudioSeconds * 16000 then
      run.outcome == Refused("speech_too_large")
    else run.outcome == Crashed
  }

  /** `current` is the frame that a cancel must name, `ms` the accepted duration. A field that
      int() cannot read is not refused but crashes the session. */
  ghost predicate ControlRefused(run: Run, message: Message, current: int, ms: int)
    requires message.Text? && message.body.Control?
  {
    var body := message.body;
    var last, captured := body.lastSequence, body.capturedMs;
    && (!Commands(message, "cancel") && !Commands(message, "finish") ==>
          run.outcome == Refused("speech_stream_control_invalid"))
    && (Commands(message, "cancel") && Differs(last, current) ==>
          run.outcome == Refused("speech_stream_sequence_invalid"))
    && (Commands(message, "finish") && !GivesReason(body) && (body.reason.Present? ==> body.reason.hashable) ==>
          run.outcome == Refused("speech_stream_control_invalid"))
    && (Commands(message, "finish") && GivesReason(body) && Differs(last, |run.accepted| - 1) ==>
          run.outcome == Refused("speech_stream_sequence_invalid"))
    && (Commands(message, "finish") && GivesReason(body) && Names(last, |run.accepted| - 1) ==>
          && (captured.Present? && captured.number.Some? && !Near(captured, ms) ==>
                run.outcome == Refused("speech_stream_duration_invalid"))
          && (Near(captured, ms) && ms < 300 ==> run.outcome == Refused("speech_too_short"))
          && (captured.Absent? ==>
                run.outcome == Refused(if ms >= 10 then "speech_stream_duration_invalid" else "speech_too_short")))
    && (Unreadable(message, |run.accepted|) ==> run.outcome == Crashed)
  }

  /** The field is missing, or int() makes another number of it. */
  predicate Differs(field: Field, n: int)
  {
    field.Present? ==> field.number.Some? && field.number.value != n
  }

  /** A control message whose decisive field int(), or a set look-up, fails on. */
  predicate Unreadable(message: Message, accepted: nat)
    requires message.Text? && message.body.Control?
  {
    var body := message.body;
    || (Commands(message, "cancel") && body.lastSequence.Present? && body.lastSequence.number.None?)
    || (Commands(message, "finish") && body.reason.Present? && !body.reason.hashable)
    || (&& Commands(message, "finish") && GivesReason(body)
        && ((body.lastSequence.Present? && body.lastSequence.number.None?)
            || (&& Names(body.lastSequence, accepted - 1)
                && body.capturedMs.Present? && body.capturedMs.number.None?)))
  }

  // ---- a client that follows the protocol succeeds ----

  function Numbered(frames: seq<seq<int>>, from: nat): seq<Message>
    requires from <= |frames| <= 0x1_0000_0000
    requires forall i :: 0 <= i < |frames| ==> IsFrame(frames[i])
    decreases |frames| - from
  {
    if from == |frames| then [] else [Binary(EncodeFrame(from, frames[from]))] + Numbered(frames, from + 1)
  }

  lemma {:induction false} SamplesPrefix(frames: seq<seq<int>>, k: nat)
    requires k <= |frames|
    ensures Samples(frames[..k]) <= Samples(frames)
  {
    FlattenAppend(frames[..k], frames[k..]);
    assert frames[..k] + frames[k..] == frames;
  }

  /** A model that took all frames raised on none of them. */
  lemma {:induction false} HeardPrefix<S>(model: Recogniser<S>, initial: S, frames: seq<seq<int>>, k: nat)
    requires k <= |frames| && Heard(model, initial, frames).Some?
    ensures Heard(model, initial, frames[..k]).Some?
  {
    if k == |frames| {
      assert frames[..k] == frames;
    } else {
      var before := frames[..|frames| - 1];
      HeardPrefix(model, initial, before, k);
      assert before[..k] == frames[..k];
    }
  }

  lemma {:induction false} AllAccepted<S>(model: Recogniser<S>, initial: S, settings: Settings, frames: seq<seq<int>>,
                                        from: nat, end: Message)
    requires from <= |frames| <= 0x1_0000_0000
    requires forall i :: 0 <= i < |frames| ==> IsFrame(frames[i])
    requires Heard(model, initial, frames).Some?
    requires Samples(frames) <= settings.maxAudioSeconds * SAMPLE_RATE
    requires !end.Binary?
    ensures Accepted(model, initial, settings, frames[..from], Numbered(frames, from) + [end]) == frames
    decreases |frames| - from
  {
    if from == |frames| {
      assert frames[..from] == frames;
      assert Numbered(frames, from) + [end] == [end];
    } else {
      OneAccepted(model, initial, settings, frames, from);
      AllAccepted(model, initial, settings, frames, from + 1, end);
      var rest := Numbered(frames, from + 1) + [end];
      assert Numbered(frames, from) + [end] == [Binary(EncodeFrame(from, frames[from]))] + rest;
      AcceptedCons(model, initial, settings, frames[..from], Binary(EncodeFrame(from, frames[from])), frames[from],
          rest);
    }
  }

  lemma AcceptedCons<S>(model: Recogniser<S>, initial: S, settings: Settings, frames: seq<seq<int>>, message: Message,
                        pcm: seq<int>, rest: seq<Message>)
    requires NextFrame(model, initial, settings, frames, message) == Some(pcm)
    ensures Accepted(model, initial, settings, frames, [message] + rest)
         == Accepted(model, initial, settings, frames + [pcm], rest)
  {
    assert ([message] + rest)[1..] == rest;
  }

  lemma OneAccepted<S>(model: Recogniser<S>, initial: S, settings: Settings, frames: seq<seq<int>>, from: nat)
    requires from < |frames| <= 0x1_0000_0000 && IsFrame(frames[from])
    requires Heard(model, initial, frames).Some?
    requires Samples(frames) <= settings.maxAudioSeconds * SAMPLE_RATE
    ensures frames[..from + 1] == frames[..from] + [frames[from]]
    ensures NextFrame(model, initial, settings, frames[..from], Binary(EncodeFrame(from, frames[from])))
        == Some(frames[from])
  {
    hide DecodeAudioFrame, EncodeFrame, Heard, IsFrame;
    assert frames[..from + 1] == frames[..from] + [frames[from]];
    DecodeEncoded(from, frames[from]);
    FlattenSnoc(frames[..from], frames[from]);
    SamplesPrefix(frames, from + 1);
    HeardPrefix(model, initial, frames, from + 1);
  }

  /** Frames within the limits, numbered from 0, then a finish whose duration is within 10 ms:
      every frame is acknowledged and there is exactly one final event, the last. The model may
      raise on other audio. */
  lemma ClientSucceeds<S>(model: Recogniser<S>, initial: S, settings: Settings, frames: seq<seq<int>>, finish: Message)
    requires |frames| <= 0x1_0000_0000 && forall i :: 0 <= i < |frames| ==> IsFrame(frames[i])
    requires Samples(frames) <= settings.maxAudioSeconds * SAMPLE_RATE
    requires Finishes(model, initial, frames, finish)
    ensures var run := Serve(model, initial, settings, Numbered(frames, 0) + [finish]);
            && run.accepted == frames && run.outcome == Returned
            && |run.sent| > 0 && run.sent[|run.sent| - 1].Final?
            && run.sent[..|run.sent| - 1] == Trace(model, initial, frames)
            && Acks(run.sent) == ExpectedAcks(frames)
            && forall i :: 0 <= i < |run.sent| - 1 ==> !run.sent[i].Final?
  {
    var messages := Numbered(frames, 0) + [finish];
    var run := Serve(model, initial, settings, messages);
    assert frames[..0] == [];
    AllAccepted(model, initial, settings, frames, 0, finish);
    NumberedLength(frames, 0);
    FinalExactlyWhen(model, initial, settings, messages);
    NoFinalInTrace(model, initial, frames);
    TraceThenFinal(Trace(model, initial, frames), run.sent);
    AcksInOrder(model, initial, frames);
  }

  lemma TraceThenFinal(trace: seq<Event>, sent: seq<Event>)
    requires forall e :: e in trace ==> e.Ack? || e.Partial?
    requires SentShape(trace, sent)
    requires SentFinal(sent)
    ensures |sent| == |trace| + 1 && sent[..|trace|] == trace && sent[|trace|].Final?
    ensures forall i :: 0 <= i < |trace| ==> !sent[i].Final?
    ensures Acks(sent) == Acks(trace)
  {
    OnlyFinals(trace, sent);
    assert sent == trace + [sent[|trace|]];
    FiltersSnoc(trace, sent[|trace|]);
  }

  lemma {:induction false} NumberedLength(frames: seq<seq<int>>, from: nat)
    requires from <= |frames| <= 0x1_0000_0000
    requires forall i :: 0 <= i < |frames| ==> IsFrame(frames[i])
    ensures |Numbered(frames, from)| == |frames| - from
    decreases |frames| - from
  {
    if from < |frames| {
      NumberedLength(frames, from + 1);
    }
  }

  // ---- the handler around the session ----

  /** Everything one websocket is sent: `start` is what receive_start returned or raised. */
  function Handle<S>(start: Result<()>, gateAcquired: bool, languageKnown: bool,
                     model: Recogniser<S>, settings: Settings, messages: seq<Message>): seq<Event>
  {
    if start.Err? then [Error(start.error)]
    else if !gateAcquired then [Fallback("speech_busy")]
    else if !languageKnown || model.initial.None? then [Fallback("speech_inference_failed")]
    else
      var run := Serve(model, model.initial.value, settings, messages);
      [Ready(settings.maxAudioSeconds)] + run.sent
      + match run.outcome
        case Refused(code) => [Error(code)]
        case Crashed => [Fallback("speech_inference_failed")]
        case _ => []
  }

  predicate Ending(e: Event)
  {
    e.Final? || e.Error? || e.Fallback?
  }

  /** A client sees at most one of final, error and fallback, and nothing after it. */
  lemma OneEnding<S>(start: Result<()>, gateAcquired: bool, languageKnown: bool,
                     model: Recogniser<S>, settings: Settings, messages: seq<Message>)
    ensures var events := Handle(start, gateAcquired, languageKnown, model, settings, messages);
            |events| > 0 && forall i :: 0 <= i < |events| - 1 ==> !Ending(events[i])
  {
    if start.Ok? && gateAcquired && languageKnown && model.initial.Some? {
      hide Finishes, Concludes, Trace, Serve;
      var initial := model.initial.value;
      var run := Serve(model, initial, settings, messages);
      FinalExactlyWhen(model, initial, settings, messages);
      NoFinalInTrace(model, initial, run.accepted);
      OnlyFinals(Trace(model, initial, run.accepted), run.sent);
    }
  }

  /** What a client sees of a session: one event if it never starts; otherwise ready, the
      session's own events, and an error or fallback exactly when it was refused or crashed. */
  lemma SessionSeen<S>(start: Result<()>, gateAcquired: bool, languageKnown: bool,
                       model: Recogniser<S>, settings: Settings, messages: seq<Message>)
    ensures var events := Handle(start, gateAcquired, languageKnown, model, settings, messages);
            if start.Err? then events == [Error(start.error)]
            else if !gateAcquired then events == [Fallback("speech_busy")]
            else if !languageKnown || model.initial.None? then events == [Fallback("speech_inference_failed")]
            else
              var run := Serve(model, model.initial.value, settings, messages);
              && events[0] == Ready(settings.maxAudioSeconds)
              && |events| == 1 + |run.sent| + (if run.outcome.Refused? || run.outcome.Crashed? then 1 else 0)
              && events[1..1 + |run.sent|] == run.sent
              && (run.outcome.Refused? ==> events[|events| - 1] == Error(run.outcome.code))
              && (run.outcome.Crashed? ==> events[|events| - 1] == Fallback("speech_inference_failed"))
  {
    hide Serve;
  }

  /** A started session ends visibly exactly when it was refused, crashed, or finished; it
      ends silently only on the client's own disconnect or cancel. */
  lemma VisibleEnding<S>(model: Recogniser<S>, settings: Settings, messages: seq<Message>)
    requires model.initial.Some?
    ensures var initial := model.initial.value;
            var run := Serve(model, initial, settings, messages);
            var events := Handle(Ok(()), true, true, model, settings, messages);
            Ending(events[|events| - 1]) <==>
              run.outcome.Refused? || run.outcome.Crashed?
              || (|run.accepted| < |messages| && Finishes(model, initial, run.accepted, messages[|run.accepted|]))
  {
    hide Finishes, Concludes, Trace, Serve;
    var initial := model.initial.value;
    var run := Serve(model, initial, settings, messages);
    FinalExactlyWhen(model, initial, settings, messages);
    NoFinalInTrace(model, initial, run.accepted);
    OnlyFinals(Trace(model, initial, run.accepted), run.sent);
    if SentFinal(run.sent) {
      TraceThenFinal(Trace(model, initial, run.accepted), run.sent);
    }
  }

  lemma OnlyFinals(trace: seq<Event>, sent: seq<Event>)
    requires forall e :: e in trace ==> e.Ack? || e.Partial?
    requires SentShape(trace, sent)
    ensures forall i :: 0 <= i < |sent| ==> (Ending(sent[i]) <==> sent[i].Final?)
    ensures forall i :: 0 <= i < |trace| ==> !sent[i].Final?
  {
    forall i | 0 <= i < |sent|
      ensures (Ending(sent[i]) <==> sent[i].Final?) && (i < |trace| ==> !sent[i].Final?)
    {
      assert i < |trace| ==> sent[i] == trace[i] && trace[i] in trace;
    }
  }
}
