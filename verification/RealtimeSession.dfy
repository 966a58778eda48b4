/** The realtime transcription session of services/asr-runtime/runtime.py: the message loop
    of serve_realtime and the handler around it, as a function of what arrives.

    The speech model is a value with four operations, two of which may raise. A clock
    reading after each model call is a parameter, and an expired idle or session deadline
    is one of the things that can arrive. */
module RealtimeSession {
  import opened Outcomes
  import opened Sequences
  import opened AudioFrame

  const SAMPLE_RATE := 16_000
  const MIN_AUDIO_MS := 300
  const MAX_START_BYTES := 4_096
  const STOP_REASONS := {"manual_stop", "silence_stop", "max_duration"}

  // ---- durations ----

  /** round(samples * 1000 / 16000): Python rounds ties to the even integer. */
  function SamplesToMs(samples: nat): nat
  {
    var q, r := samples / 16, samples % 16;
    if r < 8 || (r == 8 && q % 2 == 0) then q else q + 1
  }

  lemma SamplesToMsNearest(samples: nat, ms: int)
    ensures -8 <= 16 * SamplesToMs(samples) - samples <= 8
    ensures -8 < 16 * ms - samples < 8 ==> ms == SamplesToMs(samples)
    ensures (16 * ms - samples == 8 || 16 * ms - samples == -8) && ms % 2 == 0 ==> ms == SamplesToMs(samples)
  {
  }

  lemma SamplesToMsMonotone(a: nat, b: nat)
    requires a <= b
    ensures SamplesToMs(a) <= SamplesToMs(b) <= SamplesToMs(a) + (b - a) / 16 + 1
  {
  }

  // ---- what arrives and what is sent ----

  /** A value of a control message: its text if it is a string, what int() makes of it, and
      whether it can be looked up in a set. */
  datatype Field = Absent | Present(text: Option<string>, number: Option<int>, hashable: bool)

  datatype Body = Malformed | NotAnObject | Control(event: Field, reason: Field, lastSequence: Field, capturedMs: Field)

  datatype Message = Expired | Disconnect | Binary(raw: seq<byte>) | Text(size: nat, body: Body) | NoPayload

  datatype Event =
    | Ready(maxAudioSeconds: int)
    | Ack(acceptedSequence: nat, receivedAudioMs: nat)
    | Partial(revision: nat, text: string, language: string, audioEndMs: nat)
    | Final(revision: nat, text: string, language: string, durationMs: nat, inferenceMs: int,
            stopReason: string, model: string)
    | Error(code: string)
    | Fallback(code: string)

  datatype Recogniser<!S> = Recogniser(
    initial: Option<S>,
    advance: (seq<int>, S) -> Option<S>,
    finish: S -> Option<S>,
    text: S -> string,
    language: S -> string,
    elapsedMs: nat -> int)

  datatype Settings = Settings(maxAudioSeconds: int, servedModelName: string)

  /** How serve_realtime left off: still listening, returned, refused the client, or crashed. */
  datatype Outcome = Listening | Returned | Refused(code: string) | Crashed

  datatype Run = Run(accepted: seq<seq<int>>, sent: seq<Event>, outcome: Outcome)

  // ---- the specification: a session is determined by the frames it accepted ----

  function Samples(frames: seq<seq<int>>): nat
  {
    |Flatten(frames)|
  }

  /** The recogniser after some frames, None if the model raised on the way. */
  function Heard<S>(model: Recogniser<S>, initial: S, frames: seq<seq<int>>): Option<S>
  {
    if frames == [] then Some(initial)
    else
      var before := Heard(model, initial, frames[..|frames| - 1]);
      if before.None? then None else model.advance(frames[|frames| - 1], before.value)
  }

  /** The last text and language the client was told. */
  function Shown<S>(model: Recogniser<S>, initial: S, frames: seq<seq<int>>): (string, string)
  {
    var state := Heard(model, initial, frames);
    if frames == [] || state.None? then ("", "") else (model.text(state.value), model.language(state.value))
  }

  /** The events of a session that accepted these frames and is still listening. */
  function Trace<S>(model: Recogniser<S>, initial: S, frames: seq<seq<int>>): seq<Event>
  {
    if frames == [] then []
    else
      var before := frames[..|frames| - 1];
      Trace(model, initial, before)
      + [Ack(|before|, SamplesToMs(Samples(frames)))]
      + Changes(model, initial, frames)
  }

  function Changes<S>(model: Recogniser<S>, initial: S, frames: seq<seq<int>>): seq<Event>
    requires frames != []
  {
    var before, now := Shown(model, initial, frames[..|frames| - 1]), Shown(model, initial, frames);
    if now == before then []
    else [Partial(Revision(model, initial, frames), now.0, now.1, SamplesToMs(Samples(frames)))]
  }

  /** How often the shown text or language changed. */
  function Revision<S>(model: Recogniser<S>, initial: S, frames: seq<seq<int>>): nat
  {
    if frames == [] then 0
    else
      var before := frames[..|frames| - 1];
      Revision(model, initial, before) + if Shown(model, initial, frames) == Shown(model, initial, before) then 0 else 1
  }

  function TotalElapsed<S>(model: Recogniser<S>, calls: nat): int
  {
    if calls == 0 then 0 else TotalElapsed(model, calls - 1) + model.elapsedMs(calls - 1)
  }

  /** Whether a message is one more acceptable frame. */
  function Admit<S>(model: Recogniser<S>, initial: S, settings: Settings, frames: seq<seq<int>>, message: Message)
    : Result<seq<int>>
  {
    if !message.Binary? then Err("")
    else
      var decoded := DecodeAudioFrame(message.raw, |frames|);
      if decoded.Err? then decoded
      else if Samples(frames) + |decoded.value| > settings.maxAudioSeconds * SAMPLE_RATE then Err("speech_too_large")
      else decoded
  }

  function IntOf(field: Field, default: int): Option<int>
  {
    match field case Absent => Some(default) case Present(_, number, _) => number
  }

  predicate Is(field: Field, text: string)
  {
    field.Present? && field.text == Some(text)
  }

  predicate StopReason(field: Field)
  {
    field.Present? && field.text.Some? && field.text.value in STOP_REASONS
  }

  /** What ends a session that accepted `frames`, and with which last event. */
  function Verdict<S>(model: Recogniser<S>, state: S, settings: Settings, frames: seq<seq<int>>, revision: nat,
                      message: Message)
    : (Outcome, seq<Event>)
    requires !message.Binary?
  {
    match message
    case Expired => (Refused("speech_stream_session_expired"), [])
    case Disconnect => (Returned, [])
    case NoPayload => (Refused("speech_stream_control_invalid"), [])
    case Text(size, body) =>
      if size > MAX_START_BYTES || !body.Control? then (Refused("speech_stream_control_invalid"), [])
      else if Is(body.event, "cancel") then
        match IntOf(body.lastSequence, -1)
        case None => (Crashed, [])
        case Some(last) =>
          (if last == (if |frames| == 0 then 0 else |frames| - 1) then Returned
           else Refused("speech_stream_sequence_invalid"), [])
      else if !Is(body.event, "finish") then (Refused("speech_stream_control_invalid"), [])
      else if body.reason.Present? && !body.reason.hashable then (Crashed, [])
      else if !StopReason(body.reason) then (Refused("speech_stream_control_invalid"), [])
      else FinishVerdict(model, state, settings, frames, revision, body)
  }

  function FinishVerdict<S>(model: Recogniser<S>, state: S, settings: Settings, frames: seq<seq<int>>, revision: nat,
                            body: Body)
    : (Outcome, seq<Event>)
    requires body.Control? && StopReason(body.reason)
  {
    var last, captured := IntOf(body.lastSequence, -2), IntOf(body.capturedMs, -1);
    var ms := SamplesToMs(Samples(frames));
    if last.None? then (Crashed, [])
    else if last.value != |frames| - 1 then (Refused("speech_stream_sequence_invalid"), [])
    else if captured.None? then (Crashed, [])
    else if captured.value - ms > 10 || ms - captured.value > 10 then (Refused("speech_stream_duration_invalid"), [])
    else if ms < MIN_AUDIO_MS then (Refused("speech_too_short"), [])
    else match model.finish(state)
      case None => (Crashed, [])
      case Some(done) =>
        (Returned,
         [Final(revision + 1, model.text(done), model.language(done), ms,
                TotalElapsed(model, |frames| + 1), body.reason.text.value, settings.servedModelName)])
  }

  /** The next frame, if the message carries one and the model takes it. */
  function NextFrame<S>(model: Recogniser<S>, initial: S, settings: Settings, frames: seq<seq<int>>, message: Message)
    : Option<seq<int>>
  {
    var pcm := Admit(model, initial, settings, frames, message);
    if pcm.Err? || Heard(model, initial, frames + [pcm.value]).None? then None else Some(pcm.value)
  }

  /** Frames are accepted one by one until a message carries none. */
  function Accepted<S>(model: Recogniser<S>, initial: S, settings: Settings, frames: seq<seq<int>>,
                       messages: seq<Message>)
    : (accepted: seq<seq<int>>)
    ensures frames <= accepted && |accepted| <= |frames| + |messages|
    decreases messages
  {
    if messages == [] then frames
    else match NextFrame(model, initial, settings, frames, messages[0])
      case None => frames
      case Some(pcm) => Accepted(model, initial, settings, frames + [pcm], messages[1..])
  }

  function End<S>(model: Recogniser<S>, initial: S, settings: Settings, frames: seq<seq<int>>, message: Message)
    : (Outcome, seq<Event>)
  {
    if message.Binary? then
      var pcm := Admit(model, initial, settings, frames, message);
      (if pcm.Err? then Refused(pcm.error) else Crashed, [])
    else
      var state := Heard(model, initial, frames);
      if state.None? then (Crashed, [])
      else Verdict(model, state.value, settings, frames, Revision(model, initial, frames), message)
  }

  /** The whole run: the accepted frames, their trace, and what the first other message ends. */
  function Serve<S>(model: Recogniser<S>, initial: S, settings: Settings, messages: seq<Message>): Run
  {
    var frames := Accepted(model, initial, settings, [], messages);
    var trace := Trace(model, initial, frames);
    if |frames| == |messages| then Run(frames, trace, Listening)
    else
      var end := End(model, initial, settings, frames, messages[|frames|]);
      Run(frames, trace + end.1, end.0)
  }

  // ---- the loop ----

  /** The local variables of serve_realtime, apart from the recogniser state. */
  datatype Locals = Locals(expectedSequence: nat, totalSamples: nat, revision: nat,
                           priorText: string, priorLanguage: string, inferenceMs: int)

  ghost predicate Tracks<S>(model: Recogniser<S>, initial: S, frames: seq<seq<int>>, state: S, locals: Locals,
                            sent: seq<Event>)
  {
    && locals.expectedSequence == |frames|
    && locals.totalSamples == Samples(frames)
    && locals.revision == Revision(model, initial, frames)
    && (locals.priorText, locals.priorLanguage) == Shown(model, initial, frames)
    && locals.inferenceMs == TotalElapsed(model, |frames|)
    && Heard(model, initial, frames) == Some(state)
    && sent == Trace(model, initial, frames)
  }

  /** The message loop. When the messages run out it is still listening. */
  method ServeRealtime<S>(model: Recogniser<S>, initial: S, settings: Settings, messages: seq<Message>)
    returns (run: Run)
    ensures run == Serve(model, initial, settings, messages)
  {
    var state := initial;
    var locals := Locals(0, 0, 0, "", "", 0);
    var sent: seq<Event> := [];
    var accepted: seq<seq<int>> := [];
    while |accepted| < |messages|
      invariant Tracks(model, initial, accepted, state, locals, sent)
      invariant Follows(model, initial, settings, accepted, messages)
      decreases |messages| - |accepted|
    {
      var message := messages[|accepted|];
      LoopStep(model, initial, settings, accepted, messages);
      if message.Binary? {
        var failure, pcm;
        failure, pcm, state, locals, sent :=
          HandleFrame(model, initial, settings, accepted, state, locals, sent, message.raw);
        if failure.Some? {
          return Run(accepted, sent, failure.value);
        }
        accepted := accepted + [pcm];
      } else {
        var end := Verdict(model, state, settings, accepted, locals.revision, message);
        return Run(accepted, sent + end.1, end.0);
      }
    }
    LoopStep(model, initial, settings, accepted, messages);
    return Run(accepted, sent, Listening);
  }

  /** The branch of the loop for a binary message. */
  method HandleFrame<S>(model: Recogniser<S>, ghost initial: S, settings: Settings, ghost frames: seq<seq<int>>,
                        state: S, locals: Locals, sent: seq<Event>, raw: seq<byte>)
    returns (failure: Option<Outcome>, pcm: seq<int>, state': S, locals': Locals, sent': seq<Event>)
    requires Tracks(model, initial, frames, state, locals, sent)
    ensures match NextFrame(model, initial, settings, frames, Binary(raw))
            case None => failure == Some(End(model, initial, settings, frames, Binary(raw)).0) && sent' == sent
            case Some(frame) => failure == None && pcm == frame
                                && Tracks(model, initial, frames + [pcm], state', locals', sent')
  {
    pcm, state', locals', sent' := [], state, locals, sent;
    var decoded := DecodeAudioFrame(raw, locals.expectedSequence);
    if decoded.Err? {
      failure := Some(Refused(decoded.error));
      return;
    }
    pcm := decoded.value;
    if locals.totalSamples + |pcm| > settings.maxAudioSeconds * SAMPLE_RATE {
      failure := Some(Refused("speech_too_large"));
      return;
    }
    FrameStep(model, initial, frames, pcm);
    var advanced := model.advance(pcm, state);
    if advanced.None? {
      failure := Some(Crashed);
      return;
    }
    failure := None;
    state' := advanced.value;
    locals' := locals.(inferenceMs := locals.inferenceMs + model.elapsedMs(locals.expectedSequence),
                       totalSamples := locals.totalSamples + |pcm|,
                       expectedSequence := locals.expectedSequence + 1);
    sent' := sent' + [Ack(locals.expectedSequence, SamplesToMs(locals'.totalSamples))];
    var text, language := model.text(state'), model.language(state');
    if text != locals.priorText || language != locals.priorLanguage {
      locals' := locals'.(revision := locals.revision + 1, priorText := text, priorLanguage := language);
      sent' := sent' + [Partial(locals'.revision, text, language, SamplesToMs(locals'.totalSamples))];
    }
  }

  ghost predicate Follows<S>(model: Recogniser<S>, initial: S, settings: Settings, frames: seq<seq<int>>,
                             messages: seq<Message>)
  {
    |frames| <= |messages|
    && Accepted(model, initial, settings, [], messages)
        == Accepted(model, initial, settings, frames, messages[|frames|..])
  }

  /** Where the loop stands when `frames` have been accepted: on to the next frame, or stopped. */
  lemma LoopStep<S>(model: Recogniser<S>, initial: S, settings: Settings, frames: seq<seq<int>>, messages: seq<Message>)
    requires Follows(model, initial, settings, frames, messages)
    ensures |frames| == |messages| ==>
              Serve(model, initial, settings, messages) == Run(frames, Trace(model, initial, frames), Listening)
    ensures |frames| < |messages| ==>
              match NextFrame(model, initial, settings, frames, messages[|frames|])
              case None =>
                var end := End(model, initial, settings, frames, messages[|frames|]);
                Serve(model, initial, settings, messages) == Run(frames, Trace(model, initial, frames) + end.1, end.0)
              case Some(pcm) => Follows(model, initial, settings, frames + [pcm], messages)
  {
    if |frames| < |messages| {
      assert messages[|frames|..][1..] == messages[|frames| + 1..];
    }
  }

  lemma FrameStep<S>(model: Recogniser<S>, initial: S, frames: seq<seq<int>>, pcm: seq<int>)
    requires Heard(model, initial, frames).Some?
    ensures var more := frames + [pcm];
            var advanced := model.advance(pcm, Heard(model, initial, frames).value);
            && Heard(model, initial, more) == advanced
            && Samples(more) == Samples(frames) + |pcm|
            && (advanced.Some? ==>
                  var now := (model.text(advanced.value), model.language(advanced.value));
                  var old_ := Shown(model, initial, frames);
                  && Shown(model, initial, more) == now
                  && Revision(model, initial, more) == Revision(model, initial, frames) + (if now == old_ then 0 else 1)
                  && Trace(model, initial, more)
                     == Trace(model, initial, frames) + [Ack(|frames|, SamplesToMs(Samples(more)))]
                        + if now == old_ then []
                          else [Partial(Revision(model, initial, more), now.0, now.1, SamplesToMs(Samples(more)))])
  {
    assert (frames + [pcm])[..|frames|] == frames;
    FlattenSnoc(frames, pcm);
  }
}
