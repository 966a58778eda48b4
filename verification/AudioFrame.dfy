/** The binary audio frame of services/asr-runtime/runtime.py: a big-endian sequence number
    and sample count of four bytes each, then little-endian signed 16-bit samples. */
module AudioFrame {
  import opened Outcomes

  const FRAME_SAMPLES := 1_600

  newtype byte = x: int | 0 <= x < 256

  predicate IsPCM16(sample: int)
  {
    -0x8000 <= sample < 0x8000
  }

  predicate IsFrame(pcm: seq<int>)
  {
    0 < |pcm| <= FRAME_SAMPLES && forall i :: 0 <= i < |pcm| ==> IsPCM16(pcm[i])
  }

  // ---- decoding ----

  function BigEndian(raw: seq<byte>): nat
    requires |raw| == 4
  {
    ((raw[0] as int * 0x100 + raw[1] as int) * 0x100 + raw[2] as int) * 0x100 + raw[3] as int
  }

  function LittleEndianSigned(low: byte, high: byte): int
  {
    var unsigned := low as int + high as int * 0x100;
    if unsigned < 0x8000 then unsigned else unsigned - 0x1_0000
  }

  function DecodeSamples(raw: seq<byte>): (pcm: seq<int>)
    requires |raw| % 2 == 0
    ensures |pcm| == |raw| / 2
  {
    seq(|raw| / 2, i requires 0 <= i < |raw| / 2 => LittleEndianSigned(raw[2 * i], raw[2 * i + 1]))
  }

  function DecodeAudioFrame(raw: seq<byte>, expectedSequence: nat): Result<seq<int>>
  {
    if |raw| < 8 then Err("speech_stream_frame_invalid")
    else
      var sequence, sampleCount := BigEndian(raw[..4]), BigEndian(raw[4..8]);
      if sequence != expectedSequence then Err("speech_stream_sequence_invalid")
      else if sampleCount <= 0 || sampleCount > FRAME_SAMPLES || |raw| != 8 + sampleCount * 2 then
        Err("speech_stream_frame_invalid")
      else Ok(DecodeSamples(raw[8..]))
  }

  /** Byte for byte: which raw messages are frames, what their samples are, and which error the
      others get. A sample's two bytes name it modulo 65536. */
  lemma DecodesExactlyWhen(raw: seq<byte>, expectedSequence: nat)
    ensures |raw| < 8 ==> DecodeAudioFrame(raw, expectedSequence) == Err("speech_stream_frame_invalid")
    ensures |raw| >= 8 ==>
            var sequence := raw[0] as int * 16777216 + raw[1] as int * 65536 + raw[2] as int * 256 + raw[3] as int;
            var count := raw[4] as int * 16777216 + raw[5] as int * 65536 + raw[6] as int * 256 + raw[7] as int;
            var r := DecodeAudioFrame(raw, expectedSequence);
            if sequence != expectedSequence then r == Err("speech_stream_sequence_invalid")
            else if !(1 <= count <= 1600 && |raw| == 8 + 2 * count) then r == Err("speech_stream_frame_invalid")
            else
              && r.Ok? && |r.value| == count
              && forall i :: 0 <= i < count ==>
                   var bytes := raw[8 + 2 * i] as int + raw[9 + 2 * i] as int * 256;
                   -32768 <= r.value[i] <= 32767 && (r.value[i] == bytes || r.value[i] == bytes - 65536)
  {
    if DecodeAudioFrame(raw, expectedSequence).Ok? {
      var rest := raw[8..];
      forall i | 0 <= i < |rest| / 2
        ensures DecodeSamples(rest)[i] == LittleEndianSigned(raw[8 + 2 * i], raw[9 + 2 * i])
      {
        assert rest[2 * i] == raw[8 + 2 * i] && rest[2 * i + 1] == raw[9 + 2 * i];
      }
    }
  }

  // ---- what a client sends ----

  function Bytes4(n: nat): (raw: seq<byte>)
    requires n < 0x1_0000_0000
    ensures |raw| == 4
  {
    var upper := n / 0x100;
    var top := upper / 0x100;
    [(top / 0x100) as byte, (top % 0x100) as byte, (upper % 0x100) as byte, (n % 0x100) as byte]
  }

  function SampleByte(sample: int, high: bool): byte
    requires IsPCM16(sample)
  {
    var unsigned := if sample < 0 then sample + 0x1_0000 else sample;
    if high then (unsigned / 0x100) as byte else (unsigned % 0x100) as byte
  }

  function EncodeSamples(pcm: seq<int>): (raw: seq<byte>)
    requires forall i :: 0 <= i < |pcm| ==> IsPCM16(pcm[i])
    ensures |raw| == 2 * |pcm|
  {
    seq(2 * |pcm|, j requires 0 <= j < 2 * |pcm| => SampleByte(pcm[j / 2], j % 2 == 1))
  }

  function EncodeFrame(sequence: nat, pcm: seq<int>): seq<byte>
    requires sequence < 0x1_0000_0000 && IsFrame(pcm)
  {
    Bytes4(sequence) + Bytes4(|pcm|) + EncodeSamples(pcm)
  }

  // ---- round trips ----

  lemma Bytes4RoundTrip(n: nat)
    requires n < 0x1_0000_0000
    ensures BigEndian(Bytes4(n)) == n
  {
  }

  lemma BigEndianRoundTrip(raw: seq<byte>)
    requires |raw| == 4
    ensures BigEndian(raw) < 0x1_0000_0000 && Bytes4(BigEndian(raw)) == raw
  {
    var top := raw[0] as int * 0x100 + raw[1] as int;
    var upper := top * 0x100 + raw[2] as int;
    assert upper / 0x100 == top && BigEndian(raw) / 0x100 == upper;
  }

  lemma SampleRoundTrip(sample: int)
    requires IsPCM16(sample)
    ensures LittleEndianSigned(SampleByte(sample, false), SampleByte(sample, true)) == sample
  {
  }

  lemma SampleBytesRoundTrip(low: byte, high: byte)
    ensures var sample := LittleEndianSigned(low, high);
            IsPCM16(sample) && SampleByte(sample, false) == low && SampleByte(sample, true) == high
  {
  }

  lemma SamplesRoundTrip(pcm: seq<int>)
    requires forall i :: 0 <= i < |pcm| ==> IsPCM16(pcm[i])
    ensures DecodeSamples(EncodeSamples(pcm)) == pcm
  {
    hide LittleEndianSigned, SampleByte, EncodeSamples;
    forall i | 0 <= i < |pcm|
      ensures DecodeSamples(EncodeSamples(pcm))[i] == pcm[i]
    {
      SampleRoundTrip(pcm[i]);
      EncodedAt(pcm, i);
    }
  }

  lemma EncodedAt(pcm: seq<int>, i: nat)
    requires (forall j :: 0 <= j < |pcm| ==> IsPCM16(pcm[j])) && i < |pcm|
    ensures EncodeSamples(pcm)[2 * i] == SampleByte(pcm[i], false)
    ensures EncodeSamples(pcm)[2 * i + 1] == SampleByte(pcm[i], true)
  {
    hide SampleByte;
    assert (2 * i) / 2 == i == (2 * i + 1) / 2;
  }

  /** A decoded frame is the sender's frame. */
  lemma DecodeEncoded(sequence: nat, pcm: seq<int>)
    requires sequence < 0x1_0000_0000 && IsFrame(pcm)
    ensures DecodeAudioFrame(EncodeFrame(sequence, pcm), sequence) == Ok(pcm)
  {
    var raw := EncodeFrame(sequence, pcm);
    Bytes4RoundTrip(sequence);
    Bytes4RoundTrip(|pcm|);
    assert raw[..4] == Bytes4(sequence) && raw[4..8] == Bytes4(|pcm|);
    assert raw[8..] == EncodeSamples(pcm);
    SamplesRoundTrip(pcm);
  }

  /** Only the sender's own encoding, numbered as expected, decodes to a frame. */
  lemma EncodeDecoded(raw: seq<byte>, expectedSequence: nat)
    requires DecodeAudioFrame(raw, expectedSequence).Ok?
    ensures expectedSequence < 0x1_0000_0000 && IsFrame(DecodeAudioFrame(raw, expectedSequence).value)
    ensures raw == EncodeFrame(expectedSequence, DecodeAudioFrame(raw, expectedSequence).value)
  {
    hide BigEndian, Bytes4, DecodeSamples, EncodeSamples;
    BigEndianRoundTrip(raw[..4]);
    BigEndianRoundTrip(raw[4..8]);
    SamplesUnique(raw[8..]);
    assert raw == raw[..4] + raw[4..8] + raw[8..];
  }

  lemma SamplesUnique(raw: seq<byte>)
    requires |raw| % 2 == 0
    ensures forall i :: 0 <= i < |raw| / 2 ==> IsPCM16(DecodeSamples(raw)[i])
    ensures EncodeSamples(DecodeSamples(raw)) == raw
  {
    var pcm := DecodeSamples(raw);
    forall i | 0 <= i < |pcm|
      ensures IsPCM16(pcm[i]) && SampleByte(pcm[i], false) == raw[2 * i] && SampleByte(pcm[i], true) == raw[2 * i + 1]
    {
      SampleBytesRoundTrip(raw[2 * i], raw[2 * i + 1]);
    }
    forall j | 0 <= j < |raw|
      ensures EncodeSamples(pcm)[j] == raw[j]
    {
      assert j == 2 * (j / 2) + j % 2;
    }
  }
}
