/** Bytes of the fixed-size elements that the services store in rings, least significant byte first. */
module Codec {
  import opened RingBytes

  type U16 = x: int | 0 <= x < 0x1_0000
  type S16 = x: int | -0x8000 <= x < 0x8000

  function EncodeU16(x: U16): (bytes: seq<Byte>)
    ensures |bytes| == 2
  {
    [x % 256, x / 256]
  }

  function DecodeU16(bytes: seq<Byte>): U16
    requires |bytes| == 2
  {
    var low: int, high: int := bytes[0], bytes[1];
    low + 256 * high
  }

  lemma U16RoundTrip(x: U16)
    ensures DecodeU16(EncodeU16(x)) == x
  {
  }

  /** One captured FSI interrupt. */
  datatype Record = Record(channel: U16, frameIndex: U16, irqTag: U16, status: U16)

  const RECORD_SIZE: nat := 8

  function EncodeRecord(r: Record): (bytes: seq<Byte>)
    ensures |bytes| == RECORD_SIZE
  {
    EncodeU16(r.channel) + EncodeU16(r.frameIndex) + EncodeU16(r.irqTag) + EncodeU16(r.status)
  }

  function DecodeRecord(bytes: seq<Byte>): Record
    requires |bytes| == RECORD_SIZE
  {
    Record(DecodeU16(bytes[0..2]), DecodeU16(bytes[2..4]), DecodeU16(bytes[4..6]), DecodeU16(bytes[6..8]))
  }

  lemma RecordRoundTrip(r: Record)
    ensures DecodeRecord(EncodeRecord(r)) == r
  {
    var bytes := EncodeRecord(r);
    assert bytes[0..2] == EncodeU16(r.channel);
    assert bytes[2..4] == EncodeU16(r.frameIndex);
    assert bytes[4..6] == EncodeU16(r.irqTag);
    assert bytes[6..8] == EncodeU16(r.status);
  }

  /** One motor feedback sample. */
  datatype Feedback = Feedback(speedRpm: U16, currentMa: S16)

  const FEEDBACK_SIZE: nat := 4

  function AsU16(x: S16): U16 {
    if x < 0 then x + 0x1_0000 else x
  }

  function AsS16(x: U16): S16 {
    if x < 0x8000 then x else x - 0x1_0000
  }

  function EncodeFeedback(f: Feedback): (bytes: seq<Byte>)
    ensures |bytes| == FEEDBACK_SIZE
  {
    EncodeU16(f.speedRpm) + EncodeU16(AsU16(f.currentMa))
  }

  function DecodeFeedback(bytes: seq<Byte>): Feedback
    requires |bytes| == FEEDBACK_SIZE
  {
    Feedback(DecodeU16(bytes[0..2]), AsS16(DecodeU16(bytes[2..4])))
  }

  lemma FeedbackRoundTrip(f: Feedback)
    ensures DecodeFeedback(EncodeFeedback(f)) == f
  {
    var bytes := EncodeFeedback(f);
    assert bytes[0..2] == EncodeU16(f.speedRpm);
    assert bytes[2..4] == EncodeU16(AsU16(f.currentMa));
  }
}
