// What a link frame is, how it is printed and how the receiver judges what it unstuffs.
module Frames {
  import opened Bytes
  import Cobs
  import Crc16
  import Division
  import W = Words

  const PROTOCOL_VERSION: byte := 3
  const MAX_PAYLOAD := 192
  const MAX_RAW_FRAME := 200
  const MAX_WIRE_FRAME := 202

  type Payload = p: seq<byte> | |p| <= MAX_PAYLOAD

  datatype Frame = Frame(kind: byte, flags: byte, sequence: u16, payload: Payload)

  const RADAR_BEGIN: byte := 18
  const RADAR_CHUNK: byte := 19
  const RADAR_END: byte := 20
  const RADAR_ERROR: byte := 21
  const RADAR_ACK: byte := 22
  const LIBRARY_REQUEST: byte := 23
  const LIBRARY_BEGIN: byte := 24
  const LIBRARY_CHUNK: byte := 25
  const LIBRARY_END: byte := 26
  const LIBRARY_ACK: byte := 28
  const MEDIA_TEXT: byte := 11
  const MEDIA_COVER_URL_BEGIN: byte := 46
  const MEDIA_COVER_URL_CHUNK: byte := 47
  const MEDIA_COVER_URL_END: byte := 48
  const MEDIA_COVER_URL_ACK: byte := 49
  const MEDIA_PRESENTATION_BEGIN: byte := 58
  const MEDIA_PRESENTATION_COMMIT: byte := 59

  /** is_control_frame_ */
  predicate IsControl(f: Frame) {
    f.kind !in [RADAR_BEGIN, RADAR_CHUNK, RADAR_END, RADAR_ACK,
                LIBRARY_BEGIN, LIBRARY_CHUNK, LIBRARY_END, LIBRARY_ACK]
  }

  /** What the checksum covers. */
  function Body(f: Frame): seq<byte> {
    [PROTOCOL_VERSION, f.kind, f.flags] + U16(f.sequence) + [|f.payload|] + f.payload
  }

  function Raw(f: Frame): seq<byte> {
    Body(f) + U16(Crc16.Checksum(Body(f)))
  }

  /** What send hands to the UART. */
  function Image(f: Frame): seq<byte> {
    Cobs.Encode(Raw(f)) + [0]
  }

  datatype Verdict = Accepted(frame: Frame) | DecodeError | VersionError | CrcError

  /** The checks of decode_received_frame_, in its order. */
  function Parse(raw: seq<byte>): Verdict {
    if |raw| < 8 then DecodeError
    else if raw[0] != PROTOCOL_VERSION then VersionError
    else if raw[5] > MAX_PAYLOAD || |raw| != 8 + raw[5] then DecodeError
    else if ReadU16(raw, 6 + raw[5]) != Crc16.Checksum(raw[..6 + raw[5]]) then CrcError
    else Accepted(Frame(raw[1], raw[2], ReadU16(raw, 3), raw[6..6 + raw[5]]))
  }

  /** Judging one delimited piece of the wire. */
  function Receive(piece: seq<byte>): Verdict {
    var raw := Cobs.Decode(piece);
    if raw.Some? && |raw.value| <= MAX_RAW_FRAME then Parse(raw.value) else DecodeError
  }

  lemma BodyLayout(f: Frame)
    ensures |Body(f)| == 6 + |f.payload| && Body(f)[6..] == f.payload
    ensures Body(f)[0] == PROTOCOL_VERSION && Body(f)[1] == f.kind && Body(f)[2] == f.flags
    ensures Body(f)[3..5] == U16(f.sequence) && Body(f)[5] == |f.payload|
  {
  }

  lemma ParseRaw(f: Frame)
    ensures Parse(Raw(f)) == Accepted(f)
  {
    var raw, n := Raw(f), 6 + |f.payload|;
    BodyLayout(f);
    assert raw[..n] == Body(f) && raw[n..n + 2] == U16(Crc16.Checksum(Body(f)));
    ReadWriteU16(raw, n, Crc16.Checksum(Body(f)));
    assert raw[3..5] == Body(f)[3..5];
    ReadWriteU16(raw, 3, f.sequence);
    assert raw[6..n] == Body(f)[6..];
  }

  lemma RawParse(raw: seq<byte>)
    requires Parse(raw).Accepted?
    ensures Raw(Parse(raw).frame) == raw
  {
    var f, n := Parse(raw).frame, 6 + raw[5];
    WriteReadU16(raw, 3);
    WriteReadU16(raw, n);
    assert Body(f) == raw[..n];
    assert raw == raw[..n] + raw[n..n + 2];
  }

  lemma ImageFits(f: Frame)
    ensures |Image(f)| == |f.payload| + 10 <= MAX_WIRE_FRAME
    ensures Cobs.ZeroFree(Cobs.Encode(Raw(f)))
  {
    BodyLayout(f);
    Cobs.EncodedLength(Raw(f));
    Cobs.NoFullBlocks(Raw(f));
    Cobs.EncodeShape(Raw(f));
  }

  /** A raw string of the right version and length. */
  predicate WellFormed(raw: seq<byte>) {
    |raw| >= 8 && raw[0] == 3 && raw[5] <= 192 && |raw| == 8 + raw[5]
  }

  /** For which reason a raw string is refused. */
  lemma RefusedFor(raw: seq<byte>)
    ensures Parse(raw).VersionError? <==> |raw| >= 8 && raw[0] != 3
    ensures Parse(raw).CrcError? <==> WellFormed(raw) && ReadU16(raw, 6 + raw[5]) != Crc16.Checksum(raw[..6 + raw[5]])
    ensures Parse(raw).DecodeError? <==> |raw| < 8 || (raw[0] == 3 && !WellFormed(raw))
  {
  }

  /** What send emits, the receiver accepts as the same frame. */
  lemma ReceiveImage(f: Frame)
    ensures Receive(Cobs.Encode(Raw(f))) == Accepted(f)
  {
    BodyLayout(f);
    Cobs.DecodeEncode(Raw(f));
    ParseRaw(f);
  }

  /** Whatever the receiver accepts from a piece it can hold is the one image of the frame it reports. */
  lemma AcceptedOnlyImage(piece: seq<byte>)
    requires |piece| <= MAX_WIRE_FRAME && Cobs.ZeroFree(piece) && Receive(piece).Accepted?
    ensures piece == Cobs.Encode(Raw(Receive(piece).frame))
  {
    RawParse(Cobs.Decode(piece).value);
    Cobs.ShortStringsAreCanonical(piece);
  }

  lemma AcceptedChecksum(body: seq<byte>, crc: u16)
    requires Parse(body + U16(crc)).Accepted?
    ensures Crc16.Checksum(body) == crc
  {
    var raw, n := body + U16(crc), |body|;
    assert raw[..n] == body && raw[n..n + 2] == U16(crc);
    ReadWriteU16(raw, n, crc);
  }

  /** A burst of up to sixteen wrong bits in what the checksum covers is never accepted. */
  lemma BurstRejected(f: Frame, body: seq<byte>, start: nat)
    requires |body| == |Body(f)| && body != Body(f)
    requires forall i :: 0 <= i < 8 * |body| && !(start <= i < start + 16) ==>
               Crc16.MessageBits(body)[i] == Crc16.MessageBits(Body(f))[i]
    ensures !Parse(body + U16(Crc16.Checksum(Body(f)))).Accepted?
  {
    Crc16.BurstDetected(body, Body(f), start);
    if Parse(body + U16(Crc16.Checksum(Body(f)))).Accepted? {
      AcceptedChecksum(body, Crc16.Checksum(Body(f)));
    }
  }

  /** Nor is an odd number of wrong bits anywhere in it. */
  lemma OddErrorRejected(f: Frame, body: seq<byte>)
    requires |body| == |Body(f)|
    requires Division.Odd(W.Xor(Crc16.MessageBits(body), Crc16.MessageBits(Body(f))))
    ensures !Parse(body + U16(Crc16.Checksum(Body(f)))).Accepted?
  {
    Crc16.OddErrorDetected(body, Body(f));
    if Parse(body + U16(Crc16.Checksum(Body(f)))).Accepted? {
      AcceptedChecksum(body, Crc16.Checksum(Body(f)));
    }
  }

  /** Errors in the checksum field alone are always noticed. */
  lemma ChecksumErrorRejected(f: Frame, crc: u16)
    requires crc != Crc16.Checksum(Body(f))
    ensures !Parse(Body(f) + U16(crc)).Accepted?
  {
    if Parse(Body(f) + U16(crc)).Accepted? {
      AcceptedChecksum(Body(f), crc);
    }
  }

  lemma ParseParts(body: seq<byte>, crc: u16)
    requires |body| >= 6 && body[0] == PROTOCOL_VERSION && |body| - 6 == body[5] && body[5] <= MAX_PAYLOAD
    ensures Parse(body + U16(crc)).Accepted? <==> Crc16.Checksum(body) == crc
    ensures Parse(body + U16(crc)).CrcError? <==> Crc16.Checksum(body) != crc
  {
    var raw, n := body + U16(crc), |body|;
    assert raw[..n] == body && raw[n..n + 2] == U16(crc);
    ReadWriteU16(raw, n, crc);
  }

  /** Errors in the message and in the checksum field together go unnoticed exactly if the
      error of the field is what the error of the message leaves in the register. */
  lemma ErrorAcceptedIff(f: Frame, body: seq<byte>, crc: u16)
    requires |body| == |Body(f)| && body[0] == PROTOCOL_VERSION && body[5] == |f.payload|
    ensures Parse(body + U16(crc)).Accepted?
       <==> Crc16.Word(crc)
            == W.Xor(Crc16.Word(Crc16.Checksum(Body(f))),
                     Crc16.Left(W.Xor(Crc16.MessageBits(body), Crc16.MessageBits(Body(f)))))
  {
    BodyLayout(f);
    ParseParts(body, crc);
    Crc16.PassesIff(body, Body(f), crc);
  }

  /** And they can: the low byte of the checksum travels right behind the message, and a
      burst of sixteen bits across that border turns any frame with a payload into another. */
  lemma StraddlingBurstAccepted(f: Frame) returns (raw: seq<byte>, g: Frame)
    requires f.payload != []
    ensures |raw| == |Raw(f)| && Parse(raw) == Accepted(g) && g != f
    ensures forall i :: 0 <= i < |raw| && i != |raw| - 2 && i != |raw| - 3 ==> raw[i] == Raw(f)[i]
  {
    BodyLayout(f);
    var body := Body(f);
    var n := |body| - 1;
    var front, x := body[..n], body[n];
    assert front + [x] == body;
    var crc: int := Crc16.Checksum(body);
    var high, low := crc / 256, crc % 256;
    Crc16.StraddlingBurstPasses(front, x, high, low);
    Crc16.FlipBits(x, 0x89);
    var wrong := front + [Crc16.Flip(x, 0x89)];
    raw := wrong + U16(256 * high + Crc16.Flip(low, 0xA1));
    ParseParts(wrong, 256 * high + Crc16.Flip(low, 0xA1));
    g := Parse(raw).frame;
    assert g.payload[|f.payload| - 1] == raw[n] && f.payload[|f.payload| - 1] == Body(f)[6..][|f.payload| - 1];
    assert Raw(f)[n + 2] == high && raw[n + 2] == high;
  }
}
