// The link object: receive buffer, frame ring, statistics and transmit counter,
// updated in place and proved against the receiver and frame specifications.
module LinkLayer {
  import opened Bytes
  import opened Frames
  import opened FrameQueues
  import opened PriorityQueue
  import opened Receiver
  import opened Wrappers
  import Cobs
  import Crc16

  class Link {
    const rxWire: array<byte>
    const queue: FrameQueue
    var rxLength: nat
    var rxSynchronized: bool
    var connected: bool
    var txSequence: u16
    var stats: Stats
    /** Everything handed to the UART so far. */
    var written: seq<byte>

    ghost predicate Valid()
      reads this, rxWire, queue
    {
      && queue.Valid()
      && rxWire.Length == MAX_WIRE_FRAME && rxLength <= MAX_WIRE_FRAME
      && Cobs.ZeroFree(rxWire[..rxLength])
      && (!rxSynchronized ==> rxLength == 0)
    }

    ghost function Abs(): (s: Inbox)
      requires Valid()
      reads this, rxWire, queue, queue.slots
      ensures Receiver.Valid(s)
    {
      Inbox(rxSynchronized, rxWire[..rxLength], queue.Contents(), stats)
    }

    constructor ()
      ensures Valid() && !connected && txSequence == 0 && written == []
      ensures Abs() == Inbox(false, [], [], Stats(0, 0, 0, 0, 0, 0))
      ensures fresh(rxWire) && fresh(queue) && fresh(queue.slots)
    {
      rxWire := new byte[MAX_WIRE_FRAME](_ => 0);
      queue := new FrameQueue();
      rxLength, rxSynchronized, connected, txSequence := 0, false, false, 0;
      stats, written := Stats(0, 0, 0, 0, 0, 0), [];
    }

    /** setup: a partial frame may be on the wire already. */
    method Setup()
      requires Valid()
      modifies this`connected, this`rxSynchronized, this`rxLength
      ensures Valid() && connected
      ensures Abs() == old(Abs()).(synchronized := false, pending := [])
    {
      connected, rxSynchronized, rxLength := true, false, 0;
    }

    /** poll, on the bytes the UART holds at this call. */
    method Poll(incoming: seq<byte>)
      requires Valid()
      modifies this`rxLength, this`rxSynchronized, this`stats, rxWire, queue, queue.slots
      ensures Valid()
      ensures Abs() == if connected then OnBytes(old(Abs()), incoming) else old(Abs())
    {
      if !connected {
        return;
      }
      ghost var start := Abs();
      assert incoming[0..] == incoming;
      for i := 0 to |incoming|
        invariant Valid()
        invariant OnBytes(start, incoming) == OnBytes(Abs(), incoming[i..])
      {
        assert incoming[i..][0] == incoming[i] && incoming[i..][1..] == incoming[i + 1..];
        PollByte(incoming[i]);
      }
    }

    /** One round of the poll loop. */
    method PollByte(b: byte)
      requires Valid()
      modifies this`rxLength, this`rxSynchronized, this`stats, rxWire, queue, queue.slots
      ensures Valid() && Abs() == OnByte(old(Abs()), b)
    {
      if !rxSynchronized {
        if b == 0 {
          rxSynchronized := true;
        }
        return;
      }
      if b == 0 {
        if rxLength > 0 {
          DecodeReceivedFrame();
        }
        rxLength := 0;
        return;
      }
      if rxLength >= rxWire.Length {
        stats := stats.(decodeErrors := stats.decodeErrors + 1);
        rxLength := 0;
        return;
      }
      ghost var before := rxWire[..rxLength];
      rxWire[rxLength] := b;
      rxLength := rxLength + 1;
      assert rxWire[..rxLength] == before + [b];
    }

    /** decode_received_frame_ */
    method DecodeReceivedFrame()
      requires Valid()
      modifies this`stats, queue, queue.slots
      ensures Valid() && Abs() == Judge(old(Abs()), old(Abs().pending))
    {
      var verdict := Unstuff(rxWire, rxLength, rxWire[..rxLength]);
      RecordVerdict(verdict);
    }

    static method Unstuff(wire: array<byte>, length: nat, ghost piece: seq<byte>) returns (verdict: Verdict)
      requires length <= wire.Length && piece == wire[..length]
      ensures verdict == Receive(piece)
    {
      var raw := new byte[MAX_RAW_FRAME](_ => 0);
      assert wire[..length] == piece;
      var rawLength := Cobs.CobsDecode(wire, length, raw, raw.Length);
      verdict := Examine(raw, rawLength, piece);
    }

    method RecordVerdict(verdict: Verdict)
      requires Valid()
      modifies this`stats, queue, queue.slots
      ensures Valid() && Abs() == Record(old(Abs()), verdict)
    {
      match verdict
      case DecodeError => stats := stats.(decodeErrors := stats.decodeErrors + 1);
      case VersionError => stats := stats.(versionErrors := stats.versionErrors + 1);
      case CrcError => stats := stats.(crcErrors := stats.crcErrors + 1);
      case Accepted(frame) =>
        var queued := queue.Enqueue(frame);
        if queued {
          stats := stats.(received := stats.received + 1);
        } else {
          stats := stats.(queueOverflows := stats.queueOverflows + 1);
        }
    }

    /** The header, length and checksum tests. */
    static method Examine(raw: array<byte>, rawLength: nat, ghost piece: seq<byte>) returns (verdict: Verdict)
      requires raw.Length == MAX_RAW_FRAME
      requires var d := Cobs.Decode(piece);
               if d.Some? && |d.value| <= MAX_RAW_FRAME
               then rawLength == |d.value| && raw[..rawLength] == d.value
               else rawLength == 0
      ensures verdict == Receive(piece)
    {
      if rawLength < 8 {
        return DecodeError;
      }
      ghost var bytes := raw[..rawLength];
      if raw[0] != PROTOCOL_VERSION {
        return VersionError;
      }
      var payloadLength := raw[5];
      if payloadLength > MAX_PAYLOAD || rawLength != 8 + payloadLength {
        return DecodeError;
      }
      var n := 6 + payloadLength;
      assert bytes[..n] == raw[..n];
      var crc := Crc16.ComputeChecksum(raw, n);
      var low: int, high: int := raw[n], raw[n + 1];
      if low + 256 * high != crc {
        return CrcError;
      }
      assert raw[6..n] == bytes[6..n];
      var seqLow: int, seqHigh: int := raw[3], raw[4];
      return Accepted(Frame(raw[1], raw[2], seqLow + 256 * seqHigh, raw[6..n]));
    }

    /** send: succeeds exactly when there is a UART and the payload is not too long. */
    method Send(kind: byte, payload: seq<byte>, flags: byte) returns (ok: bool)
      requires Valid() && |payload| < 256
      modifies this`written, this`txSequence, this`stats
      ensures Valid() && ok == (connected && |payload| <= MAX_PAYLOAD)
      ensures ok ==> written == old(written) + Image(Frame(kind, flags, old(txSequence), payload))
      ensures ok ==> txSequence == (old(txSequence) + 1) % 0x1_0000
      ensures ok ==> stats == old(stats).(sent := old(stats.sent) + 1)
      ensures !ok ==> written == old(written) && txSequence == old(txSequence) && stats == old(stats)
    {
      if !connected || |payload| > MAX_PAYLOAD {
        return false;
      }
      var wire := PrintWire(Frame(kind, flags, txSequence, payload));
      written := written + wire;
      txSequence := (txSequence + 1) % 0x1_0000;
      stats := stats.(sent := stats.sent + 1);
      return true;
    }

    /** The two buffers send fills: stuffing cannot fail, whatever the payload. */
    static method PrintWire(f: Frame) returns (image: seq<byte>)
      ensures image == Image(f)
    {
      var raw := PrintRaw(f);
      var wire := new byte[MAX_WIRE_FRAME](_ => 0);
      ImageFits(f);
      var encoded := Cobs.CobsEncode(raw, 8 + |f.payload|, wire, wire.Length - 1);
      wire[encoded] := 0;
      image := wire[..encoded + 1];
      assert image == wire[..encoded] + [0];
    }

    static method PrintRaw(f: Frame) returns (raw: array<byte>)
      ensures fresh(raw) && raw.Length == MAX_RAW_FRAME
      ensures raw[..8 + |f.payload|] == Raw(f)
    {
      var length := |f.payload|;
      raw := PrintBody(f);
      var crc := Crc16.ComputeChecksum(raw, 6 + length);
      raw[6 + length], raw[7 + length] := crc % 256, crc / 256;
      assert raw[..6 + length] == Body(f);
      assert raw[..8 + length] == raw[..6 + length] + U16(crc);
    }

    static method PrintBody(f: Frame) returns (raw: array<byte>)
      ensures fresh(raw) && raw.Length == MAX_RAW_FRAME
      ensures raw[..6 + |f.payload|] == Body(f)
    {
      var length := |f.payload|;
      raw := new byte[MAX_RAW_FRAME](_ => 0);
      raw[0], raw[1], raw[2] := PROTOCOL_VERSION, f.kind, f.flags;
      raw[3], raw[4], raw[5] := f.sequence % 256, f.sequence / 256, length;
      forall i | 0 <= i < length {
        raw[6 + i] := f.payload[i];
      }
      assert raw[6..6 + length] == f.payload;
      assert raw[..6] == [PROTOCOL_VERSION, f.kind, f.flags] + U16(f.sequence) + [length];
      assert raw[..6 + length] == raw[..6] + raw[6..6 + length];
    }

    /** pop_priority */
    method PopPriority() returns (frame: Option<Frame>)
      requires Valid()
      modifies queue, queue.slots
      ensures Valid()
      ensures var q := old(Abs().queue);
              if q == [] then frame == None && Abs() == old(Abs())
              else frame == Some(q[Selected(q)]) && Abs() == old(Abs()).(queue := Without(q, Selected(q)))
    {
      frame := queue.PopPriority();
    }
  }
}
