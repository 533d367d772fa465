// The one-acknowledgement transfer of a cover URL: message layouts and both ends.
module CoverUrl {
  import opened Bytes
  import opened Frames
  import opened Wrappers

  const URL_BYTES := 512
  const PIECE_BYTES := MAX_PAYLOAD - 4

  type Url = u: seq<byte> | |u| <= URL_BYTES
  type Length = n: int | 0 <= n <= URL_BYTES

  datatype Msg =
    | Begin(id: u16, total: u16)
    | Chunk(id: u16, offset: u16, data: seq<byte>)
    | End(id: u16)
    | Ack(id: u16, result: byte)

  ghost predicate Sendable(m: Msg) {
    m.Chunk? ==> |m.data| <= PIECE_BYTES
  }

  function Type(m: Msg): byte {
    match m
    case Begin(_, _) => MEDIA_COVER_URL_BEGIN
    case Chunk(_, _, _) => MEDIA_COVER_URL_CHUNK
    case End(_) => MEDIA_COVER_URL_END
    case Ack(_, _) => MEDIA_COVER_URL_ACK
  }

  function Print(m: Msg): seq<byte> {
    match m
    case Begin(id, total) => U16(id) + U16(total)
    case Chunk(id, offset, data) => U16(id) + U16(offset) + data
    case End(id) => U16(id)
    case Ack(id, result) => U16(id) + [result]
  }

  /** The type and length tests and field reads at the top of each handler. */
  function Read(kind: byte, p: seq<byte>): Option<Msg> {
    if kind == MEDIA_COVER_URL_BEGIN then
      if |p| != 4 then None else Some(Begin(ReadU16(p, 0), ReadU16(p, 2)))
    else if kind == MEDIA_COVER_URL_CHUNK then
      if |p| < 4 then None else Some(Chunk(ReadU16(p, 0), ReadU16(p, 2), p[4..]))
    else if kind == MEDIA_COVER_URL_END then
      if |p| != 2 then None else Some(End(ReadU16(p, 0)))
    else if kind == MEDIA_COVER_URL_ACK then
      if |p| != 3 then None else Some(Ack(ReadU16(p, 0), p[2]))
    else None
  }

  /** Every message sent is read back as sent, and fits a frame. */
  lemma ReadPrint(m: Msg)
    requires Sendable(m)
    ensures Read(Type(m), Print(m)) == Some(m) && |Print(m)| <= MAX_PAYLOAD
  {
    var p := Print(m);
    match m
    case Begin(id, total) =>
      ReadWriteU16(p, 0, id);
      ReadWriteU16(p, 2, total);
    case Chunk(id, offset, data) =>
      ReadWriteU16(p, 0, id);
      ReadWriteU16(p, 2, offset);
      assert p[4..] == data;
    case End(id) =>
      ReadWriteU16(p, 0, id);
    case Ack(id, result) =>
      ReadWriteU16(p, 0, id);
  }

  datatype Phase = Idle | Beginning | Sending | Ending

  datatype Sender = Sender(url: Url, id: u16, offset: u16, phase: Phase, waiting: bool)
  {
    ghost predicate Valid() {
      && offset <= |url|
      && (phase == Beginning ==> offset == 0)
      && (phase == Sending ==> offset < |url|)
      && (phase == Ending ==> offset == |url|)
    }

    function NextId(): u16 {
      if id == 65535 then 1 else id + 1
    }

    /** queue */
    function Queue(u: seq<byte>): (Sender, bool) {
      if |u| > URL_BYTES then (this, false) else (Sender(u, NextId(), 0, Beginning, false), true)
    }

    function PieceLength(): nat
      requires Valid()
    {
      if PIECE_BYTES < |url| - offset then PIECE_BYTES else |url| - offset
    }

    function Current(): Msg
      requires Valid() && phase != Idle
    {
      match phase
      case Beginning => Begin(id, |url|)
      case Sending => Chunk(id, offset, url[offset..offset + PieceLength()])
      case _ => End(id)
    }

    function Advanced(): Sender
      requires Valid() && phase != Idle
    {
      match phase
      case Beginning => this.(phase := if url == [] then Ending else Sending)
      case Sending =>
        this.(offset := offset + PieceLength(), phase := if offset + PieceLength() >= |url| then Ending else Sending)
      case _ => this.(phase := Idle, waiting := true)
    }

    /** poll_send, with the outcome of link.send given. */
    function Poll(linkUp: bool): (Sender, Option<Msg>)
      requires Valid()
    {
      if phase == Idle || !linkUp then (this, None) else (Advanced(), Some(Current()))
    }

    /** acknowledge: the result reported, when the acknowledgement is accepted. */
    function Acknowledge(ack: Msg): (Sender, Option<byte>)
      requires ack.Ack?
    {
      if !waiting || ack.id != id then (this, None) else (this.(waiting := false), Some(ack.result))
    }
  }

  datatype Receiver = Receiver(url: Url, id: u16, total: Length, active: bool)
  {
    /** begin, append, finish: the new state, the URL if complete, the frame sent back. */
    function Receive(m: Msg): (Receiver, Option<Url>, Option<Msg>) {
      match m
      case Begin(t, length) =>
        if length > URL_BYTES then (this, None, None) else (Receiver([], t, length, true), None, None)
      case Chunk(t, at, data) =>
        if !active then (this, None, None)
        else if t != id || at != |url| || |url| + |data| > total
        then (this.(active := false), None, None)
        else (this.(url := url + data), None, None)
      case End(t) =>
        var good := active && t == id && |url| == total;
        (this.(active := false), if good then Some(url) else None, Some(Ack(t, if good then 0 else 1)))
      case Ack(_, _) => (this, None, None)
    }
  }

  /** A URL that is not too long starts a transfer of its own, whatever was under way. */
  lemma QueuedIff(s: Sender, url: seq<byte>)
    ensures var (t, queued) := s.Queue(url);
            && (queued <==> |url| <= 512)
            && (if queued then t.url == url && t.phase == Beginning && t.offset == 0 && !t.waiting && t.id != 0
                               && (t.id == s.id + 1 || (s.id == 65535 && t.id == 1))
                else t == s)
  {
  }

  /** An acknowledgement is accepted once, for the present id, after its END was sent. */
  lemma AcceptsIff(s: Sender, ack: Msg)
    requires ack.Ack?
    ensures var (t, result) := s.Acknowledge(ack);
            && (result.Some? <==> s.waiting && ack.id == s.id)
            && (if result.Some? then result.value == ack.result && !t.waiting && t.Acknowledge(ack).1 == None
                else t == s)
  {
  }

  /** An END is always answered, with 0 and the URL exactly if all of it was received. */
  lemma EndAnsweredIff(r: Receiver, id: u16)
    ensures var (t, url, ack) := r.Receive(End(id));
            var whole := r.active && id == r.id && |r.url| == r.total;
            && ack == Some(Ack(id, if whole then 0 else 1)) && !t.active
            && url == if whole then Some(r.url) else None
  {
  }

  /** A chunk that is missing, foreign or too long spoils the transfer: whatever follows but
      a BEGIN, its END is answered with 1. */
  lemma GapIsFatal(r: Receiver, m: Msg, later: Msg, id: u16)
    requires r.active && m.Chunk? && (m.id != r.id || m.offset != |r.url| || |r.url| + |m.data| > r.total)
    requires later.Chunk?
    ensures var spoilt := r.Receive(m).0.Receive(later).0;
            spoilt.Receive(End(id)).1 == None && spoilt.Receive(End(id)).2 == Some(Ack(id, 1))
  {
  }

  class CoverUrlSender {
    var url: Url
    var id: u16
    var offset: u16
    var phase: Phase
    var waiting: bool

    ghost function Abs(): Sender
      reads this
    {
      Sender(url, id, offset, phase, waiting)
    }

    constructor ()
      ensures Abs() == Sender([], 0, 0, Idle, false)
    {
      url, id, offset, phase, waiting := [], 0, 0, Idle, false;
    }

    method Queue(u: seq<byte>) returns (queued: bool)
      modifies this
      ensures (Abs(), queued) == old(Abs()).Queue(u)
    {
      if |u| > URL_BYTES {
        return false;
      }
      url := u;
      id := if id == 65535 then 0 else id + 1;
      if id == 0 {
        id := 1;
      }
      offset, phase, waiting := 0, Beginning, false;
      return true;
    }

    /** poll_send: the type and payload of the frame handed to the link, if one was. */
    method PollSend(linkUp: bool) returns (sent: bool, kind: byte, payload: seq<byte>)
      requires Abs().Valid()
      modifies this
      ensures var (s, m) := old(Abs()).Poll(linkUp);
              Abs() == s && sent == m.Some? && (sent ==> kind == Type(m.value) && payload == Print(m.value))
    {
      sent, kind, payload := false, 0, [];
      if phase == Idle || !linkUp {
        return;
      }
      if phase == Beginning {
        kind, payload := MEDIA_COVER_URL_BEGIN, U16(id) + U16(|url|);
        phase := if url == [] then Ending else Sending;
        return true, kind, payload;
      }
      if phase == Sending {
        var length := if PIECE_BYTES < |url| - offset then PIECE_BYTES else |url| - offset;
        kind, payload := MEDIA_COVER_URL_CHUNK, U16(id) + U16(offset) + url[offset..offset + length];
        offset := offset + length;
        if offset >= |url| {
          phase := Ending;
        }
        return true, kind, payload;
      }
      phase, waiting := Idle, true;
      return true, MEDIA_COVER_URL_END, U16(id);
    }

    method Acknowledge(frame: Frame) returns (result: Option<byte>)
      modifies this
      ensures var m := Read(frame.kind, frame.payload);
              if m.Some? && m.value.Ack?
              then (Abs(), result) == old(Abs()).Acknowledge(m.value)
              else result == None && Abs() == old(Abs())
    {
      if frame.kind != MEDIA_COVER_URL_ACK || |frame.payload| != 3 || !waiting {
        return None;
      }
      if ReadU16(frame.payload, 0) != id {
        return None;
      }
      waiting := false;
      return Some(frame.payload[2]);
    }
  }

  class CoverUrlReceiver {
    var url: Url
    var id: u16
    var total: Length
    var active: bool

    ghost function Abs(): Receiver
      reads this
    {
      Receiver(url, id, total, active)
    }

    constructor ()
      ensures Abs() == Receiver([], 0, 0, false)
    {
      url, id, total, active := [], 0, 0, false;
    }

    /** begin, append, finish, as the dispatch calls them: the URL if it is complete,
        the payload of the acknowledgement if one is sent. */
    method Handle(frame: Frame) returns (complete: Option<Url>, ack: Option<seq<byte>>)
      modifies this
      ensures var m := Read(frame.kind, frame.payload);
              if m.Some? && !m.value.Ack?
              then var (r, u, a) := old(Abs()).Receive(m.value);
                   Abs() == r && complete == u && ack == (if a.Some? then Some(Print(a.value)) else None)
              else Abs() == old(Abs()) && complete == None && ack == None
    {
      complete, ack := None, None;
      if frame.kind == MEDIA_COVER_URL_BEGIN {
        Begin(frame.payload);
      } else if frame.kind == MEDIA_COVER_URL_CHUNK {
        Append(frame.payload);
      } else if frame.kind == MEDIA_COVER_URL_END {
        complete, ack := Finish(frame.payload);
      }
    }

    method Begin(payload: seq<byte>)
      modifies this
      ensures var m := Read(MEDIA_COVER_URL_BEGIN, payload);
              Abs() == if m.Some? then old(Abs()).Receive(m.value).0 else old(Abs())
    {
      if |payload| != 4 {
        return;
      }
      var length := ReadU16(payload, 2);
      if length > URL_BYTES {
        return;
      }
      id, total, url, active := ReadU16(payload, 0), length, [], true;
    }

    method Append(payload: seq<byte>)
      modifies this
      ensures var m := Read(MEDIA_COVER_URL_CHUNK, payload);
              Abs() == if m.Some? then old(Abs()).Receive(m.value).0 else old(Abs())
    {
      if !active || |payload| < 4 {
        return;
      }
      var t, at, length := ReadU16(payload, 0), ReadU16(payload, 2), |payload| - 4;
      if t != id || at != |url| || |url| + length > total {
        active := false;
        return;
      }
      url := url + payload[4..];
    }

    method Finish(payload: seq<byte>) returns (complete: Option<Url>, ack: Option<seq<byte>>)
      modifies this
      ensures var m := Read(MEDIA_COVER_URL_END, payload);
              if m.Some?
              then var (r, u, a) := old(Abs()).Receive(m.value);
                   Abs() == r && complete == u && ack == (if a.Some? then Some(Print(a.value)) else None)
              else Abs() == old(Abs()) && complete == None && ack == None
    {
      if |payload| != 2 {
        return None, None;
      }
      var t := ReadU16(payload, 0);
      var result: byte := if active && t == id && |url| == total then 0 else 1;
      ack := Some([payload[0], payload[1], result]);
      WriteReadU16(payload, 0);
      assert ack.value == U16(t) + [result];
      complete := if result == 0 then Some(url) else None;
      active := false;
    }
  }
}
