// The catalog transfer between the two processors: message layouts, and the two
// end points as state records whose steps the classes below carry out in place.
module LibraryMessages {
  import opened Bytes
  import opened Frames
  import opened Wrappers

  const CHUNK_BYTES := 186

  datatype Msg =
    | Begin(kind: byte, id: u16, total: u32, context: u16)
    | Chunk(id: u16, offset: u32, data: seq<byte>)
    | End(id: u16, total: u32, crc: u32)
    | Ack(id: u16, next: u32)

  ghost predicate Sendable(m: Msg) {
    m.Chunk? ==> 0 < |m.data| <= CHUNK_BYTES
  }

  function Type(m: Msg): byte {
    match m
    case Begin(_, _, _, _) => LIBRARY_BEGIN
    case Chunk(_, _, _) => LIBRARY_CHUNK
    case End(_, _, _) => LIBRARY_END
    case Ack(_, _) => LIBRARY_ACK
  }

  function Print(m: Msg): seq<byte> {
    match m
    case Begin(kind, id, total, context) => [kind] + U16(id) + U32(total) + U16(context)
    case Chunk(id, offset, data) => U16(id) + U32(offset) + data
    case End(id, total, crc) => U16(id) + U32(total) + U32(crc)
    case Ack(id, next) => U16(id) + U32(next)
  }

  /** The length tests and field reads at the top of each handler. A BEGIN of seven
      bytes comes from older firmware and carries no context. */
  function Read(kind: byte, p: seq<byte>): Option<Msg> {
    if kind == LIBRARY_BEGIN then
      if |p| != 7 && |p| != 9 then None
      else Some(Begin(p[0], ReadU16(p, 1), ReadU32(p, 3), if |p| == 9 then ReadU16(p, 7) else 0))
    else if kind == LIBRARY_CHUNK then
      if |p| < 7 then None else Some(Chunk(ReadU16(p, 0), ReadU32(p, 2), p[6..]))
    else if kind == LIBRARY_END then
      if |p| != 10 then None else Some(End(ReadU16(p, 0), ReadU32(p, 2), ReadU32(p, 6)))
    else if kind == LIBRARY_ACK then
      if |p| != 6 then None else Some(Ack(ReadU16(p, 0), ReadU32(p, 2)))
    else None
  }

  /** Every message sent is read back as sent, and fits a frame. */
  lemma ReadPrint(m: Msg)
    requires Sendable(m)
    ensures Read(Type(m), Print(m)) == Some(m) && |Print(m)| <= MAX_PAYLOAD
  {
    var p := Print(m);
    match m
    case Begin(kind, id, total, context) =>
      ReadWriteU16(p, 1, id);
      ReadWriteU32(p, 3, total);
      ReadWriteU16(p, 7, context);
    case Chunk(id, offset, data) =>
      ReadWriteU16(p, 0, id);
      ReadWriteU32(p, 2, offset);
      assert p[6..] == data;
    case End(id, total, crc) =>
      ReadWriteU16(p, 0, id);
      ReadWriteU32(p, 2, total);
      ReadWriteU32(p, 6, crc);
    case Ack(id, next) =>
      ReadWriteU16(p, 0, id);
      ReadWriteU32(p, 2, next);
  }
}

module LibraryTransfer {
  import opened Bytes
  import Catalog = LibraryCatalog
  import opened Frames
  import opened LibraryMessages
  import opened Wrappers
  import Crc32

  const SLOTS := Catalog.SLOTS
  const MAX_BYTES := Catalog.MAX_BYTES
  const RETRANSMIT_MS := 40
  const STALL_MS := 2000

  datatype Phase = Idle | Beginning | Sending | Ending

  // -------------------------------------------------------------- the server

  datatype Server = Server(cache: seq<seq<byte>>, contexts: seq<u16>, ready: seq<bool>, blob: seq<byte>, active: bool,
                           awaiting: bool, kind: byte, id: u16, context: u16, offset: nat, lastSend: nat,
                           lastProgress: nat, lastLength: nat, phase: Phase)
  {
    ghost predicate Valid() {
      && |cache| == SLOTS && |contexts| == SLOTS && |ready| == SLOTS
      && |blob| <= MAX_BYTES && (forall i :: 0 <= i < SLOTS ==> |cache[i]| <= MAX_BYTES)
      && (active <==> phase != Idle)
      && (active ==> offset <= |blob|)
      && (phase == Sending ==> offset < |blob|)
      && (phase == Sending && awaiting ==> lastLength == ChunkLength())
    }

    function ChunkLength(): nat
      requires offset <= |blob|
    {
      if CHUNK_BYTES < |blob| - offset then CHUNK_BYTES else |blob| - offset
    }

    function Reset(): Server {
      this.(active := false, awaiting := false, phase := Idle, blob := [], offset := 0, lastLength := 0,
            lastProgress := 0)
    }

    function NextId(): u16 {
      if id == 65535 then 1 else id + 1
    }

    function Stalled(now: nat): bool {
      now - lastProgress > STALL_MS
    }

    /** handle_request: the new state, and 0 for a started transfer, else the error
        code reported to the peer; None when the frame is not a request. */
    function Request(payload: seq<byte>, now: nat): (Server, Option<nat>)
      requires Valid()
    {
      if |payload| != 1 then (this, None)
      else if payload[0] == 0 || payload[0] >= SLOTS || !ready[payload[0]] then (this, Some(1))
      else
        var s := if active && Stalled(now) then Reset() else this;
        if s.active then (s, Some(2)) else (s.Started(payload[0], now), Some(0))
    }

    function Started(k: byte, now: nat): Server
      requires Valid() && 0 < k < SLOTS
    {
      this.(kind := k, context := contexts[k], blob := cache[k], id := NextId(), offset := 0, lastLength := 0,
            phase := Beginning, awaiting := false, active := true, lastProgress := now)
    }

    /** The frame this phase sends. */
    function Current(): Msg
      requires Valid() && active
    {
      if phase == Sending then Chunk(id, offset, blob[offset..offset + ChunkLength()])
      else if phase == Ending then End(id, |blob|, Crc32.Checksum(blob))
      else Begin(kind, id, |blob|, context)
    }

    /** poll_send, with the outcome of link.send given. */
    function Poll(now: nat, linkUp: bool): (Server, Option<Msg>)
      requires Valid()
    {
      if !active then (this, None)
      else if Stalled(now) then (Reset(), None)
      else if awaiting && now - lastSend < RETRANSMIT_MS then (this, None)
      else
        var s := if phase == Sending then this.(lastLength := ChunkLength()) else this;
        if linkUp then (s.(lastSend := now, awaiting := true), Some(Current())) else (s, None)
    }

    /** The byte count an acknowledgement must report in this phase. */
    function Expected(): nat {
      match phase
      case Sending => offset + lastLength
      case Ending => |blob|
      case _ => 0
    }

    /** acknowledge */
    function Acknowledge(ack: Msg, now: nat): (Server, bool)
      requires Valid() && ack.Ack?
    {
      if !active || !awaiting || ack.id != id || ack.next != Expected() then (this, false)
      else
        var s := this.(awaiting := false, lastProgress := now);
        match phase
        case Sending =>
          (s.(offset := ack.next, phase := if ack.next >= |blob| then Ending else Sending), true)
        case Ending => (s.(active := false, phase := Idle, blob := []), true)
        case _ => (s.(phase := if blob == [] then Ending else Sending), true)
    }
  }

  // -------------------------------------------------------------- the client

  datatype Client = Client(available: bool, waiting: bool, receiving: bool, finished: bool, completed: bool,
                           failurePending: bool, requestedKind: byte, kind: byte, lastError: byte, id: u16,
                           context: u16, expectedTotal: u32, started: nat, retryAfter: nat, bytes: seq<byte>)
  {
    ghost predicate Valid() {
      |bytes| <= MAX_BYTES
    }

    function Active(): bool {
      waiting || receiving
    }

    function Fail(error: byte, now: nat): Client {
      this.(lastError := error, waiting := false, receiving := false, finished := false, completed := false,
            failurePending := true, retryAfter := now + 10000, bytes := [])
    }

    function SetAvailable(a: bool): Client {
      if a then this.(available := true)
      else this.(available := false, waiting := false, receiving := false, finished := false, completed := false,
                 bytes := [])
    }

    function Request(k: byte, now: nat, linkUp: bool): (Client, bool) {
      if !available || Active() || now < retryAfter || !linkUp then (this, false)
      else (this.(requestedKind := k, waiting := true, receiving := false, finished := false, started := now), true)
    }

    /** begin, append, finish: the new state and whether the frame is answered. */
    function Receive(m: Msg, now: nat): (Client, bool) {
      match m
      case Begin(k, t, total, c) =>
        if receiving && t == id then (this, true)
        else if !waiting || k != requestedKind then (this, false)
        else if total > MAX_BYTES then (Fail(3, now), false)
        else (this.(kind := k, id := t, expectedTotal := total, context := c, bytes := [], waiting := false,
                    receiving := true, started := now), true)
      case Chunk(t, at, data) =>
        if !receiving then (this, false)
        else if t != id || at + |data| > MAX_BYTES then (Fail(4, now), false)
        else if at < |bytes| then (this, at + |data| <= |bytes| && bytes[at..at + |data|] == data)
        else if at != |bytes| then (this, false)
        else (this.(bytes := bytes + data, started := now), true)
      case End(t, total, crc) =>
        if finished then (this, t == id && total == |bytes|)
        else if !receiving then (this, false)
        else if t != id || total != |bytes| || total != expectedTotal || crc != Crc32.Checksum(bytes)
        then (Fail(5, now), false)
        else (this.(receiving := false, finished := true, completed := true), true)
      case Ack(_, _) => (this, false)
    }

    /** send_ack */
    function Answer(): Option<Msg>
      requires Valid()
    {
      if receiving || finished then Some(Ack(id, |bytes|)) else None
    }

    function Tick(now: nat): Client {
      if Active() && now - started > 12000 then Fail(7, now) else this
    }

    /** take_completed */
    function Take(now: nat): (Client, bool) {
      if !completed then (this, false)
      else
        var s := this.(completed := false);
        if Catalog.Decode(bytes, kind).Some? then (s, true) else (s.Fail(8, now), false)
    }

    function CacheChanged(k: byte): Client {
      if Active() || requestedKind != k then this else this.(retryAfter := 0, failurePending := false)
    }
  }

  /** A frame is answered exactly if the client then holds what it carried: the transfer a
      BEGIN opens, the bytes of a chunk where they belong, all that an END closes. */
  lemma AnsweredMeansHeld(c: Client, m: Msg, now: nat)
    requires c.Valid()
    ensures var (d, answered) := c.Receive(m, now);
            answered <==> match m
                          case Begin(_, t, _, _) => d.receiving && d.id == t
                          case Chunk(t, at, data) =>
                            d.receiving && d.id == t && at + |data| <= |d.bytes| && d.bytes[at..at + |data|] == data
                          case End(t, total, _) => d.finished && d.id == t && total == |d.bytes|
                          case Ack(_, _) => false
  {
    match m {
      case Begin(_, _, _, _) =>
      case Chunk(_, at, data) =>
        if at == |c.bytes| {
          assert (c.bytes + data)[at..at + |data|] == data;
        }
      case End(_, _, _) =>
      case Ack(_, _) =>
    }
  }

  /** The client in the middle of a transfer gives it up for a frame of another one, for
      bytes beyond the limit, or for an END that does not close what it has, and asks
      for nothing then for 10 s; any other frame leaves what it has in place. */
  lemma DroppedIff(c: Client, m: Msg, now: nat)
    requires c.Valid() && c.receiving && !c.waiting && !c.finished
    ensures var d := c.Receive(m, now).0;
            var wrong := match m
                         case Begin(_, _, _, _) => false
                         case Chunk(t, at, data) => t != c.id || at + |data| > MAX_BYTES
                         case End(t, total, crc) =>
                           t != c.id || total != |c.bytes| || total != c.expectedTotal || crc != Crc32.Checksum(c.bytes)
                         case Ack(_, _) => false;
            if wrong then !d.receiving && !d.finished && !d.completed && d.bytes == [] && d.failurePending
                          && d.retryAfter == now + 10000 && d.lastError == (if m.Chunk? then 4 else 5)
            else c.bytes <= d.bytes && d.id == c.id && (d.receiving || d.completed) && d.retryAfter == c.retryAfter
  {
    match m {
      case Begin(_, _, _, _) =>
      case Chunk(_, _, data) => assert c.bytes <= c.bytes + data;
      case End(_, _, _) =>
      case Ack(_, _) =>
    }
  }

  /** A waiting client takes up just the transfer of the kind it asked for, if it can hold it. */
  lemma TakenUpIff(c: Client, m: Msg, now: nat)
    requires c.waiting && !c.receiving && m.Begin?
    ensures var d := c.Receive(m, now).0;
            && (d.receiving <==> m.kind == c.requestedKind && m.total <= MAX_BYTES)
            && (d.waiting <==> m.kind != c.requestedKind)
            && (d.receiving ==> d.id == m.id && d.kind == m.kind && d.context == m.context
                                && d.expectedTotal == m.total && d.bytes == [] && d.started == now)
            && (!d.receiving && !d.waiting ==> d.failurePending && d.lastError == 3 && d.retryAfter == now + 10000)
  {
  }

  // ------------------------------------------------------------- the objects

  class LibraryServer {
    const store: Catalog.CatalogCache
    var blob: seq<byte>
    var active: bool
    var awaiting: bool
    var kind: byte
    var id: u16
    var context: u16
    var offset: nat
    var lastSend: nat
    var lastProgress: nat
    var lastLength: nat
    var phase: Phase

    ghost function Abs(): Server
      reads this, store
    {
      Server(store.cache, store.contexts, store.ready, blob, active, awaiting, kind, id, context, offset, lastSend,
             lastProgress, lastLength, phase)
    }

    constructor ()
      ensures Abs().Valid() && !active && id == 0 && fresh(store) && store.Valid()
    {
      store := new Catalog.CatalogCache();
      blob, active, awaiting, kind, id, context := [], false, false, 0, 0, 0;
      offset, lastSend, lastProgress, lastLength, phase := 0, 0, 0, 0, Idle;
    }

    /** reset_transfer */
    method ResetTransfer()
      modifies this
      ensures Abs() == old(Abs()).Reset()
    {
      active, awaiting, phase, blob, offset, lastLength, lastProgress := false, false, Idle, [], 0, 0, 0;
    }

    /** handle_request: `error` is the code of the LIBRARY_ERROR frame sent, if any. */
    method HandleRequest(frame: Frame, now: nat) returns (started: bool, error: Option<nat>)
      requires Abs().Valid()
      modifies this
      ensures frame.kind != LIBRARY_REQUEST ==> Abs() == old(Abs()) && !started && error == None
      ensures frame.kind == LIBRARY_REQUEST ==>
                var (s, outcome) := old(Abs()).Request(frame.payload, now);
                Abs() == s && started == (outcome == Some(0))
                && error == (if outcome == Some(0) then None else outcome)
    {
      if frame.kind != LIBRARY_REQUEST || |frame.payload| != 1 {
        return false, None;
      }
      var k := frame.payload[0];
      if k == 0 || k >= SLOTS || !store.ready[k] {
        return false, Some(1);
      }
      if active && now - lastProgress > STALL_MS {
        ResetTransfer();
      }
      if active {
        return false, Some(2);
      }
      StartTransfer(k, now);
      return true, None;
    }

    /** The second half of handle_request: the cache is frozen under a new id. */
    method StartTransfer(k: byte, now: nat)
      requires Abs().Valid() && 0 < k < SLOTS
      modifies this
      ensures Abs() == old(Abs()).Started(k, now)
    {
      Freeze(k);
      offset, lastLength, phase := 0, 0, Beginning;
      awaiting, active, lastProgress := false, true, now;
    }

    method Freeze(k: byte)
      requires Abs().Valid() && 0 < k < SLOTS
      modifies this
      ensures Abs() == old(Abs().(kind := k, context := store.contexts[k], blob := store.cache[k],
                                  id := Abs().NextId()))
    {
      kind, context, blob := k, store.contexts[k], store.cache[k];
      id := if id == 65535 then 0 else id + 1;
      if id == 0 {
        id := 1;
      }
    }

    /** poll_send: the type and payload of the frame handed to the link, if one was. */
    method PollSend(now: nat, linkUp: bool) returns (sent: bool, kind': byte, payload: seq<byte>)
      requires Abs().Valid()
      modifies this
      ensures var (s, m) := old(Abs()).Poll(now, linkUp);
              Abs() == s && sent == m.Some? && (sent ==> kind' == Type(m.value) && payload == Print(m.value))
    {
      sent, kind', payload := false, 0, [];
      if !active {
        return;
      }
      if now - lastProgress > STALL_MS {
        ResetTransfer();
        return;
      }
      if awaiting && now - lastSend < RETRANSMIT_MS {
        return;
      }
      kind', payload := PrintCurrent();
      if phase == Sending {
        lastLength := |payload| - 6;
      }
      if !linkUp {
        return;
      }
      lastSend, awaiting, sent := now, true, true;
    }

    /** The three payloads poll_send builds. */
    method PrintCurrent() returns (kind': byte, payload: seq<byte>)
      requires Abs().Valid() && active
      ensures kind' == Type(Abs().Current()) && payload == Print(Abs().Current())
      ensures phase == Sending ==> |payload| == 6 + Abs().ChunkLength()
    {
      if phase == Beginning {
        kind', payload := LIBRARY_BEGIN, [kind] + U16(id) + U32(|blob|) + U16(context);
      } else if phase == Sending {
        var length := if CHUNK_BYTES < |blob| - offset then CHUNK_BYTES else |blob| - offset;
        kind', payload := LIBRARY_CHUNK, U16(id) + U32(offset) + blob[offset..offset + length];
      } else {
        var crc := Crc32.ComputeChecksum(blob);
        kind', payload := LIBRARY_END, U16(id) + U32(|blob|) + U32(crc);
      }
    }

    /** acknowledge */
    method Acknowledge(frame: Frame, now: nat) returns (accepted: bool)
      requires Abs().Valid()
      modifies this
      ensures var m := Read(frame.kind, frame.payload);
              if m.Some? && m.value.Ack?
              then (Abs(), accepted) == old(Abs()).Acknowledge(m.value, now)
              else !accepted && Abs() == old(Abs())
    {
      if !active || !awaiting || frame.kind != LIBRARY_ACK || |frame.payload| != 6 {
        return false;
      }
      if ReadU16(frame.payload, 0) != id {
        return false;
      }
      var next := ReadU32(frame.payload, 2);
      var expected := 0;
      if phase == Sending {
        expected := offset + lastLength;
      } else if phase == Ending {
        expected := |blob|;
      }
      if next != expected {
        return false;
      }
      awaiting, lastProgress := false, now;
      if phase == Beginning {
        phase := if blob == [] then Ending else Sending;
      } else if phase == Sending {
        offset := next;
        if offset >= |blob| {
          phase := Ending;
        }
      } else {
        active, phase, blob := false, Idle, [];
      }
      return true;
    }
  }

  class LibraryClient {
    var available: bool
    var waiting: bool
    var receiving: bool
    var finished: bool
    var completed: bool
    var failurePending: bool
    var requestedKind: byte
    var kind: byte
    var lastError: byte
    var id: u16
    var context: u16
    var expectedTotal: u32
    var started: nat
    var retryAfter: nat
    var bytes: seq<byte>

    ghost function Abs(): Client
      reads this
    {
      Client(available, waiting, receiving, finished, completed, failurePending, requestedKind, kind, lastError, id,
             context, expectedTotal, started, retryAfter, bytes)
    }

    method Fail(error: byte, now: nat)
      modifies this
      ensures Abs() == old(Abs()).Fail(error, now)
    {
      lastError := error;
      waiting, receiving, finished, completed, failurePending := false, false, false, false, true;
      retryAfter, bytes := now + 10000, [];
    }

    /** request: what is sent is LIBRARY_REQUEST with this kind. */
    method Request(k: byte, now: nat, linkUp: bool) returns (sent: bool)
      modifies this
      ensures (Abs(), sent) == old(Abs()).Request(k, now, linkUp)
    {
      if !available || waiting || receiving || now < retryAfter {
        return false;
      }
      if !linkUp {
        return false;
      }
      requestedKind, waiting, receiving, finished, started := k, true, false, false, now;
      return true;
    }

    /** begin */
    method Begin(payload: seq<byte>, now: nat) returns (answer: bool)
      modifies this
      ensures var m := Read(LIBRARY_BEGIN, payload);
              if m.Some? then (Abs(), answer) == old(Abs()).Receive(m.value, now)
              else !answer && Abs() == old(Abs())
    {
      if |payload| != 7 && |payload| != 9 {
        return false;
      }
      var k, t := payload[0], ReadU16(payload, 1);
      if receiving && t == id {
        return true;
      }
      if !waiting || k != requestedKind {
        return false;
      }
      var total := ReadU32(payload, 3);
      if total > MAX_BYTES {
        Fail(3, now);
        return false;
      }
      kind, id, expectedTotal := k, t, total;
      context := if |payload| == 9 then ReadU16(payload, 7) else 0;
      StartReceiving(now);
      return true;
    }

    method StartReceiving(now: nat)
      modifies this
      ensures Abs() == old(Abs()).(bytes := [], waiting := false, receiving := true, started := now)
    {
      bytes, waiting, receiving, started := [], false, true, now;
    }

    /** append */
    method Append(payload: seq<byte>, now: nat) returns (answer: bool)
      modifies this
      ensures var m := Read(LIBRARY_CHUNK, payload);
              if m.Some? then (Abs(), answer) == old(Abs()).Receive(m.value, now)
              else !answer && Abs() == old(Abs())
    {
      if !receiving || |payload| < 7 {
        return false;
      }
      var t, at, length := ReadU16(payload, 0), ReadU32(payload, 2), |payload| - 6;
      if t != id || at + length > MAX_BYTES {
        Fail(4, now);
        return false;
      }
      if at < |bytes| {
        return at + length <= |bytes| && bytes[at..at + length] == payload[6..];
      }
      if at != |bytes| {
        return false;
      }
      bytes, started := bytes + payload[6..], now;
      return true;
    }

    /** finish */
    method Finish(payload: seq<byte>, now: nat) returns (answer: bool)
      modifies this
      ensures var m := Read(LIBRARY_END, payload);
              if m.Some? then (Abs(), answer) == old(Abs()).Receive(m.value, now)
              else !answer && Abs() == old(Abs())
    {
      if |payload| != 10 {
        return false;
      }
      var t, total := ReadU16(payload, 0), ReadU32(payload, 2);
      if finished {
        return t == id && total == |bytes|;
      }
      if !receiving {
        return false;
      }
      var expectedCrc := ReadU32(payload, 6);
      var actualCrc := Crc32.ComputeChecksum(bytes);
      answer := Conclude(t == id && total == |bytes| && total == expectedTotal && expectedCrc == actualCrc, now);
    }

    method Conclude(good: bool, now: nat) returns (answer: bool)
      modifies this
      ensures answer == good
      ensures Abs() == if good then old(Abs()).(receiving := false, finished := true, completed := true)
                       else old(Abs()).Fail(5, now)
    {
      if good {
        receiving, finished, completed := false, true, true;
      } else {
        Fail(5, now);
      }
      answer := good;
    }

    /** send_ack: the payload handed to the link. */
    method SendAck() returns (payload: Option<seq<byte>>)
      requires Abs().Valid()
      ensures var a := Abs().Answer(); payload == if a.Some? then Some(Print(a.value)) else None
    {
      if !receiving && !finished {
        return None;
      }
      return Some(U16(id) + U32(|bytes|));
    }

    method Tick(now: nat)
      modifies this
      ensures Abs() == old(Abs()).Tick(now)
    {
      if (waiting || receiving) && now - started > 12000 {
        Fail(7, now);
      }
    }

    method SetAvailable(a: bool)
      modifies this
      ensures Abs() == old(Abs()).SetAvailable(a)
    {
      available := a;
      if !a {
        waiting, receiving, finished, completed, bytes := false, false, false, false, [];
      }
    }

    /** take_completed: kind, page information, context and entries of what the completed
        bytes stand for. */
    method TakeCompleted(now: nat) returns (taken: Option<(byte, Catalog.PageInfo, u16, seq<Catalog.Entry>)>)
      modifies this
      ensures var catalog := Catalog.Decode(old(bytes), old(kind));
              (Abs(), taken.Some?) == old(Abs()).Take(now)
              && (taken.Some? ==>
                    catalog.Some? && taken.value == (old(kind), catalog.value.0, old(context), catalog.value.1))
    {
      if !completed {
        return None;
      }
      completed := false;
      var catalog := Catalog.DecodeBlob(bytes, kind);
      if catalog.None? {
        Fail(8, now);
        return None;
      }
      return Some((kind, catalog.value.0, context, catalog.value.1));
    }

    method NotifyRemoteCacheChanged(k: byte)
      modifies this
      ensures Abs() == old(Abs()).CacheChanged(k)
    {
      if waiting || receiving || requestedKind != k {
        return;
      }
      retryAfter, failurePending := 0, false;
    }
  }
}
