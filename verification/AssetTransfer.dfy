// The image transfer: message layouts, the bridge with its download task and bounded
// queue, and the S3 client with its buffer.
module AssetMessages {
  import opened Bytes
  import opened Frames
  import opened Wrappers

  const CHUNK_BYTES := MAX_PAYLOAD - 6
  const MAX_BYTES := 524288

  datatype Msg =
    | Begin(id: u16, total: u32)
    | Chunk(id: u16, offset: u32, data: seq<byte>)
    | End(id: u16, total: u32, crc: u32)
    | Error(id: u16, code: byte)
    | Ack(id: u16, next: u32)

  ghost predicate Sendable(m: Msg) {
    m.Chunk? ==> 0 < |m.data| <= CHUNK_BYTES
  }

  function Type(m: Msg): byte {
    match m
    case Begin(_, _) => RADAR_BEGIN
    case Chunk(_, _, _) => RADAR_CHUNK
    case End(_, _, _) => RADAR_END
    case Error(_, _) => RADAR_ERROR
    case Ack(_, _) => RADAR_ACK
  }

  function Print(m: Msg): seq<byte> {
    match m
    case Begin(id, total) => U16(id) + U32(total)
    case Chunk(id, offset, data) => U16(id) + U32(offset) + data
    case End(id, total, crc) => U16(id) + U32(total) + U32(crc)
    case Error(id, code) => U16(id) + [code]
    case Ack(id, next) => U16(id) + U32(next)
  }

  /** The length tests and field reads at the top of each handler; an ERROR is read
      whatever its length, and code 9 stands for one that is too short. */
  function Read(kind: byte, p: seq<byte>): Option<Msg> {
    if kind == RADAR_BEGIN then
      if |p| != 6 then None else Some(Begin(ReadU16(p, 0), ReadU32(p, 2)))
    else if kind == RADAR_CHUNK then
      if |p| < 7 then None else Some(Chunk(ReadU16(p, 0), ReadU32(p, 2), p[6..]))
    else if kind == RADAR_END then
      if |p| != 10 then None else Some(End(ReadU16(p, 0), ReadU32(p, 2), ReadU32(p, 6)))
    else if kind == RADAR_ERROR then
      Some(Error(if |p| < 2 then 0 else ReadU16(p, 0), if |p| < 3 then 9 else p[2]))
    else if kind == RADAR_ACK then
      if |p| != 6 then None else Some(Ack(ReadU16(p, 0), ReadU32(p, 2)))
    else None
  }

  /** Every message sent is read back as sent, and fits a frame. */
  lemma ReadPrint(m: Msg)
    requires Sendable(m)
    ensures Read(Type(m), Print(m)) == Some(m) && |Print(m)| <= MAX_PAYLOAD
  {
    var p := Print(m);
    match m
    case Begin(id, total) =>
      ReadWriteU16(p, 0, id);
      ReadWriteU32(p, 2, total);
    case Chunk(id, offset, data) =>
      ReadWriteU16(p, 0, id);
      ReadWriteU32(p, 2, offset);
      assert p[6..] == data;
    case End(id, total, crc) =>
      ReadWriteU16(p, 0, id);
      ReadWriteU32(p, 2, total);
      ReadWriteU32(p, 6, crc);
    case Error(id, code) =>
      ReadWriteU16(p, 0, id);
    case Ack(id, next) =>
      ReadWriteU16(p, 0, id);
      ReadWriteU32(p, 2, next);
  }
}

module AssetTransfer {
  import opened AssetMessages
  import opened Bytes
  import opened Frames
  import opened Wrappers
  import Crc32

  const QUEUE_ITEMS := 10
  const RETRANSMIT_MS := 40
  const STALL_MS := 12000
  const RADAR := 1

  type Kind = k: int | 0 <= k < 5

  /** The chunk loop stops at the limit, so at most one chunk beyond it. */
  type Offset = n: int | 0 <= n < MAX_BYTES + CHUNK_BYTES

  // ------------------------------------------------------ the download task

  /** One esp_http_client_read: an error, nothing (and whether all was received), data. */
  datatype Fetch = Failed | Nothing(complete: bool) | Got(data: seq<byte>)

  /** Where the download task stands. `Queueing` is inside enqueue_, before or after its test of
      the abort flag; `offset` and `crc` are those after the item. */
  datatype Task =
    | Resting
    | Opening
    | Streaming(offset: Offset, crc: Crc32.Word, declared: nat)
    | Queueing(item: Msg, offset: Offset, crc: Crc32.Word, declared: nat, tested: bool)
    | Leaving

  /** The next thing the download task meets. */
  datatype Event =
    | CannotOpen(code: byte)
    | Opened(length: int)
    | Fetched(fetch: Fetch)
    | TestAbort
    | Push
    | GiveUp
    | Exit

  datatype Server = Server(queue: seq<Msg>, pending: Option<Msg>, awaiting: bool, active: bool, abort: bool, id: u16,
                           lastSend: nat, lastProgress: nat, task: Task)
  {
    predicate Busy() {
      active || pending.Some? || queue != []
    }

    function NextId(): u16 {
      if id == 65535 then 1 else id + 1
    }

    /** start, with the outcomes of the URL test and of the download task's creation given. */
    function Start(urlFits: bool, created: bool, now: nat): (Server, bool) {
      if !urlFits || Busy() then (this, false)
      else
        var s := this.(queue := [], abort := false, lastProgress := now, id := NextId());
        if created then (s.(active := true, task := Opening), true) else (s, false)
    }

    predicate Stalled(now: nat) {
      Busy() && lastProgress != 0 && now - lastProgress > STALL_MS
    }

    /** poll_send, with the outcome of link.send given. */
    function Poll(now: nat, linkUp: bool): (Server, Option<Msg>) {
      if Stalled(now) then (this.(abort := true, pending := None, awaiting := false, queue := []), None)
      else if pending.Some? && awaiting && now - lastSend < RETRANSMIT_MS then (this, None)
      else if pending.None? && queue == [] then (this, None)
      else
        var s := if pending.Some? then this
                 else this.(pending := Some(queue[0]), queue := queue[1..], awaiting := false);
        if !linkUp then (s, None)
        else if s.pending.value.Error? then (s.(lastSend := now, pending := None), s.pending)
        else (s.(lastSend := now, awaiting := true), s.pending)
    }

    /** acknowledge */
    function Acknowledge(ack: Msg, now: nat): (Server, bool)
      requires ack.Ack?
    {
      if pending.None? || !awaiting then (this, false)
      else
        var expected := match pending.value
                        case Chunk(_, offset, data) => offset + |data|
                        case End(_, total, _) => total
                        case _ => 0;
        if ack.id != pending.value.id || ack.next != expected then (this, false)
        else (this.(pending := None, awaiting := false, lastProgress := now), true)
    }

    /** enqueue_ returned true. */
    function Queued(): Task
      requires task.Queueing?
    {
      match task.item
      case Begin(_, _) => Streaming(task.offset, task.crc, task.declared)
      case Chunk(_, _, _) => Streaming(task.offset, task.crc, task.declared)
      case _ => Leaving
    }

    /** enqueue_ returned false. */
    function Refused(): Task
      requires task.Queueing?
    {
      if task.item.Chunk? then Queueing(Error(id, 5), task.offset, task.crc, task.declared, false) else Leaving
    }

    /** After the chunk loop. */
    function Concluded(failed: bool): Task
      requires task.Streaming?
    {
      if failed || task.offset == 0 || (task.declared > 0 && task.offset != task.declared)
      then Queueing(Error(id, if failed then 5 else 6), task.offset, task.crc, task.declared, false)
      else Queueing(End(id, task.offset, Crc32.Number(task.crc)), task.offset, task.crc, task.declared, false)
    }

    /** One atomic step of download_task_ and enqueue_; an event that does not fit where
        the download task stands changes nothing. */
    function Work(e: Event): Server {
      match task
      case Opening =>
        if e.CannotOpen? then this.(task := Queueing(Error(id, e.code), 0, Crc32.ZERO, 0, false))
        else if e.Opened? then
          if e.length > MAX_BYTES then this.(task := Queueing(Error(id, 4), 0, Crc32.ZERO, 0, false))
          else
            var declared := if e.length > 0 then e.length else 0;
            this.(task := Queueing(Begin(id, declared), 0, Crc32.ZERO, declared, false))
        else this
      case Streaming(offset, crc, declared) =>
        if !e.Fetched? then this
        else if offset >= MAX_BYTES then this.(task := Concluded(e.fetch != Nothing(true)))
        else
          (match e.fetch
           case Failed => this.(task := Concluded(true))
           case Nothing(complete) => if complete then this.(task := Concluded(false)) else this
           case Got(data) =>
             if 0 < |data| <= CHUNK_BYTES
             then this.(task := Queueing(Chunk(id, offset, data), offset + |data|, Crc32.Update(crc, data), declared,
                                         false))
             else this)
      case Queueing(item, _, _, _, tested) =>
        if !tested then
          if e.TestAbort? then this.(task := if abort then Refused() else task.(tested := true)) else this
        else if e.Push? && |queue| < QUEUE_ITEMS then this.(queue := queue + [item], task := Queued())
        else if e.GiveUp? && (!active || abort) then this.(task := Refused())
        else this
      case Leaving => if e.Exit? then this.(active := false, task := Resting) else this
      case Resting => this
    }
  }

  // -------------------------------------------------------------- the client

  /** How long a kind is held back after a failure; 3 is an error of the HTTP source. */
  function Cooldown(error: byte, k: Kind): nat {
    if error == 3 then (if k == RADAR then 2000 else 30000) else if k == RADAR then 750 else 5000
  }

  datatype Client = Client(available: bool, waiting: bool, receiving: bool, finished: bool, completed: bool,
                           failurePending: bool, id: u16, expectedTotal: u32, started: nat, retryAfter: seq<nat>,
                           lastError: byte, requestedKind: Kind, completedKind: Kind, failedKind: Kind,
                           bytes: seq<byte>, capacity: nat)
  {
    ghost predicate Valid() {
      |retryAfter| == 5 && |bytes| <= capacity <= MAX_BYTES
    }

    predicate Active() {
      waiting || receiving
    }

    /** fail_ */
    function Fail(error: byte, now: nat): Client
      requires |retryAfter| == 5
    {
      var k: int := if requestedKind != 0 then requestedKind else completedKind;
      this.(retryAfter := if k != 0 then retryAfter[k := now + Cooldown(error, k)] else retryAfter, failedKind := k,
            lastError := error, waiting := false, receiving := false, completed := false, finished := false,
            failurePending := true, bytes := [], capacity := 0, requestedKind := 0)
    }

    function SetAvailable(a: bool): Client {
      if a then this.(available := true)
      else this.(available := false, waiting := false, receiving := false, completed := false, finished := false,
                 bytes := [], capacity := 0, requestedKind := 0, completedKind := 0, failedKind := 0)
    }

    function Request(k: Kind, now: nat, linkUp: bool): (Client, bool)
      requires |retryAfter| == 5
    {
      if k == 0 || !available || Active() || now < retryAfter[k] || !linkUp then (this, false)
      else (this.(requestedKind := k, waiting := true, started := now, failurePending := false, finished := false,
                  completedKind := 0, failedKind := 0), true)
    }

    /** begin, append, finish and remote_error, with the outcome of the allocation given:
        the new state and whether the handler calls send_ack, which after a chunk it
        always does. */
    function Receive(m: Msg, memory: bool, now: nat): (Client, bool)
      requires Valid()
    {
      match m
      case Begin(t, total) =>
        if receiving && t == id then (this, true)
        else if !waiting then (this, false)
        else if total > MAX_BYTES then (Fail(4, now), false)
        else
          var s := this.(id := t, expectedTotal := total);
          if !memory then (s.Fail(14, now), false)
          else (s.(bytes := [], capacity := if total > 0 then total else MAX_BYTES, waiting := false,
                   receiving := true, started := now), true)
      case Chunk(t, at, data) => (Append(t, at, data, now), true)
      case End(t, total, crc) =>
        if finished then (this, t == id && total == |bytes|)
        else if !receiving then (this, false)
        else if t != id || total != |bytes| || (expectedTotal > 0 && total != expectedTotal)
                || crc != Crc32.Checksum(bytes)
        then (Fail(8, now), false)
        else (this.(receiving := false, finished := true, completed := true, completedKind := requestedKind,
                    retryAfter := retryAfter[requestedKind := 0], lastError := 0), true)
      case Error(_, code) => (Fail(code, now), false)
      case Ack(_, _) => (this, false)
    }

    function Append(t: u16, at: u32, data: seq<byte>, now: nat): Client
      requires Valid()
    {
      if !receiving then this
      else if t != id || |bytes| + |data| > MAX_BYTES then Fail(7, now)
      else if at != |bytes| then this
      else if |bytes| + |data| > capacity then Fail(7, now)
      else this.(bytes := bytes + data, started := now)
    }

    /** What append returns: the chunk was appended, or was there already. */
    predicate HasOrTakes(t: u16, at: u32, data: seq<byte>)
      requires Valid()
    {
      && receiving && t == id && |bytes| + |data| <= MAX_BYTES
      && if at < |bytes| then at + |data| <= |bytes| && bytes[at..at + |data|] == data
         else at == |bytes| && |bytes| + |data| <= capacity
    }

    /** send_ack */
    function Answer(): Option<Msg>
      requires Valid()
    {
      if receiving || finished then Some(Ack(id, |bytes|)) else None
    }

    function Tick(now: nat): Client
      requires |retryAfter| == 5
    {
      if Active() && now - started > STALL_MS then Fail(10, now) else this
    }

    function Take(): (Client, bool) {
      (this.(completed := false), completed)
    }

    /** release_completed_bytes */
    function Release(): Client {
      if Active() then this else this.(bytes := [], capacity := 0)
    }
  }

  /** A failure holds back the kind that failed and no other: a photo or cover never
      delays the radar. */
  lemma OtherKindsMayAsk(c: Client, error: byte, now: nat, k: Kind, later: nat)
    requires |c.retryAfter| == 5 && k != 0 && c.available
    ensures var f := c.Fail(error, now);
            |f.retryAfter| == 5
            && (k != f.failedKind ==> (f.Request(k, later, true).1 <==> c.retryAfter[k] <= later))
            && (k == f.failedKind ==> (f.Request(k, later, true).1 <==>
                  later >= now + (if error == 3 then (if k == RADAR then 2000 else 30000)
                                  else if k == RADAR then 750 else 5000)))
  {
  }

  // ---------------------------------------------------- what the bridge decides

  /** When a download starts: nothing of the last one may be left. */
  lemma StartsIff(s: Server, urlFits: bool, created: bool, now: nat)
    ensures var (t, started) := s.Start(urlFits, created, now);
            var free := urlFits && !s.active && s.pending == None && s.queue == [];
            && (started <==> free && created)
            && (started ==> t.active && t.task == Opening)
            && (free ==> !t.abort && t.queue == [] && t.lastProgress == now && t.id != 0
                         && (t.id == s.id + 1 || (s.id == 65535 && t.id == 1)))
            && (!free ==> t == s)
  {
  }

  /** What a poll does: it gives a busy bridge up that made no progress for 12 s; else it
      sends the pending item, or the first that waits, unless its answer has been awaited
      for less than 40 ms or the link refuses. */
  lemma PollIff(s: Server, now: nat, linkUp: bool)
    ensures var (t, msg) := s.Poll(now, linkUp);
            var busy := s.active || s.pending.Some? || s.queue != [];
            var stalled := busy && s.lastProgress != 0 && now - s.lastProgress > STALL_MS;
            && (stalled ==> t.abort && t.pending == None && t.queue == [] && !t.awaiting)
            && (!stalled ==> t.abort == s.abort)
            && (msg.Some? <==> !stalled && linkUp && (s.pending.Some? || s.queue != [])
                               && !(s.pending.Some? && s.awaiting && now - s.lastSend < RETRANSMIT_MS))
            && (msg.Some? ==> msg.value == (if s.pending.Some? then s.pending.value else s.queue[0])
                              && t.lastSend == now
                              && if msg.value.Error? then t.pending == None else t.pending == msg && t.awaiting)
  {
  }

  /** What follows the attempt to open the URL: an ERROR with the code of the failure, 4 for an
      image that is too long, else the BEGIN. */
  lemma OpenDecides(s: Server, e: Event)
    requires s.task.Opening?
    ensures var t := s.Work(e).task;
            match e
            case CannotOpen(code) => t.Queueing? && t.item == Error(s.id, code) && !t.tested
            case Opened(length) =>
              t.Queueing? && !t.tested
              && t.item == if length > MAX_BYTES then Error(s.id, 4) else Begin(s.id, if length > 0 then length else 0)
            case _ => t == s.task
  {
  }

  /** An item is refused once the transfer is given up; for a chunk the download task then
      offers an ERROR, after anything else it leaves. */
  lemma RefusedIff(s: Server)
    requires s.task.Queueing? && !s.task.tested
    ensures var t := s.Work(TestAbort).task;
            if !s.abort then t == s.task.(tested := true)
            else if s.task.item.Chunk? then t.Queueing? && t.item == Error(s.id, 5) && !t.tested
            else t == Leaving
  {
  }

  // ---------------------------------------------------- what the S3 decides

  /** When a request goes out. */
  lemma AsksIff(c: Client, k: Kind, now: nat, linkUp: bool)
    requires |c.retryAfter| == 5
    ensures var (d, asked) := c.Request(k, now, linkUp);
            && (asked <==> k != 0 && c.available && !c.waiting && !c.receiving && now >= c.retryAfter[k] && linkUp)
            && (if asked then d.waiting && d.requestedKind == k && d.started == now else d == c)
  {
  }

  /** The client has given up what it was doing, with this error, and holds this kind back. */
  ghost predicate GaveUp(c: Client, d: Client, error: byte, now: nat)
    requires |c.retryAfter| == 5
  {
    && !d.waiting && !d.receiving && !d.completed && !d.finished && d.bytes == [] && d.capacity == 0
    && d.failurePending && d.lastError == error && d.requestedKind == 0 && |d.retryAfter| == 5
    && (c.requestedKind != 0 ==> d.failedKind == c.requestedKind
                                 && d.retryAfter[c.requestedKind] == now + Cooldown(error, c.requestedKind))
  }

  /** A waiting client takes up whatever transfer begins, if it is not too long and there is
      memory for it. */
  lemma TakenUpIff(c: Client, m: Msg, memory: bool, now: nat)
    requires c.Valid() && c.waiting && !c.receiving && m.Begin?
    ensures var d := c.Receive(m, memory, now).0;
            if m.total > MAX_BYTES then GaveUp(c, d, 4, now)
            else if !memory then GaveUp(c, d, 14, now)
            else d.receiving && !d.waiting && d.id == m.id && d.expectedTotal == m.total && d.bytes == []
                 && d.capacity == (if m.total > 0 then m.total else MAX_BYTES) && d.started == now
                 && d.requestedKind == c.requestedKind
  {
  }

  /** A client that is receiving gives the transfer up for a chunk of another one or for
      bytes beyond what it can hold, for an END that does not close what it has, and for
      any ERROR; any other frame leaves what it has in place. */
  lemma DroppedIff(c: Client, m: Msg, memory: bool, now: nat)
    requires c.Valid() && c.receiving && !c.waiting && !c.finished
    ensures var d, n := c.Receive(m, memory, now).0, |c.bytes|;
            match m
            case Begin(t, _) => d == c
            case Chunk(t, at, data) =>
              if t != c.id || n + |data| > MAX_BYTES || (at == n && n + |data| > c.capacity) then GaveUp(c, d, 7, now)
              else d.receiving && d.id == c.id && d.bytes == if at == n then c.bytes + data else c.bytes
            case End(t, total, crc) =>
              if t != c.id || total != n || (c.expectedTotal > 0 && total != c.expectedTotal)
                 || crc != Crc32.Checksum(c.bytes)
              then GaveUp(c, d, 8, now)
              else d.completed && d.finished && !d.receiving && d.bytes == c.bytes && d.id == c.id
                   && d.completedKind == c.requestedKind && d.retryAfter[c.requestedKind] == 0
            case Error(_, code) => GaveUp(c, d, code, now)
            case Ack(_, _) => d == c
  {
  }

  /** Appending succeeds exactly if the client then holds the bytes of the chunk where they belong. */
  lemma GoodMeansHeld(c: Client, t: u16, at: u32, data: seq<byte>, now: nat)
    requires c.Valid()
    ensures var d := c.Append(t, at, data, now);
            c.HasOrTakes(t, at, data)
            <==> d.receiving && d.id == t && at + |data| <= |d.bytes| && d.bytes[at..at + |data|] == data
  {
  }

  /** A completed image is handed over once; its bytes stay until they are released. */
  lemma TakenOnce(c: Client)
    requires c.Valid() && c.completed && !c.waiting && !c.receiving
    ensures var (d, taken) := c.Take();
            && taken && !d.Take().1 && d.bytes == c.bytes
            && d.Release().bytes == [] && d.Release().capacity == 0
  {
  }
}
