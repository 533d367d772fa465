// The objects of the image transfer: buffer, server and client, and the chunk loop of
// the download task.
module AssetProxies {
  import opened AssetMessages
  import opened AssetTransfer
  import opened Bytes
  import opened Frames
  import opened Wrappers
  import P = AssetProtocol
  import Crc32

  /** The heap block the S3 collects an image in. */
  class AssetBuffer {
    var data: array?<byte>
    var size: nat

    ghost predicate Valid()
      reads this
    {
      if data == null then size == 0 else size <= data.Length <= MAX_BYTES
    }

    ghost function Capacity(): nat
      reads this
    {
      if data == null then 0 else data.Length
    }

    ghost function Contents(): seq<byte>
      requires Valid()
      reads this, data
    {
      if data == null then [] else data[..size]
    }

    constructor ()
      ensures Valid() && Contents() == [] && Capacity() == 0 && data == null
    {
      data, size := null, 0;
    }

    method Clear()
      modifies this
      ensures Valid() && Contents() == [] && Capacity() == 0 && data == null
    {
      data, size := null, 0;
    }

    /** allocate, with the outcome of the heap given. */
    method Allocate(capacity: nat, memory: bool) returns (ok: bool)
      modifies this
      ensures Valid() && Contents() == [] && ok == (0 < capacity <= MAX_BYTES && memory)
      ensures Capacity() == if ok then capacity else 0
      ensures data != null ==> fresh(data)
    {
      Clear();
      if capacity == 0 || capacity > MAX_BYTES || !memory {
        return false;
      }
      data := new byte[capacity];
      return true;
    }

    method Append(piece: seq<byte>) returns (ok: bool)
      requires Valid()
      modifies this`size, data
      ensures Valid() && Capacity() == old(Capacity())
      ensures ok == (data != null && |old(Contents())| + |piece| <= Capacity())
      ensures Contents() == if ok then old(Contents()) + piece else old(Contents())
    {
      if data == null || size + |piece| > data.Length {
        return false;
      }
      forall i | 0 <= i < |piece| {
        data[size + i] := piece[i];
      }
      size := size + |piece|;
      return true;
    }
  }

  class AssetClient {
    const buffer: AssetBuffer
    var available: bool
    var waiting: bool
    var receiving: bool
    var finished: bool
    var completed: bool
    var failurePending: bool
    var id: u16
    var expectedTotal: u32
    var started: nat
    var retryAfter: seq<nat>
    var lastError: byte
    var requestedKind: Kind
    var completedKind: Kind
    var failedKind: Kind

    ghost predicate Valid()
      reads this, buffer
    {
      buffer.Valid() && |retryAfter| == 5
    }

    ghost function Abs(): Client
      requires Valid()
      reads this, buffer, buffer.data
    {
      Client(available, waiting, receiving, finished, completed, failurePending, id, expectedTotal, started, retryAfter,
             lastError, requestedKind, completedKind, failedKind, buffer.Contents(), buffer.Capacity())
    }

    constructor ()
      ensures Valid() && Abs().Valid() && !Abs().Active() && fresh(buffer) && buffer.data == null
    {
      buffer := new AssetBuffer();
      available, waiting, receiving, finished, completed, failurePending := false, false, false, false, false, false;
      id, expectedTotal, started, retryAfter, lastError := 0, 0, 0, [0, 0, 0, 0, 0], 0;
      requestedKind, completedKind, failedKind := 0, 0, 0;
    }

    method Fail(error: byte, now: nat)
      requires Valid()
      modifies this, buffer
      ensures Valid() && Abs() == old(Abs()).Fail(error, now)
    {
      HoldBack(error, now);
      DropTransfer();
      failurePending, requestedKind := true, 0;
    }

    /** The cooldown of the kind that failed. */
    method HoldBack(error: byte, now: nat)
      requires |retryAfter| == 5
      modifies `retryAfter, `failedKind, `lastError
      ensures lastError == error
      ensures failedKind == if old(requestedKind) != 0 then old(requestedKind) else old(completedKind)
      ensures retryAfter == if failedKind == 0 then old(retryAfter)
                            else old(retryAfter)[failedKind := now + Cooldown(error, failedKind)]
    {
      var k := if requestedKind != 0 then requestedKind else completedKind;
      var radar := k == RADAR;
      var cooldown := if error == 3 then (if radar then 2000 else 30000) else if radar then 750 else 5000;
      if k != 0 {
        retryAfter := retryAfter[k := now + cooldown];
      }
      failedKind, lastError := k, error;
    }

    method DropTransfer()
      requires Valid()
      modifies this, buffer
      ensures Valid()
      ensures Abs() == old(Abs()).(waiting := false, receiving := false, completed := false, finished := false,
                                   bytes := [], capacity := 0)
    {
      waiting, receiving, completed, finished := false, false, false, false;
      buffer.Clear();
    }

    method SetAvailable(a: bool)
      requires Valid()
      modifies this, buffer
      ensures Valid() && Abs() == old(Abs()).SetAvailable(a)
    {
      available := a;
      if !a {
        DropTransfer();
        requestedKind, completedKind, failedKind := 0, 0, 0;
      }
    }

    method Request(k: Kind, now: nat, linkUp: bool) returns (sent: bool)
      requires Valid()
      modifies this
      ensures Valid() && (Abs(), sent) == old(Abs()).Request(k, now, linkUp)
    {
      if k == 0 || !available || waiting || receiving || now < retryAfter[k] || !linkUp {
        return false;
      }
      requestedKind, waiting, started, failurePending, finished := k, true, now, false, false;
      completedKind, failedKind := 0, 0;
      return true;
    }

    method Begin(payload: seq<byte>, memory: bool, now: nat) returns (answer: bool)
      requires Valid()
      modifies this, buffer
      ensures Valid()
      ensures var m := Read(RADAR_BEGIN, payload);
              if m.Some? then (Abs(), answer) == old(Abs()).Receive(m.value, memory, now)
              else !answer && Abs() == old(Abs())
    {
      if |payload| != 6 {
        return false;
      }
      var t := ReadU16(payload, 0);
      if receiving && t == id {
        return true;
      }
      if !waiting {
        return false;
      }
      var total := ReadU32(payload, 2);
      if total > MAX_BYTES {
        Fail(4, now);
        return false;
      }
      answer := Prepare(t, total, memory, now);
    }

    method Prepare(t: u16, total: u32, memory: bool, now: nat) returns (answer: bool)
      requires Valid() && waiting && total <= MAX_BYTES && !(receiving && t == id)
      modifies this, buffer
      ensures Valid() && (Abs(), answer) == old(Abs()).Receive(AssetMessages.Begin(t, total), memory, now)
    {
      id, expectedTotal := t, total;
      var obtained := buffer.Allocate(if total > 0 then total else MAX_BYTES, memory);
      if !obtained {
        Fail(14, now);
        return false;
      }
      waiting, receiving, started := false, true, now;
      return true;
    }

    method Append(payload: seq<byte>, now: nat) returns (good: bool)
      requires Valid()
      modifies this, buffer, buffer.data
      ensures Valid()
      ensures var m := Read(RADAR_CHUNK, payload);
              Abs() == if m.Some? then old(Abs()).Receive(m.value, true, now).0 else old(Abs())
      ensures var m := Read(RADAR_CHUNK, payload);
              good == (m.Some? && old(Abs()).HasOrTakes(m.value.id, m.value.offset, m.value.data))
    {
      if |payload| < 7 || !receiving {
        return false;
      }
      var t, at, length := ReadU16(payload, 0), ReadU32(payload, 2), |payload| - 6;
      if t != id || buffer.size + length > MAX_BYTES {
        Fail(7, now);
        return false;
      }
      if at != buffer.size {
        return at < buffer.size && at + length <= buffer.size && buffer.data != null
               && buffer.data[at..at + length] == payload[6..];
      }
      good := buffer.Append(payload[6..]);
      if !good {
        Fail(7, now);
        return;
      }
      started := now;
    }

    method Finish(payload: seq<byte>, now: nat) returns (answer: bool)
      requires Valid()
      modifies this, buffer
      ensures Valid()
      ensures var m := Read(RADAR_END, payload);
              if m.Some? then (Abs(), answer) == old(Abs()).Receive(m.value, true, now)
              else !answer && Abs() == old(Abs())
    {
      if |payload| != 10 {
        return false;
      }
      var t, total := ReadU16(payload, 0), ReadU32(payload, 2);
      if finished {
        return t == id && total == buffer.size;
      }
      if !receiving {
        return false;
      }
      var expected := ReadU32(payload, 6);
      var bytes := if buffer.data == null then [] else buffer.data[..buffer.size];
      var actual := Crc32.ComputeChecksum(bytes);
      answer := Conclude(!(t != id || total != |bytes| || (expectedTotal > 0 && total != expectedTotal)
                           || expected != actual), now);
    }

    method Conclude(good: bool, now: nat) returns (answer: bool)
      requires Valid()
      modifies this, buffer
      ensures Valid() && answer == good
      ensures var c := old(Abs());
              Abs() == if good then c.(receiving := false, finished := true, completed := true, lastError := 0,
                                       completedKind := c.requestedKind,
                                       retryAfter := c.retryAfter[c.requestedKind := 0])
                       else c.Fail(8, now)
    {
      if !good {
        Fail(8, now);
        return false;
      }
      receiving, finished, completed, completedKind := false, true, true, requestedKind;
      retryAfter, lastError := retryAfter[completedKind := 0], 0;
      return true;
    }

    /** send_ack: the payload handed to the link. */
    method SendAck() returns (payload: Option<seq<byte>>)
      requires Valid() && Abs().Valid()
      ensures var a := Abs().Answer(); payload == if a.Some? then Some(Print(a.value)) else None
    {
      if !receiving && !finished {
        return None;
      }
      return Some(U16(id) + U32(buffer.size));
    }

    method RemoteError(payload: seq<byte>, now: nat)
      requires Valid()
      modifies this, buffer
      ensures Valid()
      ensures Abs() == old(Abs()).Fail(if |payload| >= 3 then payload[2] else 9, now)
    {
      lastError := if |payload| >= 3 then payload[2] else 9;
      Fail(lastError, now);
    }

    method Tick(now: nat)
      requires Valid()
      modifies this, buffer
      ensures Valid() && Abs() == old(Abs()).Tick(now)
    {
      if (waiting || receiving) && now - started > STALL_MS {
        Fail(10, now);
      }
    }

    method TakeCompleted() returns (taken: bool)
      requires Valid()
      modifies this
      ensures Valid() && (Abs(), taken) == old(Abs()).Take()
    {
      taken := completed;
      completed := false;
    }

    method ReleaseCompletedBytes()
      requires Valid()
      modifies buffer
      ensures Valid() && Abs() == old(Abs()).Release()
    {
      if !waiting && !receiving {
        buffer.Clear();
      }
    }
  }

  /** The bridge's side. `task` remembers where the download task stands, which the
      original keeps on that task's stack. */
  class AssetServer {
    var queue: seq<Msg>
    var pending: Option<Msg>
    var awaiting: bool
    var active: bool
    var abort: bool
    var id: u16
    var lastSend: nat
    var lastProgress: nat
    ghost var task: Task

    ghost function Abs(): Server
      reads this
    {
      Server(queue, pending, awaiting, active, abort, id, lastSend, lastProgress, task)
    }

    constructor ()
      ensures Abs() == Server([], None, false, false, false, 0, 0, 0, Resting)
    {
      queue, pending, awaiting, active, abort, id, lastSend, lastProgress := [], None, false, false, false, 0, 0, 0;
      task := Resting;
    }

    method Busy() returns (busy: bool)
      ensures busy == Abs().Busy()
    {
      busy := active || pending.Some? || |queue| > 0;
    }

    method Start(url: seq<byte>, created: bool, now: nat) returns (started: bool)
      modifies this
      ensures (Abs(), started) == old(Abs()).Start(0 < |url| < 513, created, now)
    {
      var busy := Busy();
      if url == [] || |url| >= 513 || busy {
        return false;
      }
      queue, abort, lastProgress := [], false, now;
      id := if id == 65535 then 0 else id + 1;
      if id == 0 {
        id := 1;
      }
      if created {
        active, task := true, Opening;
      }
      return created;
    }

    method GiveUp()
      modifies this
      ensures Abs() == old(Abs()).(abort := true, pending := None, awaiting := false, queue := [])
    {
      abort, pending, awaiting, queue := true, None, false, [];
    }

    /** xQueueReceive into the pending item. */
    method Pop()
      requires pending.None? && queue != []
      modifies `pending, `queue, `awaiting
      ensures pending == Some(old(queue)[0]) && queue == old(queue)[1..] && !awaiting
    {
      pending, queue, awaiting := Some(queue[0]), queue[1..], false;
    }

    /** poll_send: the type and payload of the frame handed to the link, if one was. */
    method PollSend(now: nat, linkUp: bool) returns (sent: bool, kind: byte, payload: seq<byte>)
      modifies this
      ensures var (s, m) := old(Abs()).Poll(now, linkUp);
              Abs() == s && sent == m.Some? && (sent ==> kind == Type(m.value) && payload == Print(m.value))
    {
      sent, kind, payload := false, 0, [];
      var busy := Busy();
      if busy && lastProgress != 0 && now - lastProgress > STALL_MS {
        GiveUp();
        return;
      }
      if pending.Some? && awaiting && now - lastSend < RETRANSMIT_MS {
        return;
      }
      if pending.None? {
        if queue == [] {
          return;
        }
        Pop();
      }
      if !linkUp {
        return;
      }
      sent, kind, payload := true, Type(pending.value), Print(pending.value);
      lastSend := now;
      if pending.value.Error? {
        pending := None;
      } else {
        awaiting := true;
      }
    }

    /** acknowledge */
    method Acknowledge(frame: Frame, now: nat) returns (accepted: bool)
      modifies this
      ensures var m := Read(frame.kind, frame.payload);
              if m.Some? && m.value.Ack?
              then (Abs(), accepted) == old(Abs()).Acknowledge(m.value, now)
              else !accepted && Abs() == old(Abs())
    {
      if frame.kind != RADAR_ACK || |frame.payload| != 6 || pending.None? || !awaiting {
        return false;
      }
      var t, next := ReadU16(frame.payload, 0), ReadU32(frame.payload, 2);
      var expected := 0;
      if pending.value.Chunk? {
        expected := pending.value.offset + |pending.value.data|;
      } else if pending.value.End? {
        expected := pending.value.total;
      }
      if t != pending.value.id || next != expected {
        return false;
      }
      pending, awaiting, lastProgress := None, false, now;
      return true;
    }

    /** The steps of enqueue_: the test of the abort flag, the push, the way out. */
    method TestAbort() returns (go: bool)
      requires task.Queueing? && !task.tested
      modifies `task
      ensures go == !abort && Abs() == old(Abs()).Work(AssetTransfer.TestAbort)
    {
      go := !abort;
      task := Abs().Work(AssetTransfer.TestAbort).task;
    }

    method Push(item: Msg) returns (pushed: bool)
      requires task.Queueing? && task.tested && task.item == item
      modifies `queue, `task
      ensures pushed == (|old(queue)| < QUEUE_ITEMS) && Abs() == old(Abs()).Work(AssetTransfer.Push)
    {
      pushed := |queue| < QUEUE_ITEMS;
      task := Abs().Work(AssetTransfer.Push).task;
      if pushed {
        queue := queue + [item];
      }
    }
  }

  /** All the bytes the HTTP client handed out. */
  function BytesOf(fetches: seq<Fetch>): seq<byte> {
    if fetches == [] then []
    else
      var last := fetches[|fetches| - 1];
      BytesOf(fetches[..|fetches| - 1]) + if last.Got? then last.data else []
  }

  lemma BytesOfNext(fetches: seq<Fetch>, i: nat)
    requires i < |fetches|
    ensures BytesOf(fetches[..i + 1]) == BytesOf(fetches[..i]) + if fetches[i].Got? then fetches[i].data else []
  {
    assert fetches[..i + 1][..i] == fetches[..i];
  }

  /** This read fails, or its chunk cannot be queued. */
  predicate Breaks(fetch: Fetch, accepted: bool) {
    fetch.Failed? || (fetch.Got? && !accepted)
  }

  /** The loop ends with the last of these reads: it broke, or all was received, or the
      limit is reached. */
  predicate Ended(fetches: seq<Fetch>, accepts: seq<bool>)
    requires |accepts| == |fetches|
  {
    |BytesOf(fetches)| >= MAX_BYTES
    || (fetches != []
        && var last := |fetches| - 1; Breaks(fetches[last], accepts[last]) || fetches[last] == Nothing(true))
  }

  /** No read failed, no chunk was refused, and the response is complete. */
  predicate Whole(fetches: seq<Fetch>, accepts: seq<bool>, complete: bool)
    requires |accepts| == |fetches|
  {
    && (fetches == [] || !Breaks(fetches[|fetches| - 1], accepts[|fetches| - 1]))
    && (|BytesOf(fetches)| >= MAX_BYTES ==> complete)
  }

  predicate EndedAt(fetches: seq<Fetch>, accepts: seq<bool>, n: nat)
    requires n <= |accepts| == |fetches|
  {
    Ended(fetches[..n], accepts[..n])
  }

  /** The item offered after these reads: an END, with length and checksum of all their
      bytes, exactly if the response is whole, not empty, and as long as announced, if it
      was; else an ERROR, 5 if it is not whole and 6 if it has the wrong length. */
  predicate Last(fetches: seq<Fetch>, accepts: seq<bool>, complete: bool, id: u16, declared: u32, last: Msg)
    requires |accepts| == |fetches|
  {
    var bytes := BytesOf(fetches);
    if !Whole(fetches, accepts, complete) then last == Error(id, 5)
    else if bytes == [] || (declared != 0 && declared != |bytes|) then last == Error(id, 6)
    else last.End? && last.id == id && last.total == |bytes| && last.crc == Crc32.Checksum(bytes)
  }

  /** The chunk loop of download_task_ and what follows it, for what the HTTP client
      returns and for whether each chunk could be queued: the items queued from BEGIN on,
      the item offered last, and the number of reads. The loop ends with the first read it
      can end with. */
  method Download(id: u16, declared: u32, fetches: seq<Fetch>, accepts: seq<bool>, complete: bool)
    returns (queued: seq<Msg>, last: Option<Msg>, taken: nat)
    requires |accepts| == |fetches|
    requires forall f :: f in fetches && f.Got? ==> 0 < |f.data| <= CHUNK_BYTES
    ensures taken <= |fetches| && forall n :: 0 <= n < taken ==> !EndedAt(fetches, accepts, n)
    ensures last == None <==> !EndedAt(fetches, accepts, taken)
    ensures last == None ==> taken == |fetches|
    ensures P.Script(queued) && P.Open(queued) && queued[0] == Begin(id, declared)
    ensures last.Some? && last.value.End? ==>
              P.Script(queued + [last.value]) && P.Data(queued) == BytesOf(fetches[..taken])
    ensures last.Some? ==> Last(fetches[..taken], accepts[..taken], complete, id, declared, last.value)
  {
    ghost var data := [];
    queued := [Begin(id, declared)];
    var offset, crc: Crc32.Word, failed, ended := 0, Crc32.ZERO, false, false;
    taken := 0;
    OnlyBegin(id, declared);
    while !ended && !failed && offset < MAX_BYTES && taken < |fetches|
      invariant offset == |data| < MAX_BYTES + CHUNK_BYTES && Scripted(queued, data, id, declared)
      invariant Reading(fetches, accepts, taken, data, failed, ended)
      invariant !failed ==> crc == Crc32.Update(Crc32.ZERO, data)
    {
      ghost var before, fetch := data, fetches[taken];
      failed, ended, queued, offset, crc, data :=
        ReadOne(id, declared, queued, offset, crc, data, fetches[taken], accepts[taken]);
      ReadingNext(fetches, accepts, taken, before, fetch, data, failed, ended);
      taken := taken + 1;
    }
    HowItEnded(fetches, accepts, taken, data, failed, ended);
    if !ended && !failed && offset < MAX_BYTES {
      return queued, None, taken;
    }
    last := OfferLast(id, declared, queued, offset, crc, data, failed, complete);
    WhatItOffers(fetches, accepts, taken, complete, data, failed, ended, id, declared, last.value);
  }

  /** The items queued so far, from the BEGIN on, and their bytes. */
  ghost predicate Scripted(queued: seq<Msg>, data: seq<byte>, id: u16, declared: u32) {
    P.Script(queued) && P.Open(queued) && queued[0] == Begin(id, declared) && data == P.Data(queued)
  }

  lemma OnlyBegin(id: u16, declared: u32)
    ensures Scripted([Begin(id, declared)], [], id, declared)
    ensures Crc32.Update(Crc32.ZERO, []) == Crc32.ZERO && BytesOf([]) == []
  {
    P.ScriptGrows([], Begin(id, declared), []);
    P.DataGrows([], Begin(id, declared));
    Crc32.UpdateNothing(Crc32.ZERO);
    assert [] + [Begin(id, declared)] == [Begin(id, declared)];
  }

  /** One turn of the loop. */
  method ReadOne(id: u16, ghost declared: u32, queued: seq<Msg>, offset: nat, crc: Crc32.Word, ghost data: seq<byte>,
                 fetch: Fetch, accepted: bool)
    returns (failed: bool, ended: bool, more: seq<Msg>, next: nat, crc': Crc32.Word, ghost all: seq<byte>)
    requires Scripted(queued, data, id, declared) && offset == |data| < MAX_BYTES
    requires crc == Crc32.Update(Crc32.ZERO, data) && (fetch.Got? ==> 0 < |fetch.data| <= CHUNK_BYTES)
    ensures failed == Breaks(fetch, accepted) && ended == (fetch == Nothing(true))
    ensures Scripted(more, all, id, declared) && next == |all| < MAX_BYTES + CHUNK_BYTES
    ensures !failed ==> all == data + (if fetch.Got? then fetch.data else []) && crc' == Crc32.Update(Crc32.ZERO, all)
  {
    failed, ended, more, next, crc', all := false, false, queued, offset, crc, data;
    match fetch
    case Failed => failed := true;
    case Nothing(complete) =>
      ended := complete;
      assert data + [] == data;
    case Got(piece) =>
      var chunk := Chunk(id, offset, piece);
      crc' := Crc32.ComputeUpdate(crc, piece);
      if !accepted {
        failed := true;
        return;
      }
      ChunkQueued(queued, data, chunk);
      more, all, next := queued + [chunk], data + piece, offset + |piece|;
  }

  /** What follows the loop. */
  method OfferLast(id: u16, declared: u32, ghost queued: seq<Msg>, offset: nat, crc: Crc32.Word, ghost data: seq<byte>,
                   failed: bool, complete: bool)
    returns (last: Option<Msg>)
    requires Scripted(queued, data, id, declared) && offset == |data| < MAX_BYTES + CHUNK_BYTES
    requires !failed ==> crc == Crc32.Update(Crc32.ZERO, data)
    ensures last == Some(if failed || (|data| >= MAX_BYTES && !complete) then Error(id, 5)
                         else if data == [] || (declared != 0 && declared != |data|) then Error(id, 6)
                         else End(id, |data|, Crc32.Checksum(data)))
    ensures last.value.End? ==> P.Script(queued + [last.value])
  {
    var broken := failed || (offset >= MAX_BYTES && !complete);
    if broken || offset == 0 || (declared > 0 && offset != declared) {
      return Some(Error(id, if broken then 5 else 6));
    }
    last := Some(End(id, offset, Crc32.Number(crc)));
    P.ScriptGrows(queued, last.value, data);
  }

  /** How the loop ended, in terms of the reads. */
  lemma HowItEnded(fetches: seq<Fetch>, accepts: seq<bool>, n: nat, data: seq<byte>, failed: bool, ended: bool)
    requires |accepts| == |fetches| && Reading(fetches, accepts, n, data, failed, ended)
    ensures !failed ==> (EndedAt(fetches, accepts, n) <==> ended || |data| >= MAX_BYTES)
    ensures failed ==> EndedAt(fetches, accepts, n)
  {
    if n > 0 {
      LastRead(fetches, accepts, n);
    }
  }

  lemma WhatItOffers(fetches: seq<Fetch>, accepts: seq<bool>, n: nat, complete: bool, data: seq<byte>, failed: bool,
                     ended: bool, id: u16, declared: u32, last: Msg)
    requires |accepts| == |fetches| && Reading(fetches, accepts, n, data, failed, ended)
    requires |data| < MAX_BYTES + CHUNK_BYTES
    requires last == if failed || (|data| >= MAX_BYTES && !complete) then Error(id, 5)
                     else if data == [] || (declared != 0 && declared != |data|) then Error(id, 6)
                     else End(id, |data|, Crc32.Checksum(data))
    ensures Last(fetches[..n], accepts[..n], complete, id, declared, last)
  {
    if n > 0 {
      LastRead(fetches, accepts, n);
    }
  }

  lemma LastRead(fetches: seq<Fetch>, accepts: seq<bool>, n: nat)
    requires |accepts| == |fetches| && 0 < n <= |fetches|
    ensures fetches[..n] != [] && fetches[..n][n - 1] == fetches[n - 1] && accepts[..n][n - 1] == accepts[n - 1]
  {
  }

  /** Where the loop stands after n reads, none of which but perhaps the last has ended it. */
  ghost predicate Reading(fetches: seq<Fetch>, accepts: seq<bool>, n: nat, data: seq<byte>, failed: bool, ended: bool)
    requires |accepts| == |fetches|
  {
    && n <= |fetches| && (forall k :: 0 <= k < n ==> !EndedAt(fetches, accepts, k))
    && failed == (n > 0 && Breaks(fetches[n - 1], accepts[n - 1]))
    && ended == (n > 0 && fetches[n - 1] == Nothing(true)) && (!failed ==> data == BytesOf(fetches[..n]))
  }

  lemma ReadingNext(fetches: seq<Fetch>, accepts: seq<bool>, n: nat, data: seq<byte>, fetch: Fetch, all: seq<byte>,
                    failed: bool, ended: bool)
    requires |accepts| == |fetches| && n < |fetches| && fetch == fetches[n]
    requires Reading(fetches, accepts, n, data, false, false) && |data| < MAX_BYTES
    requires failed == Breaks(fetch, accepts[n]) && ended == (fetch == Nothing(true))
    requires !failed ==> all == data + if fetch.Got? then fetch.data else []
    ensures Reading(fetches, accepts, n + 1, all, failed, ended)
  {
    BytesOfNext(fetches, n);
    HowItEnded(fetches, accepts, n, data, false, false);
  }

  lemma ChunkQueued(queued: seq<Msg>, data: seq<byte>, chunk: Msg)
    requires P.Script(queued) && P.Open(queued) && data == P.Data(queued)
    requires chunk.Chunk? && chunk.offset == |data| && chunk.data != []
    ensures P.Script(queued + [chunk]) && P.Open(queued + [chunk]) && P.Data(queued + [chunk]) == data + chunk.data
    ensures Crc32.Update(Crc32.Update(Crc32.ZERO, data), chunk.data) == Crc32.Update(Crc32.ZERO, data + chunk.data)
  {
    P.ScriptGrows(queued, chunk, data);
    P.DataGrows(queued, chunk);
    Crc32.UpdateConcat(Crc32.ZERO, data, chunk.data);
  }
}
