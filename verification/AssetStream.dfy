// What the download task offers last, and that an image gets through: whatever the pieces
// it arrives in and whether or not its length was announced.
module AssetStream {
  import opened AssetMessages
  import opened AssetTransfer
  import opened AssetProtocol
  import opened Bytes
  import opened Wrappers
  import AssetRuns
  import Crc32

  // ------------------------------------------------------ what a read leads to

  /** The length the response announced, if it did, is the number of bytes read. */
  predicate LengthFits(declared: nat, n: nat) {
    declared == 0 || declared == n
  }

  /** What the read after `offset` bytes makes the download task queue: a chunk of what it
      got; the END exactly if the response is complete and not empty and has the length it
      announced; else an ERROR, 5 after a failure and 6 for a wrong length. */
  lemma ReadDecides(s: Server, fetch: Fetch)
    requires s.task.Streaming?
    ensures var t, offset, whole := s.Work(Fetched(fetch)).task, s.task.offset, fetch == Nothing(true);
            var cut := if offset >= MAX_BYTES then !whole else fetch.Failed?;
            && (t.Queueing? && t.item.End? <==> whole && offset > 0 && LengthFits(s.task.declared, offset))
            && (t.Queueing? && t.item == Error(s.id, 5) <==> cut)
            && (t.Queueing? && t.item == Error(s.id, 6)
                <==> whole && !(offset > 0 && LengthFits(s.task.declared, offset)))
            && (t.Queueing? && t.item.Chunk?
                <==> offset < MAX_BYTES && fetch.Got? && 0 < |fetch.data| <= CHUNK_BYTES)
            && (!t.Queueing? ==> t == s.task)
            && (t.Queueing? && t.item.End? ==> t.item == End(s.id, offset, Crc32.Number(s.task.crc)))
            && (t.Queueing? && t.item.Chunk? ==> t.item == Chunk(s.id, offset, fetch.data))
  {
  }

  /** The length the present transfer announced. */
  predicate Announced(task: Task, produced: seq<Msg>) {
    match task
    case Opening => produced == []
    case Streaming(_, _, declared) => BegunWith(produced, declared)
    case Queueing(item, _, _, declared, _) =>
      if item.Begin? then produced == [] && item.total == declared
      else item.Error? || BegunWith(produced, declared)
    case _ => true
  }

  predicate BegunWith(produced: seq<Msg>, declared: nat) {
    produced != [] && produced[0].Begin? && produced[0].total == declared
  }

  lemma ReadKeepsAnnounced(server: Server, e: Event, produced: seq<Msg>)
    requires (server.task.Opening? || server.task.Streaming?) && Announced(server.task, produced)
    ensures Announced(server.Work(e).task, produced)
  {
  }

  lemma PushKeepsAnnounced(server: Server, e: Event, produced: seq<Msg>)
    requires Pushed(server, e).Some? && Announced(server.task, produced)
    ensures Announced(server.Work(e).task, produced + [server.task.item])
  {
  }

  lemma RefusalKeepsAnnounced(server: Server, e: Event, produced: seq<Msg>)
    requires !server.task.Opening? && !server.task.Streaming? && Pushed(server, e).None?
    requires Announced(server.task, produced)
    ensures Announced(server.Work(e).task, produced)
  {
  }

  lemma WorkKeepsAnnounced(s: Sys, e: Event)
    requires Announced(s.server.task, s.produced)
    ensures Announced(Worked(s, e).server.task, Worked(s, e).produced)
  {
    if Pushed(s.server, e).Some? {
      PushKeepsAnnounced(s.server, e, s.produced);
    } else if s.server.task.Opening? || s.server.task.Streaming? {
      ReadKeepsAnnounced(s.server, e, s.produced);
    } else {
      RefusalKeepsAnnounced(s.server, e, s.produced);
    }
  }

  lemma StepKeepsAnnounced(s: Sys, a: Action, t: Sys)
    requires Safe(s) && Step(s, a, t) && Announced(s.server.task, s.produced)
    ensures Announced(t.server.task, t.produced)
  {
    if a.Work? {
      WorkKeepsAnnounced(s, a.event);
    } else if a.Start? {
      StartIsAnnounced(s, a.kind, a.urlFits, a.created);
    } else {
      ElseKeepsTask(s, a);
    }
  }

  lemma StartIsAnnounced(s: Sys, kind: Kind, urlFits: bool, created: bool)
    requires Safe(s) && Announced(s.server.task, s.produced)
    ensures var t := Started(s, kind, urlFits, created); Announced(t.server.task, t.produced)
  {
  }

  lemma ElseKeepsTask(s: Sys, a: Action)
    requires s.client.Valid() && Enabled(s, a) && !a.Work? && !a.Start?
    ensures Apply(s, a).server.task == s.server.task && Apply(s, a).produced == s.produced
  {
  }

  lemma {:induction false} AlwaysAnnounced(states: seq<Sys>, acts: seq<Action>, i: nat)
    requires Run(states, acts) && i < |states|
    ensures Announced(states[i].server.task, states[i].produced)
  {
    if i > 0 {
      AlwaysAnnounced(states, acts, i - 1);
      Reachable(states, acts, i - 1);
      StepKeepsAnnounced(states[i - 1], acts[i - 1], states[i - 1 + 1]);
    }
  }

  predicate OffersEnd(task: Task, id: u16, bytes: seq<byte>) {
    && task.Queueing? && task.item.End? && task.item.id == id
    && task.item.total == |bytes| && task.item.crc == Crc32.Checksum(bytes)
  }

  /** In every run: reading on offers the END, with length and checksum of all the bytes
      queued, exactly if the response is complete, brought some bytes, and brought as many as
      the BEGIN of this transfer announced, if it announced any. */
  lemma EndOfferedIff(states: seq<Sys>, acts: seq<Action>, i: nat)
    requires Run(states, acts) && i < |acts| && states[i].server.task.Streaming?
    requires acts[i].Work? && acts[i].event.Fetched?
    ensures var s := states[i]; s.produced != [] && s.produced[0].Begin? && s.server.id in s.fetched
    ensures var s, bytes := states[i], states[i].fetched[states[i].server.id];
            OffersEnd(states[i + 1].server.task, s.server.id, bytes)
            <==> acts[i].event.fetch == Nothing(true) && bytes != [] && LengthFits(s.produced[0].total, |bytes|)
  {
    Reachable(states, acts, i);
    AlwaysAnnounced(states, acts, i);
    assert Step(states[i], acts[i], states[i + 1]);
    ReadDecides(states[i].server, acts[i].event.fetch);
  }

  // ---------------------------------------------------------- without losses

  /** The bridge is at work on a transfer, and nothing of it is under way. */
  ghost predicate Steady(s: Sys) {
    && s.client.Valid() && s.server.queue == [] && s.server.pending == None && !s.server.awaiting
    && s.server.active && !s.server.abort && !s.server.Stalled(s.now)
  }

  /** This item is about to be queued, and the S3 will take and acknowledge it. */
  ghost predicate Due(s: Sys, client: Client, held: nat) {
    && held <= MAX_BYTES && Steady(s) && s.server.task.Queueing? && !s.server.task.tested && !s.server.task.item.Error?
    && !s.server.task.item.Ack? && s.server.task.item.id == s.server.id
    && s.client.Receive(s.server.task.item, true, s.now) == (client, true)
    && client.Valid() && client.Answer() == Some(Ack(s.server.id, held))
    && held == match s.server.task.item
               case Chunk(_, offset, data) => offset + |data|
               case End(_, total, _) => total
               case _ => 0
  }

  /** Queued, sent, delivered and acknowledged. */
  ghost predicate Passed(s: Sys, client: Client, u: Sys) {
    && s.server.task.Queueing? && u.client == client && u.now == s.now
    && u.server == s.server.(task := s.server.Queued(), lastSend := s.now, lastProgress := s.now)
  }

  /** The item goes into the queue and out again. */
  lemma ItemSent(s: Sys, client: Client, held: nat) returns (a: Sys, b: Sys, c: Sys)
    requires Due(s, client, held)
    ensures Step(s, Work(TestAbort), a) && Step(a, Work(Push), b) && Step(b, Poll(true), c)
    ensures s.server.task.item in c.down && c.client == s.client && c.now == s.now
    ensures c.server == s.server.(task := s.server.Queued(), pending := Some(s.server.task.item), awaiting := true,
                                  lastSend := s.now)
  {
    a := Worked(s, TestAbort);
    b := Worked(a, Push);
    c := Polled(b, true);
  }

  /** It is taken, and its acknowledgement too. */
  lemma ItemTaken(s: Sys, client: Client, held: nat, c: Sys) returns (d: Sys, answer: Answer, u: Sys)
    requires Due(s, client, held) && s.server.task.item in c.down && c.client == s.client && c.now == s.now
    requires c.server == s.server.(task := s.server.Queued(), pending := Some(s.server.task.item), awaiting := true,
                                   lastSend := s.now)
    ensures Step(c, Deliver(s.server.task.item, true), d) && Step(d, Accept(answer), u) && Passed(s, client, u)
  {
    d := Delivered(c, s.server.task.item, true);
    answer := Answer(Ack(s.server.id, held), client.bytes);
    u := Accepted(d, answer.ack);
  }

  lemma RunItem(states: seq<Sys>, acts: seq<Action>, client: Client, held: nat)
    returns (more: seq<Sys>, done: seq<Action>)
    requires Run(states, acts) && Due(states[|acts|], client, held)
    ensures Run(more, done) && states <= more && acts <= done && Passed(states[|acts|], client, more[|done|])
  {
    var s := states[|acts|];
    var a, b, c := ItemSent(s, client, held);
    var d, answer, u := ItemTaken(s, client, held, c);
    more, done := AssetRuns.Extend(states, acts, Work(TestAbort), a);
    more, done := AssetRuns.Extend(more, done, Work(Push), b);
    more, done := AssetRuns.Extend(more, done, Poll(true), c);
    more, done := AssetRuns.Extend(more, done, Deliver(s.server.task.item, true), d);
    more, done := AssetRuns.Extend(more, done, Accept(answer), u);
  }

  /** `data` is with the S3, and the download task has nothing else yet. */
  ghost predicate InStream(s: Sys, data: seq<byte>, declared: nat) {
    && Steady(s) && s.server.lastProgress == s.now && |data| < MAX_BYTES + CHUNK_BYTES
    && s.server.task == Streaming(|data|, Crc32.Update(Crc32.ZERO, data), declared)
    && s.client.receiving && s.client.id == s.server.id && s.client.bytes == data && !s.client.finished
    && s.client.expectedTotal == declared
    && s.client.capacity == if declared > 0 then declared else MAX_BYTES
  }

  /** The image can be had: not empty, not too long, and as long as announced. */
  predicate Servable(all: seq<byte>, declared: nat) {
    0 < |all| <= MAX_BYTES && LengthFits(declared, |all|)
  }

  lemma BeginDue(s: Sys, length: int) returns (t: Sys, client: Client)
    requires Steady(s) && s.server.task == Opening && length <= MAX_BYTES
    requires s.client.waiting && !s.client.receiving
    ensures Step(s, Work(AssetTransfer.Opened(length)), t) && Due(t, client, 0) && t.now == s.now
    ensures var declared := if length > 0 then length else 0;
            && client.receiving && client.id == s.server.id && client.bytes == [] && !client.waiting
            && client.finished == s.client.finished && client.requestedKind == s.client.requestedKind
            && client.expectedTotal == declared && client.capacity == (if declared > 0 then declared else MAX_BYTES)
            && t.server == s.server.(task := Queueing(Begin(s.server.id, declared), 0, Crc32.ZERO, declared, false))
  {
    t := Worked(s, AssetTransfer.Opened(length));
    client := t.client.Receive(t.server.task.item, true, t.now).0;
  }

  lemma ChunkDue(s: Sys, data: seq<byte>, declared: nat, piece: seq<byte>) returns (t: Sys, client: Client)
    requires InStream(s, data, declared) && 0 < |piece| <= CHUNK_BYTES && |data + piece| <= MAX_BYTES
    requires declared > 0 ==> |data + piece| <= declared
    ensures Step(s, Work(Fetched(Got(piece))), t) && Due(t, client, |data + piece|) && t.now == s.now
    ensures client == s.client.(bytes := data + piece, started := s.now)
    ensures t.server == s.server.(task := Queueing(Chunk(s.server.id, |data|, piece), |data + piece|,
                                                   Crc32.Update(Crc32.ZERO, data + piece), declared, false))
  {
    Crc32.UpdateConcat(Crc32.ZERO, data, piece);
    t := Worked(s, Fetched(Got(piece)));
    client := s.client.(bytes := data + piece, started := s.now);
  }

  lemma EndDue(s: Sys, data: seq<byte>, declared: nat) returns (t: Sys, client: Client)
    requires InStream(s, data, declared) && Servable(data, declared)
    ensures Step(s, Work(Fetched(Nothing(true))), t) && Due(t, client, |data|) && t.now == s.now
    ensures client.completed && client.bytes == data && client.completedKind == s.client.requestedKind
    ensures t.server.task.item.End? && t.server == s.server.(task := t.server.task)
  {
    t := Worked(s, Fetched(Nothing(true)));
    client := t.client.Receive(t.server.task.item, true, t.now).0;
  }

  lemma RunBegin(states: seq<Sys>, acts: seq<Action>, length: int) returns (more: seq<Sys>, done: seq<Action>)
    requires Run(states, acts) && Steady(states[|acts|]) && states[|acts|].server.task == Opening
    requires states[|acts|].client.waiting && !states[|acts|].client.receiving && !states[|acts|].client.finished
    requires length <= MAX_BYTES
    ensures Run(more, done) && states <= more && acts <= done
    ensures InStream(more[|done|], [], if length > 0 then length else 0)
    ensures more[|done|].client.requestedKind == states[|acts|].client.requestedKind
    ensures more[|done|].server.id == states[|acts|].server.id
  {
    var t, client := BeginDue(states[|acts|], length);
    more, done := AssetRuns.Extend(states, acts, Work(AssetTransfer.Opened(length)), t);
    more, done := RunItem(more, done, client, 0);
    Crc32.UpdateNothing(Crc32.ZERO);
  }

  lemma RunChunk(states: seq<Sys>, acts: seq<Action>, data: seq<byte>, declared: nat, piece: seq<byte>)
    returns (more: seq<Sys>, done: seq<Action>)
    requires Run(states, acts) && InStream(states[|acts|], data, declared)
    requires 0 < |piece| <= CHUNK_BYTES && |data + piece| <= MAX_BYTES && (declared > 0 ==> |data + piece| <= declared)
    ensures Run(more, done) && states <= more && acts <= done && InStream(more[|done|], data + piece, declared)
    ensures more[|done|].client.requestedKind == states[|acts|].client.requestedKind
    ensures more[|done|].server.id == states[|acts|].server.id
  {
    var t, client := ChunkDue(states[|acts|], data, declared, piece);
    more, done := AssetRuns.Extend(states, acts, Work(Fetched(Got(piece))), t);
    more, done := RunItem(more, done, client, |data + piece|);
  }

  /** The rest of the image, piece by piece. */
  lemma {:induction false} RunChunks(states: seq<Sys>, acts: seq<Action>, data: seq<byte>, declared: nat,
                                     pieces: seq<seq<byte>>)
    returns (more: seq<Sys>, done: seq<Action>)
    requires Run(states, acts) && InStream(states[|acts|], data, declared)
    requires forall p :: p in pieces ==> 0 < |p| <= CHUNK_BYTES
    requires |data + Concat(pieces)| <= MAX_BYTES && (declared > 0 ==> |data + Concat(pieces)| <= declared)
    ensures Run(more, done) && states <= more && acts <= done
    ensures InStream(more[|done|], data + Concat(pieces), declared)
    ensures more[|done|].client.requestedKind == states[|acts|].client.requestedKind
    ensures more[|done|].server.id == states[|acts|].server.id
    decreases |pieces|
  {
    if pieces == [] {
      assert data + Concat(pieces) == data;
      more, done := states, acts;
    } else {
      assert data + Concat(pieces) == data + pieces[0] + Concat(pieces[1..]);
      more, done := RunChunk(states, acts, data, declared, pieces[0]);
      more, done := RunChunks(more, done, data + pieces[0], declared, pieces[1..]);
    }
  }

  /** The image has arrived, and the bridge is free for the next. */
  ghost predicate Arrived(s: Sys, all: seq<byte>, id: u16, kind: Kind) {
    && s.client.completed && s.client.bytes == all && s.client.id == id && s.client.completedKind == kind
    && !s.server.Busy()
  }

  lemma RunEnd(states: seq<Sys>, acts: seq<Action>, data: seq<byte>, declared: nat)
    returns (more: seq<Sys>, done: seq<Action>)
    requires Run(states, acts) && InStream(states[|acts|], data, declared) && Servable(data, declared)
    ensures Run(more, done) && states <= more && acts <= done
    ensures Arrived(more[|done|], data, states[|acts|].server.id, states[|acts|].client.requestedKind)
  {
    var t, client := EndDue(states[|acts|], data, declared);
    more, done := AssetRuns.Extend(states, acts, Work(Fetched(Nothing(true))), t);
    more, done := RunItem(more, done, client, |data|);
    var u := TaskLeaves(more[|done|]);
    more, done := AssetRuns.Extend(more, done, Work(Exit), u);
  }

  lemma TaskLeaves(s: Sys) returns (u: Sys)
    requires s.client.Valid() && s.server.task == Leaving && s.server.queue == [] && s.server.pending == None
    ensures Step(s, Work(Exit), u) && !u.server.Busy() && u.client == s.client
  {
    u := Worked(s, Exit);
  }

  /** Whatever pieces an image arrives in, and whether its length was announced or not: if
      nothing is lost or late, the S3 that waits for it completes with exactly its bytes, filed
      under what it asked for, and the bridge is done. */
  lemma LosslessCompletes(states: seq<Sys>, acts: seq<Action>, length: int, pieces: seq<seq<byte>>)
    returns (more: seq<Sys>, done: seq<Action>)
    requires Run(states, acts) && Steady(states[|acts|]) && states[|acts|].server.task == Opening
    requires states[|acts|].client.waiting && !states[|acts|].client.receiving && !states[|acts|].client.finished
    requires forall p :: p in pieces ==> 0 < |p| <= CHUNK_BYTES
    requires 0 < |Concat(pieces)| <= MAX_BYTES && (length <= 0 || length == |Concat(pieces)|)
    ensures Run(more, done) && states <= more && acts <= done
    ensures Arrived(more[|done|], Concat(pieces), states[|acts|].server.id, states[|acts|].client.requestedKind)
  {
    var declared := if length > 0 then length else 0;
    more, done := RunBegin(states, acts, length);
    assert [] + Concat(pieces) == Concat(pieces);
    more, done := RunChunks(more, done, [], declared, pieces);
    more, done := RunEnd(more, done, Concat(pieces), declared);
  }

  /** So it happens, from the very start, for every kind of image. */
  lemma ImageArrives(k: Kind, length: int, pieces: seq<seq<byte>>) returns (states: seq<Sys>, acts: seq<Action>)
    requires k != 0 && forall p :: p in pieces ==> 0 < |p| <= CHUNK_BYTES
    requires 0 < |Concat(pieces)| <= MAX_BYTES && (length <= 0 || length == |Concat(pieces)|)
    ensures Run(states, acts) && Arrived(states[|acts|], Concat(pieces), 1, k)
  {
    states, acts := AssetRuns.RunToOpened(k);
    states, acts := LosslessCompletes(states, acts, length, pieces);
  }

  // ------------------------------------------------------ after a failure

  /** The download has failed, and the ERROR is about to be queued. */
  ghost predicate Failing(s: Sys, code: byte) {
    Steady(s) && exists offset, crc, declared ::
                   s.server.task == Queueing(Error(s.server.id, code), offset, crc, declared, false)
  }

  /** The ERROR is queued and sent, and ends the transfer on both sides. */
  lemma ErrorSent(s: Sys, code: byte) returns (a: Sys, b: Sys, c: Sys, d: Sys, u: Sys)
    requires Failing(s, code)
    ensures var m := Error(s.server.id, code);
            && Step(s, Work(TestAbort), a) && Step(a, Work(Push), b) && Step(b, Poll(true), c)
            && Step(c, Deliver(m, true), d) && Step(d, Work(Exit), u)
    ensures GaveUp(s.client, u.client, code, s.now) && !u.server.Busy()
  {
    a := Worked(s, TestAbort);
    b := Worked(a, Push);
    c := Polled(b, true);
    d := Delivered(c, Error(s.server.id, code), true);
    u := Worked(d, Exit);
  }

  lemma RunError(states: seq<Sys>, acts: seq<Action>, code: byte) returns (more: seq<Sys>, done: seq<Action>)
    requires Run(states, acts) && Failing(states[|acts|], code)
    ensures Run(more, done) && states <= more && acts <= done && !more[|done|].server.Busy()
    ensures GaveUp(states[|acts|].client, more[|done|].client, code, states[|acts|].now)
  {
    var s := states[|acts|];
    var a, b, c, d, u := ErrorSent(s, code);
    more, done := AssetRuns.Extend(states, acts, Work(TestAbort), a);
    more, done := AssetRuns.Extend(more, done, Work(Push), b);
    more, done := AssetRuns.Extend(more, done, Poll(true), c);
    more, done := AssetRuns.Extend(more, done, Deliver(Error(s.server.id, code), true), d);
    more, done := AssetRuns.Extend(more, done, Work(Exit), u);
  }

  /** Whatever makes a download fail, with nothing lost the S3 learns the code and gives up,
      and the bridge is free for the next. */
  lemma FailureIsReported(states: seq<Sys>, acts: seq<Action>, e: Event, code: byte)
    returns (more: seq<Sys>, done: seq<Action>)
    requires Run(states, acts) && states[|acts|].client.Valid() && Failing(Worked(states[|acts|], e), code)
    ensures Run(more, done) && states <= more && acts + [Work(e)] <= done && !more[|done|].server.Busy()
    ensures GaveUp(states[|acts|].client, more[|done|].client, code, states[|acts|].now)
  {
    more, done := AssetRuns.Extend(states, acts, Work(e), Worked(states[|acts|], e));
    more, done := RunError(more, done, code);
  }

  /** Which failures there are, and with which code each is reported: those of the opening
      as they come, 4 for an image announced as too long, 5 for a read that fails, 6 for
      nothing or the wrong length. */
  lemma FailuresAre(s: Sys, e: Event)
    requires Steady(s)
    ensures s.server.task == Opening && e.CannotOpen? ==> Failing(Worked(s, e), e.code)
    ensures s.server.task == Opening && e.Opened? && e.length > MAX_BYTES ==> Failing(Worked(s, e), 4)
    ensures s.server.task.Streaming? && s.server.task.offset < MAX_BYTES && e == Fetched(Failed) ==>
              Failing(Worked(s, e), 5)
    ensures s.server.task.Streaming? && e == Fetched(Nothing(true))
            && (s.server.task.offset == 0 || !LengthFits(s.server.task.declared, s.server.task.offset)) ==>
              Failing(Worked(s, e), 6)
  {
    if s.server.task == Opening {
      OpeningFailures(s, e);
    }
  }

  lemma OpeningFailures(s: Sys, e: Event)
    requires Steady(s) && s.server.task == Opening
    ensures e.CannotOpen? ==> Failing(Worked(s, e), e.code)
    ensures e.Opened? && e.length > MAX_BYTES ==> Failing(Worked(s, e), 4)
  {
  }

  // ------------------------------------------------------- after giving up

  /** The next step of a download task whose transfer was given up. */
  function WayOut(task: Task): Event {
    match task
    case Opening => CannotOpen(2)
    case Streaming(_, _, _) => Fetched(Failed)
    case Queueing(_, _, _, _, tested) => if tested then GiveUp else TestAbort
    case _ => Exit
  }

  /** A bound on these steps. */
  function WayLeft(task: Task): nat {
    match task
    case Opening => 3
    case Streaming(_, _, _) => 3
    case Queueing(item, _, _, _, _) => if item.Chunk? then 3 else 2
    case Leaving => 1
    case Resting => 0
  }

  lemma OnTheWayOut(s: Sys)
    requires s.client.Valid() && s.server.abort && s.server.task != Resting
    ensures var t := Worked(s, WayOut(s.server.task));
            && Step(s, Work(WayOut(s.server.task)), t) && WayLeft(t.server.task) < WayLeft(s.server.task)
            && t.server.abort && t.client == s.client
            && t.server.queue == s.server.queue && t.server.pending == s.server.pending
  {
  }

  /** Once a transfer is given up, its download task can leave within three steps, wherever it
      stands; with nothing left in the queue the bridge is then free for the next. */
  lemma {:induction false} GivenUpTaskLeaves(states: seq<Sys>, acts: seq<Action>)
    returns (more: seq<Sys>, done: seq<Action>)
    requires Run(states, acts) && states[|acts|].server.abort
    requires states[|acts|].server.queue == [] && states[|acts|].server.pending == None
    ensures Run(more, done) && states <= more && acts <= done && |done| <= |acts| + 3 && !more[|done|].server.Busy()
    ensures |done| <= |acts| + WayLeft(states[|acts|].server.task)
    decreases WayLeft(states[|acts|].server.task)
  {
    var s := states[|acts|];
    Reachable(states, acts, |acts|);
    more, done := states, acts;
    if s.server.task != Resting {
      OnTheWayOut(s);
      more, done := AssetRuns.Extend(states, acts, Work(WayOut(s.server.task)), Worked(s, WayOut(s.server.task)));
      more, done := GivenUpTaskLeaves(more, done);
    }
  }

  // ------------------------------------------------------- after a loss

  /** The client is where this item, or its repetition, finds it: it is to come, or it has
      come already and only its acknowledgement was lost. */
  ghost predicate InPlace(c: Client, m: Msg) {
    match m
    case Begin(id, total) =>
      (c.receiving && c.id == id && c.bytes == []) || (c.waiting && !c.receiving && total <= MAX_BYTES)
    case Chunk(id, offset, data) =>
      && c.receiving && c.id == id && offset + |data| <= c.capacity
      && (|c.bytes| == offset || |c.bytes| == offset + |data|)
    case End(id, total, crc) =>
      && c.id == id && |c.bytes| == total
      && (c.finished || (c.receiving && LengthFits(c.expectedTotal, total) && crc == Crc32.Checksum(c.bytes)))
    case _ => false
  }

  /** The client has this chunk already, and to add it once more would exceed the limit. */
  predicate Cramped(c: Client, m: Msg) {
    m.Chunk? && |c.bytes| == m.offset + |m.data| && m.data != [] && |c.bytes| + |m.data| > MAX_BYTES
  }

  /** A frame or an answer lost costs a repetition and nothing else, but for one case: the
      bridge sends the pending item again, the client answers it whether or not it has it
      already, and the bridge accepts the answer, exactly unless it repeats a chunk at the end
      of an image that is within a chunk of the limit. Then the client drops the transfer. */
  lemma LossIsRepairedIff(s: Sys, m: Msg)
    requires s.client.Valid() && s.server.pending == Some(m) && InPlace(s.client, m)
    requires !s.server.Stalled(s.now) && (s.server.awaiting ==> s.now - s.server.lastSend >= RETRANSMIT_MS)
    ensures s.server.Poll(s.now, true).1 == Some(m) && s.client.Receive(m, true, s.now).0.Valid()
    ensures var (server, client) := (s.server.Poll(s.now, true).0, s.client.Receive(m, true, s.now).0);
            if Cramped(s.client, m) then client.lastError == 7 && !client.receiving && client.bytes == []
            else client.Answer().Some? && server.Acknowledge(client.Answer().value, s.now).1
                 && s.client.Receive(m, true, s.now).1
                 && (m.Chunk? && m.data != [] ==> |client.bytes| == m.offset + |m.data|)
  {
  }

  /** The answer to a chunk is lost, and the chunk comes again. */
  lemma Repeated(c: Sys, client: Client, m: Msg) returns (d: Sys, e: Sys, f: Sys, g: Sys, h: Sys)
    requires c.client.Valid() && client.Valid() && m in c.down && c.client.Receive(m, true, c.now) == (client, true)
    requires c.server.pending == Some(m) && !m.Error? && c.server.awaiting && c.server.lastSend == c.now
    requires !c.server.Stalled(c.now + RETRANSMIT_MS) && InPlace(client, m) && Cramped(client, m)
    ensures Step(c, Deliver(m, true), d) && Step(d, Lose({}, d.up), e) && Step(e, Tick(c.now + RETRANSMIT_MS), f)
    ensures Step(f, Poll(true), g) && Step(g, Deliver(m, true), h) && d.client == client
    ensures h.client.lastError == 7 && !h.client.receiving && h.client.bytes == []
  {
    d := Delivered(c, m, true);
    e := d.(down := d.down - {}, up := d.up - d.up);
    f := e.(now := c.now + RETRANSMIT_MS);
    g := Polled(f, true);
    LossIsRepairedIff(f, m);
    h := Delivered(g, m, true);
  }

  /** So near the limit one lost answer costs the image. */
  lemma RunCramped(states: seq<Sys>, acts: seq<Action>, data: seq<byte>, declared: nat, piece: seq<byte>)
    returns (more: seq<Sys>, done: seq<Action>, i: nat)
    requires Run(states, acts) && InStream(states[|acts|], data, declared)
    requires 0 < |piece| <= CHUNK_BYTES && |data + piece| <= MAX_BYTES && (declared > 0 ==> |data + piece| <= declared)
    requires |data + piece| + |piece| > MAX_BYTES
    ensures Run(more, done) && i + 4 == |done| && done[i].Lose? && more[i].client.bytes == data + piece
    ensures var c := more[|done|].client; c.lastError == 7 && !c.receiving && c.bytes == []
  {
    var t, c, client, m;
    more, done, t, c, client, m := RunSent(states, acts, data, declared, piece);
    var d, e, f, g, h := Repeated(c, client, m);
    more, done := AssetRuns.Extend(more, done, Deliver(m, true), d);
    i := |done|;
    more, done := RunRepeated(more, done, m, e, f, g, h);
  }

  /** The next chunk is queued and sent. */
  lemma RunSent(states: seq<Sys>, acts: seq<Action>, data: seq<byte>, declared: nat, piece: seq<byte>)
    returns (more: seq<Sys>, done: seq<Action>, t: Sys, c: Sys, client: Client, m: Msg)
    requires Run(states, acts) && InStream(states[|acts|], data, declared)
    requires 0 < |piece| <= CHUNK_BYTES && |data + piece| <= MAX_BYTES && (declared > 0 ==> |data + piece| <= declared)
    ensures Run(more, done) && more[|done|] == c && c.client.Valid() && client.Valid() && client.bytes == data + piece
    ensures m in c.down && m == Chunk(c.server.id, |data|, piece)
    ensures c.client.Receive(m, true, c.now) == (client, true)
    ensures c.server.pending == Some(m) && c.server.awaiting && c.server.lastSend == c.now
    ensures !c.server.Stalled(c.now + RETRANSMIT_MS) && InPlace(client, m)
  {
    t, client := ChunkDue(states[|acts|], data, declared, piece);
    m := t.server.task.item;
    var a, b;
    a, b, c := ItemSent(t, client, |data + piece|);
    more, done := AssetRuns.Extend(states, acts, Work(Fetched(Got(piece))), t);
    more, done := AssetRuns.Extend(more, done, Work(TestAbort), a);
    more, done := AssetRuns.Extend(more, done, Work(Push), b);
    more, done := AssetRuns.Extend(more, done, Poll(true), c);
  }

  lemma RunRepeated(states: seq<Sys>, acts: seq<Action>, m: Msg, e: Sys, f: Sys, g: Sys, h: Sys)
    returns (more: seq<Sys>, done: seq<Action>)
    requires Run(states, acts) && Step(states[|acts|], Lose({}, states[|acts|].up), e)
    requires Step(e, Tick(f.now), f) && Step(f, Poll(true), g) && Step(g, Deliver(m, true), h)
    ensures Run(more, done) && states <= more && |done| == |acts| + 4 && done[|acts|].Lose? && more[|done|] == h
  {
    more, done := AssetRuns.Extend(states, acts, Lose({}, states[|acts|].up), e);
    more, done := AssetRuns.Extend(more, done, Tick(f.now), f);
    more, done := AssetRuns.Extend(more, done, Poll(true), g);
    more, done := AssetRuns.Extend(more, done, Deliver(m, true), h);
  }

  lemma {:induction false} EqualPieces(pieces: seq<seq<byte>>, n: nat)
    requires forall p :: p in pieces ==> |p| == n
    ensures |Concat(pieces)| == |pieces| * n
    decreases |pieces|
  {
    if pieces != [] {
      EqualPieces(pieces[1..], n);
      assert |pieces| * n == (|pieces| - 1) * n + n;
    }
  }

  lemma AlmostFull() returns (pieces: seq<seq<byte>>, last: seq<byte>)
    ensures (forall p :: p in pieces ==> 0 < |p| <= CHUNK_BYTES) && 0 < |last| <= CHUNK_BYTES
    ensures |Concat(pieces)| + |last| == MAX_BYTES
  {
    var piece := seq(CHUNK_BYTES, _ => 7 as byte);
    pieces, last := seq(2818, _ => piece), seq(140, _ => 7 as byte);
    EqualPieces(pieces, CHUNK_BYTES);
  }

  /** It happens, with an image of 512 KiB: one answer is lost, and the image with it. */
  lemma LargeImageIsLost(k: Kind) returns (states: seq<Sys>, acts: seq<Action>, i: nat)
    requires k != 0
    ensures Run(states, acts) && i < |acts| && acts[i].Lose? && |states[i].client.bytes| == MAX_BYTES
    ensures var c := states[|acts|].client; c.lastError == 7 && !c.receiving && c.bytes == []
  {
    var pieces, last := AlmostFull();
    states, acts := AssetRuns.RunToOpened(k);
    states, acts := RunBegin(states, acts, 0);
    assert [] + Concat(pieces) == Concat(pieces);
    states, acts := RunChunks(states, acts, [], 0, pieces);
    states, acts, i := RunCramped(states, acts, Concat(pieces), 0, last);
  }
}
