// Download task, bounded queue, poll loop, S3 client and a network that may lose,
// duplicate, delay and reorder frames: what holds however their steps interleave.
module AssetProtocol {
  import opened AssetMessages
  import opened AssetTransfer
  import opened Bytes
  import opened Wrappers
  import Crc32

  /** An acknowledgement under way, with the client's buffer when it was sent. */
  datatype Answer = Answer(ack: Msg, held: seq<byte>)

  /** History: `produced` is what the download task of the present transfer put into the queue,
      `acked` the items whose acknowledgement was accepted, `fetched` the bytes queued
      under each id, `carried` the kind of image each id was started for, `ended` the ids
      whose END was queued. */
  datatype Sys = Sys(now: nat, server: Server, client: Client, down: set<Msg>, up: set<Answer>,
                     produced: seq<Msg>, acked: seq<Msg>, fetched: map<u16, seq<byte>>, carried: map<u16, Kind>,
                     ended: set<u16>)

  datatype Action =
    | Tick(later: nat)
    | Start(kind: Kind, urlFits: bool, created: bool)
    | Work(event: Event)
    | Poll(linkUp: bool)
    | Accept(answer: Answer)
    | Ask(kind: Kind, linkUp: bool)
    | Deliver(msg: Msg, memory: bool)
    | Busy
    | DecodeFailed
    | ClientTick
    | Available(up: bool)
    | Take
    | Release
    | Lose(msgs: set<Msg>, answers: set<Answer>)

  ghost predicate Initial(s: Sys) {
    && s.server.queue == [] && s.server.pending == None && !s.server.awaiting && !s.server.active && !s.server.abort
    && s.server.task == Resting && s.client.Valid()
    && !s.client.receiving && !s.client.finished && !s.client.completed
    && s.down == {} && s.up == {} && s.produced == [] && s.acked == []
    && s.fetched == map[s.server.id := []] && s.carried == map[s.server.id := 0] && s.ended == {}
  }

  /** No frame, answer or client buffer still refers to this id. */
  ghost predicate NoTrace(s: Sys, id: u16) {
    && (forall m :: m in s.down ==> m.id != id)
    && (forall a :: a in s.up ==> a.ack.id != id)
    && (s.client.receiving || s.client.finished || s.client.completed ==> s.client.id != id)
  }

  ghost predicate Enabled(s: Sys, a: Action) {
    match a
    case Tick(later) => s.now <= later
    // An id is not reused while a frame with it is still under way.
    case Start(_, _, _) => NoTrace(s, s.server.NextId())
    case Accept(answer) => answer in s.up && answer.ack.Ack?
    case Deliver(msg, _) => msg in s.down
    // The S3 loop takes a completed image before it asks for, or releases, another.
    case Ask(_, _) => !s.client.completed
    case Release => !s.client.completed
    case _ => true
  }

  /** A RADAR_REQUEST for a kind of image: its URL is downloaded. */
  function Started(s: Sys, kind: Kind, urlFits: bool, created: bool): Sys {
    var (server, _) := s.server.Start(urlFits, created, s.now);
    if server.id == s.server.id then s.(server := server)
    else s.(server := server, produced := [], acked := [], fetched := s.fetched[server.id := []],
            carried := s.carried[server.id := kind], ended := s.ended - {server.id})
  }

  /** The item the download task pushes in this step. */
  function Pushed(server: Server, e: Event): Option<Msg> {
    if server.task.Queueing? && server.task.tested && e.Push? && |server.queue| < QUEUE_ITEMS
    then Some(server.task.item) else None
  }

  function Grown(fetched: map<u16, seq<byte>>, m: Msg): map<u16, seq<byte>> {
    if m.Chunk? && m.id in fetched then fetched[m.id := fetched[m.id] + m.data] else fetched
  }

  function Worked(s: Sys, e: Event): Sys {
    var m := Pushed(s.server, e);
    var t := s.(server := s.server.Work(e));
    if m.None? then t
    else t.(produced := s.produced + [m.value], fetched := Grown(s.fetched, m.value),
            ended := if m.value.End? then s.ended + {m.value.id} else s.ended)
  }

  function Polled(s: Sys, linkUp: bool): Sys {
    var (server, msg) := s.server.Poll(s.now, linkUp);
    s.(server := server, down := if msg.Some? then s.down + {msg.value} else s.down)
  }

  function Accepted(s: Sys, ack: Msg): Sys
    requires ack.Ack?
  {
    var (server, accepted) := s.server.Acknowledge(ack, s.now);
    if accepted then s.(server := server, acked := s.acked + [s.server.pending.value]) else s
  }

  ghost function AnswersOf(client: Client): set<Answer> {
    if client.Valid() && client.Answer().Some? then {Answer(client.Answer().value, client.bytes)} else {}
  }

  ghost function Delivered(s: Sys, msg: Msg, memory: bool): Sys
    requires s.client.Valid()
  {
    var (client, answers) := s.client.Receive(msg, memory, s.now);
    s.(client := client, up := if answers then s.up + AnswersOf(client) else s.up)
  }

  ghost function Apply(s: Sys, a: Action): Sys
    requires s.client.Valid() && Enabled(s, a)
  {
    match a
    case Tick(later) => s.(now := later)
    case Start(kind, urlFits, created) => Started(s, kind, urlFits, created)
    case Work(e) => Worked(s, e)
    case Poll(linkUp) => Polled(s, linkUp)
    case Accept(answer) => Accepted(s, answer.ack)
    case Ask(kind, linkUp) => s.(client := s.client.Request(kind, s.now, linkUp).0)
    case Deliver(msg, memory) => Delivered(s, msg, memory)
    case Busy => s.(client := s.client.Fail(12, s.now))
    case DecodeFailed => s.(client := s.client.Fail(13, s.now))
    case ClientTick => s.(client := s.client.Tick(s.now))
    case Available(up) => s.(client := s.client.SetAvailable(up))
    case Take => s.(client := s.client.Take().0)
    case Release => s.(client := s.client.Release())
    case Lose(msgs, answers) => s.(down := s.down - msgs, up := s.up - answers)
  }

  // ------------------------------------------------------------- the script

  /** The bytes of the chunks in a list of items. */
  function Data(items: seq<Msg>): seq<byte> {
    if items == [] then []
    else
      var last := items[|items| - 1];
      Data(items[..|items| - 1]) + Piece(last)
  }

  /** After these items the download task may queue another. */
  predicate Open(items: seq<Msg>) {
    items != [] && (items[|items| - 1].Begin? || items[|items| - 1].Chunk?)
  }

  /** The item that may come next: BEGIN first, chunks at contiguous offsets, one END
      with length and checksum of all their bytes. */
  ghost predicate Follows(begun: bool, open: bool, data: seq<byte>, m: Msg) {
    match m
    case Begin(_, _) => !begun
    case Chunk(_, offset, piece) => open && offset == |data| && piece != []
    case End(_, total, crc) => open && total == |data| > 0 && crc == Crc32.Checksum(data)
    case Error(_, _) => open || !begun
    case Ack(_, _) => false
  }

  /** BEGIN, contiguous chunks, END; or cut short, perhaps by an ERROR. */
  ghost predicate Script(items: seq<Msg>) {
    items == []
    || (var rest := items[..|items| - 1];
        Script(rest) && Follows(rest != [], Open(rest), Data(rest), items[|items| - 1]))
  }

  function Piece(m: Msg): seq<byte> {
    if m.Chunk? then m.data else []
  }

  lemma DataGrows(items: seq<Msg>, m: Msg)
    ensures Data(items + [m]) == Data(items) + Piece(m)
  {
    assert (items + [m])[..|items|] == items;
  }

  lemma ScriptGrows(items: seq<Msg>, m: Msg, data: seq<byte>)
    requires Script(items) && data == Data(items) && Follows(items != [], Open(items), data, m)
    ensures Script(items + [m])
  {
    assert (items + [m])[..|items|] == items;
  }

  lemma {:induction false} ScriptPrefix(items: seq<Msg>, n: nat)
    requires Script(items) && n <= |items|
    ensures Script(items[..n])
  {
    if n == |items| {
      assert items[..n] == items;
    } else {
      var rest := items[..|items| - 1];
      ScriptPrefix(rest, n);
      assert rest[..n] == items[..n];
    }
  }

  // -------------------------------------------------------------- invariants

  function Waiting(server: Server): seq<Msg> {
    (if server.pending.Some? then [server.pending.value] else []) + server.queue
  }

  /** What is in the queue, pending, or about to be queued belongs to the present transfer. */
  ghost predicate OneTransfer(server: Server) {
    && (forall m :: m in server.queue ==> m.id == server.id)
    && (server.pending.Some? ==> server.pending.value.id == server.id)
    && (server.task.Queueing? ==> server.task.item.id == server.id)
  }

  /** Nobody acknowledges an ERROR. */
  ghost predicate NoErrorAcked(server: Server, acked: seq<Msg>) {
    && (server.pending.Some? && server.pending.value.Error? ==> !server.awaiting)
    && forall m :: m in acked ==> !m.Error?
  }

  /** The task carries offset and checksum of what it queued. */
  ghost predicate GoodTask(task: Task, begun: bool, open: bool, data: seq<byte>) {
    match task
    case Opening => !begun
    case Streaming(offset, crc, _) => open && offset == |data| && crc == Crc32.Update(Crc32.ZERO, data)
    case Queueing(item, offset, crc, _, _) =>
      && Follows(begun, open, data, item)
      && (item.Begin? ==> data == [] && offset == 0 && crc == Crc32.ZERO)
      && (item.Chunk? ==> offset == |data + item.data| && crc == Crc32.Update(Crc32.ZERO, data + item.data))
    case _ => true
  }

  ghost predicate GoodServer(s: Sys) {
    && |s.server.queue| <= QUEUE_ITEMS && OneTransfer(s.server)
    && (s.server.active <==> s.server.task != Resting)
    && Script(s.produced) && s.server.id in s.fetched && s.fetched[s.server.id] == Data(s.produced)
    && (s.produced == [] ==> s.fetched[s.server.id] == [])
    && GoodTask(s.server.task, s.produced != [], Open(s.produced), s.fetched[s.server.id])
    && (s.server.id in s.ended <==> s.produced != [] && s.produced[|s.produced| - 1].End?)
  }

  /** Nothing is lost on the way through the queue: acknowledged, pending and queued items
      are what the download task produced, but for an ERROR, which nobody acknowledges. Once the
      transfer is given up the acknowledged ones are still its beginning. */
  ghost predicate GoodQueue(s: Sys) {
    if s.server.abort then
      s.acked <= s.produced && s.server.pending == None && s.server.lastProgress != 0
      && s.now - s.server.lastProgress > STALL_MS
    else
      s.acked + Waiting(s.server) == s.produced
      || (s.produced != [] && s.produced[|s.produced| - 1].Error? && Waiting(s.server) == []
          && s.acked == s.produced[..|s.produced| - 1])
  }

  ghost predicate GoodMsg(fetched: map<u16, seq<byte>>, ended: set<u16>, m: Msg) {
    && m.id in fetched
    && match m
       case Chunk(id, offset, data) =>
         0 < |data| && offset + |data| <= |fetched[id]| && data == fetched[id][offset..offset + |data|]
       case End(id, total, crc) =>
         id in ended && total == |fetched[id]| > 0 && crc == Crc32.Checksum(fetched[id])
       case Ack(_, _) => false
       case _ => true
  }

  ghost predicate AllGood(fetched: map<u16, seq<byte>>, ended: set<u16>, msgs: set<Msg>) {
    forall m :: m in msgs ==> GoodMsg(fetched, ended, m)
  }

  ghost predicate GoodItems(fetched: map<u16, seq<byte>>, ended: set<u16>, items: seq<Msg>) {
    forall m :: m in items ==> GoodMsg(fetched, ended, m)
  }

  ghost predicate GoodClient(fetched: map<u16, seq<byte>>, ended: set<u16>, c: Client) {
    && c.Valid()
    && (c.receiving || c.finished || c.completed ==> c.id in fetched)
    && (c.receiving ==> c.bytes <= fetched[c.id] && !c.waiting && !c.finished && !c.completed)
    && (c.finished ==> c.id in ended && (c.bytes == fetched[c.id] || c.bytes == []))
    && (c.completed ==> c.id in ended && c.bytes == fetched[c.id])
    && (c.waiting ==> !c.finished && !c.completed)
  }

  ghost predicate GoodAnswer(fetched: map<u16, seq<byte>>, a: Answer) {
    a.ack.Ack? && a.ack.id in fetched && a.held <= fetched[a.ack.id] && |a.held| == a.ack.next
  }

  ghost predicate AllAnswersGood(fetched: map<u16, seq<byte>>, answers: set<Answer>) {
    forall a :: a in answers ==> GoodAnswer(fetched, a)
  }

  ghost predicate Safe(s: Sys) {
    && GoodServer(s) && GoodQueue(s) && GoodItems(s.fetched, s.ended, Waiting(s.server))
    && AllGood(s.fetched, s.ended, s.down) && GoodClient(s.fetched, s.ended, s.client)
    && AllAnswersGood(s.fetched, s.up) && NoErrorAcked(s.server, s.acked)
  }

  // ------------------------------------------------------------ the download

  lemma FetchKeepsTask(server: Server, data: seq<byte>, fetch: Fetch)
    requires server.task.Streaming? && GoodTask(server.task, true, true, data)
    ensures GoodTask(server.Work(Fetched(fetch)).task, true, true, data)
  {
    if fetch.Got? {
      Crc32.UpdateConcat(Crc32.ZERO, data, fetch.data);
    }
  }

  lemma EnqueueKeepsTask(server: Server, begun: bool, open: bool, data: seq<byte>, e: Event)
    requires server.task.Queueing? && GoodTask(server.task, begun, open, data) && Pushed(server, e).None?
    ensures GoodTask(server.Work(e).task, begun, open, data)
  {
  }

  lemma OpenKeepsTask(server: Server, begun: bool, open: bool, e: Event)
    requires server.task.Opening? && GoodTask(server.task, begun, open, [])
    ensures GoodTask(server.Work(e).task, begun, open, [])
  {
  }

  lemma WorkKeepsTask(server: Server, begun: bool, open: bool, data: seq<byte>, e: Event)
    requires GoodTask(server.task, begun, open, data) && Pushed(server, e).None?
    requires (open ==> begun) && (!begun ==> data == [])
    ensures GoodTask(server.Work(e).task, begun, open, data)
  {
    match server.task {
      case Streaming(_, _, _) => if e.Fetched? { FetchKeepsTask(server, data, e.fetch); }
      case Queueing(_, _, _, _, _) => EnqueueKeepsTask(server, begun, open, data, e);
      case Opening => OpenKeepsTask(server, begun, open, e);
      case _ =>
    }
  }

  lemma WorkIsOneTransfer(server: Server, e: Event)
    requires OneTransfer(server)
    ensures OneTransfer(server.Work(e))
  {
  }

  lemma PushKeepsTask(server: Server, begun: bool, open: bool, data: seq<byte>, e: Event)
    requires GoodTask(server.task, begun, open, data) && Pushed(server, e).Some?
    ensures var m := server.task.item;
            GoodTask(server.Work(e).task, true, m.Begin? || m.Chunk?, data + Piece(m))
  {
    if server.task.item.Begin? {
      Crc32.UpdateNothing(Crc32.ZERO);
      assert data + Piece(server.task.item) == [];
    }
  }

  // Queueing one more item: what was good stays good.

  ghost predicate MayGrow(fetched: map<u16, seq<byte>>, ended: set<u16>, m: Msg) {
    m.id in fetched && m.id !in ended
  }

  function Closed(ended: set<u16>, m: Msg): set<u16> {
    if m.End? then ended + {m.id} else ended
  }

  lemma GrowKeepsMsg(fetched: map<u16, seq<byte>>, ended: set<u16>, m: Msg, n: Msg)
    requires MayGrow(fetched, ended, m) && GoodMsg(fetched, ended, n)
    ensures GoodMsg(Grown(fetched, m), Closed(ended, m), n)
  {
    if m.Chunk? && n.Chunk? && n.id == m.id {
      var data := fetched[n.id];
      assert (data + m.data)[n.offset..n.offset + |n.data|] == data[n.offset..n.offset + |n.data|];
    }
  }

  lemma GrowKeepsClient(fetched: map<u16, seq<byte>>, ended: set<u16>, m: Msg, c: Client)
    requires MayGrow(fetched, ended, m) && GoodClient(fetched, ended, c)
    ensures GoodClient(Grown(fetched, m), Closed(ended, m), c)
  {
  }

  lemma GrowKeepsAnswers(fetched: map<u16, seq<byte>>, ended: set<u16>, m: Msg, answers: set<Answer>)
    requires MayGrow(fetched, ended, m) && AllAnswersGood(fetched, answers)
    ensures AllAnswersGood(Grown(fetched, m), answers)
  {
    forall a | a in answers ensures GoodAnswer(Grown(fetched, m), a) {
      assert GoodAnswer(fetched, a);
    }
  }

  lemma GrowKeepsMsgs(fetched: map<u16, seq<byte>>, ended: set<u16>, m: Msg, msgs: set<Msg>)
    requires MayGrow(fetched, ended, m) && AllGood(fetched, ended, msgs)
    ensures AllGood(Grown(fetched, m), Closed(ended, m), msgs)
  {
    forall n | n in msgs ensures GoodMsg(Grown(fetched, m), Closed(ended, m), n) {
      GrowKeepsMsg(fetched, ended, m, n);
    }
  }

  lemma GrowKeepsItems(fetched: map<u16, seq<byte>>, ended: set<u16>, m: Msg, items: seq<Msg>)
    requires MayGrow(fetched, ended, m) && GoodItems(fetched, ended, items)
    ensures GoodItems(Grown(fetched, m), Closed(ended, m), items)
  {
    forall n | n in items ensures GoodMsg(Grown(fetched, m), Closed(ended, m), n) {
      GrowKeepsMsg(fetched, ended, m, n);
    }
  }

  lemma NewItemIsGood(fetched: map<u16, seq<byte>>, ended: set<u16>, m: Msg, begun: bool, open: bool)
    requires MayGrow(fetched, ended, m) && Follows(begun, open, fetched[m.id], m)
    ensures GoodMsg(Grown(fetched, m), Closed(ended, m), m)
  {
    if m.Chunk? {
      var data := fetched[m.id];
      assert (data + m.data)[|data|..|data| + |m.data|] == m.data;
    }
  }

  lemma PushKeepsQueue(s: Sys, e: Event, m: Msg)
    requires GoodQueue(s) && Pushed(s.server, e) == Some(m)
    requires Open(s.produced) || s.produced == []
    ensures GoodQueue(Worked(s, e))
  {
    var t := Worked(s, e);
    if !s.server.abort {
      assert Waiting(t.server) == Waiting(s.server) + [m];
      assert t.acked + Waiting(t.server) == (s.acked + Waiting(s.server)) + [m];
    }
  }

  lemma ScriptAndDataGrow(items: seq<Msg>, m: Msg, data: seq<byte>)
    requires Script(items) && data == Data(items) && Follows(items != [], Open(items), data, m)
    ensures Script(items + [m]) && Data(items + [m]) == data + Piece(m)
    ensures Open(items + [m]) == (m.Begin? || m.Chunk?)
  {
    DataGrows(items, m);
    ScriptGrows(items, m, data);
  }

  lemma PushKeepsServer(s: Sys, e: Event, m: Msg)
    requires GoodServer(s) && Pushed(s.server, e) == Some(m) && s.server.id !in s.ended
    ensures GoodServer(Worked(s, e))
  {
    var data := s.fetched[s.server.id];
    WorkIsOneTransfer(s.server, e);
    PushKeepsTask(s.server, s.produced != [], Open(s.produced), data, e);
    ScriptAndDataGrow(s.produced, m, data);
    PushedServer(s, e, m, data, s.produced + [m]);
  }

  lemma PushedServer(s: Sys, e: Event, m: Msg, data: seq<byte>, after: seq<Msg>)
    requires |s.server.queue| <= QUEUE_ITEMS && (s.server.active <==> s.server.task != Resting)
    requires Pushed(s.server, e) == Some(m) && m.id == s.server.id && s.server.id !in s.ended
    requires s.server.id in s.fetched && s.fetched[s.server.id] == data
    requires OneTransfer(s.server.Work(e))
    requires GoodTask(s.server.Work(e).task, true, m.Begin? || m.Chunk?, data + Piece(m))
    requires after == s.produced + [m] && Script(after) && Data(after) == data + Piece(m)
    ensures GoodServer(Worked(s, e))
  {
    var t := Worked(s, e);
    assert t.fetched[t.server.id] == data + Piece(m);
    assert t.produced == after && after[|after| - 1] == m;
  }

  lemma PushIsSafe(s: Sys, e: Event, m: Msg)
    requires Safe(s) && Pushed(s.server, e) == Some(m)
    ensures Safe(Worked(s, e))
  {
    var t := Worked(s, e);
    assert Follows(s.produced != [], Open(s.produced), s.fetched[m.id], m);
    PushKeepsServer(s, e, m);
    PushKeepsQueue(s, e, m);
    PushKeepsMessages(s, e, m);
    GrowKeepsClient(s.fetched, s.ended, m, s.client);
    GrowKeepsAnswers(s.fetched, s.ended, m, s.up);
  }

  lemma PushKeepsMessages(s: Sys, e: Event, m: Msg)
    requires Pushed(s.server, e) == Some(m) && MayGrow(s.fetched, s.ended, m)
    requires Follows(s.produced != [], Open(s.produced), s.fetched[m.id], m)
    requires AllGood(s.fetched, s.ended, s.down) && GoodItems(s.fetched, s.ended, Waiting(s.server))
    ensures var t := Worked(s, e);
            AllGood(t.fetched, t.ended, t.down) && GoodItems(t.fetched, t.ended, Waiting(t.server))
  {
    var t := Worked(s, e);
    GrowKeepsMsgs(s.fetched, s.ended, m, s.down);
    GrowKeepsItems(s.fetched, s.ended, m, Waiting(s.server));
    NewItemIsGood(s.fetched, s.ended, m, s.produced != [], Open(s.produced));
    assert Waiting(t.server) == Waiting(s.server) + [m];
  }

  lemma WorkIsSafe(s: Sys, e: Event)
    requires Safe(s)
    ensures Safe(Worked(s, e))
  {
    var m := Pushed(s.server, e);
    if m.Some? {
      PushIsSafe(s, e, m.value);
    } else {
      WorkIsOneTransfer(s.server, e);
      WorkKeepsTask(s.server, s.produced != [], Open(s.produced), s.fetched[s.server.id], e);
      WorkKeepsRest(s.server, e);
    }
  }

  lemma WorkKeepsRest(server: Server, e: Event)
    requires Pushed(server, e).None? && (server.active <==> server.task != Resting)
    ensures var after := server.Work(e);
            after == server.(task := after.task, active := after.active) && (after.active <==> after.task != Resting)
  {
  }

  // ---------------------------------------------------------- the other steps

  /** What does not speak of an id does not mind its being used anew. */
  lemma NewIdKeepsMsgs(fetched: map<u16, seq<byte>>, ended: set<u16>, id: u16, msgs: set<Msg>)
    requires AllGood(fetched, ended, msgs) && forall m :: m in msgs ==> m.id != id
    ensures AllGood(fetched[id := []], ended - {id}, msgs)
  {
    forall m | m in msgs ensures GoodMsg(fetched[id := []], ended - {id}, m) {
      assert GoodMsg(fetched, ended, m);
    }
  }

  lemma NewIdKeepsAnswers(fetched: map<u16, seq<byte>>, id: u16, answers: set<Answer>)
    requires AllAnswersGood(fetched, answers) && forall a :: a in answers ==> a.ack.id != id
    ensures AllAnswersGood(fetched[id := []], answers)
  {
    forall a | a in answers ensures GoodAnswer(fetched[id := []], a) {
      assert GoodAnswer(fetched, a);
    }
  }

  lemma NewIdKeepsClient(fetched: map<u16, seq<byte>>, ended: set<u16>, id: u16, c: Client)
    requires GoodClient(fetched, ended, c) && (c.receiving || c.finished || c.completed ==> c.id != id)
    ensures GoodClient(fetched[id := []], ended - {id}, c)
  {
  }

  /** Starting anew leaves the server with nothing queued, or changes nothing. */
  lemma StartCases(server: Server, urlFits: bool, created: bool, now: nat)
    ensures var (after, _) := server.Start(urlFits, created, now);
            (after.id == server.id && after == server)
            || (after.id == server.NextId() != server.id && after.queue == [] && after.pending == None && !after.abort
                && !server.Busy() && after.awaiting == server.awaiting
                && (if created then after.active && after.task == Opening
                    else after.active == server.active && after.task == server.task))
  {
  }

  lemma StartKeepsServer(s: Sys, t: Sys)
    requires GoodServer(s) && !s.server.active && t.produced == [] && t.acked == []
    requires t.server.queue == [] && t.server.pending == None && !t.server.abort
    requires t.fetched == s.fetched[t.server.id := []] && t.ended == s.ended - {t.server.id}
    requires (t.server.active && t.server.task == Opening) || (!t.server.active && t.server.task == Resting)
    ensures GoodServer(t) && GoodQueue(t) && Waiting(t.server) == []
  {
  }

  lemma StartIsSafe(s: Sys, kind: Kind, urlFits: bool, created: bool)
    requires Safe(s) && NoTrace(s, s.server.NextId())
    ensures Safe(Started(s, kind, urlFits, created))
  {
    var t := Started(s, kind, urlFits, created);
    StartCases(s.server, urlFits, created, s.now);
    if t.server.id != s.server.id {
      StartKeepsServer(s, t);
      NewIdKeepsMsgs(s.fetched, s.ended, t.server.id, s.down);
      NewIdKeepsAnswers(s.fetched, t.server.id, s.up);
      NewIdKeepsClient(s.fetched, s.ended, t.server.id, s.client);
    }
  }

  /** Only the last item can be an END or an ERROR. */
  lemma OpenBeforeLast(items: seq<Msg>, i: nat)
    requires Script(items) && i + 1 < |items|
    ensures items[i].Begin? || items[i].Chunk?
  {
    ScriptPrefix(items, i + 2);
    assert items[..i + 2][..i + 1] == items[..i + 1];
    assert Open(items[..i + 1]);
  }

  /** Sending an ERROR takes the last item out of the queue. */
  lemma ErrorLeaves(s: Sys, t: Sys)
    requires Script(s.produced) && s.acked + Waiting(s.server) == s.produced
    requires Waiting(s.server) != [] && Waiting(s.server)[0].Error? && Waiting(t.server) == Waiting(s.server)[1..]
    requires t.produced == s.produced && t.acked == s.acked
    ensures Waiting(t.server) == [] && s.produced[|s.produced| - 1].Error?
    ensures t.acked == t.produced[..|t.produced| - 1]
  {
    assert s.produced[|s.acked|] == Waiting(s.server)[0];
    if |s.acked| + 1 < |s.produced| {
      OpenBeforeLast(s.produced, |s.acked|);
    }
  }

  function Popped(server: Server): Server {
    if server.pending.Some? || server.queue == [] then server
    else server.(pending := Some(server.queue[0]), queue := server.queue[1..], awaiting := false)
  }

  lemma PopKeepsWaiting(server: Server)
    ensures Waiting(Popped(server)) == Waiting(server)
  {
  }

  /** Three things a poll can do to the queue. */
  lemma PollCases(server: Server, now: nat, linkUp: bool)
    ensures var (after, msg) := server.Poll(now, linkUp);
            && after.id == server.id && after.task == server.task && after.active == server.active
            && after.lastProgress == server.lastProgress && |after.queue| <= |server.queue|
            && (msg.Some? ==> msg == Popped(server).pending)
            && if server.Stalled(now) then after.abort && after.pending == None && after.queue == [] && msg.None?
               else after.abort == server.abort
                    && (Waiting(after) == Waiting(server)
                        || (Waiting(server) != [] && Waiting(server)[0].Error?
                            && Waiting(after) == Waiting(server)[1..]))
                    && (server.pending == None && server.queue == [] ==> after == server && msg.None?)
  {
    PopKeepsWaiting(server);
  }

  lemma PollKeepsQueue(s: Sys, linkUp: bool)
    requires GoodServer(s) && GoodQueue(s)
    ensures GoodQueue(Polled(s, linkUp))
  {
    var t := Polled(s, linkUp);
    PollCases(s.server, s.now, linkUp);
    if s.server.Stalled(s.now) {
      if !s.server.abort {
        assert s.acked <= s.acked + Waiting(s.server);
      }
    } else if !s.server.abort && Waiting(t.server) != Waiting(s.server) {
      ErrorLeaves(s, t);
    }
  }

  lemma PollIsSafe(s: Sys, linkUp: bool)
    requires Safe(s)
    ensures Safe(Polled(s, linkUp))
  {
    var t := Polled(s, linkUp);
    PollKeepsQueue(s, linkUp);
    PollKeepsItems(s, linkUp);
    PollLeavesErrors(s, linkUp);
    PollCases(s.server, s.now, linkUp);
    if s.server.Poll(s.now, linkUp).1.Some? {
      PollSendsItem(s);
    }
    assert forall m :: m in s.down ==> GoodMsg(s.fetched, s.ended, m);
  }

  lemma PollKeepsTransfer(server: Server, after: Server)
    requires OneTransfer(server) && |server.queue| <= QUEUE_ITEMS && after.id == server.id && after.task == server.task
    requires Waiting(after) == Waiting(server) || Waiting(after) == []
             || (Waiting(server) != [] && Waiting(after) == Waiting(server)[1..])
    ensures OneTransfer(after)
  {
    assert forall m :: m in Waiting(after) ==> m in Waiting(server);
    assert forall m :: m in Waiting(server) ==> m.id == server.id;
    assert forall m :: m in after.queue ==> m in Waiting(after);
    assert after.pending.Some? ==> after.pending.value in Waiting(after);
  }

  lemma SameTransferIsGood(s: Sys, t: Sys)
    requires GoodServer(s) && OneTransfer(t.server) && |t.server.queue| <= QUEUE_ITEMS
    requires t.produced == s.produced && t.fetched == s.fetched && t.ended == s.ended && t.server.id == s.server.id
    requires t.server.task == s.server.task && t.server.active == s.server.active
    ensures GoodServer(t)
  {
  }

  lemma PollKeepsItems(s: Sys, linkUp: bool)
    requires GoodServer(s) && GoodItems(s.fetched, s.ended, Waiting(s.server))
    ensures GoodServer(Polled(s, linkUp)) && GoodItems(s.fetched, s.ended, Waiting(Polled(s, linkUp).server))
  {
    var t := Polled(s, linkUp);
    PollCases(s.server, s.now, linkUp);
    PollKeepsTransfer(s.server, t.server);
    SameTransferIsGood(s, t);
    assert forall m :: m in Waiting(t.server) ==> m in Waiting(s.server);
  }

  lemma PollSendsItem(s: Sys)
    requires GoodItems(s.fetched, s.ended, Waiting(s.server)) && Popped(s.server).pending.Some?
    ensures GoodMsg(s.fetched, s.ended, Popped(s.server).pending.value)
  {
    PopKeepsWaiting(s.server);
    assert Popped(s.server).pending.value == Waiting(s.server)[0];
  }

  lemma PollLeavesErrors(s: Sys, linkUp: bool)
    requires NoErrorAcked(s.server, s.acked)
    ensures NoErrorAcked(Polled(s, linkUp).server, s.acked)
  {
  }

  lemma AcceptKeepsQueue(s: Sys, t: Sys, m: Msg)
    requires GoodQueue(s) && !s.server.abort && s.server.pending == Some(m)
    requires t.server == s.server.(pending := None, awaiting := false, lastProgress := s.now)
    requires t.produced == s.produced && t.acked == s.acked + [m] && t.now == s.now
    ensures GoodQueue(t)
  {
    assert Waiting(s.server) == [m] + Waiting(t.server);
    assert s.acked + Waiting(s.server) == t.acked + Waiting(t.server);
  }

  lemma AcceptIsSafe(s: Sys, ack: Msg)
    requires Safe(s) && ack.Ack?
    ensures Safe(Accepted(s, ack))
  {
    var t := Accepted(s, ack);
    if s.server.Acknowledge(ack, s.now).1 {
      AcceptKeepsQueue(s, t, s.server.pending.value);
      SameTransferIsGood(s, t);
      assert forall n :: n in Waiting(t.server) ==> n in Waiting(s.server);
    }
  }

  // The deliveries one by one.

  lemma BeginIsSafe(s: Sys, m: Msg, memory: bool)
    requires GoodClient(s.fetched, s.ended, s.client) && m.Begin? && GoodMsg(s.fetched, s.ended, m)
    ensures GoodClient(s.fetched, s.ended, s.client.Receive(m, memory, s.now).0)
  {
  }

  lemma ChunkIsSafe(s: Sys, m: Msg, memory: bool)
    requires GoodClient(s.fetched, s.ended, s.client) && m.Chunk? && GoodMsg(s.fetched, s.ended, m)
    ensures GoodClient(s.fetched, s.ended, s.client.Receive(m, memory, s.now).0)
  {
    var c := s.client;
    if c.receiving && m.id == c.id && m.offset == |c.bytes| {
      var data := s.fetched[c.id];
      assert c.bytes == data[..m.offset];
      assert c.bytes + m.data == data[..m.offset + |m.data|];
    }
  }

  lemma EndIsSafe(s: Sys, m: Msg, memory: bool)
    requires GoodClient(s.fetched, s.ended, s.client) && m.End? && GoodMsg(s.fetched, s.ended, m)
    ensures GoodClient(s.fetched, s.ended, s.client.Receive(m, memory, s.now).0)
  {
    var c := s.client;
    if c.receiving && m.id == c.id && m.total == |c.bytes| {
      assert c.bytes == s.fetched[c.id];
    }
  }

  lemma AnswerIsGood(fetched: map<u16, seq<byte>>, ended: set<u16>, c: Client)
    requires GoodClient(fetched, ended, c)
    ensures AllAnswersGood(fetched, AnswersOf(c))
  {
  }

  lemma AnswersAreGood(s: Sys, msg: Msg, memory: bool)
    requires s.client.Valid() && AllAnswersGood(s.fetched, s.up)
    requires GoodClient(s.fetched, s.ended, s.client.Receive(msg, memory, s.now).0)
    ensures AllAnswersGood(s.fetched, Delivered(s, msg, memory).up)
  {
    AnswerIsGood(s.fetched, s.ended, s.client.Receive(msg, memory, s.now).0);
    assert forall a :: a in s.up ==> GoodAnswer(s.fetched, a);
  }

  lemma DeliverIsSafe(s: Sys, msg: Msg, memory: bool)
    requires Safe(s) && msg in s.down
    ensures Safe(Delivered(s, msg, memory))
  {
    assert GoodMsg(s.fetched, s.ended, msg);
    match msg {
      case Begin(_, _) => BeginIsSafe(s, msg, memory);
      case Chunk(_, _, _) => ChunkIsSafe(s, msg, memory);
      case End(_, _, _) => EndIsSafe(s, msg, memory);
      case _ =>
    }
    AnswersAreGood(s, msg, memory);
  }

  /** What the client does without a frame. */
  lemma ClientIsSafe(s: Sys, a: Action)
    requires GoodClient(s.fetched, s.ended, s.client) && Enabled(s, a)
    requires a.Ask? || a.Busy? || a.DecodeFailed? || a.ClientTick? || a.Available? || a.Take? || a.Release?
    ensures GoodClient(s.fetched, s.ended, Apply(s, a).client) && Apply(s, a) == s.(client := Apply(s, a).client)
  {
  }

  lemma LoseIsSafe(s: Sys, msgs: set<Msg>, answers: set<Answer>)
    requires Safe(s)
    ensures Safe(s.(down := s.down - msgs, up := s.up - answers))
  {
    assert forall m :: m in s.down ==> GoodMsg(s.fetched, s.ended, m);
    assert forall a :: a in s.up ==> GoodAnswer(s.fetched, a);
  }

  lemma ApplyIsSafe(s: Sys, a: Action)
    requires Safe(s) && Enabled(s, a)
    ensures Safe(Apply(s, a))
  {
    match a {
      case Start(kind, urlFits, created) => StartIsSafe(s, kind, urlFits, created);
      case Work(e) => WorkIsSafe(s, e);
      case Poll(linkUp) => PollIsSafe(s, linkUp);
      case Accept(answer) => AcceptIsSafe(s, answer.ack);
      case Deliver(msg, memory) => DeliverIsSafe(s, msg, memory);
      case Lose(msgs, answers) => LoseIsSafe(s, msgs, answers);
      case Tick(_) =>
      case _ => ClientIsSafe(s, a);
    }
  }

  // --------------------------------------------------------------- whole runs

  ghost predicate Step(s: Sys, a: Action, t: Sys) {
    s.client.Valid() && Enabled(s, a) && t == Apply(s, a)
  }

  ghost predicate Run(states: seq<Sys>, acts: seq<Action>) {
    && |states| == |acts| + 1 && Initial(states[0])
    && forall i :: 0 <= i < |acts| ==> Step(states[i], acts[i], states[i + 1])
  }

  lemma {:induction false} Reachable(states: seq<Sys>, acts: seq<Action>, i: nat)
    requires Run(states, acts) && i < |states|
    ensures Safe(states[i])
  {
    if i > 0 {
      Reachable(states, acts, i - 1);
      assert Step(states[i - 1], acts[i - 1], states[i]);
      ApplyIsSafe(states[i - 1], acts[i - 1]);
    }
  }

  /** However task, poll loop, acknowledgements, abort and restart interleave: everything
      in the queue, pending or about to be queued belongs to the present transfer, and the
      acknowledged items are a BEGIN, chunks at contiguous offsets, an END. */
  lemma PipelineIsScript(states: seq<Sys>, acts: seq<Action>, i: nat)
    requires Run(states, acts) && i < |states|
    ensures OneTransfer(states[i].server) && Script(states[i].acked)
    ensures forall m :: m in states[i].acked ==> !m.Error?
  {
    Reachable(states, acts, i);
    var s := states[i];
    assert s.acked == s.produced[..|s.acked|];
    ScriptPrefix(s.produced, |s.acked|);
  }

  /** And nothing is lost or reordered between the download task and the link: acknowledged,
      pending and queued items are what the download task queued, until the transfer is given up. */
  lemma QueueLosesNothing(states: seq<Sys>, acts: seq<Action>, i: nat)
    requires Run(states, acts) && i < |states| && !states[i].server.abort
    requires states[i].produced != [] ==> !states[i].produced[|states[i].produced| - 1].Error?
    ensures states[i].acked + Waiting(states[i].server) == states[i].produced
  {
    Reachable(states, acts, i);
  }

  lemma {:induction false} DataPrefix(items: seq<Msg>, n: nat)
    requires n <= |items|
    ensures Data(items[..n]) <= Data(items)
  {
    if n == |items| {
      assert items[..n] == items;
    } else {
      var rest := items[..|items| - 1];
      DataPrefix(rest, n);
      assert rest[..n] == items[..n];
    }
  }

  /** The number an acknowledgement must report is the length of what it acknowledges. */
  lemma AcceptedLength(s: Sys, m: Msg, acked: seq<Msg>)
    requires Script(s.produced) && !m.Error? && acked == s.acked + [m] && acked <= s.produced
    ensures Data(acked) <= Data(s.produced)
    ensures |Data(acked)| == match m
                             case Chunk(_, offset, data) => offset + |data|
                             case End(_, total, _) => total
                             case _ => 0
  {
    var n := |s.acked|;
    assert s.produced[..n + 1] == acked && acked[..n] == s.acked;
    ScriptPrefix(s.produced, n + 1);
    DataPrefix(s.produced, n + 1);
    DataGrows(s.acked, m);
  }

  /** An accepted acknowledgement was sent while the client held exactly the bytes of
      all items acknowledged by then. */
  lemma AcknowledgedIsHeld(states: seq<Sys>, acts: seq<Action>, i: nat)
    requires Run(states, acts) && i < |acts| && acts[i].Accept?
    requires states[i + 1].acked != states[i].acked
    ensures acts[i].answer.held == Data(states[i + 1].acked)
  {
    Reachable(states, acts, i);
    var s, t, held := states[i], states[i + 1], acts[i].answer.held;
    assert Step(s, acts[i], t);
    assert GoodAnswer(s.fetched, acts[i].answer);
    var m := s.server.pending.value;
    assert s.produced == s.acked + Waiting(s.server) && Waiting(s.server)[0] == m;
    AcceptedLength(s, m, t.acked);
    SamePrefix(held, Data(t.acked), s.fetched[s.server.id]);
  }

  lemma SamePrefix(a: seq<byte>, b: seq<byte>, whole: seq<byte>)
    requires a <= whole && b <= whole && |a| == |b|
    ensures a == b
  {
  }

  /** An image the client completes has exactly the bytes queued for that transfer, and
      its END was queued. */
  lemma CompletedIsExact(states: seq<Sys>, acts: seq<Action>, i: nat)
    requires Run(states, acts) && i < |acts| && !states[i].client.completed && states[i + 1].client.completed
    ensures var t := states[i + 1];
            && t.client.id in t.ended && t.client.id in t.fetched && t.client.bytes == t.fetched[t.client.id]
            && (t.client.id == t.server.id ==>
                  t.client.bytes == Data(t.produced) && t.produced != [] && t.produced[|t.produced| - 1].End?)
  {
    Reachable(states, acts, i + 1);
  }

  ghost predicate StartsId(states: seq<Sys>, acts: seq<Action>, i: nat, id: u16)
    requires Run(states, acts) && i < |acts|
  {
    acts[i].Start? && states[i + 1].server.id == id && states[i].server.id != id
  }

  ghost predicate Final(s: Sys, t: Sys, id: u16) {
    id in s.ended && id in s.fetched ==> id in t.ended && id in t.fetched && t.fetched[id] == s.fetched[id]
  }

  lemma WorkIsFinal(s: Sys, e: Event, id: u16)
    requires Safe(s)
    ensures Final(s, Worked(s, e), id)
  {
    if Pushed(s.server, e).Some? {
      assert Follows(s.produced != [], Open(s.produced), s.fetched[s.server.id], s.server.task.item);
    }
  }

  lemma StepIsFinal(s: Sys, a: Action, t: Sys, id: u16)
    requires Safe(s) && Step(s, a, t) && !(a.Start? && t.server.id == id && s.server.id != id)
    ensures Final(s, t, id)
  {
    if a.Work? {
      WorkIsFinal(s, a.event, id);
    }
  }

  lemma {:induction false} FinalStays(states: seq<Sys>, i: nat, j: nat, id: u16)
    requires i <= j < |states| && id in states[i].ended && id in states[i].fetched
    requires forall k :: i <= k < j ==> Final(states[k], states[k + 1], id)
    ensures id in states[j].ended && id in states[j].fetched && states[j].fetched[id] == states[i].fetched[id]
    decreases j
  {
    if i < j {
      FinalStays(states, i, j - 1, id);
      assert Final(states[j - 1], states[j - 1 + 1], id);
    }
  }

  /** What was queued before the END is final until the id is used again. */
  lemma EndIsFinal(states: seq<Sys>, acts: seq<Action>, i: nat, j: nat, id: u16)
    requires Run(states, acts) && i <= j < |states| && id in states[i].ended && id in states[i].fetched
    requires forall k :: i <= k < j ==> !StartsId(states, acts, k, id)
    ensures id in states[j].ended && id in states[j].fetched && states[j].fetched[id] == states[i].fetched[id]
  {
    forall k | i <= k < j ensures Final(states[k], states[k + 1], id) {
      Reachable(states, acts, k);
      assert !StartsId(states, acts, k, id);
      StepIsFinal(states[k], acts[k], states[k + 1], id);
    }
    FinalStays(states, i, j, id);
  }

  /** Once a transfer is given up nothing of it is sent or acknowledged any more, also
      not an item the download task was just putting into the queue. */
  lemma GivenUpIsSilent(states: seq<Sys>, acts: seq<Action>, i: nat, linkUp: bool, ack: Msg)
    requires Run(states, acts) && i < |states| && states[i].server.abort && ack.Ack?
    ensures var s := states[i];
            && s.server.Poll(s.now, linkUp).1 == None && Waiting(s.server.Poll(s.now, linkUp).0) == []
            && !s.server.Acknowledge(ack, s.now).1
  {
    Reachable(states, acts, i);
    PollCases(states[i].server, states[i].now, linkUp);
  }

  /** A new transfer starts only after the old task has left and all its items are gone. */
  lemma RestartIsClean(states: seq<Sys>, acts: seq<Action>, i: nat)
    requires Run(states, acts) && i < |acts| && acts[i].Start?
    requires states[i].server.Start(acts[i].urlFits, acts[i].created, states[i].now).1
    ensures states[i].server.task == Resting && Waiting(states[i].server) == []
    ensures Waiting(states[i + 1].server) == [] && !states[i + 1].server.abort && states[i + 1].acked == []
  {
    Reachable(states, acts, i);
    assert Step(states[i], acts[i], states[i + 1]);
  }

  // ------------------------------------------------------ two things it does not do

  /** Answered, and the answer accepted. */
  ghost predicate Closes(server: Server, c: Client, m: Msg, memory: bool, now: nat)
    requires c.Valid()
  {
    var (after, answers) := c.Receive(m, memory, now);
    answers && after.Valid() && after.Answer().Some? && server.Acknowledge(after.Answer().value, now).1
  }

  /** When the answer to END was lost, sending END (or a chunk) again closes the transfer
      exactly if the S3 has not released the bytes yet; after that the bridge repeats END
      until it gives up. */
  lemma LateEndClosesIffHeld(server: Server, c: Client, m: Msg, memory: bool, now: nat)
    requires server.pending.Some? && server.pending.value.End? && server.awaiting && server.pending.value.total > 0
    requires c.Valid() && c.finished && !c.receiving && !c.waiting && c.id == server.pending.value.id
    requires c.bytes == [] || |c.bytes| == server.pending.value.total
    requires m == server.pending.value || m.Chunk?
    ensures Closes(server, c, m, memory, now) <==> c.bytes != []
  {
  }

  /** All but the kinds and what hangs on them. */
  ghost predicate SameTransfer(a: Client, b: Client) {
    b == a.(requestedKind := b.requestedKind, completedKind := b.completedKind, failedKind := b.failedKind,
            retryAfter := b.retryAfter)
  }

  lemma AppendIgnoresKind(c: Client, k: Kind, t: u16, at: u32, data: seq<byte>, now: nat)
    requires c.Valid()
    ensures SameTransfer(c.Append(t, at, data, now), c.(requestedKind := k).Append(t, at, data, now))
  {
  }

  lemma BeginIgnoresKind(c: Client, k: Kind, m: Msg, memory: bool, now: nat)
    requires c.Valid() && m.Begin?
    ensures SameTransfer(c.Receive(m, memory, now).0, c.(requestedKind := k).Receive(m, memory, now).0)
    ensures c.Receive(m, memory, now).1 == c.(requestedKind := k).Receive(m, memory, now).1
  {
  }

  lemma EndIgnoresKind(c: Client, k: Kind, m: Msg, memory: bool, now: nat)
    requires c.Valid() && m.End?
    ensures var (a, answers) := c.Receive(m, memory, now);
            var (b, answers') := c.(requestedKind := k).Receive(m, memory, now);
            && answers == answers' && SameTransfer(a, b)
            && (!c.completed && a.completed ==> a.completedKind == c.requestedKind && b.completedKind == k)
  {
  }

  lemma FailIgnoresKind(c: Client, k: Kind, error: byte, now: nat)
    requires c.Valid()
    ensures SameTransfer(c.Fail(error, now), c.(requestedKind := k).Fail(error, now))
  {
  }

  /** No frame says which asset it carries: a client waiting for one kind takes whatever
      transfer the bridge happens to be sending, and files it under that kind. */
  lemma ReceiveIgnoresKind(c: Client, k: Kind, m: Msg, memory: bool, now: nat)
    requires c.Valid()
    ensures var (a, answers) := c.Receive(m, memory, now);
            var (b, answers') := c.(requestedKind := k).Receive(m, memory, now);
            && answers == answers' && SameTransfer(a, b)
            && (!c.completed && a.completed ==> a.completedKind == c.requestedKind && b.completedKind == k)
  {
    match m
    case Begin(_, _) => BeginIgnoresKind(c, k, m, memory, now);
    case Chunk(t, at, data) => AppendIgnoresKind(c, k, t, at, data, now);
    case End(_, _, _) => EndIgnoresKind(c, k, m, memory, now);
    case Error(_, code) => FailIgnoresKind(c, k, code, now);
    case Ack(_, _) =>
  }
}
