// Two things the image transfer does not do: say what it carries, and answer END once the
// bytes are released. When each goes wrong, and a run in which it does.
module AssetRuns {
  import opened AssetMessages
  import opened AssetTransfer
  import opened AssetProtocol
  import opened Bytes
  import opened Wrappers
  import Crc32

  // --------------------------------------------------- what an image is filed under

  /** The client takes up a transfer. */
  ghost predicate TakesUp(s: Sys, a: Action, t: Sys) {
    a.Deliver? && a.msg.Begin? && !s.client.receiving && t.client.receiving
  }

  ghost predicate Completes(s: Sys, t: Sys) {
    !s.client.completed && t.client.completed
  }

  ghost predicate KindsKnown(s: Sys) {
    forall id :: id in s.fetched ==> id in s.carried
  }

  lemma StepKeepsKinds(s: Sys, a: Action, t: Sys)
    requires Step(s, a, t) && KindsKnown(s)
    ensures KindsKnown(t)
  {
  }

  lemma {:induction false} KindsStayKnown(states: seq<Sys>, acts: seq<Action>, i: nat)
    requires Run(states, acts) && i < |states|
    ensures KindsKnown(states[i])
  {
    if i > 0 {
      KindsStayKnown(states, acts, i - 1);
      assert Step(states[i - 1], acts[i - 1], states[i]);
      StepKeepsKinds(states[i - 1], acts[i - 1], states[i]);
    }
  }

  /** The transfer taken up at the start is still being received, as what was asked for. */
  ghost predicate StillAs(s: Sys, id: u16, asked: Kind, carried: Kind) {
    s.client.receiving ==>
      && s.client.id == id && s.client.requestedKind == asked && id in s.carried && s.carried[id] == carried
  }

  lemma TakeUpStep(s: Sys, a: Action, t: Sys)
    requires Safe(s) && KindsKnown(s) && Step(s, a, t) && TakesUp(s, a, t)
    ensures a.msg.id in s.carried && StillAs(t, a.msg.id, s.client.requestedKind, s.carried[a.msg.id])
  {
    assert GoodMsg(s.fetched, s.ended, a.msg);
  }

  lemma DeliveryKeepsAs(s: Sys, msg: Msg, memory: bool, id: u16, asked: Kind, carried: Kind)
    requires s.client.Valid() && !(s.client.waiting && s.client.receiving) && StillAs(s, id, asked, carried)
    requires msg.Begin? && !s.client.receiving ==> !s.client.Receive(msg, memory, s.now).0.receiving
    ensures StillAs(Delivered(s, msg, memory), id, asked, carried)
  {
  }

  lemma StartKeepsAs(s: Sys, kind: Kind, urlFits: bool, created: bool, id: u16, asked: Kind, carried: Kind)
    requires NoTrace(s, s.server.NextId()) && StillAs(s, id, asked, carried)
    ensures StillAs(Started(s, kind, urlFits, created), id, asked, carried)
  {
  }

  lemma ElseKeepsAs(s: Sys, a: Action, id: u16, asked: Kind, carried: Kind)
    requires s.client.Valid() && Enabled(s, a) && !a.Deliver? && !a.Start? && StillAs(s, id, asked, carried)
    ensures StillAs(Apply(s, a), id, asked, carried)
  {
  }

  lemma ReceivingStep(s: Sys, a: Action, t: Sys, id: u16, asked: Kind, carried: Kind)
    requires Safe(s) && Step(s, a, t) && !TakesUp(s, a, t) && StillAs(s, id, asked, carried)
    ensures StillAs(t, id, asked, carried)
  {
    match a {
      case Deliver(msg, memory) => DeliveryKeepsAs(s, msg, memory, id, asked, carried);
      case Start(kind, urlFits, created) => StartKeepsAs(s, kind, urlFits, created, id, asked, carried);
      case _ => ElseKeepsAs(s, a, id, asked, carried);
    }
  }

  /** Nothing but an END completes a transfer. */
  lemma OnlyEndCompletes(s: Sys, a: Action, t: Sys)
    requires Step(s, a, t) && Completes(s, t)
    ensures a.Deliver? && a.msg.End?
  {
  }

  lemma CompletingStep(s: Sys, a: Action, t: Sys)
    requires Safe(s) && Step(s, a, t) && Completes(s, t)
    ensures s.client.receiving && t.client.completedKind == s.client.requestedKind && t.client.id == s.client.id
    ensures t.carried == s.carried
  {
    OnlyEndCompletes(s, a, t);
    assert t == Delivered(s, a.msg, a.memory);
  }

  lemma ReceivingSteps(states: seq<Sys>, acts: seq<Action>, k: nat, i: nat, id: u16, asked: Kind, carried: Kind)
    requires Run(states, acts) && k < i < |states|
    requires forall m :: k < m < i ==> !TakesUp(states[m], acts[m], states[m + 1])
    ensures forall m :: k < m < i && StillAs(states[m], id, asked, carried) ==>
              StillAs(states[m + 1], id, asked, carried)
  {
    forall m | k < m < i && StillAs(states[m], id, asked, carried)
      ensures StillAs(states[m + 1], id, asked, carried)
    {
      Reachable(states, acts, m);
      ReceivingStep(states[m], acts[m], states[m + 1], id, asked, carried);
    }
  }

  lemma {:induction false} StaysAs(states: seq<Sys>, k: nat, i: nat, id: u16, asked: Kind, carried: Kind)
    requires k < i < |states| && StillAs(states[k + 1], id, asked, carried)
    requires forall m :: k < m < i && StillAs(states[m], id, asked, carried) ==>
               StillAs(states[m + 1], id, asked, carried)
    ensures StillAs(states[i], id, asked, carried)
    decreases i
  {
    if k + 1 < i {
      StaysAs(states, k, i - 1, id, asked, carried);
      assert StillAs(states[i - 1 + 1], id, asked, carried);
    }
  }

  lemma StillReceived(states: seq<Sys>, acts: seq<Action>, k: nat, i: nat)
    requires Run(states, acts) && k < i < |states| && TakesUp(states[k], acts[k], states[k + 1])
    requires forall m :: k < m < i ==> !TakesUp(states[m], acts[m], states[m + 1])
    ensures acts[k].msg.id in states[k].carried
    ensures StillAs(states[i], acts[k].msg.id, states[k].client.requestedKind, states[k].carried[acts[k].msg.id])
  {
    Reachable(states, acts, k);
    KindsStayKnown(states, acts, k);
    assert Step(states[k], acts[k], states[k + 1]);
    TakeUpStep(states[k], acts[k], states[k + 1]);
    var id, asked := acts[k].msg.id, states[k].client.requestedKind;
    ReceivingSteps(states, acts, k, i, id, asked, states[k].carried[id]);
    StaysAs(states, k, i, id, asked, states[k].carried[id]);
  }

  /** A completed image is filed under what it is exactly if its BEGIN was taken up while
      that kind was being asked for. */
  lemma FiledRightIff(states: seq<Sys>, acts: seq<Action>, k: nat, i: nat)
    requires Run(states, acts) && k < i < |acts| && TakesUp(states[k], acts[k], states[k + 1])
    requires forall m :: k < m < i ==> !TakesUp(states[m], acts[m], states[m + 1])
    requires Completes(states[i], states[i + 1])
    ensures var id, t := acts[k].msg.id, states[i + 1];
            && t.client.id == id && id in t.carried && id in states[k].carried
            && (t.client.completedKind == t.carried[id] <==> states[k].client.requestedKind == states[k].carried[id])
  {
    Reachable(states, acts, i);
    StillReceived(states, acts, k, i);
    assert Step(states[i], acts[i], states[i + 1]);
    CompletingStep(states[i], acts[i], states[i + 1]);
  }

  // ------------------------------------------- a run, from the request to the END

  lemma Extend(states: seq<Sys>, acts: seq<Action>, a: Action, t: Sys) returns (more: seq<Sys>, done: seq<Action>)
    requires Run(states, acts) && Step(states[|acts|], a, t)
    ensures Run(more, done) && done == acts + [a] && more == states + [t]
  {
    more, done := states + [t], acts + [a];
    forall i | 0 <= i < |done| ensures Step(more[i], done[i], more[i + 1]) {
      if i < |acts| {
        assert Step(states[i], acts[i], states[i + 1]);
      }
    }
  }

  const BEGIN := Begin(1, 1)
  const CHUNK := Chunk(1, 0, [7])

  function Crc(): Crc32.Word {
    Crc32.Update(Crc32.ZERO, [7])
  }

  function EndItem(): Msg {
    End(1, 1, Crc32.Number(Crc()))
  }

  /** Both sides just started. */
  function Fresh(): Sys {
    Sys(0, Server([], None, false, false, false, 0, 0, 0, Resting),
        Client(true, false, false, false, false, false, 0, 0, 0, [0, 0, 0, 0, 0], 0, 0, 0, 0, [], 0), {}, {}, [], [],
        map[0 := []], map[0 := 0], {})
  }

  function Asked(k: Kind): Sys {
    Fresh().(now := 1, client := Fresh().client.(waiting := true, requestedKind := k, started := 1))
  }

  function Opened(k: Kind): Sys {
    Asked(k).(server := Server([], None, false, true, false, 1, 0, 1, Opening),
              fetched := map[0 := [], 1 := []], carried := map[0 := 0, 1 := k])
  }

  /** The bridge's side while item `m` waits for its answer. */
  function Sending(m: Msg, task: Task): Server {
    Server([], Some(m), true, true, false, 1, 1, 1, task)
  }

  /** The BEGIN of an image of kind k is under way, and the S3 now asks for kind j. */
  function BeginSent(k: Kind, j: Kind): Sys {
    Opened(k).(server := Sending(BEGIN, Streaming(0, Crc32.ZERO, 1)), down := {BEGIN}, produced := [BEGIN],
               client := Asked(j).client)
  }

  function BeginTaken(k: Kind, j: Kind): Sys {
    var s := BeginSent(k, j);
    s.(client := s.client.(id := 1, expectedTotal := 1, capacity := 1, waiting := false, receiving := true),
       server := s.server.(pending := None, awaiting := false), up := {Answer(Ack(1, 0), [])}, acked := [BEGIN])
  }

  function ChunkSent(k: Kind, j: Kind): Sys {
    var s := BeginTaken(k, j);
    s.(server := Sending(CHUNK, Streaming(1, Crc(), 1)), down := {BEGIN, CHUNK}, produced := [BEGIN, CHUNK],
       fetched := s.fetched[1 := [7]])
  }

  function ChunkTaken(k: Kind, j: Kind): Sys {
    var s := ChunkSent(k, j);
    s.(client := s.client.(bytes := [7]), server := s.server.(pending := None, awaiting := false),
       up := s.up + {Answer(Ack(1, 1), [7])}, acked := [BEGIN, CHUNK])
  }

  function EndSent(k: Kind, j: Kind): Sys {
    var s := ChunkTaken(k, j);
    s.(server := Sending(EndItem(), Leaving), down := {BEGIN, CHUNK, EndItem()},
       produced := [BEGIN, CHUNK, EndItem()], ended := {1})
  }

  function EndTaken(k: Kind, j: Kind): Sys {
    var s := EndSent(k, j);
    s.(client := s.client.(receiving := false, finished := true, completed := true, completedKind := j,
                           retryAfter := [0, 0, 0, 0, 0][j := 0]))
  }

  lemma RunToOpened(k: Kind) returns (states: seq<Sys>, acts: seq<Action>)
    requires k != 0
    ensures Run(states, acts) && states[|acts|] == Opened(k)
  {
    states, acts := Extend([Fresh()], [], Tick(1), Fresh().(now := 1));
    states, acts := Extend(states, acts, Ask(k, true), Asked(k));
    states, acts := Extend(states, acts, Start(k, true, true), Opened(k));
  }

  /** The steps of the download task that queue an item, and its sending. */
  lemma ItemSent(s: Sys, e: Event, item: Msg, task: Task, after: Task) returns (a: Sys, b: Sys, c: Sys, d: Sys)
    requires s.client.Valid()
    requires s.server == Server([], None, false, true, false, 1, s.server.lastSend, 1, s.server.task)
    requires s.now == 1 && !item.Error? && s.server.Work(e) == s.server.(task := task) && Pushed(s.server, e) == None
    requires task.Queueing? && task.item == item && !task.tested && s.server.(task := task).Queued() == after
    ensures Step(s, Work(e), a) && Step(a, Work(TestAbort), b) && Step(b, Work(Push), c) && Step(c, Poll(true), d)
    ensures d == s.(server := Sending(item, after), down := s.down + {item}, produced := s.produced + [item],
                    fetched := Grown(s.fetched, item), ended := if item.End? then s.ended + {item.id} else s.ended)
  {
    a := s.(server := s.server.(task := task));
    b := s.(server := s.server.(task := task.(tested := true)));
    c := s.(server := s.server.(queue := [item], task := after), produced := s.produced + [item],
            fetched := Grown(s.fetched, item), ended := if item.End? then s.ended + {item.id} else s.ended);
    d := c.(server := Sending(item, after), down := s.down + {item});
    assert a == Apply(s, Work(e));
    assert b == Apply(a, Work(TestAbort));
    assert c == Apply(b, Work(Push));
  }

  lemma RunItem(states: seq<Sys>, acts: seq<Action>, e: Event, a: Sys, b: Sys, c: Sys, d: Sys)
    returns (more: seq<Sys>, done: seq<Action>)
    requires Run(states, acts) && Step(states[|acts|], Work(e), a)
    requires Step(a, Work(TestAbort), b) && Step(b, Work(Push), c) && Step(c, Poll(true), d)
    ensures Run(more, done) && states <= more && more[|done|] == d
  {
    more, done := Extend(states, acts, Work(e), a);
    more, done := Extend(more, done, Work(TestAbort), b);
    more, done := Extend(more, done, Work(Push), c);
    more, done := Extend(more, done, Poll(true), d);
  }

  /** The link to the bridge is down for a moment, and the S3 asks for something again. */
  lemma AskedAgain(s: Sys, k: Kind, j: Kind) returns (a: Sys, b: Sys, c: Sys)
    requires j != 0 && s.client == Asked(k).client && s.now == 1
    ensures Step(s, Available(false), a) && Step(a, Available(true), b) && Step(b, Ask(j, true), c)
    ensures c == s.(client := Asked(j).client)
  {
    a := Apply(s, Available(false));
    b := Apply(a, Available(true));
    c := Apply(b, Ask(j, true));
  }

  lemma RunToBegin(k: Kind, j: Kind) returns (states: seq<Sys>, acts: seq<Action>)
    requires k != 0 && j != 0
    ensures Run(states, acts) && states[|acts|] == BeginSent(k, j)
  {
    states, acts := RunToOpened(k);
    var s := Opened(k);
    var e := AssetTransfer.Opened(1);
    var a, b, c, d := ItemSent(s, e, BEGIN, Queueing(BEGIN, 0, Crc32.ZERO, 1, false), Streaming(0, Crc32.ZERO, 1));
    states, acts := RunItem(states, acts, e, a, b, c, d);
    var f, g, h := AskedAgain(d, k, j);
    states, acts := Extend(states, acts, Available(false), f);
    states, acts := Extend(states, acts, Available(true), g);
    states, acts := Extend(states, acts, Ask(j, true), h);
    assert h == BeginSent(k, j);
  }

  lemma RunToBeginTaken(k: Kind, j: Kind) returns (states: seq<Sys>, acts: seq<Action>)
    requires k != 0 && j != 0
    ensures Run(states, acts) && states[|acts|] == BeginTaken(k, j)
  {
    states, acts := RunToBegin(k, j);
    var s, t := BeginSent(k, j), BeginTaken(k, j);
    var d := s.(client := t.client, up := t.up);
    states, acts := Extend(states, acts, Deliver(BEGIN, true), d);
    states, acts := Extend(states, acts, Accept(Answer(Ack(1, 0), [])), t);
  }

  lemma ChunkItem(k: Kind, j: Kind, d: Sys)
    requires var s := BeginTaken(k, j);
             d == s.(server := Sending(CHUNK, Streaming(1, Crc(), 1)), down := s.down + {CHUNK},
                     produced := s.produced + [CHUNK], fetched := Grown(s.fetched, CHUNK), ended := s.ended)
    ensures d == ChunkSent(k, j)
  {
    var s, u := BeginTaken(k, j), ChunkSent(k, j);
    assert [] + [7] == [7] && d.fetched == u.fetched;
    assert d.down == u.down && d.produced == u.produced;
  }

  lemma EndQueued(k: Kind, j: Kind, d: Sys)
    requires var s := ChunkTaken(k, j);
             d == s.(server := Sending(EndItem(), Leaving), down := s.down + {EndItem()},
                     produced := s.produced + [EndItem()], fetched := s.fetched, ended := s.ended + {1})
    ensures d == EndSent(k, j)
  {
    var u := EndSent(k, j);
    assert d.down == u.down && d.produced == u.produced && d.ended == u.ended;
  }

  lemma RunToChunk(k: Kind, j: Kind) returns (states: seq<Sys>, acts: seq<Action>)
    requires k != 0 && j != 0
    ensures Run(states, acts) && states[|acts|] == ChunkSent(k, j)
  {
    states, acts := RunToBeginTaken(k, j);
    var s := BeginTaken(k, j);
    var e := Fetched(Got([7]));
    var a, b, c, d := ItemSent(s, e, CHUNK, Queueing(CHUNK, 1, Crc(), 1, false), Streaming(1, Crc(), 1));
    states, acts := RunItem(states, acts, e, a, b, c, d);
    ChunkItem(k, j, d);
  }

  /** Delivery and acknowledgement of the chunk. */
  lemma ChunkAnswered(k: Kind, j: Kind) returns (d: Sys)
    requires j != 0
    ensures Step(ChunkSent(k, j), Deliver(CHUNK, true), d)
    ensures Step(d, Accept(Answer(Ack(1, 1), [7])), ChunkTaken(k, j))
  {
    var u, t := ChunkSent(k, j), ChunkTaken(k, j);
    d := u.(client := t.client, up := t.up);
    assert [] + [7] == [7] && u.client.Receive(CHUNK, true, 1).0 == t.client;
    assert d == Apply(u, Deliver(CHUNK, true));
    assert [BEGIN] + [CHUNK] == [BEGIN, CHUNK];
  }

  lemma RunToChunkTaken(k: Kind, j: Kind) returns (states: seq<Sys>, acts: seq<Action>)
    requires k != 0 && j != 0
    ensures Run(states, acts) && states[|acts|] == ChunkTaken(k, j)
  {
    states, acts := RunToChunk(k, j);
    var d := ChunkAnswered(k, j);
    states, acts := Extend(states, acts, Deliver(CHUNK, true), d);
    states, acts := Extend(states, acts, Accept(Answer(Ack(1, 1), [7])), ChunkTaken(k, j));
  }

  lemma RunToEndSent(k: Kind, j: Kind) returns (states: seq<Sys>, acts: seq<Action>)
    requires k != 0 && j != 0
    ensures Run(states, acts) && states[|acts|] == EndSent(k, j)
  {
    states, acts := RunToChunkTaken(k, j);
    var s := ChunkTaken(k, j);
    var e := Fetched(Nothing(true));
    var a, b, c, d := ItemSent(s, e, EndItem(), Queueing(EndItem(), 1, Crc(), 1, false), Leaving);
    states, acts := RunItem(states, acts, e, a, b, c, d);
    EndQueued(k, j, d);
  }

  lemma EndAnswered(k: Kind, j: Kind)
    requires j != 0
    ensures Step(EndSent(k, j), Deliver(EndItem(), true), EndTaken(k, j))
  {
    var s, t := EndSent(k, j), EndTaken(k, j);
    assert s.client.Receive(EndItem(), true, 1) == (t.client, true);
    assert AnswersOf(t.client) == {Answer(Ack(1, 1), [7])};
  }

  lemma RunToEnd(k: Kind, j: Kind) returns (states: seq<Sys>, acts: seq<Action>)
    requires k != 0 && j != 0
    ensures Run(states, acts) && states[|acts|] == EndTaken(k, j) && |acts| > 0 && states[|acts| - 1] == EndSent(k, j)
  {
    states, acts := RunToEndSent(k, j);
    EndAnswered(k, j);
    states, acts := Extend(states, acts, Deliver(EndItem(), true), EndTaken(k, j));
  }

  /** An image of one kind completes, filed under another, because the S3 asked for that
      one while the transfer of the first was already under way. */
  lemma Misfiled() returns (states: seq<Sys>, acts: seq<Action>)
    ensures Run(states, acts) && |acts| > 0 && Completes(states[|acts| - 1], states[|acts|])
    ensures var t := states[|acts|];
            t.client.id in t.carried && t.carried[t.client.id] == RADAR && t.client.completedKind == 2
  {
    states, acts := RunToEnd(RADAR, 2);
  }

  // --------------------------------------------- END after the bytes are released

  /** END waits for an answer that the client can no longer give, and that is not under way. */
  ghost predicate Unanswerable(s: Sys, m: Msg) {
    && m.End? && m.total > 0 && s.server.pending == Some(m) && s.server.awaiting && !s.server.abort
    && !s.client.receiving && !s.client.waiting && s.client.bytes == []
    && Ack(m.id, m.total) !in Acks(s.up)
  }

  ghost function Acks(up: set<Answer>): set<Msg> {
    set a | a in up :: a.ack
  }

  lemma ReleasedAnswers(s: Sys, msg: Msg, memory: bool, m: Msg)
    requires Safe(s) && Unanswerable(s, m) && msg in s.down
    ensures Unanswerable(Delivered(s, msg, memory), m) && Delivered(s, msg, memory).server == s.server
  {
    assert GoodMsg(s.fetched, s.ended, msg);
    var (client, answers) := s.client.Receive(msg, memory, s.now);
    assert !client.receiving && !client.waiting && client.bytes == [];
    assert forall a :: a in AnswersOf(client) ==> a.ack.next == 0;
    assert forall a :: a in Delivered(s, msg, memory).up && a.ack == Ack(m.id, m.total) ==> a.ack in Acks(s.up);
  }

  lemma ReleasedServer(s: Sys, a: Action, m: Msg)
    requires Safe(s) && Enabled(s, a) && Unanswerable(s, m) && (a.Start? || a.Work? || a.Poll? || a.Accept?)
    ensures var t := Apply(s, a);
            if a.Poll? && s.server.Stalled(s.now) then t.server.abort && t.server.pending == None
            else Unanswerable(t, m) && t.server.lastProgress == s.server.lastProgress
  {
    if a.Accept? {
      assert a.answer.ack in Acks(s.up);
    }
    if a.Work? {
      WorkKeepsPending(s.server, a.event);
    }
  }

  lemma WorkKeepsPending(server: Server, e: Event)
    ensures var after := server.Work(e);
            after.pending == server.pending && after.awaiting == server.awaiting && after.abort == server.abort
            && after.lastProgress == server.lastProgress
  {
  }

  lemma ReleasedClient(s: Sys, a: Action, m: Msg)
    requires Safe(s) && Enabled(s, a) && Unanswerable(s, m) && !a.Ask?
    requires !a.Start? && !a.Work? && !a.Poll? && !a.Accept? && !a.Deliver?
    ensures Unanswerable(Apply(s, a), m) && Apply(s, a).server == s.server
  {
  }

  /** It stays so, whatever happens but a new request, until the bridge gives up. */
  lemma ReleasedStep(s: Sys, a: Action, t: Sys, m: Msg)
    requires Safe(s) && Step(s, a, t) && Unanswerable(s, m) && !a.Ask?
    ensures if a.Poll? && s.server.Stalled(s.now) then t.server.abort && t.server.pending == None
            else Unanswerable(t, m) && t.server.lastProgress == s.server.lastProgress
  {
    if a.Deliver? {
      ReleasedAnswers(s, a.msg, a.memory, m);
    } else if a.Start? || a.Work? || a.Poll? || a.Accept? {
      ReleasedServer(s, a, m);
    } else {
      ReleasedClient(s, a, m);
    }
  }

  lemma {:induction false} StaysUnanswerable(states: seq<Sys>, acts: seq<Action>, i: nat, j: nat, m: Msg)
    requires i <= j < |states| == |acts| + 1 && Unanswerable(states[i], m)
    requires forall k :: i <= k < j && Unanswerable(states[k], m) ==>
               Unanswerable(states[k + 1], m) && states[k + 1].server.lastProgress == states[k].server.lastProgress
    ensures Unanswerable(states[j], m) && states[j].server.lastProgress == states[i].server.lastProgress
    decreases j
  {
    if i < j {
      StaysUnanswerable(states, acts, i, j - 1, m);
      assert Unanswerable(states[j - 1 + 1], m);
    }
  }

  /** As long as the S3 does not ask for another image, the bridge repeats END without
      success, and gives the transfer up with the first poll that comes more than 12 s
      after the last progress, no earlier. */
  lemma ReleasedEndIsGivenUp(states: seq<Sys>, acts: seq<Action>, i: nat, j: nat, m: Msg)
    requires Run(states, acts) && i <= j < |acts| && Unanswerable(states[i], m) && acts[j].Poll?
    requires forall k :: i <= k < j ==> !acts[k].Ask? && !(acts[k].Poll? && states[k].server.Stalled(states[k].now))
    ensures var s, began := states[j], states[i].server.lastProgress;
            && (states[j + 1].server.abort <==> began != 0 && s.now - began > STALL_MS)
            && (!states[j + 1].server.abort && s.now - s.server.lastSend >= RETRANSMIT_MS ==>
                  s.server.Poll(s.now, true).1 == Some(m))
  {
    forall k | i <= k < j && Unanswerable(states[k], m)
      ensures Unanswerable(states[k + 1], m) && states[k + 1].server.lastProgress == states[k].server.lastProgress
    {
      Reachable(states, acts, k);
      assert Step(states[k], acts[k], states[k + 1]);
      ReleasedStep(states[k], acts[k], states[k + 1], m);
    }
    StaysUnanswerable(states, acts, i, j, m);
    Reachable(states, acts, j);
    assert Step(states[j], acts[j], states[j + 1]);
    ReleasedStep(states[j], acts[j], states[j + 1], m);
  }

  /** The answer to END is lost, the S3 takes the image and releases its bytes; END comes
      again and is not answered. */
  function Repeated(k: Kind): Sys {
    var s := EndTaken(k, k);
    s.(up := {}, now := 41, client := s.client.(completed := false, bytes := [], capacity := 0),
       server := s.server.(lastSend := 41))
  }

  lemma ReleasedSteps(k: Kind) returns (a: Sys, b: Sys, c: Sys, d: Sys)
    requires k != 0
    ensures var s := EndTaken(k, k);
            Step(s, Lose({}, s.up), a) && Step(a, Take, b) && Step(b, Release, c) && Step(c, Tick(41), d)
    ensures d == Repeated(k).(server := EndTaken(k, k).server)
  {
    var s := EndTaken(k, k);
    a := s.(up := {});
    b := a.(client := s.client.(completed := false));
    c := b.(client := b.client.(bytes := [], capacity := 0));
    d := c.(now := 41);
    assert s.up - s.up == {} && s.down - {} == s.down;
  }

  lemma EndRepeated(k: Kind, d: Sys)
    requires k != 0 && d == Repeated(k).(server := EndTaken(k, k).server)
    ensures d.server.Poll(41, true).1 == Some(EndItem()) && Step(d, Poll(true), Repeated(k))
  {
    assert d.down + {EndItem()} == d.down;
  }

  lemma EndUnanswered(k: Kind)
    requires k != 0
    ensures Step(Repeated(k), Deliver(EndItem(), true), Repeated(k)) && Unanswerable(Repeated(k), EndItem())
  {
    var s := Repeated(k);
    assert s.client.Receive(EndItem(), true, 41) == (s.client, false);
    assert Acks(s.up) == {};
  }

  /** It happens: END acknowledged, the answer lost, the bytes released, END repeated in
      vain, and the bridge gives up. */
  lemma ReleasedTooSoon(k: Kind) returns (states: seq<Sys>, acts: seq<Action>, i: nat)
    requires k != 0
    ensures Run(states, acts) && i + 3 == |acts| && acts[i] == Deliver(EndItem(), true)
    ensures Unanswerable(states[i], EndItem()) && states[i + 1] == states[i]
    ensures acts[i + 2].Poll? && states[i + 3].server.abort && states[i + 3].server.pending == None
  {
    states, acts := RunToEnd(k, k);
    var a, b, c, d := ReleasedSteps(k);
    EndRepeated(k, d);
    states, acts := Extend(states, acts, Lose({}, EndTaken(k, k).up), a);
    states, acts := Extend(states, acts, Take, b);
    states, acts := Extend(states, acts, Release, c);
    states, acts := Extend(states, acts, Tick(41), d);
    states, acts := Extend(states, acts, Poll(true), Repeated(k));
    EndUnanswered(k);
    i := |acts|;
    states, acts := Extend(states, acts, Deliver(EndItem(), true), Repeated(k));
    states, acts := GivesUp(states, acts, k);
  }

  lemma GivesUp(states: seq<Sys>, acts: seq<Action>, k: Kind) returns (more: seq<Sys>, done: seq<Action>)
    requires k != 0 && Run(states, acts) && states[|acts|] == Repeated(k)
    ensures Run(more, done) && |done| == |acts| + 2 && states <= more && acts <= done && done[|acts| + 1].Poll?
    ensures more[|done|].server.abort && more[|done|].server.pending == None
  {
    var s := Repeated(k);
    var t := s.(now := 12002);
    more, done := Extend(states, acts, Tick(12002), t);
    more, done := Extend(more, done, Poll(true), Apply(t, Poll(true)));
  }
}
