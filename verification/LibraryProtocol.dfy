// Server, client and a network that may lose, duplicate, delay and reorder frames:
// what holds in every reachable state of the catalog transfer.
module LibraryProtocol {
  import opened Bytes
  import opened LibraryMessages
  import opened LibraryTransfer
  import opened Wrappers
  import Catalog = LibraryCatalog
  import Crc32

  /** An acknowledgement under way, with the client's buffer when it was sent. */
  datatype Answer = Answer(ack: Msg, held: seq<byte>)

  /** What a transfer is started with. */
  datatype Frozen = Frozen(kind: byte, context: u16, blob: seq<byte>)

  /** `frozen` remembers what each transfer id was started with; `begun` the ids
      whose BEGIN the client has taken up; `clean` is true while the client is still in
      its first and only pass through its present id. These three are history. */
  datatype Sys = Sys(now: nat, server: Server, client: Client, down: set<Msg>, up: set<Answer>,
                     frozen: map<u16, Frozen>, begun: set<u16>, clean: bool)

  datatype Action =
    | Tick(later: nat)
    | SetCache(slot: nat, blob: seq<byte>, context: u16)
    | Handle(payload: seq<byte>)
    | Poll(linkUp: bool)
    | Hello
    | Accept(answer: Answer)
    | Ask(kind: byte, linkUp: bool)
    | Deliver(msg: Msg)
    | RemoteError(error: byte)
    | ClientTick
    | Available(up: bool)
    | TakeCompleted
    | CacheChanged(kind: byte)
    | Lose(msgs: set<Msg>, answers: set<Answer>)

  ghost predicate Initial(s: Sys) {
    && s.server.Valid() && !s.server.active && s.client.Valid()
    && !s.client.receiving && !s.client.finished && !s.client.completed
    && s.down == {} && s.up == {} && s.frozen == map[] && s.begun == {} && !s.clean
  }

  /** No frame, answer or client buffer still refers to this id. */
  ghost predicate NoTrace(s: Sys, id: u16) {
    && (forall m :: m in s.down ==> m.id != id)
    && (forall a :: a in s.up ==> a.ack.Ack? && a.ack.id != id)
    && (s.client.receiving || s.client.finished || s.client.completed ==> s.client.id != id)
  }

  ghost predicate Enabled(s: Sys, a: Action) {
    match a
    case Tick(later) => s.now <= later
    case SetCache(kind, blob, _) => 0 < kind < SLOTS && |blob| <= MAX_BYTES
    // An id is not reused while a frame with it is still under way.
    case Handle(_) => NoTrace(s, s.server.NextId())
    case Accept(answer) => answer in s.up
    case Deliver(msg) => msg in s.down
    // The S3 loop takes a completed catalog before it asks for the next one.
    case Ask(_, _) => !s.client.completed
    case _ => true
  }

  function SetSlot(server: Server, kind: nat, blob: seq<byte>, ctx: u16): Server
    requires server.Valid() && 0 < kind < SLOTS && |blob| <= MAX_BYTES
  {
    server.(cache := server.cache[kind := blob], contexts := server.contexts[kind := ctx],
            ready := server.ready[kind := true])
  }

  ghost function Apply(s: Sys, a: Action): Sys
    requires s.server.Valid() && s.client.Valid() && Enabled(s, a)
    requires a.Accept? ==> a.answer.ack.Ack?
  {
    match a
    case Tick(later) => s.(now := later)
    case SetCache(kind, blob, ctx) => s.(server := SetSlot(s.server, kind, blob, ctx))
    case Handle(payload) =>
      var (server, outcome) := s.server.Request(payload, s.now);
      if outcome == Some(0) then
        s.(server := server, begun := s.begun - {server.id},
           frozen := s.frozen[server.id := Frozen(server.kind, server.context, server.blob)])
      else s.(server := server)
    case Poll(linkUp) =>
      var (server, msg) := s.server.Poll(s.now, linkUp);
      s.(server := server, down := if msg.Some? then s.down + {msg.value} else s.down)
    case Hello => s.(server := s.server.Reset())
    case Accept(answer) => s.(server := s.server.Acknowledge(answer.ack, s.now).0)
    case Ask(kind, linkUp) => s.(client := s.client.Request(kind, s.now, linkUp).0)
    case Deliver(msg) =>
      var (client, answer) := s.client.Receive(msg, s.now);
      var t := s.(client := client, up := if answer then s.up + AnswersOf(client) else s.up);
      if msg.Begin? && !s.client.receiving && client.receiving then
        t.(begun := s.begun + {msg.id}, clean := msg.id !in s.begun)
      else t
    case RemoteError(error) => s.(client := s.client.Fail(error, s.now))
    case ClientTick => s.(client := s.client.Tick(s.now))
    case Available(up) => s.(client := s.client.SetAvailable(up))
    case TakeCompleted => s.(client := s.client.Take(s.now).0)
    case CacheChanged(kind) => s.(client := s.client.CacheChanged(kind))
    case Lose(msgs, answers) => s.(down := s.down - msgs, up := s.up - answers)
  }

  /** send_ack after begin, append or finish returned true. */
  ghost function AnswersOf(client: Client): set<Answer> {
    if |client.bytes| <= MAX_BYTES && (client.receiving || client.finished)
    then {Answer(Ack(client.id, |client.bytes|), client.bytes)} else {}
  }

  // -------------------------------------------------------------- invariants

  ghost predicate GoodServer(s: Sys) {
    && s.server.Valid()
    && (s.server.active ==> s.server.id in s.frozen
                            && s.frozen[s.server.id] == Frozen(s.server.kind, s.server.context, s.server.blob))
    && (s.server.phase == Beginning ==> s.server.offset == 0)
    && (s.server.phase == Ending ==> s.server.offset == |s.server.blob|)
  }

  ghost predicate GoodMsg(frozen: map<u16, Frozen>, m: Msg) {
    && m.id in frozen
    && match m
       case Begin(kind, id, total, context) =>
         kind == frozen[id].kind && total == |frozen[id].blob| && context == frozen[id].context
       case Chunk(id, offset, data) =>
         var blob := frozen[id].blob;
         0 < |data| && offset + |data| <= |blob| && data == blob[offset..offset + |data|]
       case End(id, total, crc) => total == |frozen[id].blob| && crc == Crc32.Checksum(frozen[id].blob)
       case Ack(_, _) => false
  }

  ghost predicate GoodDown(s: Sys) {
    forall m :: m in s.down ==> GoodMsg(s.frozen, m)
  }

  ghost predicate GoodClient(frozen: map<u16, Frozen>, c: Client) {
    && c.Valid()
    && (c.receiving || c.finished || c.completed ==>
          c.id in frozen && c.kind == frozen[c.id].kind && c.context == frozen[c.id].context)
    && (c.receiving ==> c.bytes <= frozen[c.id].blob && c.expectedTotal == |frozen[c.id].blob|)
    && (c.finished || c.completed ==> c.bytes == frozen[c.id].blob)
    && (c.waiting || c.receiving ==> !(c.waiting && c.receiving) && !c.finished && !c.completed)
  }

  ghost predicate GoodAnswer(frozen: map<u16, Frozen>, a: Answer) {
    a.ack.Ack? && a.ack.id in frozen && a.held <= frozen[a.ack.id].blob && |a.held| == a.ack.next
  }

  ghost predicate GoodUp(s: Sys) {
    forall a :: a in s.up ==> GoodAnswer(s.frozen, a)
  }

  ghost predicate Safe(s: Sys) {
    GoodServer(s) && GoodDown(s) && GoodClient(s.frozen, s.client) && GoodUp(s)
  }

  // The deliveries one by one.

  lemma BeginIsSafe(frozen: map<u16, Frozen>, c: Client, m: Msg, now: nat)
    requires GoodClient(frozen, c) && m.Begin? && GoodMsg(frozen, m)
    ensures GoodClient(frozen, c.Receive(m, now).0)
  {
  }

  lemma ChunkIsSafe(frozen: map<u16, Frozen>, c: Client, m: Msg, now: nat)
    requires GoodClient(frozen, c) && m.Chunk? && GoodMsg(frozen, m)
    ensures GoodClient(frozen, c.Receive(m, now).0)
  {
    if c.receiving && m.id == c.id && m.offset == |c.bytes| {
      var blob := frozen[c.id].blob;
      assert c.bytes + m.data == blob[..|c.bytes| + |m.data|] by {
        assert c.bytes == blob[..|c.bytes|];
      }
    }
  }

  lemma EndIsSafe(frozen: map<u16, Frozen>, c: Client, m: Msg, now: nat)
    requires GoodClient(frozen, c) && m.End? && GoodMsg(frozen, m)
    ensures GoodClient(frozen, c.Receive(m, now).0)
  {
    if c.receiving && |c.bytes| == |frozen[c.id].blob| {
      assert c.bytes == frozen[c.id].blob[..|c.bytes|];
    }
  }

  lemma AnswerIsSafe(frozen: map<u16, Frozen>, c: Client)
    requires GoodClient(frozen, c)
    ensures forall a :: a in AnswersOf(c) ==> GoodAnswer(frozen, a)
  {
  }

  lemma DeliverIsSafe(s: Sys, msg: Msg)
    requires Safe(s) && msg in s.down
    ensures Safe(Apply(s, Deliver(msg)))
  {
    match msg {
      case Begin(_, _, _, _) => BeginIsSafe(s.frozen, s.client, msg, s.now);
      case Chunk(_, _, _) => ChunkIsSafe(s.frozen, s.client, msg, s.now);
      case End(_, _, _) => EndIsSafe(s.frozen, s.client, msg, s.now);
      case Ack(_, _) =>
    }
    AnswerIsSafe(s.frozen, s.client.Receive(msg, s.now).0);
  }

  lemma PollIsSafe(s: Sys, linkUp: bool)
    requires Safe(s)
    ensures Safe(Apply(s, Poll(linkUp)))
  {
    var (server, msg) := s.server.Poll(s.now, linkUp);
    if msg.Some? {
      assert GoodMsg(s.frozen, msg.value);
    }
  }

  lemma HandleIsSafe(s: Sys, payload: seq<byte>)
    requires Safe(s) && NoTrace(s, s.server.NextId())
    ensures Safe(Apply(s, Handle(payload)))
  {
    var (server, outcome) := s.server.Request(payload, s.now);
    if outcome == Some(0) {
      assert server.id == s.server.NextId();
    }
  }

  lemma AcceptIsSafe(s: Sys, answer: Answer)
    requires Safe(s) && answer in s.up
    ensures Safe(Apply(s, Accept(answer)))
  {
  }

  lemma ApplyIsSafe(s: Sys, a: Action)
    requires Safe(s) && Enabled(s, a)
    ensures a.Accept? ==> a.answer.ack.Ack?
    ensures Safe(Apply(s, a))
  {
    match a {
      case Handle(payload) => HandleIsSafe(s, payload);
      case Poll(linkUp) => PollIsSafe(s, linkUp);
      case Accept(answer) => AcceptIsSafe(s, answer);
      case Deliver(msg) => DeliverIsSafe(s, msg);
      case _ =>
    }
  }

  // ------------------------------------------------ the two ends in lock step

  /** Frames of the running transfer never reach beyond the one being sent. */
  ghost predicate InReach(server: Server, m: Msg) {
    server.active && m.id == server.id ==>
      && (m.End? ==> server.phase == Ending)
      && (m.Chunk? ==> server.phase != Beginning)
      && (m.Chunk? ==>
            m.offset + |m.data| <= server.offset
            || (server.phase == Sending && server.awaiting
                && m.offset == server.offset && |m.data| == server.lastLength))
  }

  /** Where the client's buffer stands relative to the acknowledged offset. */
  ghost predicate InStep(server: Server, held: nat) {
    match server.phase
    case Beginning => held == 0
    case Sending => held == server.offset || (server.awaiting && held == server.offset + server.lastLength)
    case _ => held == |server.blob|
  }

  /** The client is in its first pass through the transfer the server is running. */
  ghost predicate Together(s: Sys) {
    s.clean && (s.client.receiving || s.client.finished) && s.server.active && s.client.id == s.server.id
  }

  ghost predicate Aligned(s: Sys) {
    && (forall m :: m in s.down ==> InReach(s.server, m))
    && (forall a :: a in s.up ==> a.ack.id in s.begun)
    && (s.client.receiving || s.client.finished ==> s.client.id in s.begun)
    && (s.server.active && s.server.id !in s.begun ==> s.server.phase == Beginning)
    && (s.clean && (s.client.receiving || s.client.finished) ==>
          forall a :: a in s.up && a.ack.id == s.client.id ==> |a.held| <= |s.client.bytes|)
    && (Together(s) ==> InStep(s.server, |s.client.bytes|))
    && (s.server.active && s.client.finished && s.client.id == s.server.id ==> s.server.phase == Ending)
  }

  lemma AcceptKeepsAligned(s: Sys, answer: Answer)
    requires Safe(s) && Aligned(s) && answer in s.up
    ensures Aligned(Apply(s, Accept(answer)))
  {
    var t := Apply(s, Accept(answer));
    assert GoodAnswer(s.frozen, answer);
    assert forall m :: m in s.down ==> InReach(s.server, m) && GoodMsg(s.frozen, m);
  }

  lemma PollKeepsAligned(s: Sys, linkUp: bool)
    requires Safe(s) && Aligned(s)
    ensures Aligned(Apply(s, Poll(linkUp)))
  {
    var t := Apply(s, Poll(linkUp));
    assert forall m :: m in s.down ==> InReach(s.server, m);
  }

  lemma HandleKeepsAligned(s: Sys, payload: seq<byte>)
    requires Safe(s) && Aligned(s) && NoTrace(s, s.server.NextId())
    ensures Aligned(Apply(s, Handle(payload)))
  {
    var t := Apply(s, Handle(payload));
    assert forall m :: m in s.down ==> InReach(s.server, m);
  }

  lemma BeginKeepsAligned(s: Sys, msg: Msg)
    requires Safe(s) && Aligned(s) && msg in s.down && msg.Begin?
    ensures Aligned(Apply(s, Deliver(msg)))
  {
    var t := Apply(s, Deliver(msg));
    assert forall m :: m in s.down ==> InReach(s.server, m);
  }

  lemma ChunkKeepsAligned(s: Sys, msg: Msg)
    requires Safe(s) && Aligned(s) && msg in s.down && msg.Chunk?
    ensures Aligned(Apply(s, Deliver(msg)))
  {
    var t := Apply(s, Deliver(msg));
    assert InReach(s.server, msg) && GoodMsg(s.frozen, msg);
    assert forall m :: m in s.down ==> InReach(s.server, m);
  }

  lemma EndKeepsAligned(s: Sys, msg: Msg)
    requires Safe(s) && Aligned(s) && msg in s.down && msg.End?
    ensures Aligned(Apply(s, Deliver(msg)))
  {
    var t := Apply(s, Deliver(msg));
    assert forall m :: m in s.down ==> InReach(s.server, m);
  }

  lemma HelloKeepsAligned(s: Sys)
    requires Safe(s) && Aligned(s)
    ensures Aligned(Apply(s, Hello))
  {
    assert forall m :: m in s.down ==> InReach(s.server, m);
  }

  lemma AskKeepsAligned(s: Sys, kind: byte, linkUp: bool)
    requires Safe(s) && Aligned(s) && Enabled(s, Ask(kind, linkUp))
    ensures Aligned(Apply(s, Ask(kind, linkUp)))
  {
    assert forall m :: m in s.down ==> InReach(s.server, m);
  }

  lemma LoseKeepsAligned(s: Sys, msgs: set<Msg>, answers: set<Answer>)
    requires Safe(s) && Aligned(s)
    ensures Aligned(Apply(s, Lose(msgs, answers)))
  {
    assert forall m :: m in s.down ==> InReach(s.server, m);
  }

  /** The client's other steps leave its transfer alone, or end it. */
  lemma ClientKeepsAligned(s: Sys, client: Client)
    requires Safe(s) && Aligned(s)
    requires client.receiving || client.finished ==>
               client.id == s.client.id && client.bytes == s.client.bytes
               && client.receiving == s.client.receiving && client.finished == s.client.finished
    ensures Aligned(s.(client := client))
  {
    assert forall m :: m in s.down ==> InReach(s.server, m);
  }

  /** The clock and the cache do not touch the transfer. */
  lemma AsideKeepsAligned(s: Sys, now: nat, server: Server)
    requires Safe(s) && Aligned(s)
    requires server == s.server.(cache := server.cache, contexts := server.contexts, ready := server.ready)
    ensures Aligned(s.(now := now, server := server))
  {
    assert forall m :: m in s.down ==> InReach(s.server, m) && InReach(server, m);
  }

  /** The steps in which neither a frame nor an answer moves. */
  predicate OfClient(a: Action) {
    a.RemoteError? || a.ClientTick? || a.Available? || a.TakeCompleted? || a.CacheChanged?
  }

  lemma OfClientOnly(s: Sys, a: Action)
    requires Safe(s) && Enabled(s, a) && OfClient(a)
    ensures var c := Apply(s, a).client;
            && Apply(s, a) == s.(client := c)
            && (c.receiving || c.finished ==>
                  c.id == s.client.id && c.bytes == s.client.bytes
                  && c.receiving == s.client.receiving && c.finished == s.client.finished)
  {
  }

  lemma OfClientKeepsAligned(s: Sys, a: Action)
    requires Safe(s) && Aligned(s) && Enabled(s, a) && OfClient(a)
    ensures Aligned(Apply(s, a))
  {
    OfClientOnly(s, a);
    ClientKeepsAligned(s, Apply(s, a).client);
  }

  lemma ApplyKeepsAligned(s: Sys, a: Action)
    requires Safe(s) && Aligned(s) && Enabled(s, a)
    ensures a.Accept? ==> a.answer.ack.Ack?
    ensures Aligned(Apply(s, a))
  {
    match a {
      case Tick(later) => AsideKeepsAligned(s, later, s.server);
      case SetCache(kind, blob, ctx) => AsideKeepsAligned(s, s.now, SetSlot(s.server, kind, blob, ctx));
      case Handle(payload) => HandleKeepsAligned(s, payload);
      case Poll(linkUp) => PollKeepsAligned(s, linkUp);
      case Hello => HelloKeepsAligned(s);
      case Accept(answer) => AcceptKeepsAligned(s, answer);
      case Ask(kind, linkUp) => AskKeepsAligned(s, kind, linkUp);
      case Deliver(msg) => DeliverKeepsAligned(s, msg);
      case Lose(msgs, answers) => LoseKeepsAligned(s, msgs, answers);
      case _ => OfClientKeepsAligned(s, a);
    }
  }

  lemma DeliverKeepsAligned(s: Sys, msg: Msg)
    requires Safe(s) && Aligned(s) && msg in s.down
    ensures Aligned(Apply(s, Deliver(msg)))
  {
    assert GoodMsg(s.frozen, msg);
    match msg {
      case Begin(_, _, _, _) => BeginKeepsAligned(s, msg);
      case Chunk(_, _, _) => ChunkKeepsAligned(s, msg);
      case End(_, _, _) => EndKeepsAligned(s, msg);
      case Ack(_, _) =>
    }
  }

  // --------------------------------------------------------------- whole runs

  ghost predicate Step(s: Sys, a: Action, t: Sys) {
    s.server.Valid() && s.client.Valid() && Enabled(s, a) && (a.Accept? ==> a.answer.ack.Ack?) && t == Apply(s, a)
  }

  ghost predicate Run(states: seq<Sys>, acts: seq<Action>) {
    && |states| == |acts| + 1 && Initial(states[0])
    && forall i :: 0 <= i < |acts| ==> Step(states[i], acts[i], states[i + 1])
  }

  lemma {:induction false} Reachable(states: seq<Sys>, acts: seq<Action>, i: nat)
    requires Run(states, acts) && i < |states|
    ensures Safe(states[i]) && Aligned(states[i])
  {
    if i > 0 {
      Reachable(states, acts, i - 1);
      assert Step(states[i - 1], acts[i - 1], states[i]);
      ApplyIsSafe(states[i - 1], acts[i - 1]);
      ApplyKeepsAligned(states[i - 1], acts[i - 1]);
    }
  }

  /** In every reachable state the client's buffer is a prefix of what was frozen for its transfer. */
  lemma BufferIsPrefix(states: seq<Sys>, acts: seq<Action>, i: nat)
    requires Run(states, acts) && i < |states|
    ensures var s := states[i];
            s.client.receiving || s.client.finished ==>
              s.client.id in s.frozen && s.client.bytes <= s.frozen[s.client.id].blob
  {
    Reachable(states, acts, i);
  }

  /** While the client is in its first pass through the running transfer it holds the
      acknowledged bytes, or those and the chunk in flight; all of them once END is sent. */
  lemma BufferInStep(states: seq<Sys>, acts: seq<Action>, i: nat)
    requires Run(states, acts) && i < |states| && Together(states[i])
    ensures InStep(states[i].server, |states[i].client.bytes|)
  {
    Reachable(states, acts, i);
  }

  ghost predicate StartsId(states: seq<Sys>, acts: seq<Action>, i: nat, id: u16)
    requires Run(states, acts) && i < |acts|
  {
    && acts[i].Handle? && Step(states[i], acts[i], states[i + 1])
    && states[i].server.Request(acts[i].payload, states[i].now).1 == Some(0)
    && states[i + 1].server.id == id
  }

  /** Step i starts transfer `id` with the kind asked for and what is then cached under it. */
  ghost predicate Starts(states: seq<Sys>, acts: seq<Action>, i: nat, id: u16, f: Frozen)
    requires Run(states, acts) && i < |acts|
  {
    && StartsId(states, acts, i, id)
    && f.kind == acts[i].payload[0] && f.context == states[i].server.contexts[f.kind]
    && f.blob == states[i].server.cache[f.kind]
  }

  lemma {:induction false} FrozenStays(states: seq<Sys>, acts: seq<Action>, i: nat, j: nat, id: u16, f: Frozen)
    requires Run(states, acts) && i < j < |states| && Starts(states, acts, i, id, f)
    requires forall k :: i < k < j ==> !StartsId(states, acts, k, id)
    ensures id in states[j].frozen && states[j].frozen[id] == f
    decreases j
  {
    var a, s := acts[j - 1], states[j - 1];
    assert Step(s, a, states[j]);
    if j > i + 1 {
      FrozenStays(states, acts, i, j - 1, id, f);
      assert !StartsId(states, acts, j - 1, id);
    }
  }

  lemma FinishingIsExact(s: Sys, a: Action, t: Sys)
    requires Safe(s) && Step(s, a, t) && !s.client.completed && t.client.completed
    ensures t.client.id == s.client.id && s.client.id in s.frozen
            && Frozen(t.client.kind, t.client.context, t.client.bytes) == s.frozen[s.client.id]
  {
    ApplyIsSafe(s, a);
  }

  /** A transfer the client completes is byte for byte the catalog that was cached when
      it was requested, with its kind and context, whatever replaced it meanwhile. */
  lemma CompletedIsExact(states: seq<Sys>, acts: seq<Action>, i: nat, j: nat, id: u16, f: Frozen)
    requires Run(states, acts) && i < j < |acts|
    requires !states[j].client.completed && states[j + 1].client.completed && states[j].client.id == id
    requires Starts(states, acts, i, id, f)
    requires forall k :: i < k < j ==> !StartsId(states, acts, k, id)
    ensures var c := states[j + 1].client;
            c.id == id && c.kind == f.kind && c.context == f.context && c.bytes == f.blob
  {
    Reachable(states, acts, j);
    FrozenStays(states, acts, i, j, id, f);
    var s, t := states[j], states[j + 1];
    assert Step(s, acts[j], t);
    FinishingIsExact(s, acts[j], t);
  }

  /** So taking over a completed catalog succeeds, and gives the cut list the bridge was
      given, as much of it as fits. */
  lemma CatalogArrives(states: seq<Sys>, acts: seq<Action>, i: nat, j: nat, id: u16, f: Frozen,
                       entries: seq<Catalog.Entry>)
    requires Run(states, acts) && i < j < |acts| && f.blob == Catalog.SetBlob(f.kind, entries)
    requires !states[j].client.completed && states[j + 1].client.completed && states[j].client.id == id
    requires Starts(states, acts, i, id, f)
    requires forall k :: i < k < j ==> !StartsId(states, acts, k, id)
    ensures var c, taken := states[j + 1].client, Catalog.Taken(4, Catalog.SetOffered(entries));
            && c.Take(states[j + 1].now).1
            && Catalog.Decode(c.bytes, c.kind)
               == Some((Catalog.PageInfo(|taken|, 0, |taken|, false, false), Catalog.CutEntries(taken)))
  {
    CompletedIsExact(states, acts, i, j, id, f);
    Catalog.SetRoundTrip(f.kind, entries);
  }

  /** The same for a page, with its place in the list and the context it was stored under. */
  lemma PageArrives(states: seq<Sys>, acts: seq<Action>, i: nat, j: nat, id: u16, f: Frozen,
                    entries: seq<Catalog.Entry>, offset: u16, total: u16, hasMore: bool)
    returns (taken: seq<Catalog.Entry>, next: nat, more: bool)
    requires Run(states, acts) && i < j < |acts| && offset <= Catalog.MAX_ENTRIES
    requires f.blob == Catalog.PageBlob(f.kind, entries, offset, total, hasMore)
    requires !states[j].client.completed && states[j + 1].client.completed && states[j].client.id == id
    requires Starts(states, acts, i, id, f)
    requires forall k :: i < k < j ==> !StartsId(states, acts, k, id)
    ensures taken == Catalog.Taken(9, Catalog.Offered(entries, offset)) && next == offset + |taken|
    ensures more <==> hasMore && next < Catalog.MAX_ENTRIES
    ensures var c := states[j + 1].client;
            && c.Take(states[j + 1].now).1 && c.context == f.context
            && Catalog.Decode(c.bytes, c.kind)
               == Some((Catalog.PageInfo(total, offset, next, true, more), Catalog.CutEntries(taken)))
  {
    CompletedIsExact(states, acts, i, j, id, f);
    taken, next, more := Catalog.PageRoundTrip(f.kind, entries, offset, total, hasMore);
  }

  /** The acknowledgement that closes the server's side was sent while the client held
      the whole blob (which is less than: the client has finished). */
  lemma ClosingAckHeldAll(states: seq<Sys>, acts: seq<Action>, i: nat)
    requires Run(states, acts) && i < |acts| && acts[i].Accept?
    requires states[i].server.active && !states[i + 1].server.active
    ensures acts[i].answer.held == states[i].server.blob
  {
    Reachable(states, acts, i);
    assert Step(states[i], acts[i], states[i + 1]);
    assert GoodAnswer(states[i].frozen, acts[i].answer);
  }

  // ----------------------------------------------------------------- progress

  function Chunks(n: nat): nat {
    (n + CHUNK_BYTES - 1) / CHUNK_BYTES
  }

  /** Acknowledgements still to be accepted. */
  function Remaining(server: Server): nat
    requires server.Valid()
  {
    match server.phase
    case Idle => 0
    case Beginning => Chunks(|server.blob|) + 2
    case Sending => Chunks(|server.blob| - server.offset) + 1
    case Ending => 1
  }

  lemma AckIsOneStep(server: Server, ack: Msg, now: nat)
    requires server.Valid() && ack.Ack? && (server.phase == Beginning ==> server.offset == 0)
    ensures var (after, accepted) := server.Acknowledge(ack, now);
            after.Valid() && if accepted then Remaining(after) + 1 == Remaining(server) else after == server
  {
    var rest := |server.blob| - server.offset;
    if server.phase == Sending && rest > CHUNK_BYTES {
      assert Chunks(rest) == Chunks(rest - CHUNK_BYTES) + 1;
    }
  }

  /** The action neither abandons the running transfer nor starts another. */
  ghost predicate Uninterrupting(s: Sys, a: Action)
    requires s.server.Valid()
  {
    match a
    case Hello => false
    case Handle(payload) => s.server.Request(payload, s.now).1 != Some(0)
    case Poll(_) => !s.server.Stalled(s.now)
    case _ => true
  }

  ghost function Accepted(s: Sys, a: Action): nat {
    if s.server.Valid() && a.Accept? && a.answer.ack.Ack? && s.server.Acknowledge(a.answer.ack, s.now).1
    then 1 else 0
  }

  ghost function AcceptedIn(states: seq<Sys>, acts: seq<Action>, i: nat, j: nat): nat
    requires i <= j <= |acts| && |states| == |acts| + 1
    decreases j
  {
    if i == j then 0
    else AcceptedIn(states, acts, i, j - 1) + Accepted(states[j - 1], acts[j - 1])
  }

  ghost predicate Undisturbed(states: seq<Sys>, acts: seq<Action>, i: nat, j: nat)
    requires Run(states, acts) && i <= j < |states|
  {
    forall k :: i <= k < j ==> Step(states[k], acts[k], states[k + 1]) && Uninterrupting(states[k], acts[k])
  }

  /** The step takes off what still remains just what it has accepted. */
  ghost predicate Balanced(s: Sys, a: Action, t: Sys) {
    && s.server.Valid() && t.server.Valid()
    && Remaining(t.server) + Accepted(s, a) == Remaining(s.server)
  }

  lemma StepBalance(s: Sys, a: Action, t: Sys)
    requires Safe(s) && Step(s, a, t) && Uninterrupting(s, a)
    ensures Balanced(s, a, t)
  {
    if a.Accept? {
      AckIsOneStep(s.server, a.answer.ack, s.now);
    }
  }

  lemma StepsBalance(states: seq<Sys>, acts: seq<Action>, i: nat, j: nat)
    requires Run(states, acts) && i <= j < |states| && Undisturbed(states, acts, i, j)
    ensures forall k :: i <= k < j ==> Balanced(states[k], acts[k], states[k + 1])
  {
    forall k | i <= k < j ensures Balanced(states[k], acts[k], states[k + 1]) {
      Reachable(states, acts, k);
      StepBalance(states[k], acts[k], states[k + 1]);
    }
  }

  lemma {:induction false} BalanceAdds(states: seq<Sys>, acts: seq<Action>, i: nat, j: nat)
    requires i <= j < |states| == |acts| + 1 && states[i].server.Valid()
    requires forall k :: i <= k < j ==> Balanced(states[k], acts[k], states[k + 1])
    ensures states[j].server.Valid()
    ensures Remaining(states[j].server) + AcceptedIn(states, acts, i, j) == Remaining(states[i].server)
    decreases j
  {
    if i < j {
      assert Balanced(states[j - 1], acts[j - 1], states[j - 1 + 1]);
      BalanceAdds(states, acts, i, j - 1);
    }
  }

  /** Over any undisturbed stretch what remains falls by the number of accepted answers. */
  lemma ProgressBalance(states: seq<Sys>, acts: seq<Action>, i: nat, j: nat)
    requires Run(states, acts) && i <= j < |states| && Undisturbed(states, acts, i, j)
    ensures states[i].server.Valid() && states[j].server.Valid()
    ensures Remaining(states[j].server) + AcceptedIn(states, acts, i, j) == Remaining(states[i].server)
  {
    Reachable(states, acts, i);
    StepsBalance(states, acts, i, j);
    BalanceAdds(states, acts, i, j);
  }

  lemma StartRemaining(states: seq<Sys>, acts: seq<Action>, i: nat, id: u16, f: Frozen)
    requires Run(states, acts) && i < |acts| && Starts(states, acts, i, id, f)
    requires states[i + 1].server.Valid()
    ensures Remaining(states[i + 1].server) == Chunks(|f.blob|) + 2
  {
  }

  /** Whatever was lost, duplicated or sent again in between: a transfer of n bytes that
      runs undisturbed from its start to its end took exactly ceil(n / 186) + 2 accepted
      acknowledgements. */
  lemma TransferCost(states: seq<Sys>, acts: seq<Action>, i: nat, j: nat, id: u16, f: Frozen)
    requires Run(states, acts) && i < j < |states| && Starts(states, acts, i, id, f)
    requires Undisturbed(states, acts, i + 1, j) && !states[j].server.active
    ensures AcceptedIn(states, acts, i + 1, j) == Chunks(|f.blob|) + 2
  {
    ProgressBalance(states, acts, i + 1, j);
    StartRemaining(states, acts, i, id, f);
  }

  /** The frame is answered, and the answer accepted. */
  ghost predicate Answered(server: Server, client: Client, msg: Msg, now: nat)
    requires server.Valid() && client.Valid()
  {
    var (after, answered) := client.Receive(msg, now);
    && answered && after.Valid() && after.Answer().Some?
    && server.Acknowledge(after.Answer().value, now).1
  }

  lemma ChunkAnswered(server: Server, client: Client, now: nat)
    requires server.Valid() && server.phase == Sending && server.lastLength == server.ChunkLength() && server.awaiting
    requires client.Valid() && client.receiving && client.id == server.id && client.bytes <= server.blob
    requires |client.bytes| == server.offset || |client.bytes| == server.offset + server.lastLength
    ensures Answered(server, client, server.Current(), now)
  {
    var n, o := |client.bytes|, server.offset;
    assert client.bytes == server.blob[..n];
    if n > o {
      assert client.bytes[o..n] == server.blob[o..n];
    }
  }

  lemma BeginAnswered(server: Server, client: Client, now: nat)
    requires server.Valid() && server.phase == Beginning && server.awaiting && client.Valid()
    requires (client.receiving && client.id == server.id && client.bytes == [])
             || (client.waiting && !client.receiving && client.requestedKind == server.kind)
    ensures Answered(server, client, server.Current(), now)
  {
  }

  lemma EndAnswered(server: Server, client: Client, now: nat)
    requires server.Valid() && server.phase == Ending && server.awaiting && client.Valid()
    requires client.id == server.id && client.bytes == server.blob
    requires client.finished || (client.receiving && client.expectedTotal == |server.blob|)
    ensures Answered(server, client, server.Current(), now)
  {
  }

  /** Nothing is ever stuck: while the client is with the server, or waits for its BEGIN,
      one undisturbed exchange is answered and the answer accepted. */
  lemma ExchangeAdvances(s: Sys)
    requires Safe(s) && Aligned(s) && s.server.active && !s.server.Stalled(s.now)
    requires s.server.awaiting ==> s.now - s.server.lastSend >= RETRANSMIT_MS
    requires Together(s) || (s.server.phase == Beginning && s.client.waiting && s.client.requestedKind == s.server.kind)
    ensures var (server, msg) := s.server.Poll(s.now, true);
            server.Valid() && msg.Some? && Answered(server, s.client, msg.value, s.now)
  {
    var (server, msg) := s.server.Poll(s.now, true);
    assert msg == Some(server.Current());
    match s.server.phase {
      case Beginning => BeginAnswered(server, s.client, s.now);
      case Sending => ChunkAnswered(server, s.client, s.now);
      case _ => EndAnswered(server, s.client, s.now);
    }
  }
}
