// Particular runs of the catalog transfer: one in which nothing is lost, and one in which
// the server closes before the client has finished, with exactly when that can happen.
module LibraryRuns {
  import opened Bytes
  import opened LibraryMessages
  import opened LibraryTransfer
  import opened LibraryProtocol
  import opened Wrappers

  lemma Extend(states: seq<Sys>, acts: seq<Action>, a: Action, t: Sys) returns (more: seq<Sys>, done: seq<Action>)
    requires Run(states, acts) && Step(states[|acts|], a, t)
    ensures Run(more, done) && done == acts + [a] && more == states + [t]
  {
    more, done := states + [t], acts + [a];
    forall i | 0 <= i < |done| ensures Step(more[i], done[i], more[i + 1]) {
      if i < |acts| {
        assert Step(states[i], acts[i], states[i + 1]);
      }
    }
  }

  // ------------------------------------------------- a transfer without losses

  /** The server is about to send, and the client waits for just that frame. */
  ghost predicate InTouch(s: Sys) {
    && s.server.active && !s.server.awaiting && !s.server.Stalled(s.now) && s.client.Valid()
    && match s.server.phase
       case Beginning => s.client.waiting && !s.client.receiving && s.client.requestedKind == s.server.kind
       case Sending => Holds(s) && |s.client.bytes| == s.server.offset
       case _ => Holds(s) && s.client.bytes == s.server.blob
  }

  ghost predicate Holds(s: Sys) {
    && s.client.receiving && s.client.id == s.server.id && !s.client.finished
    && s.client.bytes <= s.server.blob && s.client.expectedTotal == |s.server.blob|
  }

  /** The catalog is with the client, and the server is done. */
  ghost predicate Over(s: Sys, blob: seq<byte>) {
    s.client.completed && s.client.bytes == blob && !s.server.active
  }

  /** Poll, delivery and acknowledgement of one frame. */
  ghost predicate Round(s: Sys, p: Sys, d: Sys, answer: Answer, u: Sys) {
    && s.server.Valid() && s.server.active
    && Step(s, Poll(true), p) && Step(p, Deliver(s.server.Current()), d) && Step(d, Accept(answer), u)
  }

  /** After a round the server is a phase or a chunk further, and the two are still in touch. */
  ghost predicate Further(s: Sys, u: Sys)
    requires s.server.Valid()
  {
    && u.server.Valid() && Remaining(u.server) < Remaining(s.server) && u.now == s.now
    && if s.server.phase == Ending then Over(u, s.server.blob)
       else InTouch(u) && u.server.blob == s.server.blob
  }

  lemma Polled(s: Sys) returns (p: Sys)
    requires Safe(s) && InTouch(s)
    ensures Step(s, Poll(true), p) && s.server.Current() in p.down && p.client == s.client && p.now == s.now
    ensures p.server == s.server.(lastSend := s.now, awaiting := true,
                                  lastLength := if s.server.phase == Sending then s.server.ChunkLength()
                                                else s.server.lastLength)
  {
    p := Apply(s, Poll(true));
  }

  lemma Delivered(p: Sys, m: Msg) returns (d: Sys, answer: Answer)
    requires p.server.Valid() && p.client.Valid() && m in p.down
    requires p.client.Receive(m, p.now).1 && p.client.Receive(m, p.now).0.Valid()
    requires p.client.Receive(m, p.now).0.Answer().Some?
    ensures Step(p, Deliver(m), d) && answer in d.up && d.server == p.server && d.now == p.now
    ensures d.client == p.client.Receive(m, p.now).0
    ensures answer == Answer(Ack(d.client.id, |d.client.bytes|), d.client.bytes)
  {
    d := Apply(p, Deliver(m));
    answer := Answer(Ack(d.client.id, |d.client.bytes|), d.client.bytes);
  }

  lemma Acknowledged(d: Sys, answer: Answer) returns (u: Sys)
    requires d.server.Valid() && d.client.Valid() && answer in d.up && answer.ack.Ack?
    ensures Step(d, Accept(answer), u) && u.client == d.client && u.now == d.now
    ensures u.server == d.server.Acknowledge(answer.ack, d.now).0
  {
    u := Apply(d, Accept(answer));
  }

  lemma BeginRound(s: Sys) returns (p: Sys, d: Sys, answer: Answer, u: Sys)
    requires Safe(s) && InTouch(s) && s.server.phase == Beginning
    ensures Round(s, p, d, answer, u) && Further(s, u)
  {
    p := Polled(s);
    d, answer := Delivered(p, s.server.Current());
    u := Acknowledged(d, answer);
    AckIsOneStep(d.server, answer.ack, d.now);
  }

  /** The chunk is appended and answered. */
  lemma ChunkDelivered(s: Sys, p: Sys) returns (d: Sys, answer: Answer)
    requires InTouch(s) && s.server.Valid() && s.server.phase == Sending && p.client == s.client
    requires p.server.Valid() && s.server.Current() in p.down
    ensures Step(p, Deliver(s.server.Current()), d) && answer in d.up && d.server == p.server && d.now == p.now
    ensures var next := s.server.offset + s.server.ChunkLength();
            && answer.ack == Ack(s.server.id, next) && d.client.Valid()
            && d.client == s.client.(bytes := s.server.blob[..next], started := d.client.started)
  {
    var o, n, blob := s.server.offset, s.server.ChunkLength(), s.server.blob;
    assert s.client.bytes == blob[..o] && blob[..o] + blob[o..o + n] == blob[..o + n];
    d, answer := Delivered(p, s.server.Current());
  }

  lemma ChunkRound(s: Sys) returns (p: Sys, d: Sys, answer: Answer, u: Sys)
    requires Safe(s) && InTouch(s) && s.server.phase == Sending
    ensures Round(s, p, d, answer, u) && Further(s, u)
  {
    p := Polled(s);
    d, answer := ChunkDelivered(s, p);
    u := Acknowledged(d, answer);
    AckIsOneStep(d.server, answer.ack, d.now);
    assert s.server.blob[..|s.server.blob|] == s.server.blob;
  }

  lemma EndRound(s: Sys) returns (p: Sys, d: Sys, answer: Answer, u: Sys)
    requires Safe(s) && InTouch(s) && s.server.phase == Ending
    ensures Round(s, p, d, answer, u) && Further(s, u)
  {
    p := Polled(s);
    d, answer := Delivered(p, s.server.Current());
    u := Acknowledged(d, answer);
    AckIsOneStep(d.server, answer.ack, d.now);
  }

  lemma AnyRound(s: Sys) returns (p: Sys, d: Sys, answer: Answer, u: Sys)
    requires Safe(s) && InTouch(s)
    ensures Round(s, p, d, answer, u) && Further(s, u)
  {
    match s.server.phase {
      case Beginning => p, d, answer, u := BeginRound(s);
      case Sending => p, d, answer, u := ChunkRound(s);
      case _ => p, d, answer, u := EndRound(s);
    }
  }

  lemma RoundAsRun(states: seq<Sys>, acts: seq<Action>) returns (more: seq<Sys>, done: seq<Action>)
    requires Run(states, acts) && InTouch(states[|acts|]) && states[|acts|].server.Valid()
    ensures Run(more, done) && states <= more && acts <= done && Further(states[|acts|], more[|done|])
  {
    var s := states[|acts|];
    Reachable(states, acts, |acts|);
    var p, d, answer, u := AnyRound(s);
    more, done := Extend(states, acts, Poll(true), p);
    more, done := Extend(more, done, Deliver(s.server.Current()), d);
    more, done := Extend(more, done, Accept(answer), u);
  }

  /** Once the two are in touch, rounds without a loss carry the whole catalog over: the
      client completes with the frozen bytes, and the server is done. */
  lemma {:induction false} LosslessCompletes(states: seq<Sys>, acts: seq<Action>)
    returns (more: seq<Sys>, done: seq<Action>)
    requires Run(states, acts) && InTouch(states[|acts|]) && states[|acts|].server.Valid()
    ensures Run(more, done) && states <= more && acts <= done
    ensures Over(more[|done|], states[|acts|].server.blob)
    decreases Remaining(states[|acts|].server)
  {
    more, done := RoundAsRun(states, acts);
    if states[|acts|].server.phase != Ending {
      more, done := LosslessCompletes(more, done);
    }
  }

  // ------------------------------------------- the server closing before the client

  /** The answer that says everything of the running transfer has arrived. */
  function AllHeld(s: Sys): Msg
    requires s.server.Valid()
  {
    Ack(s.server.id, |s.server.blob|)
  }

  /** The server is in the middle of a transfer whose last chunk it is about to send. */
  ghost predicate AtLastChunk(s: Sys) {
    && InTouch(s) && s.server.Valid() && s.server.phase == Sending
    && s.server.offset + s.server.ChunkLength() == |s.server.blob|
  }

  /** The last chunk is sent and answered. */
  lemma ChunkOnce(s: Sys) returns (p: Sys, d: Sys, answer: Answer)
    requires Safe(s) && AtLastChunk(s)
    ensures Step(s, Poll(true), p) && Step(p, Deliver(s.server.Current()), d) && s.server.Current() in d.down
    ensures answer in d.up && answer.ack == AllHeld(s) && d.now == s.now
    ensures d.client.Valid() && Holds(d) && d.client.bytes == s.server.blob && d.server.Valid()
    ensures d.server == s.server.(awaiting := true, lastSend := s.now, lastLength := s.server.ChunkLength())
  {
    p := Polled(s);
    var o, blob := s.server.offset, s.server.blob;
    d, answer := Delivered(p, s.server.Current());
    assert s.client.bytes == blob[..o] && d.client.bytes == blob[..|blob|] == blob;
  }

  /** The answer is slow, so it is sent and answered again. */
  lemma ChunkAgain(d: Sys, m: Msg) returns (t: Sys, q: Sys, r: Sys)
    requires d.server.Valid() && d.server.phase == Sending && d.server.awaiting && d.server.lastSend == d.now
    requires d.client.Valid() && Holds(d) && d.client.bytes == d.server.blob && !d.server.Stalled(d.now + RETRANSMIT_MS)
    requires m == d.server.Current() && m in d.down
    ensures Step(d, Tick(d.now + RETRANSMIT_MS), t) && Step(t, Poll(true), q) && Step(q, Deliver(m), r)
    ensures r.client == d.client && d.up <= r.up && r.now == t.now == d.now + RETRANSMIT_MS
    ensures r.server == d.server.(lastSend := t.now)
  {
    t := Apply(d, Tick(d.now + RETRANSMIT_MS));
    q := Apply(t, Poll(true));
    assert d.client.Receive(m, t.now) == (d.client, true);
    r := Apply(q, Deliver(m));
  }

  /** The second answer is taken for that to END. */
  lemma AnswerTwice(r: Sys, answer: Answer) returns (e: Sys, f: Sys, u: Sys)
    requires r.server.Valid() && r.client.Valid() && r.server.phase == Sending && r.server.awaiting
    requires r.server.offset + r.server.lastLength == |r.server.blob| && !r.server.Stalled(r.now)
    requires answer in r.up && answer.ack == AllHeld(r)
    ensures Step(r, Accept(answer), e) && Step(e, Poll(true), f) && Step(f, Accept(answer), u)
    ensures u.client == r.client && !u.server.active
    ensures f.server.active && f.server.phase == Ending && f.server.awaiting && AllHeld(f) == AllHeld(r)
  {
    e := Acknowledged(r, answer);
    f := Apply(e, Poll(true));
    u := Acknowledged(f, answer);
  }

  /** The first five steps as a run. */
  lemma RunChunkTwice(states: seq<Sys>, acts: seq<Action>)
    returns (more: seq<Sys>, done: seq<Action>, r: Sys, answer: Answer)
    requires Run(states, acts) && AtLastChunk(states[|acts|])
    requires !states[|acts|].server.Stalled(states[|acts|].now + RETRANSMIT_MS)
    ensures Run(more, done) && states <= more && |done| == |acts| + 5 && more[|done|] == r
    ensures r.server.Valid() && r.client.Valid() && r.server.phase == Sending && r.server.awaiting
    ensures r.server.offset + r.server.lastLength == |r.server.blob| && !r.server.Stalled(r.now)
    ensures answer in r.up && answer.ack == AllHeld(r) && r.client.receiving && !r.client.finished
  {
    var s := states[|acts|];
    var m := s.server.Current();
    Reachable(states, acts, |acts|);
    var p, d, t, q;
    p, d, answer := ChunkOnce(s);
    t, q, r := ChunkAgain(d, m);
    more, done := Extend(states, acts, Poll(true), p);
    more, done := Extend(more, done, Deliver(m), d);
    more, done := Extend(more, done, Tick(s.now + RETRANSMIT_MS), t);
    more, done := Extend(more, done, Poll(true), q);
    more, done := Extend(more, done, Deliver(m), r);
  }

  /** Every transfer can end like this: the answer to the last chunk is slow, the chunk is
      sent and answered twice, and the second answer closes the server while the client
      still waits for END. */
  lemma ServerMayCloseFirst(states: seq<Sys>, acts: seq<Action>) returns (more: seq<Sys>, done: seq<Action>)
    requires Run(states, acts) && AtLastChunk(states[|acts|])
    requires !states[|acts|].server.Stalled(states[|acts|].now + RETRANSMIT_MS)
    ensures Run(more, done) && states <= more && |done| == |acts| + 8 && done[|acts| + 7].Accept?
    ensures more[|acts| + 7].server.active && !more[|acts| + 8].server.active
    ensures more[|acts| + 8].client.receiving && !more[|acts| + 8].client.finished
  {
    var r, answer;
    more, done, r, answer := RunChunkTwice(states, acts);
    var e, f, u := AnswerTwice(r, answer);
    more, done := Extend(more, done, Accept(answer), e);
    more, done := Extend(more, done, Poll(true), f);
    more, done := Extend(more, done, Accept(answer), u);
  }

  /** A bridge just started, and an S3 that knows it has a library. */
  ghost function Fresh(): Sys {
    Sys(0, Server([[], [], [], [], [], []], [0, 0, 0, 0, 0, 0], [false, false, false, false, false, false], [], false,
                  false, 0, 0, 0, 0, 0, 0, 0, Idle),
        Client(true, false, false, false, false, false, 0, 0, 0, 0, 0, 0, 0, 0, []), {}, {}, map[], {}, false)
  }

  /** A catalog of one byte is cached and asked for. */
  lemma TransferAsked() returns (states: seq<Sys>, acts: seq<Action>)
    ensures Run(states, acts) && |acts| == 2 && states[2].server.Valid() && states[2].client.Valid()
    ensures var f := Fresh();
            states[2] == f.(server := SetSlot(f.server, 1, [7], 0),
                            client := f.client.(requestedKind := 1, waiting := true))
  {
    var s0 := Fresh();
    var s1 := s0.(server := SetSlot(s0.server, 1, [7], 0));
    var s2 := s1.(client := s1.client.(requestedKind := 1, waiting := true));
    states, acts := Extend([s0], [], SetCache(1, [7], 0), s1);
    states, acts := Extend(states, acts, Ask(1, true), s2);
  }

  lemma TransferBegun() returns (states: seq<Sys>, acts: seq<Action>)
    ensures Run(states, acts) && InTouch(states[|acts|]) && states[|acts|].server.Valid() && states[|acts|].now == 0
    ensures states[|acts|].server.phase == Beginning && states[|acts|].server.blob == [7]
  {
    states, acts := TransferAsked();
    var s := states[2];
    var t := Apply(s, Handle([1]));
    states, acts := Extend(states, acts, Handle([1]), t);
  }

  lemma ChunkReached() returns (states: seq<Sys>, acts: seq<Action>)
    ensures Run(states, acts) && AtLastChunk(states[|acts|]) && !states[|acts|].server.Stalled(RETRANSMIT_MS)
    ensures states[|acts|].now == 0
  {
    states, acts := TransferBegun();
    var s := states[|acts|];
    Reachable(states, acts, |acts|);
    var p, d, answer, u := BeginRound(s);
    states, acts := Extend(states, acts, Poll(true), p);
    states, acts := Extend(states, acts, Deliver(s.server.Current()), d);
    states, acts := Extend(states, acts, Accept(answer), u);
  }

  /** And it does happen, from the very start. */
  lemma ServerClosesFirst() returns (states: seq<Sys>, acts: seq<Action>, i: nat)
    ensures Run(states, acts) && i < |acts| && acts[i].Accept?
    ensures states[i].server.active && !states[i + 1].server.active
    ensures states[i + 1].client.receiving && !states[i + 1].client.finished
  {
    states, acts := ChunkReached();
    i := |acts| + 7;
    states, acts := ServerMayCloseFirst(states, acts);
  }

  /** Some answer under way would close the server while the client has not finished. */
  ghost predicate CanCloseFirst(s: Sys)
    requires s.server.Valid()
  {
    exists a: Answer :: a in s.up && a.ack.Ack?
                        && !s.server.Acknowledge(a.ack, s.now).0.active && !s.client.finished
  }

  /** When: in every reachable state in which END is waited for, exactly if the client has
      not finished and an answer for all the bytes is under way. */
  lemma ClosesFirstIff(states: seq<Sys>, acts: seq<Action>, i: nat)
    requires Run(states, acts) && i < |states| && states[i].server.phase == Ending && states[i].server.awaiting
    ensures Safe(states[i])
    ensures CanCloseFirst(states[i])
       <==> !states[i].client.finished && exists a :: a in states[i].up && a.ack == AllHeld(states[i])
  {
    Reachable(states, acts, i);
    var s := states[i];
    assert forall a :: a in s.up ==> GoodAnswer(s.frozen, a);
  }

  /** How often this answer reached the server. */
  function Arrivals(acts: seq<Action>, i: nat, j: nat, ack: Msg): nat
    requires i <= j <= |acts|
    decreases j
  {
    if i == j then 0
    else Arrivals(acts, i, j - 1, ack) + if acts[j - 1].Accept? && acts[j - 1].answer.ack == ack then 1 else 0
  }

  /** The client answers this frame like that. */
  ghost predicate Answers(s: Sys, a: Action, ack: Msg) {
    && a.Deliver? && s.client.Receive(a.msg, s.now).1
    && Answer(ack, s.client.Receive(a.msg, s.now).0.bytes) in AnswersOf(s.client.Receive(a.msg, s.now).0)
  }

  /** How often the client sent it. */
  ghost function Sent(states: seq<Sys>, acts: seq<Action>, i: nat, j: nat, ack: Msg): nat
    requires i <= j <= |acts| && |states| == |acts| + 1
    decreases j
  {
    if i == j then 0
    else Sent(states, acts, i, j - 1, ack) + if Answers(states[j - 1], acts[j - 1], ack) then 1 else 0
  }

  /** How often it sent it for a BEGIN or a chunk. */
  ghost function SentBeforeEnd(states: seq<Sys>, acts: seq<Action>, i: nat, j: nat, ack: Msg): nat
    requires i <= j <= |acts| && |states| == |acts| + 1
    decreases j
  {
    if i == j then 0
    else SentBeforeEnd(states, acts, i, j - 1, ack)
         + if Answers(states[j - 1], acts[j - 1], ack) && !acts[j - 1].msg.End? then 1 else 0
  }

  /** What an undisturbed step does to a running transfer. */
  ghost predicate KeepsRunning(s: Server, a: Action, t: Server) {
    t.active ==>
      && s.active && t.id == s.id && t.blob == s.blob
      && (t.phase == Ending && s.phase != Ending && s.blob != [] ==>
            |s.blob| <= MAX_BYTES && a.Accept? && a.answer.ack == Ack(s.id, |s.blob|))
  }

  lemma RunningStep(s: Sys, a: Action, t: Sys)
    requires Safe(s) && Step(s, a, t) && Uninterrupting(s, a)
    ensures KeepsRunning(s.server, a, t.server)
  {
  }

  lemma RunningSteps(states: seq<Sys>, acts: seq<Action>, i: nat, j: nat)
    requires Run(states, acts) && i <= j < |states| && Undisturbed(states, acts, i, j)
    ensures forall k :: i <= k < j ==> KeepsRunning(states[k].server, acts[k], states[k + 1].server)
  {
    forall k | i <= k < j ensures KeepsRunning(states[k].server, acts[k], states[k + 1].server) {
      Reachable(states, acts, k);
      RunningStep(states[k], acts[k], states[k + 1]);
    }
  }

  lemma {:induction false} EndingCounted(states: seq<Sys>, acts: seq<Action>, i: nat, j: nat, id: u16, blob: seq<byte>)
    requires i <= j < |states| == |acts| + 1 && 0 < |blob| <= MAX_BYTES && states[j].server.active
    requires states[i].server.id == id && states[i].server.blob == blob && states[i].server.phase != Ending
    requires forall k :: i <= k < j ==> KeepsRunning(states[k].server, acts[k], states[k + 1].server)
    ensures states[j].server.id == id && states[j].server.blob == blob
    ensures states[j].server.phase == Ending ==> Arrivals(acts, i, j, Ack(id, |blob|)) >= 1
    decreases j
  {
    if j > i {
      assert KeepsRunning(states[j - 1].server, acts[j - 1], states[j - 1 + 1].server);
      EndingCounted(states, acts, i, j - 1, id, blob);
    }
  }

  /** The server waits for END only after one answer for all the bytes has arrived. */
  lemma EndingTakesOne(states: seq<Sys>, acts: seq<Action>, i: nat, j: nat, id: u16, f: Frozen)
    requires Run(states, acts) && i < j < |states| && Starts(states, acts, i, id, f) && f.blob != []
    requires Undisturbed(states, acts, i + 1, j) && states[j].server.active
    ensures states[j].server.id == id && states[j].server.blob == f.blob
    ensures states[j].server.phase == Ending ==> Arrivals(acts, i + 1, j, Ack(id, |f.blob|)) >= 1
  {
    RunningSteps(states, acts, i + 1, j);
    EndingCounted(states, acts, i + 1, j, id, f.blob);
  }

  /** What closes the server. */
  ghost predicate ClosedBy(s: Sys, a: Action, t: Sys) {
    s.server.active && !t.server.active ==>
      s.server.phase == Ending && a.Accept? && |s.server.blob| <= MAX_BYTES
      && a.answer.ack == Ack(s.server.id, |s.server.blob|)
  }

  lemma ClosingStep(states: seq<Sys>, acts: seq<Action>, i: nat, j: nat)
    requires Run(states, acts) && i <= j < |acts| && Undisturbed(states, acts, i, j + 1)
    ensures ClosedBy(states[j], acts[j], states[j + 1])
  {
    Reachable(states, acts, j);
    var s, a, t := states[j], acts[j], states[j + 1];
    assert Step(s, a, t) && Uninterrupting(s, a);
    Closing(s, a, t);
  }

  lemma Closing(s: Sys, a: Action, t: Sys)
    requires Safe(s) && Step(s, a, t) && Uninterrupting(s, a)
    ensures ClosedBy(s, a, t)
  {
  }

  lemma ArrivesOnceMore(acts: seq<Action>, i: nat, j: nat, ack: Msg)
    requires i <= j < |acts| && acts[j].Accept? && acts[j].answer.ack == ack
    ensures Arrivals(acts, i, j + 1, ack) == Arrivals(acts, i, j, ack) + 1
  {
  }

  lemma EndAnswerFinishes(s: Sys, a: Action, t: Sys, ack: Msg)
    requires Safe(s) && Step(s, a, t) && Answers(s, a, ack) && a.msg.End?
    ensures t.client.finished && ack.Ack? && t.client.id == ack.id
  {
  }

  lemma {:induction false} SentAlike(states: seq<Sys>, acts: seq<Action>, i: nat, j: nat, ack: Msg)
    requires i <= j < |states| == |acts| + 1
    requires forall k :: i <= k < j ==> Answers(states[k], acts[k], ack) ==> !acts[k].msg.End?
    ensures SentBeforeEnd(states, acts, i, j, ack) == Sent(states, acts, i, j, ack)
    decreases j
  {
    if i < j {
      SentAlike(states, acts, i, j - 1, ack);
    }
  }

  /** After step i and up to state j the client has not finished this transfer. */
  ghost predicate Unfinished(states: seq<Sys>, i: nat, j: nat, id: u16)
    requires j < |states|
  {
    forall k :: i < k <= j ==> !(states[k].client.finished && states[k].client.id == id)
  }

  /** While the client has not finished this transfer, no END was answered. */
  lemma NoEndAnswered(states: seq<Sys>, acts: seq<Action>, i: nat, j: nat, ack: Msg)
    requires Run(states, acts) && i <= j <= |acts| && ack.Ack?
    requires Unfinished(states, i, j, ack.id)
    ensures SentBeforeEnd(states, acts, i, j, ack) == Sent(states, acts, i, j, ack)
  {
    forall k | i <= k < j && Answers(states[k], acts[k], ack) ensures !acts[k].msg.End? {
      if acts[k].msg.End? {
        Reachable(states, acts, k);
        EndAnswerFinishes(states[k], acts[k], states[k + 1], ack);
      }
    }
    SentAlike(states, acts, i, j, ack);
  }

  /** With what closes the server, an answer for all the bytes has arrived twice. */
  lemma ClosingTakesTwo(states: seq<Sys>, acts: seq<Action>, i: nat, j: nat, id: u16, f: Frozen)
    requires Run(states, acts) && i < j < |acts| && Starts(states, acts, i, id, f) && f.blob != []
    requires Undisturbed(states, acts, i + 1, j + 1) && states[j].server.active && !states[j + 1].server.active
    ensures Arrivals(acts, i + 1, j + 1, Ack(id, |f.blob|)) >= 2
  {
    EndingTakesOne(states, acts, i, j, id, f);
    ClosingStep(states, acts, i + 1, j);
    ArrivesOnceMore(acts, i + 1, j, Ack(id, |f.blob|));
  }

  /** What it takes: over a link that hands over no answer more often than it was sent, the
      server closes before the client has finished only if the client has answered for all
      the bytes at least twice before END. A last chunk that is answered once cannot do it. */
  lemma ClosingFirstTakesTwo(states: seq<Sys>, acts: seq<Action>, i: nat, j: nat, id: u16, f: Frozen)
    requires Run(states, acts) && i < j < |acts| && Starts(states, acts, i, id, f) && f.blob != []
    requires Undisturbed(states, acts, i + 1, j + 1) && states[j].server.active && !states[j + 1].server.active
    requires Unfinished(states, i + 1, j, id)
    requires Arrivals(acts, i + 1, j + 1, Ack(id, |f.blob|)) <= Sent(states, acts, i + 1, j, Ack(id, |f.blob|))
    ensures SentBeforeEnd(states, acts, i + 1, j, Ack(id, |f.blob|)) >= 2
  {
    var ack := Ack(id, |f.blob|);
    ClosingTakesTwo(states, acts, i, j, id, f);
    NoEndAnswered(states, acts, i + 1, j, ack);
  }
}
