// Time in the catalog transfer: how long a silent client blocks the server, how long a silent
// server keeps the client waiting, and how long a failure holds the next request back.
module LibraryTiming {
  import opened Bytes
  import opened LibraryMessages
  import opened LibraryTransfer
  import opened LibraryProtocol
  import opened Wrappers
  import Catalog = LibraryCatalog

  /** A request with one byte that names a slot with a catalog. */
  predicate Servable(s: Server, payload: seq<byte>) {
    |payload| == 1 && 0 < payload[0] < SLOTS && |s.ready| == SLOTS && s.ready[payload[0]]
  }

  /** Which requests start a transfer, which are refused as unknown and which as busy. */
  lemma RequestStartsIff(s: Server, payload: seq<byte>, now: nat)
    requires s.Valid()
    ensures var outcome := s.Request(payload, now).1;
            && (outcome == Some(0)
                <==> Servable(s, payload) && (!s.active || now - s.lastProgress > STALL_MS))
            && (outcome == Some(2) <==> Servable(s, payload) && s.active && now - s.lastProgress <= STALL_MS)
            && (outcome == Some(1) <==> |payload| == 1 && !Servable(s, payload))
            && (outcome == None <==> |payload| != 1)
  {
  }

  /** What a started transfer carries, and that a refused request changes nothing. */
  lemma RequestFreezes(s: Server, payload: seq<byte>, now: nat)
    requires s.Valid()
    ensures var (t, outcome) := s.Request(payload, now);
            if outcome == Some(0)
            then t.active && t.phase == Beginning && t.offset == 0 && !t.awaiting && t.lastProgress == now
                 && t.kind == payload[0] && t.blob == s.cache[t.kind] && t.context == s.contexts[t.kind]
                 && t.id != 0 && (t.id == s.id + 1 || (s.id == 65535 && t.id == 1))
            else t == s
  {
  }

  /** What a poll does: it drops a transfer that has stalled; else it sends, unless an
      answer has been awaited for less than 40 ms or the link refuses. */
  lemma PollIff(s: Server, now: nat, linkUp: bool)
    requires s.Valid()
    ensures var (t, msg) := s.Poll(now, linkUp);
            && (t.active <==> s.active && now - s.lastProgress <= STALL_MS)
            && (msg.Some? <==> t.active && linkUp && !(s.awaiting && now - s.lastSend < RETRANSMIT_MS))
            && (msg.Some? ==> t.awaiting && t.lastSend == now)
            && (t.active ==> t.lastProgress == s.lastProgress)
  {
  }

  // --------------------------------------------------------------- over runs

  /** A transfer is started, or an answer accepted. */
  ghost predicate Progresses(s: Sys, a: Action) {
    s.server.Valid() && ((a.Handle? && s.server.Request(a.payload, s.now).1 == Some(0)) || Accepted(s, a) == 1)
  }

  /** A running transfer remembers a time that has passed. */
  ghost predicate Timely(s: Sys) {
    s.server.active ==> s.server.lastProgress <= s.now
  }

  lemma StepIsTimely(s: Sys, a: Action, t: Sys)
    requires Step(s, a, t) && Timely(s)
    ensures Timely(t) && s.now <= t.now
  {
  }

  lemma {:induction false} AlwaysTimely(states: seq<Sys>, acts: seq<Action>, i: nat)
    requires Run(states, acts) && i < |states|
    ensures Timely(states[i])
  {
    if i > 0 {
      AlwaysTimely(states, acts, i - 1);
      StepIsTimely(states[i - 1], acts[i - 1], states[i - 1 + 1]);
    }
  }

  /** Without progress a transfer that still runs remembers the same time. */
  ghost predicate Remembers(s: Server, t: Server) {
    t.active ==> s.active && t.lastProgress == s.lastProgress && t.id == s.id
  }

  lemma QuietStep(s: Sys, a: Action, t: Sys)
    requires Step(s, a, t) && !Progresses(s, a)
    ensures Remembers(s.server, t.server)
  {
    if a.Handle? {
      RequestFreezes(s.server, a.payload, s.now);
    }
  }

  lemma {:induction false} QuietSteps(states: seq<Sys>, acts: seq<Action>, i: nat, j: nat)
    requires i <= j < |states| == |acts| + 1
    requires forall k :: i <= k < j ==> Remembers(states[k].server, states[k + 1].server)
    ensures Remembers(states[i].server, states[j].server)
    decreases j
  {
    if i < j {
      QuietSteps(states, acts, i, j - 1);
      assert Remembers(states[j - 1].server, states[j - 1 + 1].server);
    }
  }

  ghost predicate Quiet(states: seq<Sys>, acts: seq<Action>, i: nat, j: nat)
    requires j <= |acts| && |states| == |acts| + 1
  {
    forall k :: i <= k < j ==> !Progresses(states[k], acts[k])
  }

  lemma QuietRun(states: seq<Sys>, acts: seq<Action>, i: nat, j: nat)
    requires Run(states, acts) && i <= j <= |acts| && Quiet(states, acts, i, j)
    ensures Remembers(states[i].server, states[j].server)
  {
    forall k | i <= k < j ensures Remembers(states[k].server, states[k + 1].server) {
      assert Step(states[k], acts[k], states[k + 1]);
      QuietStep(states[k], acts[k], states[k + 1]);
    }
    QuietSteps(states, acts, i, j);
  }

  /** Whatever a transfer was doing: when nothing has been started or accepted for more than
      two seconds, the next poll leaves no transfer behind. */
  lemma SilentIsGivenUp(states: seq<Sys>, acts: seq<Action>, i: nat, j: nat)
    requires Run(states, acts) && i <= j < |acts| && Quiet(states, acts, i, j)
    requires acts[j].Poll? && states[j].now - states[i].now > STALL_MS
    ensures !states[j + 1].server.active
  {
    QuietRun(states, acts, i, j);
    AlwaysTimely(states, acts, i);
    assert Step(states[j], acts[j], states[j + 1]);
    PollIff(states[j].server, states[j].now, acts[j].linkUp);
  }

  /** And any request for a catalog that is there starts a transfer then. */
  lemma SilentIsReplaced(states: seq<Sys>, acts: seq<Action>, i: nat, j: nat)
    requires Run(states, acts) && i <= j < |acts| && Quiet(states, acts, i, j)
    requires acts[j].Handle? && Servable(states[j].server, acts[j].payload)
    requires states[j].now - states[i].now > STALL_MS
    ensures states[j + 1].server.active && states[j + 1].server.kind == acts[j].payload[0]
    ensures states[j + 1].server.phase == Beginning
  {
    QuietRun(states, acts, i, j);
    AlwaysTimely(states, acts, i);
    assert Step(states[j], acts[j], states[j + 1]);
    RequestStartsIff(states[j].server, acts[j].payload, states[j].now);
    RequestFreezes(states[j].server, acts[j].payload, states[j].now);
  }

  lemma ProgressIsNoted(s: Sys, a: Action, t: Sys)
    requires Step(s, a, t) && Progresses(s, a)
    ensures t.server.active ==> t.server.lastProgress == s.now
  {
  }

  lemma SinceProgress(states: seq<Sys>, acts: seq<Action>, i: nat, j: nat)
    requires Run(states, acts) && i < j < |acts| && Progresses(states[i], acts[i])
    requires Quiet(states, acts, i + 1, j) && states[j].server.active
    ensures states[j].server.lastProgress == states[i].now
  {
    assert Step(states[i], acts[i], states[i + 1]);
    ProgressIsNoted(states[i], acts[i], states[i + 1]);
    QuietRun(states, acts, i + 1, j);
  }

  /** Neither sooner: a running transfer survives a poll exactly if the last start or
      accepted answer is at most two seconds back. */
  lemma SurvivesPollIff(states: seq<Sys>, acts: seq<Action>, i: nat, j: nat)
    requires Run(states, acts) && i < j < |acts| && Progresses(states[i], acts[i])
    requires Quiet(states, acts, i + 1, j) && states[j].server.active && acts[j].Poll?
    ensures states[j + 1].server.active <==> states[j].now - states[i].now <= STALL_MS
  {
    SinceProgress(states, acts, i, j);
    assert Step(states[j], acts[j], states[j + 1]);
    PollIff(states[j].server, states[j].now, acts[j].linkUp);
  }

  /** And for just as long another request is refused as busy. */
  lemma RefusedAsBusyIff(states: seq<Sys>, acts: seq<Action>, i: nat, j: nat)
    requires Run(states, acts) && i < j < |acts| && Progresses(states[i], acts[i])
    requires Quiet(states, acts, i + 1, j) && states[j].server.active
    requires acts[j].Handle? && Servable(states[j].server, acts[j].payload)
    ensures states[j].server.Valid()
    ensures var outcome := states[j].server.Request(acts[j].payload, states[j].now).1;
            && (outcome == Some(2) <==> states[j].now - states[i].now <= STALL_MS)
            && (outcome == Some(0) <==> states[j].now - states[i].now > STALL_MS)
  {
    SinceProgress(states, acts, i, j);
    assert Step(states[j], acts[j], states[j + 1]);
    RequestStartsIff(states[j].server, acts[j].payload, states[j].now);
  }

  // ------------------------------------------------------------- the client

  /** The client asks, takes a transfer up, or gets more of it. */
  ghost predicate ClientProgresses(s: Sys, a: Action, t: Sys) {
    || (a.Ask? && !s.client.waiting && t.client.waiting)
    || (a.Deliver? && (|s.client.bytes| < |t.client.bytes| || (!s.client.receiving && t.client.receiving)))
  }

  /** What a step without progress does to the time an active client remembers. */
  ghost predicate ClientRemembers(s: Client, t: Client) {
    t.Active() ==> s.Active() && t.started == s.started
  }

  lemma ClientQuietStep(s: Sys, a: Action, t: Sys)
    requires Safe(s) && Step(s, a, t) && !ClientProgresses(s, a, t)
    ensures ClientRemembers(s.client, t.client)
  {
    if a.Deliver? {
      assert GoodMsg(s.frozen, a.msg);
    }
  }

  ghost predicate ClientQuiet(states: seq<Sys>, acts: seq<Action>, i: nat, j: nat)
    requires j <= |acts| && |states| == |acts| + 1
  {
    forall k :: i <= k < j ==> !ClientProgresses(states[k], acts[k], states[k + 1])
  }

  lemma {:induction false} ClientQuietSteps(states: seq<Sys>, i: nat, j: nat)
    requires i <= j < |states| && forall k :: i <= k < j ==> ClientRemembers(states[k].client, states[k + 1].client)
    ensures ClientRemembers(states[i].client, states[j].client)
    decreases j
  {
    if i < j {
      ClientQuietSteps(states, i, j - 1);
      assert ClientRemembers(states[j - 1].client, states[j - 1 + 1].client);
    }
  }

  lemma ClientQuietRun(states: seq<Sys>, acts: seq<Action>, i: nat, j: nat)
    requires Run(states, acts) && i <= j <= |acts| && ClientQuiet(states, acts, i, j)
    ensures ClientRemembers(states[i].client, states[j].client)
  {
    forall k | i <= k < j ensures ClientRemembers(states[k].client, states[k + 1].client) {
      Reachable(states, acts, k);
      ClientQuietStep(states[k], acts[k], states[k + 1]);
    }
    ClientQuietSteps(states, i, j);
  }

  lemma ClientProgressIsNoted(s: Sys, a: Action, t: Sys)
    requires Safe(s) && Step(s, a, t) && ClientProgresses(s, a, t)
    ensures t.client.Active() ==> t.client.started == s.now
  {
  }

  /** The client gives a request or a transfer up with the first tick that comes more than
      12 s after its last progress, no sooner and no later. */
  lemma ClientGivesUpIff(states: seq<Sys>, acts: seq<Action>, i: nat, j: nat)
    requires Run(states, acts) && i < j < |acts| && ClientProgresses(states[i], acts[i], states[i + 1])
    requires ClientQuiet(states, acts, i + 1, j) && states[j].client.Active() && acts[j].ClientTick?
    ensures var c := states[j + 1].client;
            if states[j].now - states[i].now > 12000
            then !c.Active() && !c.completed && c.bytes == [] && c.lastError == 7 && c.failurePending
            else c == states[j].client
  {
    Reachable(states, acts, i);
    ClientProgressIsNoted(states[i], acts[i], states[i + 1]);
    ClientQuietRun(states, acts, i + 1, j);
    assert Step(states[j], acts[j], states[j + 1]);
  }

  /** When a request goes out. */
  lemma AsksIff(c: Client, k: byte, now: nat, linkUp: bool)
    ensures var (d, asked) := c.Request(k, now, linkUp);
            && (asked <==> c.available && !c.waiting && !c.receiving && now >= c.retryAfter && linkUp)
            && (if asked then d.waiting && d.requestedKind == k && d.started == now else d == c)
  {
  }

  /** Ten seconds from this step on; what lifts the delay is a change of the remote cache. */
  ghost predicate Held(states: seq<Sys>, acts: seq<Action>, i: nat, j: nat)
    requires i < |states| && j <= |acts| && |states| == |acts| + 1
  {
    forall k :: i <= k < j ==> !acts[k].CacheChanged?
  }

  lemma ReceiveHolds(c: Client, m: Msg, now: nat, until: nat)
    requires c.Valid() && c.retryAfter >= until && now + 10000 >= until
    ensures c.Receive(m, now).0.retryAfter >= until
  {
  }

  lemma ElseHolds(s: Sys, a: Action, until: nat)
    requires s.server.Valid() && s.client.Valid() && Enabled(s, a) && (a.Accept? ==> a.answer.ack.Ack?)
    requires !a.CacheChanged? && !a.Deliver? && s.client.retryAfter >= until && s.now + 10000 >= until
    ensures Apply(s, a).client.retryAfter >= until && Apply(s, a).now >= s.now
  {
  }

  lemma HeldStep(s: Sys, a: Action, t: Sys, until: nat)
    requires Step(s, a, t) && !a.CacheChanged? && s.client.retryAfter >= until && s.now + 10000 >= until
    ensures t.client.retryAfter >= until && t.now + 10000 >= until
  {
    if a.Deliver? {
      ReceiveHolds(s.client, a.msg, s.now, until);
    } else {
      ElseHolds(s, a, until);
    }
  }

  lemma {:induction false} HeldUntil(states: seq<Sys>, acts: seq<Action>, i: nat, j: nat, until: nat)
    requires Run(states, acts) && i <= j <= |acts| && Held(states, acts, i, j)
    requires states[i].client.retryAfter >= until && states[i].now + 10000 >= until
    ensures states[j].client.retryAfter >= until && states[j].now + 10000 >= until
    decreases j
  {
    if i < j {
      HeldUntil(states, acts, i, j - 1, until);
      assert Step(states[j - 1], acts[j - 1], states[j - 1 + 1]);
      HeldStep(states[j - 1], acts[j - 1], states[j - 1 + 1], until);
    }
  }

  /** The step made the client fail. */
  ghost predicate FailsWith(s: Sys, t: Sys, error: byte) {
    t.client == s.client.Fail(error, s.now)
  }

  /** After a failure no request goes out for 10 s, unless the remote cache changes. */
  lemma FailureHoldsBack(states: seq<Sys>, acts: seq<Action>, i: nat, j: nat, error: byte)
    requires Run(states, acts) && i < j < |acts| && FailsWith(states[i], states[i + 1], error)
    requires Held(states, acts, i + 1, j) && acts[j].Ask?
    requires !states[j].client.waiting && states[j + 1].client.waiting
    ensures states[j].now - states[i].now >= 10000
  {
    assert Step(states[i], acts[i], states[i + 1]);
    HeldUntil(states, acts, i + 1, j, states[i].now + 10000);
    assert Step(states[j], acts[j], states[j + 1]);
    AsksIff(states[j].client, acts[j].kind, states[j].now, acts[j].linkUp);
  }

  /** A change of the remote cache lifts the delay for the kind last asked for. */
  lemma ChangeLiftsDelay(c: Client, k: byte, now: nat, error: byte)
    requires c.available && c.requestedKind == k
    ensures c.Fail(error, now).CacheChanged(k).Request(k, now, true).1
  {
  }

  ghost predicate HoldsNothing(c: Client) {
    !c.available && !c.waiting && !c.receiving && !c.finished && !c.completed && c.bytes == []
  }

  lemma NothingStep(s: Sys, a: Action, t: Sys)
    requires Safe(s) && Step(s, a, t) && HoldsNothing(s.client) && a != Available(true)
    ensures HoldsNothing(t.client) && t.up <= s.up
  {
    if a.Deliver? {
      AnsweredMeansHeld(s.client, a.msg, s.now);
      assert GoodMsg(s.frozen, a.msg);
    }
  }

  /** A client told that it has no library drops what it has, and asks for nothing, takes
      nothing and answers nothing until it is told otherwise. */
  lemma {:induction false} UnavailableIsSilent(states: seq<Sys>, acts: seq<Action>, i: nat, j: nat)
    requires Run(states, acts) && i < j <= |acts| && acts[i] == Available(false)
    requires forall k :: i < k < j ==> acts[k] != Available(true)
    ensures HoldsNothing(states[j].client) && states[j].up <= states[i].up
    decreases j
  {
    assert Step(states[j - 1], acts[j - 1], states[j - 1 + 1]);
    if i + 1 < j {
      UnavailableIsSilent(states, acts, i, j - 1);
      Reachable(states, acts, j - 1);
      NothingStep(states[j - 1], acts[j - 1], states[j - 1 + 1]);
    }
  }

  /** A completed catalog is handed over once; if it does not decode, that is a failure. */
  lemma TakenOnce(c: Client, now: nat)
    requires c.completed && c.Valid()
    ensures var (d, taken) := c.Take(now);
            && !d.completed && !d.Take(now).1
            && (taken <==> Catalog.Decode(c.bytes, c.kind).Some?)
            && (!taken ==> d.failurePending && d.lastError == 8 && d.bytes == [] && d.retryAfter == now + 10000)
  {
  }
}
