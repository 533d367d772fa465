// Time in the image transfer: how long a silent bridge keeps the client waiting; and that a
// client without a bridge keeps quiet.
module AssetTiming {
  import opened AssetMessages
  import opened AssetTransfer
  import opened AssetProtocol

  /** The client asks, takes a transfer up, or gets more of it. */
  ghost predicate Progresses(s: Sys, a: Action, t: Sys) {
    || (a.Ask? && !s.client.waiting && t.client.waiting)
    || (a.Deliver? && (|s.client.bytes| < |t.client.bytes| || (!s.client.receiving && t.client.receiving)))
  }

  /** What a step without progress does to the time an active client remembers. */
  ghost predicate Remembers(s: Client, t: Client) {
    t.Active() ==> s.Active() && t.started == s.started
  }

  lemma QuietDelivery(c: Client, m: Msg, memory: bool, now: nat)
    requires c.Valid() && !(c.waiting && c.receiving) && (m.Chunk? ==> m.data != [])
    requires var d := c.Receive(m, memory, now).0; |c.bytes| >= |d.bytes| && (d.receiving ==> c.receiving)
    ensures Remembers(c, c.Receive(m, memory, now).0)
  {
  }

  lemma QuietElse(s: Sys, a: Action)
    requires s.client.Valid() && Enabled(s, a) && !a.Deliver?
    requires a.Ask? && !s.client.waiting ==> !Apply(s, a).client.waiting
    ensures Remembers(s.client, Apply(s, a).client)
  {
  }

  lemma QuietStep(s: Sys, a: Action, t: Sys)
    requires Safe(s) && Step(s, a, t) && !Progresses(s, a, t)
    ensures Remembers(s.client, t.client)
  {
    if a.Deliver? {
      assert GoodMsg(s.fetched, s.ended, a.msg);
      QuietDelivery(s.client, a.msg, a.memory, s.now);
    } else {
      QuietElse(s, a);
    }
  }

  ghost predicate Quiet(states: seq<Sys>, acts: seq<Action>, i: nat, j: nat)
    requires j <= |acts| && |states| == |acts| + 1
  {
    forall k :: i <= k < j ==> !Progresses(states[k], acts[k], states[k + 1])
  }

  lemma {:induction false} QuietSteps(states: seq<Sys>, i: nat, j: nat)
    requires i <= j < |states| && forall k :: i <= k < j ==> Remembers(states[k].client, states[k + 1].client)
    ensures Remembers(states[i].client, states[j].client)
    decreases j
  {
    if i < j {
      QuietSteps(states, i, j - 1);
      assert Remembers(states[j - 1].client, states[j - 1 + 1].client);
    }
  }

  lemma QuietRun(states: seq<Sys>, acts: seq<Action>, i: nat, j: nat)
    requires Run(states, acts) && i <= j <= |acts| && Quiet(states, acts, i, j)
    ensures Remembers(states[i].client, states[j].client)
  {
    forall k | i <= k < j ensures Remembers(states[k].client, states[k + 1].client) {
      Reachable(states, acts, k);
      QuietStep(states[k], acts[k], states[k + 1]);
    }
    QuietSteps(states, i, j);
  }

  lemma ReceiptIsNoted(c: Client, m: Msg, memory: bool, now: nat)
    requires c.Valid()
    ensures var d := c.Receive(m, memory, now).0;
            |c.bytes| < |d.bytes| || (!c.receiving && d.receiving) ==> d.Active() ==> d.started == now
  {
  }

  lemma ProgressIsNoted(s: Sys, a: Action, t: Sys)
    requires Step(s, a, t) && Progresses(s, a, t)
    ensures t.client.Active() ==> t.client.started == s.now
  {
    if a.Deliver? {
      ReceiptIsNoted(s.client, a.msg, a.memory, s.now);
      assert t.client == s.client.Receive(a.msg, a.memory, s.now).0;
    }
  }

  /** The client gives a request or a transfer up with the first tick that comes more than
      12 s after its last progress, no sooner and no later. */
  lemma ClientGivesUpIff(states: seq<Sys>, acts: seq<Action>, i: nat, j: nat)
    requires Run(states, acts) && i < j < |acts| && Progresses(states[i], acts[i], states[i + 1])
    requires Quiet(states, acts, i + 1, j) && states[j].client.Active() && acts[j].ClientTick?
    ensures states[j].client.Valid()
    ensures var c, d := states[j].client, states[j + 1].client;
            if states[j].now - states[i].now > 12000 then GaveUp(c, d, 10, states[j].now) else d == c
  {
    Reachable(states, acts, i);
    ProgressIsNoted(states[i], acts[i], states[i + 1]);
    QuietRun(states, acts, i + 1, j);
    assert Step(states[j], acts[j], states[j + 1]);
  }

  ghost predicate HoldsNothing(c: Client) {
    !c.available && !c.waiting && !c.receiving && !c.finished && !c.completed && c.bytes == []
  }

  lemma NothingStep(s: Sys, a: Action, t: Sys)
    requires Step(s, a, t) && HoldsNothing(s.client) && a != Available(true)
    ensures HoldsNothing(t.client) && t.up <= s.up
  {
    if a.Deliver? {
      assert t == Delivered(s, a.msg, a.memory);
    }
  }

  /** A client that is told the bridge is gone drops what it has, and asks for nothing, takes
      nothing and answers nothing until it is told otherwise. */
  lemma {:induction false} UnavailableIsSilent(states: seq<Sys>, acts: seq<Action>, i: nat, j: nat)
    requires Run(states, acts) && i < j <= |acts| && acts[i] == Available(false)
    requires forall k :: i < k < j ==> acts[k] != Available(true)
    ensures HoldsNothing(states[j].client) && states[j].up <= states[i].up
    decreases j
  {
    assert Step(states[j - 1], acts[j - 1], states[j - 1 + 1]);
    if i + 1 < j {
      UnavailableIsSilent(states, acts, i, j - 1);
      NothingStep(states[j - 1], acts[j - 1], states[j - 1 + 1]);
    }
  }
}
