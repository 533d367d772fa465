// The playback coordinator of one config entry: submitters, workers and cancellation,
// one step from one await to the next, in any interleaving.
module PlaybackProtocol {
  import opened PlaybackQueue
  import opened Wrappers

  datatype Request = Request(ticket: nat, kind: int, index: int, mediaId: string, mediaType: string)

  /** Where a worker stands; all but Checking and Exiting are awaits. */
  datatype Phase =
    | Starting
    | Checking(handled: nat)
    | Calling(command: Command, attempt: nat)
    | Confirming(command: Command, attempt: nat)
    | Finishing(command: Command, succeeded: bool)
    | Sending(command: Command, succeeded: bool)
    | Exiting(handled: nat)

  /** `lock` names the worker holding the mutation lock across an await; submitters take
      and release it within one step, at once if it is uncontended, else when they have
      waited for it. History: `taken` is the newest generation a worker
      took up, `calls` the generations of the play_media calls, `sends` those of the
      completion callbacks, in order. */
  datatype Sys = Sys(queue: Latest, lock: Option<nat>, workers: map<nat, Phase>, task: Option<nat>, stopped: bool,
                     cancelled: set<nat>, waiting: set<Request>, nextWorker: nat, taken: nat, calls: seq<nat>,
                     sends: seq<nat>)

  datatype Action =
    | Ask(request: Request)
    | Submit(request: Request)
    | Withdraw(request: Request)
    | Start(worker: nat)
    | Check(worker: nat)
    | CallReturns(worker: nat)
    | CallRaises(worker: nat)
    | Confirmed(worker: nat, confirmed: bool)
    | ConfirmRaises(worker: nat)
    | Acquire(worker: nat)
    | SendReturns(worker: nat)
    | SendRaises(worker: nat)
    | Exit(worker: nat)
    | Cancel
    | Cancelled(worker: nat)

  ghost predicate Initial(s: Sys) {
    s == Sys(Latest(0, None), None, map[], None, false, {}, {}, 0, 0, [], [])
  }

  ghost predicate Enabled(s: Sys, a: Action) {
    match a
    // A cancelled coordinator is not handed out to new requests.
    case Ask(_) => !s.stopped
    case Submit(r) => r in s.waiting && s.lock == None
    case Withdraw(r) => r in s.waiting
    case Cancel => true
    case Start(w) => w in s.workers && s.workers[w].Starting? && w !in s.cancelled
    case Check(w) => w in s.workers && s.workers[w].Checking?
    case CallReturns(w) => w in s.workers && s.workers[w].Calling?
    case CallRaises(w) => w in s.workers && s.workers[w].Calling?
    case Confirmed(w, confirmed) =>
      // Only the confirmation of a track can end unconfirmed.
      w in s.workers && s.workers[w].Confirming? && (s.workers[w].command.kind != 5 ==> confirmed)
    case ConfirmRaises(w) => w in s.workers && s.workers[w].Confirming?
    case Acquire(w) => w in s.workers && s.workers[w].Finishing? && s.lock == None
    case SendReturns(w) => w in s.workers && s.workers[w].Sending?
    case SendRaises(w) => w in s.workers && s.workers[w].Sending?
    case Exit(w) => w in s.workers && s.workers[w].Exiting?
    case Cancelled(w) =>
      w in s.cancelled && w in s.workers && !s.workers[w].Checking? && !s.workers[w].Exiting?
  }

  predicate Live(s: Sys) {
    s.task.Some? && s.task.value in s.workers
  }

  function Spawned(s: Sys): Sys {
    s.(workers := s.workers[s.nextWorker := Starting], task := Some(s.nextWorker), nextWorker := s.nextWorker + 1)
  }

  function Moved(s: Sys, w: nat, p: Phase): Sys {
    s.(workers := s.workers[w := p])
  }

  function Called(s: Sys, w: nat, c: Command, attempt: nat): Sys {
    Moved(s, w, Calling(c, attempt)).(taken := c.generation, calls := s.calls + [c.generation])
  }

  /** Nobody holds the lock or waits for it: taking it does not suspend. */
  predicate Uncontended(s: Sys) {
    s.lock == None && s.waiting == {}
  }

  /** The body of _async_play_media under the lock. */
  function Submitted(s: Sys, r: Request): Sys {
    var t := s.(queue := s.queue.Submit(r.kind, r.index, r.mediaId, r.mediaType), waiting := s.waiting - {r});
    if Live(t) then t else Spawned(t)
  }

  /** After _async_wait_for_track returned. */
  function Judged(s: Sys, w: nat, confirmed: bool): Sys
    requires w in s.workers && s.workers[w].Confirming?
  {
    var c, attempt := s.workers[w].command, s.workers[w].attempt;
    if !s.queue.IsCurrent(c.generation) then Moved(s, w, Finishing(c, false))
    else if confirmed then Moved(s, w, Finishing(c, true))
    else if attempt == 0 then Called(s, w, c, 1)
    else Moved(s, w, Finishing(c, false))
  }

  function Locked(s: Sys, w: nat): Sys
    requires w in s.workers && s.workers[w].Finishing?
  {
    var c, succeeded := s.workers[w].command, s.workers[w].succeeded;
    if !s.queue.IsCurrent(c.generation) then Moved(s, w, Checking(c.generation))
    else Moved(s, w, Sending(c, succeeded)).(lock := Some(w), sends := s.sends + [c.generation])
  }

  /** The finally block. */
  function Exited(s: Sys, w: nat): Sys
    requires w in s.workers && s.workers[w].Exiting?
  {
    var t := s.(workers := s.workers - {w}, task := None);
    if !s.stopped && s.queue.After(s.workers[w].handled).Some? then Spawned(t) else t
  }

  /** What a phase has handled. */
  function Handled(p: Phase): nat {
    match p
    case Starting => 0
    case Checking(h) => h
    case Exiting(h) => h
    case _ => p.command.generation
  }

  /** CancelledError at an await: a worker that never started has no finally block. */
  function Interrupted(s: Sys, w: nat): Sys
    requires w in s.workers
  {
    var p := s.workers[w];
    if p.Starting? then s.(workers := s.workers - {w})
    else Moved(s, w, Exiting(Handled(p))).(lock := if s.lock == Some(w) then None else s.lock)
  }

  ghost function Apply(s: Sys, a: Action): Sys
    requires Enabled(s, a)
  {
    match a
    case Ask(r) => if Uncontended(s) then Submitted(s, r) else s.(waiting := s.waiting + {r})
    case Submit(r) => Submitted(s, r)
    case Withdraw(r) => s.(waiting := s.waiting - {r})
    case Start(w) => Moved(s, w, Checking(0))
    case Check(w) =>
      var next := s.queue.After(s.workers[w].handled);
      if next.Some? then Called(s, w, next.value, 0) else Moved(s, w, Exiting(s.workers[w].handled))
    case CallReturns(w) => Moved(s, w, Confirming(s.workers[w].command, s.workers[w].attempt))
    case CallRaises(w) => Moved(s, w, Finishing(s.workers[w].command, false))
    case Confirmed(w, confirmed) => Judged(s, w, confirmed)
    case ConfirmRaises(w) => Moved(s, w, Finishing(s.workers[w].command, false))
    case Acquire(w) => Locked(s, w)
    case SendReturns(w) =>
      var g := s.workers[w].command.generation;
      Moved(s, w, Checking(g)).(queue := s.queue.Complete(g), lock := None)
    case SendRaises(w) => Moved(s, w, Exiting(s.workers[w].command.generation)).(lock := None)
    case Exit(w) => Exited(s, w)
    case Cancel =>
      s.(stopped := true, cancelled := if Live(s) then s.cancelled + {s.task.value} else s.cancelled)
    case Cancelled(w) => Interrupted(s, w)
  }

  // -------------------------------------------------------------- invariants

  /** No worker but the one the task field names. */
  ghost predicate OneWorker(s: Sys) {
    && (forall w :: w in s.workers ==> s.task == Some(w))
    && (s.task.Some? ==> s.task.value < s.nextWorker)
    && (forall w :: w in s.cancelled ==> w < s.nextWorker)
    && (s.cancelled != {} ==> s.stopped)
  }

  ghost predicate GoodLock(s: Sys) {
    && (s.lock.Some? ==> s.lock.value in s.workers && s.workers[s.lock.value].Sending?)
    && (forall w :: w in s.workers && s.workers[w].Sending? ==> s.lock == Some(w))
  }

  ghost predicate GoodQueue(s: Sys) {
    && s.taken <= s.queue.generation
    && (s.queue.latest.Some? ==> s.queue.latest.value.generation == s.queue.generation)
    && (s.queue.latest.None? ==> s.queue.generation == s.taken)
    && (!s.stopped && s.taken < s.queue.generation ==> Live(s))
  }

  /** Something was submitted that no worker has taken up. */
  predicate Pending(s: Sys) {
    s.taken < s.queue.generation
  }

  ghost predicate GoodPhase(s: Sys, p: Phase) {
    match p
    case Starting => Pending(s)
    case Checking(h) => h == s.taken || (h <= s.taken && Pending(s))
    case Exiting(h) => h == s.taken
    case Calling(c, attempt) => GoodAttempt(s, c, attempt)
    case Confirming(c, attempt) => GoodAttempt(s, c, attempt)
    case Finishing(c, _) => GoodCommand(s, c)
    case Sending(c, _) => s.queue.latest == Some(c) && c.generation == s.taken
  }

  ghost predicate GoodCommand(s: Sys, c: Command) {
    && c.generation == s.taken && (forall i :: 0 <= i < |s.sends| ==> s.sends[i] < s.taken)
    && (s.queue.IsCurrent(c.generation) ==> s.queue.latest == Some(c))
  }

  ghost predicate GoodAttempt(s: Sys, c: Command, attempt: nat) {
    && GoodCommand(s, c) && attempt <= 1
    && (attempt == 0 ==> forall i :: 0 <= i < |s.calls| - 1 ==> s.calls[i] < s.taken)
  }

  ghost predicate GoodHistory(s: Sys) {
    && (s.taken > 0 ==> s.calls != [] && s.calls[|s.calls| - 1] == s.taken)
    && (forall i :: 0 <= i < |s.calls| ==> s.calls[i] <= s.taken)
    && (forall i, j :: 0 <= i <= j < |s.calls| ==> s.calls[i] <= s.calls[j])
    && (forall i, j :: 0 <= i && i + 2 <= j < |s.calls| ==> s.calls[i] < s.calls[j])
    && (forall i :: 0 <= i < |s.sends| ==> s.sends[i] <= s.taken)
    && (forall i, j :: 0 <= i < j < |s.sends| ==> s.sends[i] < s.sends[j])
  }

  ghost predicate GoodWorkers(s: Sys) {
    forall w :: w in s.workers ==> GoodPhase(s, s.workers[w])
  }

  ghost predicate Safe(s: Sys) {
    OneWorker(s) && GoodLock(s) && GoodQueue(s) && GoodWorkers(s) && GoodHistory(s)
  }

  // ------------------------------------------------------------ step by step

  lemma SubmitIsSafe(s: Sys, r: Request)
    requires Safe(s) && s.lock == None
    ensures Safe(Submitted(s, r))
  {
    var t := Submitted(s, r);
    assert forall w :: w in s.workers ==> GoodPhase(s, s.workers[w]);
  }

  /** Starting on a command: at first, or again. */
  lemma CallIsSafe(s: Sys, w: nat, c: Command, attempt: nat)
    requires Safe(s) && w in s.workers && !s.workers[w].Sending? && s.queue.latest == Some(c)
    requires attempt == 0 ==> c.generation > s.taken
    requires attempt == 1 ==> s.workers[w].Confirming? && s.workers[w].attempt == 0 && s.workers[w].command == c
    requires attempt <= 1
    ensures Safe(Called(s, w, c, attempt))
  {
    var t := Called(s, w, c, attempt);
    assert GoodPhase(s, s.workers[w]);
    assert forall v :: v in s.workers ==> v == w;
  }

  lemma MoveIsSafe(s: Sys, w: nat, p: Phase)
    requires Safe(s) && w in s.workers && !s.workers[w].Sending? && !p.Sending? && GoodPhase(s, p)
    ensures Safe(Moved(s, w, p))
  {
    var t := Moved(s, w, p);
    assert forall v :: v in s.workers ==> v == w;
  }

  lemma CheckIsSafe(s: Sys, w: nat)
    requires Safe(s) && Enabled(s, Check(w))
    ensures Safe(Apply(s, Check(w)))
  {
    assert GoodPhase(s, s.workers[w]);
    var next := s.queue.After(s.workers[w].handled);
    if next.Some? {
      CallIsSafe(s, w, next.value, 0);
    } else {
      MoveIsSafe(s, w, Exiting(s.workers[w].handled));
    }
  }

  lemma JudgeIsSafe(s: Sys, w: nat, confirmed: bool)
    requires Safe(s) && w in s.workers && s.workers[w].Confirming?
    ensures Safe(Judged(s, w, confirmed))
  {
    var c := s.workers[w].command;
    assert GoodPhase(s, s.workers[w]);
    if s.queue.IsCurrent(c.generation) && !confirmed && s.workers[w].attempt == 0 {
      CallIsSafe(s, w, c, 1);
    } else {
      MoveIsSafe(s, w, Finishing(c, s.queue.IsCurrent(c.generation) && confirmed));
    }
  }

  lemma AcquireIsSafe(s: Sys, w: nat)
    requires Safe(s) && Enabled(s, Acquire(w))
    ensures Safe(Locked(s, w))
  {
    var c := s.workers[w].command;
    assert GoodPhase(s, s.workers[w]);
    if !s.queue.IsCurrent(c.generation) {
      MoveIsSafe(s, w, Checking(c.generation));
    } else {
      assert forall v :: v in s.workers ==> v == w;
    }
  }

  lemma SentIsSafe(s: Sys, w: nat, p: Phase, queue: Latest)
    requires Safe(s) && w in s.workers && s.workers[w].Sending? && (p == Checking(s.taken) || p == Exiting(s.taken))
    requires queue == s.queue || queue == s.queue.Complete(s.taken)
    ensures Safe(Moved(s, w, p).(queue := queue, lock := None))
  {
    assert GoodPhase(s, s.workers[w]);
    assert forall v :: v in s.workers ==> v == w;
  }

  lemma ExitIsSafe(s: Sys, w: nat)
    requires Safe(s) && Enabled(s, Exit(w))
    ensures Safe(Exited(s, w))
  {
    assert GoodPhase(s, s.workers[w]);
    assert forall v :: v in s.workers ==> v == w;
  }

  lemma InterruptIsSafe(s: Sys, w: nat)
    requires Safe(s) && Enabled(s, Cancelled(w))
    ensures Safe(Interrupted(s, w))
  {
    assert GoodPhase(s, s.workers[w]);
    assert forall v :: v in s.workers ==> v == w;
    if s.workers[w].Sending? {
      SentIsSafe(s, w, Exiting(s.taken), s.queue);
    } else if !s.workers[w].Starting? {
      MoveIsSafe(s, w, Exiting(Handled(s.workers[w])));
    }
  }

  lemma WorkIsSafe(s: Sys, a: Action)
    requires Safe(s) && Enabled(s, a)
    requires a.Start? || a.CallReturns? || a.CallRaises? || a.ConfirmRaises?
    ensures Safe(Apply(s, a))
  {
    var w := a.worker;
    assert GoodPhase(s, s.workers[w]);
    if a.Start? {
      MoveIsSafe(s, w, Checking(0));
    } else if a.CallReturns? {
      MoveIsSafe(s, w, Confirming(s.workers[w].command, s.workers[w].attempt));
    } else {
      MoveIsSafe(s, w, Finishing(s.workers[w].command, false));
    }
  }

  lemma OutsideIsSafe(s: Sys, a: Action)
    requires Safe(s) && Enabled(s, a) && (a.Withdraw? || a.Cancel?)
    ensures Safe(Apply(s, a))
  {
    var t := Apply(s, a);
    assert forall w :: w in s.workers ==> GoodPhase(s, s.workers[w]);
  }

  lemma AskIsSafe(s: Sys, r: Request)
    requires Safe(s) && Enabled(s, Ask(r))
    ensures Safe(Apply(s, Ask(r)))
  {
    if Uncontended(s) {
      SubmitIsSafe(s, r);
    } else {
      assert forall w :: w in s.workers ==> GoodPhase(s, s.workers[w]);
    }
  }

  lemma ApplyIsSafe(s: Sys, a: Action)
    requires Safe(s) && Enabled(s, a)
    ensures Safe(Apply(s, a))
  {
    match a {
      case Ask(r) => AskIsSafe(s, r);
      case Submit(r) => SubmitIsSafe(s, r);
      case Check(w) => CheckIsSafe(s, w);
      case Confirmed(w, confirmed) => JudgeIsSafe(s, w, confirmed);
      case Acquire(w) => AcquireIsSafe(s, w);
      case SendReturns(w) =>
        assert GoodPhase(s, s.workers[w]);
        SentIsSafe(s, w, Checking(s.taken), s.queue.Complete(s.taken));
      case SendRaises(w) =>
        assert GoodPhase(s, s.workers[w]);
        SentIsSafe(s, w, Exiting(s.taken), s.queue);
      case Exit(w) => ExitIsSafe(s, w);
      case Cancelled(w) => InterruptIsSafe(s, w);
      case Start(_) => WorkIsSafe(s, a);
      case CallReturns(_) => WorkIsSafe(s, a);
      case CallRaises(_) => WorkIsSafe(s, a);
      case ConfirmRaises(_) => WorkIsSafe(s, a);
      case _ => OutsideIsSafe(s, a);
    }
  }

  // --------------------------------------------------------------- whole runs

  ghost predicate Step(s: Sys, a: Action, t: Sys) {
    Enabled(s, a) && t == Apply(s, a)
  }

  ghost predicate Run(states: seq<Sys>, acts: seq<Action>) {
    && |states| == |acts| + 1 && Initial(states[0])
    && forall i :: 0 <= i < |acts| ==> Step(states[i], acts[i], states[i + 1])
  }

  lemma {:induction false} Reachable(states: seq<Sys>, acts: seq<Action>, i: nat)
    requires Run(states, acts) && i < |states|
    ensures Safe(states[i])
  {
    if i > 0 {
      Reachable(states, acts, i - 1);
      assert Step(states[i - 1], acts[i - 1], states[i]);
      ApplyIsSafe(states[i - 1], acts[i - 1]);
    }
  }

  /** There is never more than one worker, and so never more than one play_media call
      under way. */
  lemma AtMostOneWorker(states: seq<Sys>, acts: seq<Action>, i: nat, v: nat, w: nat)
    requires Run(states, acts) && i < |states| && v in states[i].workers && w in states[i].workers
    ensures v == w
  {
    Reachable(states, acts, i);
  }

  /** No request is lost: while the coordinator runs, a submitted generation that no worker
      has taken up has a live worker; and once no worker is left, what was played last is
      what was asked for last. */
  lemma NoRequestLost(states: seq<Sys>, acts: seq<Action>, i: nat)
    requires Run(states, acts) && i < |states| && !states[i].stopped
    ensures var s := states[i];
            s.taken < s.queue.generation ==> Live(s) && s.queue.latest.Some?
    ensures var s := states[i];
            s.workers == map[] && s.queue.generation > 0 ==>
              s.calls != [] && s.calls[|s.calls| - 1] == s.queue.generation
  {
    Reachable(states, acts, i);
  }

  /** What a worker takes up is the newest request submitted by then. */
  lemma NewestIsTaken(states: seq<Sys>, acts: seq<Action>, i: nat)
    requires Run(states, acts) && i < |acts| && states[i + 1].taken != states[i].taken
    ensures states[i + 1].taken == states[i].queue.generation
  {
    Reachable(states, acts, i);
    var s, a := states[i], acts[i];
    assert Step(s, a, states[i + 1]);
    if a.Confirmed? {
      assert GoodPhase(s, s.workers[a.worker]);
    }
  }

  /** play_media is called for generations in ascending order, for each at most twice and
      then in a row. */
  lemma CallsAscend(states: seq<Sys>, acts: seq<Action>, i: nat, j: nat, k: nat)
    requires Run(states, acts) && i < |states| && j < k < |states[i].calls|
    ensures states[i].calls[j] <= states[i].calls[k]
    ensures j + 2 <= k ==> states[i].calls[j] < states[i].calls[k]
  {
    Reachable(states, acts, i);
  }

  /** The completion callbacks go out for strictly ascending generations. */
  lemma SendsAscend(states: seq<Sys>, acts: seq<Action>, i: nat, j: nat, k: nat)
    requires Run(states, acts) && i < |states| && j < k < |states[i].sends|
    ensures states[i].sends[j] < states[i].sends[k]
  {
    Reachable(states, acts, i);
  }

  /** And each only while its generation is the desired one, which it stays until the
      callback has returned: nobody can submit meanwhile. */
  lemma SendingIsCurrent(states: seq<Sys>, acts: seq<Action>, i: nat, w: nat)
    requires Run(states, acts) && i < |states| && w in states[i].workers && states[i].workers[w].Sending?
    ensures states[i].queue.latest == Some(states[i].workers[w].command)
    ensures forall r :: !Enabled(states[i], Submit(r))
    ensures forall r :: Enabled(states[i], Ask(r)) ==> Apply(states[i], Ask(r)).queue == states[i].queue
  {
    Reachable(states, acts, i);
    assert GoodPhase(states[i], states[i].workers[w]);
  }

  /** When the callback returns nothing is wanted any more; when it raises its command still is. */
  lemma SentIsForgotten(states: seq<Sys>, acts: seq<Action>, i: nat, w: nat)
    requires Run(states, acts) && i < |acts| && w in states[i].workers && states[i].workers[w].Sending?
    ensures acts[i] == SendReturns(w) ==> states[i + 1].queue.latest == None
    ensures acts[i] == SendRaises(w) ==> states[i + 1].queue.latest == Some(states[i].workers[w].command)
    ensures acts[i] == SendReturns(w) || acts[i] == SendRaises(w) ==>
              states[i + 1].lock == None && states[i + 1].queue.generation == states[i].queue.generation
  {
    SendingIsCurrent(states, acts, i, w);
    assert Step(states[i], acts[i], states[i + 1]);
  }

  /** A generation whose completion was once sent, even if the sending raised, is never
      played again. */
  lemma SentIsNotPlayedAgain(states: seq<Sys>, acts: seq<Action>, i: nat, k: nat)
    requires Run(states, acts) && i < |acts| && |states[i + 1].calls| > |states[i].calls| && k < |states[i].sends|
    ensures states[i].sends[k] < states[i + 1].calls[|states[i].calls|]
  {
    Reachable(states, acts, i + 1);
    var s, a, t := states[i], acts[i], states[i + 1];
    assert Step(s, a, t);
    assert GoodPhase(t, t.workers[a.worker]);
    assert t.sends[k] < t.taken;
  }

  /** After a confirmation ran out the same generation is played again exactly if it was the
      first call, was not confirmed, and nothing newer is wanted. */
  lemma RepeatedIff(states: seq<Sys>, acts: seq<Action>, i: nat, w: nat, confirmed: bool, command: Command,
                    attempt: nat)
    requires Run(states, acts) && i < |acts| && acts[i] == Confirmed(w, confirmed)
    requires w in states[i].workers && states[i].workers[w] == Confirming(command, attempt)
    ensures var s, t := states[i], states[i + 1];
            && w in t.workers
            && (t.calls == s.calls + [command.generation] && t.workers[w] == Calling(command, 1)
                <==> attempt == 0 && !confirmed && s.queue.IsCurrent(command.generation))
            && (t.workers[w] == Finishing(command, true) <==> confirmed && s.queue.IsCurrent(command.generation))
            && (t.workers[w].Calling? || (t.workers[w].Finishing? && t.calls == s.calls))
  {
    assert Step(states[i], acts[i], states[i + 1]);
  }

  /** A command is done with success exactly when it was confirmed while it was the latest; a
      call or a confirmation that raises is a failure. */
  lemma SuccessIff(states: seq<Sys>, acts: seq<Action>, i: nat, w: nat)
    requires Run(states, acts) && i < |acts| && w in states[i].workers && w in states[i + 1].workers
    requires !states[i].workers[w].Finishing? && states[i + 1].workers[w].Finishing?
    ensures var p, q := states[i].workers[w], states[i + 1].workers[w];
            && (p.Calling? || p.Confirming?) && q.command == p.command
            && (q.succeeded <==> acts[i] == Confirmed(w, true) && states[i].queue.IsCurrent(p.command.generation))
  {
    Reachable(states, acts, i);
    assert Step(states[i], acts[i], states[i + 1]);
  }

  /** And that is what the callback reports. */
  lemma ResultIsSent(states: seq<Sys>, acts: seq<Action>, i: nat, w: nat)
    requires Run(states, acts) && i < |acts| && w in states[i].workers && w in states[i + 1].workers
    requires !states[i].workers[w].Sending? && states[i + 1].workers[w].Sending?
    ensures var q := states[i + 1].workers[w]; states[i].workers[w] == Finishing(q.command, q.succeeded)
  {
    Reachable(states, acts, i);
    assert Step(states[i], acts[i], states[i + 1]);
  }

  // ------------------------------------------------------------- it comes to rest

  /** What the worker does, as opposed to submitters and cancellation. */
  predicate IsWork(a: Action) {
    !a.Ask? && !a.Submit? && !a.Withdraw? && !a.Cancel?
  }

  /** This step submits a request. */
  predicate Submits(s: Sys, a: Action) {
    a.Submit? || (a.Ask? && Uncontended(s))
  }

  /** The next step a worker can take. */
  function NextStep(s: Sys, w: nat): Action
    requires w in s.workers
  {
    match s.workers[w]
    case Starting => if w in s.cancelled then Cancelled(w) else Start(w)
    case Checking(_) => Check(w)
    case Calling(_, _) => CallReturns(w)
    case Confirming(_, _) => Confirmed(w, true)
    case Finishing(_, _) => Acquire(w)
    case Sending(_, _) => SendReturns(w)
    case Exiting(_) => Exit(w)
  }

  /** A worker is never stuck; in particular it never waits for a lock in vain. */
  lemma WorkerIsNeverStuck(states: seq<Sys>, acts: seq<Action>, i: nat, w: nat)
    requires Run(states, acts) && i < |states| && w in states[i].workers
    ensures Enabled(states[i], NextStep(states[i], w)) && IsWork(NextStep(states[i], w))
  {
    Reachable(states, acts, i);
  }

  /** A bound on the steps a worker and its successors still take if nobody submits. */
  function Left(p: Phase, pending: bool): nat {
    match p
    case Starting => 11
    case Checking(_) => if pending then 10 else 2
    case Calling(_, attempt) => (if attempt == 0 then 8 else 6) + Again(pending)
    case Confirming(_, attempt) => (if attempt == 0 then 7 else 5) + Again(pending)
    case Finishing(_, _) => 4 + Again(pending)
    case Sending(_, _) => 3 + Again(pending)
    case Exiting(_) => 1 + Again(pending)
  }

  function Again(pending: bool): nat {
    if pending then 20 else 0
  }

  function StepsLeft(s: Sys): nat {
    if Live(s) then Left(s.workers[s.task.value], Pending(s)) else 0
  }

  lemma WorkTaken(s: Sys, a: Action)
    requires Safe(s) && Enabled(s, a) && IsWork(a)
    ensures StepsLeft(Apply(s, a)) < StepsLeft(s)
  {
    assert s.task == Some(a.worker);
    assert GoodPhase(s, s.workers[a.worker]);
  }

  lemma StepTaken(s: Sys, a: Action)
    requires Safe(s) && Enabled(s, a) && !Submits(s, a)
    ensures IsWork(a) ==> StepsLeft(Apply(s, a)) < StepsLeft(s)
    ensures !IsWork(a) ==> StepsLeft(Apply(s, a)) == StepsLeft(s)
  {
    if IsWork(a) {
      WorkTaken(s, a);
    }
  }

  function WorkIn(acts: seq<Action>, i: nat, j: nat): nat
    requires i <= j <= |acts|
    decreases j
  {
    if i == j then 0 else WorkIn(acts, i, j - 1) + if IsWork(acts[j - 1]) then 1 else 0
  }

  /** Each of the worker's steps lowers the bound, and no other step but a submission raises it. */
  lemma StepsTaken(states: seq<Sys>, acts: seq<Action>, i: nat, j: nat)
    requires Run(states, acts) && i <= j < |states| && forall k :: i <= k < j ==> !Submits(states[k], acts[k])
    ensures forall k :: i <= k < j ==>
              StepsLeft(states[k + 1]) + (if IsWork(acts[k]) then 1 else 0) <= StepsLeft(states[k])
  {
    forall k | i <= k < j
      ensures StepsLeft(states[k + 1]) + (if IsWork(acts[k]) then 1 else 0) <= StepsLeft(states[k])
    {
      Reachable(states, acts, k);
      assert Step(states[k], acts[k], states[k + 1]);
      StepTaken(states[k], acts[k]);
    }
  }

  lemma {:induction false} WorkCounted(states: seq<Sys>, acts: seq<Action>, i: nat, j: nat)
    requires i <= j < |states| == |acts| + 1
    requires forall k :: i <= k < j ==>
               StepsLeft(states[k + 1]) + (if IsWork(acts[k]) then 1 else 0) <= StepsLeft(states[k])
    ensures WorkIn(acts, i, j) + StepsLeft(states[j]) <= StepsLeft(states[i])
    decreases j
  {
    if i < j {
      WorkCounted(states, acts, i, j - 1);
      assert StepsLeft(states[j - 1 + 1]) + (if IsWork(acts[j - 1]) then 1 else 0) <= StepsLeft(states[j - 1]);
    }
  }

  lemma NoneLeft(s: Sys)
    requires Safe(s)
    ensures StepsLeft(s) == 0 <==> s.workers == map[]
    ensures StepsLeft(s) <= 28
  {
    if Live(s) {
      assert GoodPhase(s, s.workers[s.task.value]);
    } else {
      assert forall w :: w !in s.workers;
    }
  }

  /** Between two submissions the workers take at most 28 steps, however the calls and
      confirmations turn out; none is left to take exactly when no worker is left. */
  lemma ComesToRest(states: seq<Sys>, acts: seq<Action>, i: nat, j: nat)
    requires Run(states, acts) && i <= j < |states| && forall k :: i <= k < j ==> !Submits(states[k], acts[k])
    ensures WorkIn(acts, i, j) + StepsLeft(states[j]) <= StepsLeft(states[i]) <= 28
    ensures StepsLeft(states[j]) == 0 <==> states[j].workers == map[]
  {
    StepsTaken(states, acts, i, j);
    WorkCounted(states, acts, i, j);
    Reachable(states, acts, i);
    Reachable(states, acts, j);
    NoneLeft(states[i]);
    NoneLeft(states[j]);
  }

  // ------------------------------------------------------ after cancellation

  /** Whether this step creates a worker. */
  ghost predicate Creates(s: Sys, t: Sys) {
    exists w :: w in t.workers && w !in s.workers
  }

  lemma SubmitCreates(s: Sys, r: Request)
    requires Safe(s)
    ensures Creates(s, Submitted(s, r)) <==> !Live(s)
  {
    if !Live(s) {
      assert s.nextWorker in Submitted(s, r).workers;
      assert s.workers == map[];
    }
  }

  /** Once cancelled, a coordinator gets a new worker exactly when a submitter that was
      still waiting for the lock goes on after the old worker is gone. */
  lemma WorkerAfterCancel(states: seq<Sys>, acts: seq<Action>, i: nat)
    requires Run(states, acts) && i < |acts| && states[i].stopped
    ensures Creates(states[i], states[i + 1]) <==> acts[i].Submit? && !Live(states[i])
  {
    Reachable(states, acts, i);
    assert Step(states[i], acts[i], states[i + 1]);
    if acts[i].Submit? {
      SubmitCreates(states[i], acts[i].request);
    }
  }

  lemma Extend(states: seq<Sys>, acts: seq<Action>, a: Action, t: Sys) returns (more: seq<Sys>, done: seq<Action>)
    requires Run(states, acts) && Step(states[|acts|], a, t)
    ensures Run(more, done) && done == acts + [a] && more == states + [t]
  {
    more, done := states + [t], acts + [a];
    forall i | 0 <= i < |done| ensures Step(more[i], done[i], more[i + 1]) {
      if i < |acts| {
        assert Step(states[i], acts[i], states[i + 1]);
      }
    }
  }

  function CommandOf(g: nat, r: Request): Command {
    Command(g, r.kind, r.index, r.mediaId, r.mediaType)
  }

  /** The first request has been played, and its callback is on its way. */
  function FirstSending(r: Request): Sys {
    var c := CommandOf(1, r);
    Sys(Latest(1, Some(c)), Some(0), map[0 := Sending(c, true)], Some(0), false, {}, {}, 1, 1, [1], [1])
  }

  lemma FirstCalled(r: Request) returns (states: seq<Sys>, acts: seq<Action>)
    ensures Run(states, acts)
    ensures var c := CommandOf(1, r);
            states[|acts|]
            == Sys(Latest(1, Some(c)), None, map[0 := Calling(c, 0)], Some(0), false, {}, {}, 1, 1, [1], [])
  {
    var c := CommandOf(1, r);
    var s0 := Sys(Latest(0, None), None, map[], None, false, {}, {}, 0, 0, [], []);
    var s1 := Sys(Latest(1, Some(c)), None, map[0 := Starting], Some(0), false, {}, {}, 1, 0, [], []);
    var s2 := s1.(workers := map[0 := Checking(0)]);
    var s3 := s2.(workers := map[0 := Calling(c, 0)], taken := 1, calls := [1]);
    assert s1 == Apply(s0, Ask(r));
    states, acts := Extend([s0], [], Ask(r), s1);
    states, acts := Extend(states, acts, Start(0), s2);
    states, acts := Extend(states, acts, Check(0), s3);
  }

  lemma FirstSent(r: Request) returns (states: seq<Sys>, acts: seq<Action>)
    ensures Run(states, acts) && states[|acts|] == FirstSending(r)
  {
    states, acts := FirstCalled(r);
    var s, c := states[|acts|], CommandOf(1, r);
    var t := s.(workers := map[0 := Confirming(c, 0)]);
    var u := s.(workers := map[0 := Finishing(c, true)]);
    states, acts := Extend(states, acts, CallReturns(0), t);
    states, acts := Extend(states, acts, Confirmed(0, true), u);
    states, acts := Extend(states, acts, Acquire(0), FirstSending(r));
  }

  /** While the callback is on its way a second request has to wait for the lock; the entry
      is unloaded, the worker is cancelled and leaves. */
  lemma Unloaded(r: Request, q: Request) returns (states: seq<Sys>, acts: seq<Action>, i: nat)
    ensures Run(states, acts) && i + 4 == |acts| && acts[i] == Ask(q)
    ensures acts[i + 1] == Cancel && states[i + 1].waiting == {q} && !Enabled(states[i + 1], Submit(q))
    ensures states[i + 2].stopped && states[i + 2].calls == [1]
    ensures var s := FirstSending(r);
            states[|acts|] == s.(lock := None, workers := map[], task := None, stopped := true, cancelled := {0},
                                 waiting := {q})
  {
    states, acts := FirstSent(r);
    i := |acts|;
    var s := FirstSending(r);
    var t := s.(waiting := {q});
    var u := t.(stopped := true, cancelled := {0});
    var v := u.(lock := None, workers := map[0 := Exiting(1)]);
    var w := v.(workers := map[], task := None);
    states, acts := Extend(states, acts, Ask(q), t);
    states, acts := Extend(states, acts, Cancel, u);
    states, acts := Extend(states, acts, Cancelled(0), v);
    assert v.workers - {0} == map[];
    states, acts := Extend(states, acts, Exit(0), w);
  }

  /** So it can happen: a cancelled coordinator plays on, for a request that was waiting
      for the lock when it was cancelled. */
  lemma CancelledPlaysOn(r: Request, q: Request) returns (states: seq<Sys>, acts: seq<Action>, i: nat)
    ensures Run(states, acts) && i + 1 < |acts| && acts[i] == Ask(q) && acts[i + 1] == Cancel
    ensures !Enabled(states[i + 1], Submit(q)) && states[i + 2].stopped && states[i + 2].calls == [1]
    ensures states[|acts|].stopped && states[|acts|].calls == [1, 2]
  {
    states, acts, i := Unloaded(r, q);
    var s, c := states[|acts|], CommandOf(2, q);
    var t := s.(queue := Latest(2, Some(c)), waiting := {}, workers := map[1 := Starting], task := Some(1),
                nextWorker := 2);
    var u := t.(workers := map[1 := Checking(0)]);
    var v := u.(workers := map[1 := Calling(c, 0)], taken := 2, calls := [1, 2]);
    assert t == Apply(s, Submit(q));
    states, acts := Extend(states, acts, Submit(q), t);
    states, acts := Extend(states, acts, Start(1), u);
    states, acts := Extend(states, acts, Check(1), v);
  }
}
