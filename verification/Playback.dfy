// The latest-wins queue of playback requests, and the confirmation loop of one attempt.
module PlaybackQueue {
  import opened Wrappers

  datatype Command = Command(generation: nat, kind: int, index: int, mediaId: string, mediaType: string)

  datatype Latest = Latest(generation: nat, latest: Option<Command>)
  {
    function Submit(kind: int, index: int, mediaId: string, mediaType: string): Latest {
      var g := generation + 1;
      Latest(g, Some(Command(g, kind, index, mediaId, mediaType)))
    }

    /** latest_after */
    function After(handled: nat): Option<Command> {
      if latest.Some? && latest.value.generation > handled then latest else None
    }

    predicate IsCurrent(g: nat) {
      latest.Some? && latest.value.generation == g
    }

    function Complete(g: nat): Latest {
      if IsCurrent(g) then this.(latest := None) else this
    }
  }

  class LatestPlaybackQueue {
    var generation: nat
    var latest: Option<Command>

    ghost function Abs(): Latest
      reads this
    {
      Latest(generation, latest)
    }

    constructor ()
      ensures Abs() == Latest(0, None)
    {
      generation, latest := 0, None;
    }

    method Submit(kind: int, index: int, mediaId: string, mediaType: string) returns (command: Command)
      modifies this
      ensures Abs() == old(Abs()).Submit(kind, index, mediaId, mediaType) && latest == Some(command)
    {
      generation := generation + 1;
      command := Command(generation, kind, index, mediaId, mediaType);
      latest := Some(command);
    }

    method LatestAfter(handled: nat) returns (command: Option<Command>)
      ensures command == Abs().After(handled)
    {
      if latest.None? || latest.value.generation <= handled {
        return None;
      }
      return latest;
    }

    method IsCurrent(g: nat) returns (current: bool)
      ensures current == Abs().IsCurrent(g)
    {
      current := latest.Some? && latest.value.generation == g;
    }

    method Complete(g: nat)
      modifies this
      ensures Abs() == old(Abs()).Complete(g)
    {
      var current := IsCurrent(g);
      if current {
        latest := None;
      }
    }
  }

  /** A finished command never takes a newer one with it, and is not handed out again. */
  lemma CompletionIsOwn(q: Latest, done: nat, kind: int, index: int, mediaId: string, mediaType: string)
    requires q.latest.Some? ==> q.latest.value.generation <= q.generation
    requires done <= q.generation
    ensures var newer := q.Submit(kind, index, mediaId, mediaType);
            newer.Complete(done) == newer && newer.After(done) == newer.latest
    ensures q.Complete(done).After(done) == q.After(done)
  {
  }

  // --------------------------------------------- confirming that a track plays

  const CONFIRM_TIMEOUT_MS := 10000
  const STABLE_MS := 400

  /** What one turn of the loop sees: the time, whether the command is still the latest,
      and the player's state, if it has one, with its media id, if it has one. */
  datatype Look = Look(time: nat, current: bool, state: Option<Option<string>>)

  /** str(...) of a missing attribute is the word None. */
  function MediaId(look: Look): string {
    match look.state
    case None => ""
    case Some(None) => "None"
    case Some(Some(id)) => id
  }

  ghost predicate Showing(looks: seq<Look>, i: nat, j: nat, id: string) {
    i <= j < |looks| && forall k :: i <= k <= j ==> MediaId(looks[k]) == id
  }

  /** At look `j` the player had shown this id at every look for long enough. */
  ghost predicate Played(looks: seq<Look>, j: nat, id: string) {
    exists i: nat :: Showing(looks, i, j, id) && looks[j].time >= looks[i].time + STABLE_MS
  }

  ghost predicate NothingSeen(looks: seq<Look>, n: nat) {
    forall k :: 0 <= k < n && k < |looks| ==> MediaId(looks[k]) == ""
  }

  /** The loop went on past these looks. */
  ghost predicate Undecided(looks: seq<Look>, n: nat, id: string) {
    && (forall k: nat :: k < n && k < |looks| ==> looks[k].time < CONFIRM_TIMEOUT_MS && looks[k].current)
    && forall k: nat {:trigger Played(looks, k, id)} :: k < n && k < |looks| ==> !Played(looks, k, id)
  }

  ghost predicate Forward(looks: seq<Look>) {
    forall i, j :: 0 <= i <= j < |looks| ==> looks[i].time <= looks[j].time
  }

  /** The first look of the present showing of the id. */
  ghost predicate Since(looks: seq<Look>, first: nat, n: nat, id: string) {
    first < n <= |looks| && Showing(looks, first, n - 1, id) && (first > 0 ==> MediaId(looks[first - 1]) != id)
  }

  lemma NotPlayedYet(looks: seq<Look>, first: nat, j: nat, id: string)
    requires Forward(looks) && j < |looks| && Since(looks, first, j + 1, id)
    requires looks[j].time < looks[first].time + STABLE_MS
    ensures !Played(looks, j, id)
  {
    forall i: nat | Showing(looks, i, j, id) ensures looks[j].time < looks[i].time + STABLE_MS {
      assert first > 0 ==> i > first - 1;
      assert looks[first].time <= looks[i].time;
    }
  }

  /** Where the loop stands after `n` looks that decided nothing. */
  ghost predicate Watching(looks: seq<Look>, n: nat, id: string, since: Option<nat>, first: nat, observable: bool) {
    && n <= |looks| && Undecided(looks, n, id) && (!observable <==> NothingSeen(looks, n))
    && (if since.None? then n > 0 ==> MediaId(looks[n - 1]) != id
        else Since(looks, first, n, id) && since.value == looks[first].time)
  }

  ghost predicate InTime(looks: seq<Look>, n: nat) {
    n < |looks| && looks[n].time < CONFIRM_TIMEOUT_MS && looks[n].current
  }

  /** What the loop concludes after `n` looks. */
  ghost predicate Outcome(looks: seq<Look>, n: nat, id: string, currentAtEnd: bool, current: bool, confirmed: bool) {
    && n <= |looks| && Undecided(looks, n, id)
    && if n < |looks| && looks[n].time < CONFIRM_TIMEOUT_MS
       then current == confirmed == looks[n].current && (current ==> Played(looks, n, id))
       else current == currentAtEnd && (confirmed <==> NothingSeen(looks, n))
  }

  lemma AnotherTrack(looks: seq<Look>, n: nat, id: string, since: Option<nat>, first: nat, observable: bool)
    requires Watching(looks, n, id, since, first, observable) && InTime(looks, n) && MediaId(looks[n]) != id
    ensures Watching(looks, n + 1, id, None, first, observable || MediaId(looks[n]) != "")
  {
    assert forall i: nat :: !Showing(looks, i, n, id);
  }

  lemma FirstShown(looks: seq<Look>, n: nat, id: string, first: nat, observable: bool)
    requires Forward(looks) && Watching(looks, n, id, None, first, observable)
    requires InTime(looks, n) && MediaId(looks[n]) == id
    ensures Watching(looks, n + 1, id, Some(looks[n].time), n, observable || MediaId(looks[n]) != "")
  {
    NotPlayedYet(looks, n, n, id);
  }

  lemma StillShown(looks: seq<Look>, n: nat, id: string, since: nat, first: nat, observable: bool)
    requires Forward(looks) && Watching(looks, n, id, Some(since), first, observable)
    requires InTime(looks, n) && MediaId(looks[n]) == id
    ensures looks[n].time < since + STABLE_MS ==>
              Watching(looks, n + 1, id, Some(since), first, observable || MediaId(looks[n]) != "")
    ensures looks[n].time >= since + STABLE_MS ==> forall end :: Outcome(looks, n, id, end, true, true)
  {
    assert Showing(looks, first, n, id);
    if looks[n].time < since + STABLE_MS {
      NotPlayedYet(looks, first, n, id);
    }
  }

  /** What the loop remembers of the looks so far. */
  datatype Memory = Memory(since: Option<nat>, observable: bool)

  function Remember(m: Memory, look: Look, id: string): Memory {
    var seen := MediaId(look);
    Memory(if seen != id then None else if m.since.None? then Some(look.time) else m.since, m.observable || seen != "")
  }

  function Remembered(looks: seq<Look>, n: nat, id: string): Memory
    requires n <= |looks|
  {
    if n == 0 then Memory(None, false) else Remember(Remembered(looks, n - 1, id), looks[n - 1], id)
  }

  predicate Decides(m: Memory, look: Look, id: string) {
    !look.current || (MediaId(look) == id && m.since.Some? && look.time - m.since.value >= STABLE_MS)
  }

  /** The first `n` looks were in time and decided nothing. */
  predicate Quiet(looks: seq<Look>, n: nat, id: string)
    requires n <= |looks|
  {
    n == 0 || (Quiet(looks, n - 1, id) && looks[n - 1].time < CONFIRM_TIMEOUT_MS
               && !Decides(Remembered(looks, n - 1, id), looks[n - 1], id))
  }

  lemma WatchingNext(looks: seq<Look>, n: nat, id: string, m: Memory, first: nat) returns (next: nat)
    requires Forward(looks) && Watching(looks, n, id, m.since, first, m.observable)
    requires InTime(looks, n) && !Decides(m, looks[n], id)
    ensures var after := Remember(m, looks[n], id); Watching(looks, n + 1, id, after.since, next, after.observable)
  {
    next := first;
    if MediaId(looks[n]) != id {
      AnotherTrack(looks, n, id, m.since, first, m.observable);
    } else if m.since.None? {
      FirstShown(looks, n, id, first, m.observable);
      next := n;
    } else {
      StillShown(looks, n, id, m.since.value, first, m.observable);
    }
  }

  lemma {:induction false} QuietWatching(looks: seq<Look>, n: nat, id: string) returns (first: nat)
    requires Forward(looks) && n <= |looks| && Quiet(looks, n, id)
    ensures Watching(looks, n, id, Remembered(looks, n, id).since, first, Remembered(looks, n, id).observable)
  {
    first := 0;
    if n > 0 {
      first := QuietWatching(looks, n - 1, id);
      first := WatchingNext(looks, n - 1, id, Remembered(looks, n - 1, id), first);
    }
  }

  lemma Concluded(looks: seq<Look>, n: nat, id: string, currentAtEnd: bool)
    requires Forward(looks) && n <= |looks| && Quiet(looks, n, id)
    ensures var m := Remembered(looks, n, id);
            if n < |looks| && looks[n].time < CONFIRM_TIMEOUT_MS
            then Decides(m, looks[n], id) ==>
                   Outcome(looks, n, id, currentAtEnd, looks[n].current, looks[n].current)
            else Outcome(looks, n, id, currentAtEnd, currentAtEnd, !m.observable)
  {
    var m := Remembered(looks, n, id);
    var first := QuietWatching(looks, n, id);
    if InTime(looks, n) && Decides(m, looks[n], id) {
      StillShown(looks, n, id, m.since.value, first, m.observable);
    }
  }

  /** What the loop returns, from look `n` on. */
  function FromLook(looks: seq<Look>, n: nat, id: string, currentAtEnd: bool): (bool, bool)
    requires n <= |looks|
    decreases |looks| - n
  {
    if n == |looks| || looks[n].time >= CONFIRM_TIMEOUT_MS then (currentAtEnd, !Remembered(looks, n, id).observable)
    else if Decides(Remembered(looks, n, id), looks[n], id) then (looks[n].current, looks[n].current)
    else FromLook(looks, n + 1, id, currentAtEnd)
  }

  /** What _async_wait_for_track returns. */
  function Confirmation(command: Command, looks: seq<Look>, currentAtEnd: bool): (bool, bool) {
    if command.kind != 5 then (currentAtEnd, true) else FromLook(looks, 0, command.mediaId, currentAtEnd)
  }

  /** _async_wait_for_track from time 0, for what its looks see and for whether the
      command is the latest when the time is up: the result and the number of looks. It
      is the first look that decides: the command was superseded, or the track had been
      shown long enough; or the time is up, and then only a player that showed nothing at
      all gets the benefit of the doubt. */
  method WaitForTrack(command: Command, looks: seq<Look>, currentAtEnd: bool)
    returns (current: bool, confirmed: bool, taken: nat)
    requires Forward(looks)
    ensures command.kind != 5 ==> taken == 0 && current == currentAtEnd && confirmed
    ensures command.kind == 5 ==> Outcome(looks, taken, command.mediaId, currentAtEnd, current, confirmed)
    ensures (current, confirmed) == Confirmation(command, looks, currentAtEnd)
  {
    taken := 0;
    if command.kind != 5 {
      return currentAtEnd, true, 0;
    }
    var since: Option<nat>, observable := None, false;
    while taken < |looks| && looks[taken].time < CONFIRM_TIMEOUT_MS
      invariant 0 <= taken <= |looks| && Quiet(looks, taken, command.mediaId)
      invariant Memory(since, observable) == Remembered(looks, taken, command.mediaId)
      invariant Confirmation(command, looks, currentAtEnd) == FromLook(looks, taken, command.mediaId, currentAtEnd)
    {
      var look := looks[taken];
      if !look.current {
        Concluded(looks, taken, command.mediaId, currentAtEnd);
        return false, false, taken;
      }
      var id := MediaId(look);
      observable := observable || id != "";
      if id == command.mediaId {
        if since.None? {
          since := Some(look.time);
        } else if look.time - since.value >= STABLE_MS {
          Concluded(looks, taken, command.mediaId, currentAtEnd);
          return true, true, taken;
        }
      } else {
        since := None;
      }
      taken := taken + 1;
    }
    Concluded(looks, taken, command.mediaId, currentAtEnd);
    return currentAtEnd, !observable, taken;
  }

  /** Neither superseded nor shown long enough: all these looks decide nothing. */
  lemma {:induction false} QuietFromHere(looks: seq<Look>, n: nat, id: string, currentAtEnd: bool)
    requires n <= |looks| && Quiet(looks, |looks|, id)
    ensures FromLook(looks, n, id, currentAtEnd) == (currentAtEnd, !Remembered(looks, |looks|, id).observable)
    decreases |looks| - n
  {
    if n < |looks| {
      QuietBefore(looks, n + 1, id);
      QuietFromHere(looks, n + 1, id, currentAtEnd);
    }
  }

  lemma {:induction false} QuietBefore(looks: seq<Look>, n: nat, id: string)
    requires n <= |looks| && Quiet(looks, |looks|, id)
    ensures Quiet(looks, n, id)
    decreases |looks| - n
  {
    if n < |looks| {
      QuietBefore(looks, n + 1, id);
    }
  }

  lemma {:induction false} ObservedIff(looks: seq<Look>, n: nat, id: string)
    requires n <= |looks|
    ensures Remembered(looks, n, id).observable <==> exists k :: 0 <= k < n && MediaId(looks[k]) != ""
  {
    if n > 0 {
      ObservedIff(looks, n - 1, id);
    }
  }

  /** When the time is up with nothing decided, the benefit of the doubt is given exactly
      to a player that at every look had no state at all, or an empty media id. */
  lemma BenefitOfDoubtIff(command: Command, looks: seq<Look>, currentAtEnd: bool)
    requires command.kind == 5 && Quiet(looks, |looks|, command.mediaId)
    ensures var (current, confirmed) := Confirmation(command, looks, currentAtEnd);
            && current == currentAtEnd
            && (confirmed <==> forall k :: 0 <= k < |looks| ==>
                                 looks[k].state == None || looks[k].state == Some(Some("")))
  {
    QuietFromHere(looks, 0, command.mediaId, currentAtEnd);
    ObservedIff(looks, |looks|, command.mediaId);
    assert forall k :: 0 <= k < |looks| ==>
      (MediaId(looks[k]) == "" <==> looks[k].state == None || looks[k].state == Some(Some("")));
  }

  /** A player with a state but without the attribute, at every look until the time is up. */
  predicate WithoutId(looks: seq<Look>) {
    looks != [] && forall k :: 0 <= k < |looks| ==>
      looks[k].time < CONFIRM_TIMEOUT_MS && looks[k].current && looks[k].state == Some(None)
  }

  lemma {:induction false} WithoutIdIsQuiet(looks: seq<Look>, n: nat, id: string)
    requires n <= |looks| && WithoutId(looks) && id != "None"
    ensures Quiet(looks, n, id)
  {
    if n > 0 {
      WithoutIdIsQuiet(looks, n - 1, id);
    }
  }

  /** Such a player counts as one that plays something else: nothing is confirmed. */
  lemma MissingIdIsUnconfirmed(command: Command, looks: seq<Look>, currentAtEnd: bool)
    requires command.kind == 5 && command.mediaId != "None" && WithoutId(looks)
    ensures Confirmation(command, looks, currentAtEnd) == (currentAtEnd, false)
  {
    WithoutIdIsQuiet(looks, |looks|, command.mediaId);
    BenefitOfDoubtIff(command, looks, currentAtEnd);
    assert looks[0].state == Some(None);
  }

  // ---------------------------------------------------------------- the attempts

  /** What the confirmation of one play_media call meets. */
  datatype Attempt = Attempt(looks: seq<Look>, currentAtEnd: bool)

  function Confirmed(command: Command, attempt: Attempt): (bool, bool) {
    Confirmation(command, attempt.looks, attempt.currentAtEnd)
  }

  /** How many calls are made, and whether the command succeeds. */
  function Execution(command: Command, first: Attempt, second: Attempt): (nat, bool) {
    if Confirmed(command, first) == (true, false) then (2, Confirmed(command, second) == (true, true))
    else (1, Confirmed(command, first) == (true, true))
  }

  /** _async_execute_playback: at most two calls, each followed by its confirmation. */
  method ExecutePlayback(command: Command, first: Attempt, second: Attempt) returns (calls: nat, succeeded: bool)
    requires Forward(first.looks) && Forward(second.looks)
    ensures (calls, succeeded) == Execution(command, first, second)
    ensures 1 <= calls <= 2 && (calls == 2 <==> Confirmed(command, first) == (true, false))
    ensures succeeded <==> Confirmed(command, if calls == 1 then first else second) == (true, true)
  {
    calls, succeeded := 0, false;
    for attempt := 0 to 2
      invariant calls == attempt && !succeeded
      invariant attempt > 0 ==> Confirmed(command, first) == (true, false)
      invariant attempt == 2 ==> Confirmed(command, second) == (true, false)
    {
      calls := calls + 1;
      var meets := if attempt == 0 then first else second;
      var current, confirmed, _ := WaitForTrack(command, meets.looks, meets.currentAtEnd);
      if !current {
        return calls, false;
      }
      if confirmed {
        return calls, true;
      }
    }
  }

  /** The loop, from any look on, concludes as it should. */
  lemma {:induction false} FromLookConcludes(looks: seq<Look>, n: nat, id: string, currentAtEnd: bool) returns (m: nat)
    requires Forward(looks) && n <= |looks| && Quiet(looks, n, id)
    ensures var (current, confirmed) := FromLook(looks, n, id, currentAtEnd);
            Outcome(looks, m, id, currentAtEnd, current, confirmed)
    decreases |looks| - n
  {
    Concluded(looks, n, id, currentAtEnd);
    m := n;
    if n < |looks| && looks[n].time < CONFIRM_TIMEOUT_MS && !Decides(Remembered(looks, n, id), looks[n], id) {
      m := FromLookConcludes(looks, n + 1, id, currentAtEnd);
    }
  }

  lemma NotLater(looks: seq<Look>, n: nat, m: nat, id: string, end: bool, current: bool, confirmed: bool)
    requires Outcome(looks, n, id, end, current, confirmed) && m <= |looks| && Undecided(looks, m, id)
    ensures m <= n
  {
    if n < m {
      assert false;
    }
  }

  /** There is only one way to conclude. */
  lemma OneOutcome(looks: seq<Look>, n: nat, m: nat, id: string, end: bool, a: bool, b: bool, c: bool, d: bool)
    requires Outcome(looks, n, id, end, a, b) && Outcome(looks, m, id, end, c, d)
    ensures n == m && a == c && b == d
  {
    NotLater(looks, n, m, id, end, a, b);
    NotLater(looks, m, n, id, end, c, d);
  }

  /** Whatever the looks of the two attempts show: a second call is made exactly if after
      the first the command was still wanted but not confirmed, and the command succeeds
      exactly if after the last call it was still wanted and confirmed. */
  lemma ExecutionFollows(command: Command, first: Attempt, second: Attempt, n: nat, m: nat, current: bool,
                         confirmed: bool, current': bool, confirmed': bool)
    requires command.kind == 5 && Forward(first.looks) && Forward(second.looks)
    requires Outcome(first.looks, n, command.mediaId, first.currentAtEnd, current, confirmed)
    requires Outcome(second.looks, m, command.mediaId, second.currentAtEnd, current', confirmed')
    ensures var (calls, succeeded) := Execution(command, first, second);
            && calls == (if current && !confirmed then 2 else 1)
            && succeeded == if calls == 1 then current && confirmed else current' && confirmed'
  {
    var id := command.mediaId;
    var k := FromLookConcludes(first.looks, 0, id, first.currentAtEnd);
    var (a, b) := Confirmed(command, first);
    OneOutcome(first.looks, n, k, id, first.currentAtEnd, current, confirmed, a, b);
    var l := FromLookConcludes(second.looks, 0, id, second.currentAtEnd);
    var (c, d) := Confirmed(command, second);
    OneOutcome(second.looks, m, l, id, second.currentAtEnd, current', confirmed', c, d);
  }

  /** The player shows the track from look i to look j, for long enough and in time, and
      until then nothing newer is wanted. */
  ghost predicate Shown(looks: seq<Look>, i: nat, j: nat, id: string) {
    && Showing(looks, i, j, id) && looks[j].time >= looks[i].time + STABLE_MS && looks[j].time < CONFIRM_TIMEOUT_MS
    && forall k :: 0 <= k <= j ==> looks[k].current
  }

  lemma ShownIsConfirmed(command: Command, attempt: Attempt, i: nat, j: nat)
    requires command.kind == 5 && Forward(attempt.looks) && Shown(attempt.looks, i, j, command.mediaId)
    ensures Confirmed(command, attempt) == (true, true)
  {
    var m := FromLookConcludes(attempt.looks, 0, command.mediaId, attempt.currentAtEnd);
    assert Played(attempt.looks, j, command.mediaId);
    assert m <= j;
  }

  /** A track shown long enough in the first attempt takes one call and succeeds. */
  lemma ShownIsSuccess(command: Command, first: Attempt, second: Attempt, i: nat, j: nat)
    requires command.kind == 5 && Forward(first.looks) && Shown(first.looks, i, j, command.mediaId)
    ensures Execution(command, first, second) == (1, true)
  {
    ShownIsConfirmed(command, first, i, j);
  }

  /** One that is shown only in the second attempt takes two, and succeeds too. */
  lemma ShownAgainIsSuccess(command: Command, first: Attempt, second: Attempt, n: nat, i: nat, j: nat)
    requires command.kind == 5 && Forward(first.looks) && Forward(second.looks)
    requires Outcome(first.looks, n, command.mediaId, first.currentAtEnd, true, false)
    requires Shown(second.looks, i, j, command.mediaId)
    ensures Execution(command, first, second) == (2, true)
  {
    ShownIsConfirmed(command, second, i, j);
    var k := FromLookConcludes(first.looks, 0, command.mediaId, first.currentAtEnd);
    var (a, b) := Confirmed(command, first);
    OneOutcome(first.looks, n, k, command.mediaId, first.currentAtEnd, true, false, a, b);
  }

  /** A command superseded before it was confirmed takes one call and fails. */
  lemma SupersededFails(command: Command, first: Attempt, second: Attempt, n: nat)
    requires command.kind == 5 && Forward(first.looks) && Undecided(first.looks, n, command.mediaId)
    requires n < |first.looks| && first.looks[n].time < CONFIRM_TIMEOUT_MS && !first.looks[n].current
    ensures Execution(command, first, second) == (1, false)
  {
    var k := FromLookConcludes(first.looks, 0, command.mediaId, first.currentAtEnd);
    var (a, b) := Confirmed(command, first);
    OneOutcome(first.looks, n, k, command.mediaId, first.currentAtEnd, false, false, a, b);
  }

  /** What is not a track is not watched: one call, and success if it is still wanted. */
  lemma UnwatchedIsTaken(command: Command, first: Attempt, second: Attempt)
    requires command.kind != 5
    ensures Execution(command, first, second) == (1, first.currentAtEnd)
  {
  }

  /** So with a player that never has the attribute a track that is still wanted is played
      twice and reported as failed, although it may be playing all the time. */
  lemma MissingIdIsSeen(command: Command, first: Attempt, second: Attempt)
    requires command.kind == 5 && command.mediaId != "None" && first.currentAtEnd
    requires WithoutId(first.looks) && WithoutId(second.looks)
    ensures Execution(command, first, second) == (2, false)
  {
    MissingIdIsUnconfirmed(command, first.looks, first.currentAtEnd);
    MissingIdIsUnconfirmed(command, second.looks, second.currentAtEnd);
  }

  // ------------------------------------------------------------ the coordinator

  /** The steps the coordinator object goes through between awaits; tasks are numbers. */
  class PlaybackCoordinator {
    const queue: LatestPlaybackQueue
    var task: Option<nat>
    var stopped: bool

    constructor ()
      ensures fresh(queue) && queue.Abs() == Latest(0, None) && task == None && !stopped
    {
      queue := new LatestPlaybackQueue();
      task, stopped := None, false;
    }

    /** _async_play_media, once it holds the lock. */
    method PlayMedia(kind: int, index: int, mediaId: string, mediaType: string, taskDone: bool, next: nat)
      returns (valid: bool, spawned: bool)
      modifies this, queue
      ensures stopped == old(stopped) && (valid <==> mediaId != "" && mediaType != "")
      ensures spawned <==> valid && (old(task) == None || taskDone)
      ensures task == if spawned then Some(next) else old(task)
      ensures queue.Abs() == if valid then old(queue.Abs()).Submit(kind, index, mediaId, mediaType)
                             else old(queue.Abs())
    {
      if mediaId == "" || mediaType == "" {
        return false, false;
      }
      var _ := queue.Submit(kind, index, mediaId, mediaType);
      spawned := task.None? || taskDone;
      if spawned {
        task := Some(next);
      }
      return true, spawned;
    }

    /** What the worker does under the lock: the result code sent, if the command is still
        wanted; the callback may raise. */
    method Complete(command: Command, succeeded: bool, raises: bool) returns (sent: Option<nat>)
      modifies queue
      ensures sent == if old(queue.Abs()).IsCurrent(command.generation) then Some(if succeeded then 0 else 5) else None
      ensures queue.Abs() == if raises then old(queue.Abs()) else old(queue.Abs()).Complete(command.generation)
    {
      var current := queue.IsCurrent(command.generation);
      sent := if current then Some(if succeeded then 0 else 5) else None;
      if current && !raises {
        queue.Complete(command.generation);
      }
    }

    /** The finally block of the worker. */
    method Leave(handled: nat, next: nat) returns (respawned: bool)
      modifies this
      ensures stopped == old(stopped) && (respawned <==> !stopped && queue.Abs().After(handled).Some?)
      ensures task == if respawned then Some(next) else None
    {
      task := None;
      var newer := queue.LatestAfter(handled);
      respawned := !stopped && newer.Some?;
      if respawned {
        task := Some(next);
      }
    }

    /** cancel_playback_coordinator: whether a worker is cancelled. */
    method Cancel(taskDone: bool) returns (cancels: bool)
      modifies `stopped
      ensures stopped && (cancels <==> task.Some? && !taskDone)
    {
      stopped := true;
      cancels := task.Some? && !taskDone;
    }
  }
}
