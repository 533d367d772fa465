// The coordinated firmware update: the entity's fields, the stored job, and the job's
// progress from await to await, against processors that report what they like.
module UpdateJob {
  import opened UpdateTransport
  import opened Wrappers

  datatype Phase = Idle | WaitingForDevices | UpdatingBridge | UpdatingS3 | Complete | Failed

  datatype Stored = Stored(target: Version, phase: Phase)

  /** Where the job stands. */
  datatype Job =
    | NoJob
    | SavingFirst(version: Version)
    | Starting(version: Version)
    | AwaitingTransports(version: Version)
    | SavingBridge(version: Version)
    | Entering(version: Version, at: Endpoint)
    | Preparing(version: Version, at: Endpoint)
    | AwaitingVersion(version: Version, at: Endpoint)
    | AfterBridge(version: Version)
    | SavingS3(version: Version)
    | Done(version: Version)
    | Closing(version: Version, leaving: bool)

  datatype Sys = Sys(bridge: Option<Version>, s3: Option<Version>, stored: Option<Stored>, up: bool, phase: Phase,
                     target: Option<Version>, inProgress: bool, error: bool, job: Job)

  datatype Action =
    | Report(at: Endpoint, reported: Option<Version>)
    | Install(version: Version)
    | Update
    | Start
    | Saved
    | TransportsReady
    | Enter
    | Flash
    | VersionSeen
    | BridgeReloaded
    | Finish
    | Raise
    | Close
    | Remove
    | Crash
    | Load

  ghost predicate Initial(s: Sys) {
    s.stored == None && !s.up && Down(s)
  }

  predicate Down(s: Sys) {
    s.phase == Idle && s.target == None && !s.inProgress && !s.error && s.job == NoJob
  }

  function Reported(s: Sys, e: Endpoint): Option<Version> {
    if e == 0 then s.bridge else s.s3
  }

  predicate BothReport(s: Sys, v: Version) {
    s.bridge == Some(v) && s.s3 == Some(v)
  }

  /** The awaits and saves inside the try block of the job. */
  predicate Trying(j: Job) {
    !j.NoJob? && !j.SavingFirst? && !j.Starting? && !j.Closing?
  }

  ghost predicate Enabled(s: Sys, a: Action) {
    match a
    case Report(_, _) => true
    case Load => !s.up
    case Crash => s.up
    case Update => s.up
    // One job at a time: see the README.
    case Install(_) => s.up && s.job.NoJob? && !s.inProgress
    case Start => s.job.Starting?
    case Saved => s.job.SavingFirst? || s.job.SavingBridge? || s.job.SavingS3?
    case TransportsReady => s.job.AwaitingTransports?
    case Enter => s.job.Entering?
    case Flash => s.job.Preparing?
    case VersionSeen => s.job.AwaitingVersion? && Reported(s, s.job.at) == Some(s.job.version)
    case BridgeReloaded => s.job.AfterBridge?
    case Finish => s.job.Done?
    case Raise => Trying(s.job)
    case Remove => Trying(s.job)
    case Close => s.job.Closing?
  }

  // ------------------------------------------------------------- the members

  /** _reconcile_completed_target, if it returns true. */
  predicate Reconciles(s: Sys) {
    s.target.Some? && BothReport(s, s.target.value)
  }

  function Reconciled(s: Sys): Sys {
    s.(phase := Complete, target := None, error := false, inProgress := false)
  }

  /** _save_job */
  function SavedJob(s: Sys): Sys {
    s.(stored := if s.target.None? then None else Some(Stored(s.target.value, s.phase)))
  }

  /** The except branch. */
  function Caught(s: Sys): Sys {
    if Reconciles(s) then Reconciled(s) else s.(phase := Failed, error := true)
  }

  /** The finally branch up to its save. */
  function Settled(s: Sys): Sys {
    s.(inProgress := s.inProgress && s.phase != Complete && s.phase != Failed,
       target := if s.phase == Complete then None else s.target)
  }

  function Gone(s: Sys): Sys {
    s.(up := false, phase := Idle, target := None, inProgress := false, error := false, job := NoJob)
  }

  /** async_added_to_hass */
  function Loaded(s: Sys): Sys {
    var t := s.(up := true);
    if s.stored.None? then t
    else
      var u := t.(target := Some(s.stored.value.target));
      if Reconciles(u) then SavedJob(Reconciled(u))
      else if s.stored.value.phase == Failed then u.(phase := Failed)
      else u.(phase := WaitingForDevices, inProgress := true, job := Starting(s.stored.value.target))
  }

  /** The first lines of _async_run_job. */
  function Begun(s: Sys): Job {
    if s.target.None? then NoJob else AwaitingTransports(s.target.value)
  }

  /** _install_endpoint returned: the next assignment of the job. */
  function Installed(s: Sys, e: Endpoint, v: Version): Sys {
    if e == 0 then s.(phase := UpdatingS3, job := SavingS3(v)) else s.(phase := Complete, job := Done(v))
  }

  ghost function Apply(s: Sys, a: Action): Sys
    requires Enabled(s, a)
  {
    match a
    case Report(e, v) => if e == 0 then s.(bridge := v) else s.(s3 := v)
    case Load => Loaded(s)
    case Crash => Gone(s)
    case Update => if Reconciles(s) then SavedJob(Reconciled(s)) else s
    case Install(v) =>
      s.(target := Some(v), error := false, phase := WaitingForDevices, inProgress := true, job := SavingFirst(v))
    case Saved =>
      var v := s.job.version;
      SavedJob(s).(job := if s.job.SavingFirst? then Begun(s)
                          else if s.job.SavingBridge? then Entering(v, 0) else Entering(v, 1))
    case Start => s.(job := Begun(s))
    case TransportsReady => s.(phase := UpdatingBridge, job := SavingBridge(s.job.version))
    case Enter =>
      if Reported(s, s.job.at) == Some(s.job.version) then Installed(s, s.job.at, s.job.version)
      else s.(job := Preparing(s.job.version, s.job.at))
    case Flash => s.(job := AwaitingVersion(s.job.version, s.job.at))
    case VersionSeen =>
      if s.job.at == 0 then s.(job := AfterBridge(s.job.version)) else Installed(s, 1, s.job.version)
    case BridgeReloaded => Installed(s, 0, s.job.version)
    case Finish => s.(job := Closing(s.job.version, false))
    case Raise => Caught(s).(job := Closing(s.job.version, false))
    case Remove => s.(job := Closing(s.job.version, true))
    case Close =>
      var t := SavedJob(Settled(s));
      if s.job.leaving then Gone(t) else t.(job := NoJob)
  }

  ghost predicate Step(s: Sys, a: Action, t: Sys) {
    Enabled(s, a) && t == Apply(s, a)
  }

  ghost predicate Run(states: seq<Sys>, acts: seq<Action>) {
    && |states| == |acts| + 1 && Initial(states[0])
    && forall i :: 0 <= i < |acts| ==> Step(states[i], acts[i], states[i + 1])
  }

  // -------------------------------------------------------------- invariants

  /** A job under way is on record, unless it was reconciled, and not as a failure. */
  ghost predicate OnRecord(s: Sys) {
    !s.job.NoJob? ==>
      && s.up && (s.target.Some? ==> s.target == Some(s.job.version))
      && (s.target.Some? && !s.job.SavingFirst? ==>
            s.stored.Some? && s.stored.value.target == s.job.version && s.stored.value.phase != Failed)
      && (s.target.None? && !s.job.Closing? ==> s.stored == None)
  }

  /** Without a job, what is on record is the failure the entity shows. */
  ghost predicate AtRest(s: Sys) {
    s.up && s.job.NoJob? ==>
      if s.target.None? then s.stored == None
      else s.phase == Failed && s.stored == Some(Stored(s.target.value, Failed))
  }

  ghost predicate GoodPhase(s: Sys) {
    && (s.job.Done? ==> s.phase == Complete)
    && (s.job.Closing? && !s.job.leaving ==> s.phase == Complete || s.phase == Failed)
    && (!s.job.NoJob? && !s.job.Closing? && !s.job.Done? && s.target.Some? ==>
          s.phase == WaitingForDevices || s.phase == UpdatingBridge || s.phase == UpdatingS3)
    && (!s.up ==> Down(s))
    && (s.phase == Failed && s.target.Some? && !s.job.NoJob? ==> s.job.Closing?)
  }

  ghost predicate Safe(s: Sys) {
    OnRecord(s) && AtRest(s) && GoodPhase(s)
  }

  lemma ApplyIsSafe(s: Sys, a: Action)
    requires Safe(s) && Enabled(s, a)
    ensures Safe(Apply(s, a))
  {
  }

  lemma {:induction false} Reachable(states: seq<Sys>, acts: seq<Action>, i: nat)
    requires Run(states, acts) && i < |states|
    ensures Safe(states[i])
  {
    if i > 0 {
      Reachable(states, acts, i - 1);
      assert Step(states[i - 1], acts[i - 1], states[i]);
      ApplyIsSafe(states[i - 1], acts[i - 1]);
    }
  }

  // -------------------------------------------------------- order and restraint

  /** From state k to state i one job has been under way for this version. */
  ghost predicate SameJob(states: seq<Sys>, k: nat, i: nat, v: Version) {
    k <= i < |states| && forall m :: k <= m <= i ==> !states[m].job.NoJob? && states[m].job.version == v
  }

  /** In this job the processor has reported the version. */
  ghost predicate HasReported(states: seq<Sys>, i: nat, e: Endpoint, v: Version) {
    exists k: nat :: SameJob(states, k, i, v) && Reported(states[k], e) == Some(v)
  }

  /** In this job the processor was seen without it, before anything was done to it. */
  ghost predicate WasWithout(states: seq<Sys>, acts: seq<Action>, i: nat, e: Endpoint, v: Version) {
    exists k: nat {:trigger SameJob(states, k, i, v)} ::
      SameJob(states, k, i, v) && k < |acts| && acts[k] == Enter && states[k].job == Entering(v, e)
      && Reported(states[k], e) != Some(v)
  }

  /** The job is past the bridge, or past both. */
  predicate PastBridge(j: Job) {
    j.SavingS3? || j.Done? || ((j.Entering? || j.Preparing? || j.AwaitingVersion?) && j.at == 1)
  }

  lemma SameJobGoesOn(states: seq<Sys>, k: nat, i: nat, v: Version)
    requires SameJob(states, k, i, v) && i + 1 < |states|
    requires !states[i + 1].job.NoJob? && states[i + 1].job.version == v
    ensures SameJob(states, k, i + 1, v)
  {
  }

  /** What was reported earlier in the job stays reported. */
  lemma ReportStays(states: seq<Sys>, i: nat, e: Endpoint, v: Version)
    requires HasReported(states, i, e, v) && i + 1 < |states|
    requires !states[i + 1].job.NoJob? && states[i + 1].job.version == v
    ensures HasReported(states, i + 1, e, v)
  {
    var k: nat :| SameJob(states, k, i, v) && Reported(states[k], e) == Some(v);
    SameJobGoesOn(states, k, i, v);
  }

  lemma ReportsNow(states: seq<Sys>, i: nat, e: Endpoint, v: Version)
    requires i < |states| && !states[i].job.NoJob? && states[i].job.version == v && Reported(states[i], e) == Some(v)
    ensures HasReported(states, i, e, v)
  {
    assert SameJob(states, i, i, v);
  }

  /** How a step can lead past a processor. */
  lemma StepsPast(s: Sys, a: Action, t: Sys)
    requires Step(s, a, t)
    ensures PastBridge(t.job) || t.job.AfterBridge? ==> !s.job.NoJob? && s.job.version == t.job.version
    ensures PastBridge(t.job) && !PastBridge(s.job) ==>
              s.job.AfterBridge? || Reported(s, 0) == Some(t.job.version)
    ensures t.job.AfterBridge? && !s.job.AfterBridge? ==> Reported(s, 0) == Some(t.job.version)
    ensures t.job.Done? && !s.job.Done? ==> PastBridge(s.job) && Reported(s, 1) == Some(t.job.version)
  {
  }

  lemma {:induction false} BridgeFirst(states: seq<Sys>, acts: seq<Action>, i: nat)
    requires Run(states, acts) && i < |states| && (PastBridge(states[i].job) || states[i].job.AfterBridge?)
    ensures HasReported(states, i, 0, states[i].job.version)
    decreases i
  {
    var v := states[i].job.version;
    assert i > 0;
    var s := states[i - 1];
    assert Step(s, acts[i - 1], states[i]);
    StepsPast(s, acts[i - 1], states[i]);
    if PastBridge(s.job) || s.job.AfterBridge? {
      BridgeFirst(states, acts, i - 1);
    } else {
      ReportsNow(states, i - 1, 0, v);
    }
    ReportStays(states, i - 1, 0, v);
  }

  /** An S3 install is issued only after the bridge has reported the version in the same
      job run, with no restart in between. */
  lemma S3OnlyAfterBridge(states: seq<Sys>, acts: seq<Action>, i: nat)
    requires Run(states, acts) && i < |acts| && acts[i] == Flash
    requires states[i].job.Preparing? && states[i].job.at == 1
    ensures HasReported(states, i, 0, states[i].job.version)
  {
    BridgeFirst(states, acts, i);
  }

  lemma {:induction false} S3Last(states: seq<Sys>, acts: seq<Action>, i: nat)
    requires Run(states, acts) && i < |states| && states[i].job.Done?
    ensures HasReported(states, i, 1, states[i].job.version)
    decreases i
  {
    var v := states[i].job.version;
    assert i > 0;
    var s := states[i - 1];
    assert Step(s, acts[i - 1], states[i]);
    StepsPast(s, acts[i - 1], states[i]);
    if s.job.Done? {
      S3Last(states, acts, i - 1);
    } else {
      ReportsNow(states, i - 1, 1, v);
    }
    ReportStays(states, i - 1, 1, v);
  }

  /** A job that succeeds has seen both processors report its version. */
  lemma DoneMeansBoth(states: seq<Sys>, acts: seq<Action>, i: nat)
    requires Run(states, acts) && i < |states| && states[i].job.Done?
    ensures HasReported(states, i, 0, states[i].job.version) && HasReported(states, i, 1, states[i].job.version)
  {
    BridgeFirst(states, acts, i);
    S3Last(states, acts, i);
  }

  lemma StepsToFlash(s: Sys, a: Action, t: Sys)
    requires Step(s, a, t) && t.job.Preparing?
    ensures s.job == t.job
            || (a == Enter && s.job == Entering(t.job.version, t.job.at)
                && Reported(s, t.job.at) != Some(t.job.version))
  {
  }

  /** A processor that reports the version when the job comes to it is not flashed. */
  lemma {:induction false} NotFlashedIfCurrent(states: seq<Sys>, acts: seq<Action>, i: nat)
    requires Run(states, acts) && i < |states| && states[i].job.Preparing?
    ensures WasWithout(states, acts, i, states[i].job.at, states[i].job.version)
    decreases i
  {
    assert i > 0;
    var s, t := states[i - 1], states[i];
    var e, v := t.job.at, t.job.version;
    assert Step(s, acts[i - 1], t);
    StepsToFlash(s, acts[i - 1], t);
    if s.job == t.job {
      NotFlashedIfCurrent(states, acts, i - 1);
      var k: nat :| SameJob(states, k, i - 1, v) && k < |acts| && acts[k] == Enter
                    && states[k].job == Entering(v, e) && Reported(states[k], e) != Some(v);
      SameJobGoesOn(states, k, i - 1, v);
    } else {
      assert SameJob(states, i - 1, i, v);
    }
  }

  // ------------------------------------------------------------- ends and restarts

  /** A job that succeeds leaves the entity complete and nothing on record. */
  lemma SuccessIsForgotten(states: seq<Sys>, acts: seq<Action>, i: nat)
    requires Run(states, acts) && i < |acts| && acts[i] == Close
    requires states[i].job.Closing? && !states[i].job.leaving
    ensures var s, t := states[i], states[i + 1];
            && t.up && t.job == NoJob && !t.inProgress
            && (s.phase == Complete ==> t.phase == Complete && t.target == None && t.stored == None)
            && (s.phase != Complete ==> t.phase == Failed)
            && (t.stored.Some? <==> t.target.Some?)
            && (t.target.Some? ==> t.stored == Some(Stored(t.target.value, Failed)))
  {
    Reachable(states, acts, i);
    assert Step(states[i], acts[i], states[i + 1]);
  }

  /** Nothing but reports and refreshes happens from state i to state j. */
  ghost predicate OnlyOutside(acts: seq<Action>, i: nat, j: nat) {
    i <= j <= |acts| && forall k :: i <= k < j ==> acts[k].Report? || acts[k].Update?
  }

  lemma {:induction false} FinishedStays(states: seq<Sys>, acts: seq<Action>, i: nat, j: nat)
    requires Run(states, acts) && i < j < |states| && acts[i] == Finish && OnlyOutside(acts, i + 1, j)
    ensures states[j].phase == Complete && states[j].job.Closing? && !states[j].job.leaving
    decreases j
  {
    Reachable(states, acts, i);
    assert Step(states[j - 1], acts[j - 1], states[j]);
    if i + 1 < j {
      FinishedStays(states, acts, i, j - 1);
    }
  }

  /** A job whose installs went through, first run or resumed, ends with both processors
      having reported its version, the entity complete and nothing on record. */
  lemma JobSucceeds(states: seq<Sys>, acts: seq<Action>, i: nat, j: nat)
    requires Run(states, acts) && i < j < |acts| && acts[i] == Finish && OnlyOutside(acts, i + 1, j) && acts[j] == Close
    ensures states[i].job.Done?
    ensures var v := states[i].job.version; HasReported(states, i, 0, v) && HasReported(states, i, 1, v)
    ensures var t := states[j + 1];
            t.phase == Complete && t.target == None && t.stored == None && !t.inProgress && t.job == NoJob
  {
    assert Step(states[i], acts[i], states[i + 1]);
    DoneMeansBoth(states, acts, i);
    FinishedStays(states, acts, i, j);
    SuccessIsForgotten(states, acts, j);
  }

  /** Whenever a job is interrupted, by a crash or by the removal of the entity, the next
      start takes it up again for the same version, unless both processors report it by
      then: in that case it is closed as complete. */
  lemma InterruptedIsResumed(states: seq<Sys>, acts: seq<Action>, i: nat, s': Sys)
    requires Run(states, acts) && i < |states| && states[i].target.Some?
    requires Trying(states[i].job) || states[i].job.Starting?
    requires !s'.up && Down(s') && s'.stored == states[i].stored
    ensures var v, t := states[i].job.version, Loaded(s');
            && t.up
            && if BothReport(s', v) then t.phase == Complete && t.stored == None && t.target == None && t.job == NoJob
               else t.job == Starting(v) && t.target == Some(v) && t.inProgress && t.stored == s'.stored
  {
    Reachable(states, acts, i);
  }

  /** A crash keeps the record; so does the save of a removal, with the phase it had. */
  lemma InterruptionKeepsRecord(s: Sys)
    requires Safe(s) && (Trying(s.job) || s.job.Starting?) && s.target.Some?
    ensures var t := Apply(s, Crash); !t.up && Down(t) && t.stored == s.stored
    ensures Trying(s.job) && !s.job.Done? ==>
              var t := Apply(Apply(s, Remove), Close);
              !t.up && Down(t) && t.stored == Some(Stored(s.job.version, s.phase)) && s.phase != Failed
  {
  }

  /** An update of the entity closes what is on record as complete exactly if both processors
      report its version, and changes nothing else. */
  lemma UpdateClosesIff(states: seq<Sys>, acts: seq<Action>, i: nat)
    requires Run(states, acts) && i < |acts| && acts[i] == Update
    ensures var s, t := states[i], states[i + 1];
            if s.target.Some? && s.bridge == s.target && s.s3 == s.target
            then t.phase == Complete && t.target == None && t.stored == None && !t.inProgress && !t.error
                 && t.job == s.job
            else t == s
  {
    assert Step(states[i], acts[i], states[i + 1]);
  }

  /** A failed job is not taken up again by itself. */
  lemma FailureStays(s: Sys)
    requires !s.up && Down(s) && s.stored.Some? && s.stored.value.phase == Failed
    ensures var t := Loaded(s);
            t.job == NoJob && !t.inProgress
            && (t.phase == Failed <==> !BothReport(s, s.stored.value.target))
  {
  }

  /** An exception ends the job as failed exactly if not both processors report the
      version, or if the entity has reconciled the target away while the job was running. */
  lemma FailsIff(states: seq<Sys>, acts: seq<Action>, i: nat)
    requires Run(states, acts) && i < |acts| && acts[i] == Raise
    ensures var s := states[i];
            states[i + 1].phase == Failed <==> !BothReport(s, s.job.version) || s.target == None
  {
    Reachable(states, acts, i);
    assert Step(states[i], acts[i], states[i + 1]);
  }

  lemma Extend(states: seq<Sys>, acts: seq<Action>, a: Action) returns (more: seq<Sys>, done: seq<Action>)
    requires Run(states, acts) && Enabled(states[|acts|], a)
    ensures Run(more, done) && done == acts + [a] && more == states + [Apply(states[|acts|], a)]
  {
    var t := Apply(states[|acts|], a);
    more, done := states + [t], acts + [a];
    forall i | 0 <= i < |done| ensures Step(more[i], done[i], more[i + 1]) {
      if i < |acts| {
        assert Step(states[i], acts[i], states[i + 1]);
      }
    }
  }

  lemma InstallRun() returns (states: seq<Sys>, acts: seq<Action>)
    ensures Run(states, acts)
    ensures states[|acts|] == Sys(None, Some(7), Some(Stored(7, WaitingForDevices)), true, WaitingForDevices, Some(7),
                                  true, false, AwaitingTransports(7))
  {
    states, acts := [Sys(None, None, None, false, Idle, None, false, false, NoJob)], [];
    states, acts := Extend(states, acts, Load);
    states, acts := Extend(states, acts, Report(1, Some(7)));
    states, acts := Extend(states, acts, Install(7));
    states, acts := Extend(states, acts, Saved);
  }

  lemma BridgeRun() returns (states: seq<Sys>, acts: seq<Action>)
    ensures Run(states, acts)
    ensures states[|acts|] == Sys(Some(7), Some(7), Some(Stored(7, UpdatingBridge)), true, UpdatingBridge, Some(7),
                                  true, false, AwaitingVersion(7, 0))
  {
    states, acts := InstallRun();
    states, acts := Extend(states, acts, TransportsReady);
    states, acts := Extend(states, acts, Saved);
    states, acts := Extend(states, acts, Enter);
    states, acts := Extend(states, acts, Flash);
    states, acts := Extend(states, acts, Report(0, Some(7)));
  }

  /** The second case happens: both processors run the version, the entity notices it
      during the reload of the bridge, and an exception after that still reports a failure. */
  lemma ReconciledJobCanFail() returns (states: seq<Sys>, acts: seq<Action>)
    ensures Run(states, acts)
    ensures var s := states[|acts|];
            s.phase == Failed && s.error && s.target == None && s.stored == None && BothReport(s, 7)
  {
    states, acts := BridgeRun();
    states, acts := Extend(states, acts, VersionSeen);
    states, acts := Extend(states, acts, Update);
    states, acts := Extend(states, acts, Raise);
  }

  // ---------------------------------------------------------------- the object

  class FirmwareUpdate {
    var phase: Phase
    var target: Option<Version>
    var inProgress: bool
    var error: bool
    var stored: Option<Stored>

    ghost function Abs(bridge: Option<Version>, s3: Option<Version>, job: Job): Sys
      reads this
    {
      Sys(bridge, s3, stored, true, phase, target, inProgress, error, job)
    }

    constructor (record: Option<Stored>)
      ensures phase == Idle && target == None && !inProgress && !error && stored == record
    {
      phase, target, inProgress, error, stored := Idle, None, false, false, record;
    }

    /** _reconcile_completed_target */
    method Reconcile(bridge: Option<Version>, s3: Option<Version>) returns (done: bool)
      modifies this
      ensures var s := old(Abs(bridge, s3, NoJob));
              done == Reconciles(s) && Abs(bridge, s3, NoJob) == if done then Reconciled(s) else s
    {
      if target.None? || bridge != target || s3 != target {
        return false;
      }
      phase, target, error, inProgress := Complete, None, false, false;
      return true;
    }

    /** _save_job */
    method SaveJob()
      modifies `stored
      ensures stored == if target.None? then None else Some(Stored(target.value, phase))
    {
      if target.None? {
        stored := None;
      } else {
        stored := Some(Stored(target.value, phase));
      }
    }

    /** async_added_to_hass: whether the job is started. */
    method Load(bridge: Option<Version>, s3: Option<Version>) returns (starts: bool)
      requires phase == Idle && target == None && !inProgress && !error
      modifies this
      ensures var t := Loaded(Sys(bridge, s3, old(stored), false, Idle, None, false, false, NoJob));
              starts == t.job.Starting? && Abs(bridge, s3, t.job) == t
    {
      if stored.None? {
        return false;
      }
      target := Some(stored.value.target);
      var done := Reconcile(bridge, s3);
      if done {
        SaveJob();
        return false;
      }
      if stored.value.phase == Failed {
        phase := Failed;
        return false;
      }
      phase, inProgress := WaitingForDevices, true;
      return true;
    }

    /** _async_run_job, undisturbed, with the versions reported when it ends: the installs
        it issues. The S3 is visited only if the bridge has been dealt with; the job ends
        complete and off the record, or failed and on it. */
    method RunJob(ready: bool, bridge: Visit, s3: Visit, bridgeAtEnd: Option<Version>, s3AtEnd: Option<Version>)
      returns (flashes: seq<Endpoint>)
      modifies this
      ensures old(target) == None ==> flashes == [] && Abs(None, None, NoJob) == old(Abs(None, None, NoJob))
      ensures old(target).Some? ==>
              var v := old(target).value;
              && (1 in flashes <==> ready && Succeeds(bridge, 0, v) && Issues(s3, v))
              && (0 in flashes <==> ready && Issues(bridge, v))
              && if (ready && Succeeds(bridge, 0, v) && Succeeds(s3, 1, v)) || (bridgeAtEnd == s3AtEnd == Some(v))
                 then phase == Complete && target == None && stored == None && !inProgress
                 else phase == Failed && target == Some(v) && stored == Some(Stored(v, Failed)) && !inProgress && error
    {
      flashes := [];
      if target.None? {
        return;
      }
      var v := target.value;
      var good := ready;
      if good {
        phase := UpdatingBridge;
        SaveJob();
        var flashed;
        flashed, good := InstallEndpoint(v, 0, bridge);
        flashes := if flashed then [0] else [];
      }
      if good {
        phase := UpdatingS3;
        SaveJob();
        var flashed;
        flashed, good := InstallEndpoint(v, 1, s3);
        flashes := if flashed then flashes + [1] else flashes;
      }
      Conclude(good, bridgeAtEnd, s3AtEnd);
    }

    /** The end of the try block, the except and the finally branch. */
    method Conclude(good: bool, bridge: Option<Version>, s3: Option<Version>)
      requires target.Some?
      modifies this
      ensures var v := old(target).value;
              if good || (bridge == s3 == Some(v))
              then phase == Complete && target == None && stored == None && !inProgress
              else phase == Failed && target == Some(v) && stored == Some(Stored(v, Failed)) && !inProgress && error
    {
      if good {
        phase := Complete;
      } else {
        var done := Reconcile(bridge, s3);
        if !done {
          phase, error := Failed, true;
        }
      }
      if phase == Complete || phase == Failed {
        inProgress := false;
      }
      if phase == Complete {
        target := None;
      }
      SaveJob();
    }
  }
}
