// How the update job has one processor flashed: the choice of the transport, the wait for
// its start and the wait for the version.
module UpdateTransport {
  import opened Wrappers

  type Version = nat

  /** Bridge is 0, S3 is 1. */
  type Endpoint = e: int | 0 <= e < 2

  const RECONNECT_S := 300
  const START_S := 90
  const FIRST_REFRESH_S := 10
  const NEXT_REFRESH_S := 30
  const REFRESHES := 2
  const ADVERTISED_POLLS := 10

  /** The OTA status entity: not available; an error, of which one is worth a reload; an
      update started for this version, checked for another, or done; idle; anything else. */
  datatype Status =
    | Unknown
    | OtaError
    | NotInstallable
    | OtaStarted
    | OtherVersion
    | OtaComplete
    | OtaIdle
    | OtherStatus

  predicate IsError(s: Status) {
    s == OtaError || s == NotInstallable
  }

  /** One turn of a waiting loop: the time, the version and the status seen, whether the
      status is newer than the request, and, if this turn reloads the entry, the version
      seen after that and the time then. */
  datatype Look = Look(time: nat, version: Option<Version>, status: Status, recent: bool, reloaded: Option<Version>,
                       after: nat)

  // ------------------------------------------------------- waiting for the version

  /** A turn without error may refresh the metadata, when that is due. */
  predicate Refreshes(look: Look, refreshes: nat, due: nat) {
    look.status != Unknown && look.status != OtaStarted && look.status != OtherVersion
    && refreshes < REFRESHES && look.time >= due
  }

  /** Whether waiting succeeds, from look `n` on. */
  function Waits(v: Version, looks: seq<Look>, n: nat, refreshes: nat, due: nat): bool
    requires n <= |looks|
    decreases |looks| - n
  {
    if n == |looks| || looks[n].time >= RECONNECT_S then false
    else if looks[n].version == Some(v) then true
    else if IsError(looks[n].status) then looks[n].status == NotInstallable && looks[n].reloaded == Some(v)
    else if Refreshes(looks[n], refreshes, due) then
      looks[n].reloaded == Some(v) || Waits(v, looks, n + 1, refreshes + 1, looks[n].after + NEXT_REFRESH_S)
    else Waits(v, looks, n + 1, refreshes, due)
  }

  /** _wait_for_version from time 0. */
  method WaitForVersion(v: Version, looks: seq<Look>) returns (seen: bool, reloads: nat)
    ensures seen == Waits(v, looks, 0, 0, FIRST_REFRESH_S) && reloads <= REFRESHES + 1
  {
    var n, refreshes, due := 0, 0, FIRST_REFRESH_S;
    while n < |looks| && looks[n].time < RECONNECT_S
      invariant n <= |looks| && refreshes <= REFRESHES && due >= 0
      invariant Waits(v, looks, 0, 0, FIRST_REFRESH_S) == Waits(v, looks, n, refreshes, due)
    {
      var look := looks[n];
      if look.version == Some(v) {
        return true, refreshes;
      }
      if IsError(look.status) {
        if look.status == NotInstallable {
          return look.reloaded == Some(v), refreshes + 1;
        }
        return false, refreshes;
      }
      var active := look.status == OtaStarted || look.status == OtherVersion;
      if look.status != Unknown && !active && refreshes < REFRESHES && look.time >= due {
        refreshes := refreshes + 1;
        if look.reloaded == Some(v) {
          return true, refreshes;
        }
        due := look.after + NEXT_REFRESH_S;
      }
      n := n + 1;
    }
    return false, refreshes;
  }

  /** A turn of the wait within its time. */
  ghost predicate InTime(looks: seq<Look>, i: nat, limit: nat) {
    i < |looks| && forall k :: 0 <= k <= i ==> looks[k].time < limit
  }

  /** Waiting succeeds only if the version was seen in time, at a look or after its reload. */
  lemma {:induction false} WaitsMeansSeen(v: Version, looks: seq<Look>, n: nat, refreshes: nat, due: nat)
    returns (i: nat)
    requires n <= |looks| && Waits(v, looks, n, refreshes, due)
    ensures n <= i < |looks| && forall k :: n <= k <= i ==> looks[k].time < RECONNECT_S
    ensures looks[i].version == Some(v) || looks[i].reloaded == Some(v)
    decreases |looks| - n
  {
    i := n;
    if looks[n].version != Some(v) && !IsError(looks[n].status) {
      if Refreshes(looks[n], refreshes, due) {
        if looks[n].reloaded != Some(v) {
          i := WaitsMeansSeen(v, looks, n + 1, refreshes + 1, looks[n].after + NEXT_REFRESH_S);
        }
      } else {
        i := WaitsMeansSeen(v, looks, n + 1, refreshes, due);
      }
    }
  }

  /** It does succeed if the version is seen in time and no error is reported before, however
      often the entry was reloaded. */
  lemma {:induction false} SeenMeansWaits(v: Version, looks: seq<Look>, n: nat, refreshes: nat, due: nat, i: nat)
    requires n <= i && InTime(looks, i, RECONNECT_S) && looks[i].version == Some(v)
    requires forall k :: n <= k < i ==> !IsError(looks[k].status)
    ensures Waits(v, looks, n, refreshes, due)
    decreases i - n
  {
    if n < i {
      if Refreshes(looks[n], refreshes, due) {
        SeenMeansWaits(v, looks, n + 1, refreshes + 1, looks[n].after + NEXT_REFRESH_S, i);
      } else {
        SeenMeansWaits(v, looks, n + 1, refreshes, due, i);
      }
    }
  }

  /** A reload counts when it is due: the status is neither missing nor that of an update
      under way, the time has come, and two have not been spent. */
  lemma {:induction false} DueReloadCounts(v: Version, looks: seq<Look>, n: nat, refreshes: nat, due: nat, i: nat)
    requires n <= i && InTime(looks, i, RECONNECT_S) && refreshes < REFRESHES && looks[i].time >= due
    requires looks[i].status in {OtaComplete, OtaIdle, OtherStatus} && looks[i].reloaded == Some(v)
    requires forall k :: n <= k < i ==> !IsError(looks[k].status) && looks[k].time < due
    ensures Waits(v, looks, n, refreshes, due)
    decreases i - n
  {
    if n < i {
      DueReloadCounts(v, looks, n + 1, refreshes, due, i);
    }
  }

  /** An error ends the wait, if the version was not seen before; for the one error that is
      worth a reload that reload decides. */
  lemma {:induction false} ErrorEndsWait(v: Version, looks: seq<Look>, n: nat, refreshes: nat, due: nat, i: nat)
    requires n <= i && InTime(looks, i, RECONNECT_S) && IsError(looks[i].status)
    requires forall k :: n <= k <= i ==> looks[k].version != Some(v)
    requires forall k :: n <= k < i ==> !IsError(looks[k].status) && looks[k].reloaded != Some(v)
    ensures Waits(v, looks, n, refreshes, due) <==> looks[i].status == NotInstallable && looks[i].reloaded == Some(v)
    decreases i - n
  {
    if n < i {
      if Refreshes(looks[n], refreshes, due) {
        ErrorEndsWait(v, looks, n + 1, refreshes + 1, looks[n].after + NEXT_REFRESH_S, i);
      } else {
        ErrorEndsWait(v, looks, n + 1, refreshes, due, i);
      }
    }
  }

  // --------------------------------------------------------- waiting for the start

  /** Whether the start is confirmed, from look `n` on; `idle` once the entry was reloaded
      for a fresh idle, `last` the version after the reload at the end. */
  function Starts(v: Version, looks: seq<Look>, n: nat, idle: bool, last: Option<Version>): bool
    requires n <= |looks|
    decreases |looks| - n
  {
    if n == |looks| || looks[n].time >= START_S then last == Some(v)
    else if looks[n].version == Some(v) then true
    else if looks[n].status == Unknown || !looks[n].recent then Starts(v, looks, n + 1, idle, last)
    else if IsError(looks[n].status) then looks[n].status == NotInstallable && looks[n].reloaded == Some(v)
    else if looks[n].status == OtaStarted || looks[n].status == OtaComplete then true
    else if looks[n].status == OtaIdle && !idle then
      looks[n].reloaded == Some(v) || Starts(v, looks, n + 1, true, last)
    else Starts(v, looks, n + 1, idle, last)
  }

  /** _wait_for_transport_start from time 0. */
  method WaitForStart(v: Version, looks: seq<Look>, last: Option<Version>) returns (started: bool)
    ensures started == Starts(v, looks, 0, false, last)
  {
    var n, idle := 0, false;
    while n < |looks| && looks[n].time < START_S
      invariant n <= |looks| && Starts(v, looks, 0, false, last) == Starts(v, looks, n, idle, last)
    {
      var look := looks[n];
      n := n + 1;
      if look.version == Some(v) {
        return true;
      }
      if look.status == Unknown {
        continue;
      }
      if look.recent {
        if IsError(look.status) {
          return look.status == NotInstallable && look.reloaded == Some(v);
        }
        if look.status == OtaStarted || look.status == OtaComplete {
          return true;
        }
        if look.status == OtaIdle && !idle {
          idle := true;
          if look.reloaded == Some(v) {
            return true;
          }
        }
      }
    }
    return last == Some(v);
  }

  predicate Evidence(v: Version, look: Look) {
    look.version == Some(v)
    || (look.recent && (look.status == OtaStarted || look.status == OtaComplete || look.reloaded == Some(v)))
  }

  /** A stale status is no evidence: the start is confirmed only by the version itself, or
      by a fresh status that says so. */
  lemma {:induction false} StartNeedsEvidence(v: Version, looks: seq<Look>, n: nat, idle: bool, last: Option<Version>)
    requires n <= |looks| && Starts(v, looks, n, idle, last)
    ensures last == Some(v) || exists i :: n <= i < |looks| && Evidence(v, looks[i])
    decreases |looks| - n
  {
    if n < |looks| && looks[n].time < START_S && looks[n].version != Some(v) {
      if looks[n].status == Unknown || !looks[n].recent {
        StartNeedsEvidence(v, looks, n + 1, idle, last);
      } else if !IsError(looks[n].status) && looks[n].status != OtaStarted && looks[n].status != OtaComplete {
        if looks[n].status == OtaIdle && !idle {
          if looks[n].reloaded != Some(v) {
            StartNeedsEvidence(v, looks, n + 1, true, last);
          }
        } else {
          StartNeedsEvidence(v, looks, n + 1, idle, last);
        }
      }
    }
  }

  /** The transport itself says no, about this request. */
  predicate Denied(look: Look) {
    look.recent && IsError(look.status)
  }

  /** The update is seen to have started or ended, or the version is there. */
  predicate UnderWay(v: Version, look: Look) {
    look.version == Some(v) || (look.recent && (look.status == OtaStarted || look.status == OtaComplete))
  }

  /** The converse: an update seen under way in time, and not denied before, is confirmed. */
  lemma {:induction false} UnderWayMeansStarts(v: Version, looks: seq<Look>, n: nat, idle: bool, last: Option<Version>,
                                               i: nat)
    requires n <= i && InTime(looks, i, START_S) && UnderWay(v, looks[i])
    requires forall k :: n <= k < i ==> !Denied(looks[k])
    ensures Starts(v, looks, n, idle, last)
    decreases i - n
  {
    if n < i {
      UnderWayMeansStarts(v, looks, n + 1, idle, last, i);
      UnderWayMeansStarts(v, looks, n + 1, true, last, i);
    }
  }

  /** The reload for the first fresh idle counts as well. */
  lemma {:induction false} IdleReloadCounts(v: Version, looks: seq<Look>, n: nat, last: Option<Version>, i: nat)
    requires n <= i && InTime(looks, i, START_S)
    requires looks[i].recent && looks[i].status == OtaIdle && looks[i].reloaded == Some(v)
    requires forall k :: n <= k < i ==> !Denied(looks[k]) && !(looks[k].recent && looks[k].status == OtaIdle)
    ensures Starts(v, looks, n, false, last)
    decreases i - n
  {
    if n < i {
      IdleReloadCounts(v, looks, n + 1, last, i);
    }
  }

  /** And if nothing was denied, the version found by the reload at the end is enough. */
  lemma {:induction false} LastMeansStarts(v: Version, looks: seq<Look>, n: nat, idle: bool)
    requires n <= |looks| && forall k :: n <= k < |looks| && looks[k].time < START_S ==> !Denied(looks[k])
    ensures Starts(v, looks, n, idle, Some(v))
    decreases |looks| - n
  {
    if n < |looks| {
      LastMeansStarts(v, looks, n + 1, idle);
      LastMeansStarts(v, looks, n + 1, true);
    }
  }

  /** A denial is final, unless the processor is found with the version all the same. */
  lemma {:induction false} DeniedDoesNotStart(v: Version, looks: seq<Look>, n: nat, idle: bool, last: Option<Version>,
                                              i: nat)
    requires n <= i && InTime(looks, i, START_S) && Denied(looks[i])
    requires forall k :: n <= k <= i ==> !Evidence(v, looks[k])
    ensures !Starts(v, looks, n, idle, last)
    decreases i - n
  {
    if n < i {
      DeniedDoesNotStart(v, looks, n + 1, idle, last, i);
      DeniedDoesNotStart(v, looks, n + 1, true, last, i);
    }
  }

  // ------------------------------------------------------------------ the visit

  datatype Answer = Accepted | InProgress | Refused

  /** The way an install can be issued: the diagnostic action, whose call may raise, with
      what is seen while its start is awaited; the legacy entity, if it can be made
      available, with the versions it advertises and its answer; or none. */
  datatype Transport =
    | Diagnostic(called: bool, starts: seq<Look>, last: Option<Version>)
    | Legacy(prepared: bool, advertised: seq<Option<Version>>, answer: Answer)
    | Unavailable

  /** What a visit to one processor meets; `resynced` is whether the reload and the
      rehydration that follow a bridge install went through. */
  datatype Visit = Visit(onEntry: Option<Version>, transport: Transport, looks: seq<Look>, resynced: bool)

  /** The legacy entity advertises the version within its polls. */
  predicate Advertises(v: Version, polls: seq<Option<Version>>) {
    Some(v) in polls[..if |polls| < ADVERTISED_POLLS then |polls| else ADVERTISED_POLLS]
  }

  /** An install is issued. */
  predicate Issues(visit: Visit, v: Version) {
    && visit.onEntry != Some(v)
    && match visit.transport
       case Diagnostic(_, _, _) => true
       case Legacy(prepared, advertised, _) => prepared && Advertises(v, advertised)
       case Unavailable => false
  }

  /** It is issued, and gets under way. */
  predicate GetsUnderWay(visit: Visit, v: Version) {
    && Issues(visit, v)
    && match visit.transport
       case Diagnostic(called, starts, last) => called && Starts(v, starts, 0, false, last)
       case Legacy(_, _, answer) => answer != Refused
       case Unavailable => false
  }

  /** While the legacy entity is used the status entity is not looked at. */
  function Unobserved(looks: seq<Look>): seq<Look> {
    seq(|looks|, i requires 0 <= i < |looks| => looks[i].(status := Unknown))
  }

  function Watched(visit: Visit): seq<Look> {
    if visit.transport.Legacy? then Unobserved(visit.looks) else visit.looks
  }

  predicate Succeeds(visit: Visit, e: Endpoint, v: Version) {
    visit.onEntry == Some(v)
    || (GetsUnderWay(visit, v) && Waits(v, Watched(visit), 0, 0, FIRST_REFRESH_S) && (e == 0 ==> visit.resynced))
  }

  /** The polls of _refresh_legacy_source. */
  method RefreshLegacy(v: Version, polls: seq<Option<Version>>) returns (advertised: bool)
    ensures advertised == Advertises(v, polls)
  {
    var limit := if |polls| < ADVERTISED_POLLS then |polls| else ADVERTISED_POLLS;
    for i := 0 to limit
      invariant Some(v) !in polls[..i]
    {
      if polls[i] == Some(v) {
        return true;
      }
    }
    return false;
  }

  /** The part of _install_endpoint that issues the install. */
  method Issue(v: Version, visit: Visit) returns (flashed: bool, under: bool)
    requires visit.onEntry != Some(v)
    ensures flashed == Issues(visit, v) && under == GetsUnderWay(visit, v)
  {
    match visit.transport
    case Diagnostic(called, starts, last) =>
      if !called {
        return true, false;
      }
      var started := WaitForStart(v, starts, last);
      return true, started;
    case Legacy(prepared, advertised, answer) =>
      if !prepared {
        return false, false;
      }
      var fits := RefreshLegacy(v, advertised);
      return fits, fits && answer != Refused;
    case Unavailable =>
      return false, false;
  }

  /** _install_endpoint */
  method InstallEndpoint(v: Version, e: Endpoint, visit: Visit) returns (flashed: bool, good: bool)
    ensures flashed <==> Issues(visit, v)
    ensures good <==> Succeeds(visit, e, v)
  {
    if visit.onEntry == Some(v) {
      return false, true;
    }
    flashed, good := Issue(v, visit);
    if good {
      var seen, _ := WaitForVersion(v, Watched(visit));
      good := seen && (e == 0 ==> visit.resynced);
    }
  }

  /** A visit succeeds only if the processor was seen with the version. */
  lemma SuccessMeansSeen(visit: Visit, e: Endpoint, v: Version)
    requires Succeeds(visit, e, v)
    ensures visit.onEntry == Some(v)
            || exists i :: 0 <= i < |visit.looks| && visit.looks[i].time < RECONNECT_S
                           && (visit.looks[i].version == Some(v) || visit.looks[i].reloaded == Some(v))
  {
    if visit.onEntry != Some(v) {
      var i := WaitsMeansSeen(v, Watched(visit), 0, 0, FIRST_REFRESH_S);
      assert Watched(visit)[i].version == visit.looks[i].version;
    }
  }

  /** The version comes in time, and no error is reported before. */
  predicate Comes(v: Version, looks: seq<Look>, j: nat) {
    && j < |looks| && looks[j].version == Some(v) && (forall k :: 0 <= k <= j ==> looks[k].time < RECONNECT_S)
    && forall k :: 0 <= k < j ==> !IsError(looks[k].status)
  }

  /** The converse: an install by the diagnostic action that is seen under way, after which
      the version comes, and for the bridge the resynchronisation goes through, succeeds. */
  lemma StartedInstallSucceeds(visit: Visit, e: Endpoint, v: Version, i: nat, j: nat)
    requires visit.onEntry != Some(v) && visit.transport.Diagnostic? && visit.transport.called
    requires InTime(visit.transport.starts, i, START_S) && UnderWay(v, visit.transport.starts[i])
    requires forall k :: 0 <= k < i ==> !Denied(visit.transport.starts[k])
    requires Comes(v, visit.looks, j) && (e == 0 ==> visit.resynced)
    ensures Issues(visit, v) && Succeeds(visit, e, v)
  {
    UnderWayMeansStarts(v, visit.transport.starts, 0, false, visit.transport.last, i);
    SeenMeansWaits(v, visit.looks, 0, 0, FIRST_REFRESH_S, j);
  }

  /** So does one by the legacy entity that advertises the version and does not refuse; what
      the status entity says meanwhile does not matter. */
  lemma LegacyInstallSucceeds(visit: Visit, e: Endpoint, v: Version, i: nat, j: nat)
    requires visit.onEntry != Some(v) && visit.transport.Legacy? && visit.transport.prepared
    requires i < |visit.transport.advertised| && i < ADVERTISED_POLLS && visit.transport.advertised[i] == Some(v)
    requires visit.transport.answer != Refused && j < |visit.looks| && visit.looks[j].version == Some(v)
    requires (forall k :: 0 <= k <= j ==> visit.looks[k].time < RECONNECT_S) && (e == 0 ==> visit.resynced)
    ensures Issues(visit, v) && Succeeds(visit, e, v)
  {
    var polls := visit.transport.advertised;
    assert polls[..if |polls| < ADVERTISED_POLLS then |polls| else ADVERTISED_POLLS][i] == Some(v);
    var looks := Unobserved(visit.looks);
    assert forall k :: 0 <= k < |looks| ==> looks[k] == visit.looks[k].(status := Unknown);
    SeenMeansWaits(v, looks, 0, 0, FIRST_REFRESH_S, j);
  }

  /** A processor that has the version is left alone. */
  lemma CurrentIsLeftAlone(visit: Visit, e: Endpoint, v: Version)
    requires visit.onEntry == Some(v)
    ensures !Issues(visit, v) && Succeeds(visit, e, v)
  {
  }

  /** When an install is issued: by the diagnostic action whatever becomes of the call, by the
      legacy entity if it is ready and advertises the version in its first ten polls. Without
      one the visit fails. */
  lemma IssuedIff(visit: Visit, e: Endpoint, v: Version)
    requires visit.onEntry != Some(v)
    ensures Issues(visit, v)
       <==> visit.transport.Diagnostic?
            || (visit.transport.Legacy? && visit.transport.prepared
                && exists i :: 0 <= i < |visit.transport.advertised| && i < 10
                               && visit.transport.advertised[i] == Some(v))
    ensures !Issues(visit, v) ==> !Succeeds(visit, e, v)
  {
    if visit.transport.Legacy? {
      var polls := visit.transport.advertised;
      var n := if |polls| < ADVERTISED_POLLS then |polls| else ADVERTISED_POLLS;
      assert forall i :: 0 <= i < n ==> polls[..n][i] == polls[i];
    }
  }

  /** And one that is issued fails if the call raises, the legacy entity refuses, or the bridge
      cannot be resynchronised. */
  lemma FailsIfRefused(visit: Visit, e: Endpoint, v: Version)
    requires visit.onEntry != Some(v)
    requires (visit.transport.Diagnostic? && !visit.transport.called)
             || (visit.transport.Legacy? && visit.transport.answer == Refused) || (e == 0 && !visit.resynced)
    ensures !Succeeds(visit, e, v)
  {
  }
}
