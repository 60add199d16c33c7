/** What reports, heartbeats and the operator do to a plan, by the status of the target they are about. */
module UpgradeReports {
  import opened Common
  import opened UpgradeModel
  import opened UpgradeCoordinator
  import opened UpgradeScan
  import opened UpgradeService
  import opened UpgradeOutcome

  /** The status a report of progress takes a target to; `None` if it comes late or says nothing. */
  function ReportedStatus(stage: Stage, status: TargetStatus): Option<TargetStatus> {
    match stage
    case StageAccepted | StageDownloading =>
      if status in {TargetWaiting, TargetDraining} then Some(TargetDownloading) else None
    case StageVerifying =>
      if status in {TargetWaiting, TargetDraining, TargetDownloading} then Some(TargetVerifying) else None
    case StageInstalling =>
      if status in {TargetWaiting, TargetDraining, TargetDownloading, TargetVerifying} then Some(TargetInstalling) else None
    case StageReconnecting | StageSucceeded =>
      if status in {TargetWaiting, TargetDraining, TargetDownloading, TargetVerifying, TargetInstalling} then Some(TargetReconnecting) else None
    case StageRolledBack =>
      if status == TargetRollingBack then Some(TargetRolledBack) else None
    case StageRollingBack | StageFailed | StageUnknown => None
  }

  /** The report is about the target: it comes from its server, and names the target and its latest command. */
  predicate Concerns(r: Report, t: Target) {
    r.serverId == t.serverId && r.targetId == t.id && r.commandId == t.commandId
  }

  /** A report is taken for the first target it is about, and for none exactly if there is no such target. */
  lemma MatchIff(ts: seq<Target>, r: Report)
    ensures match MatchTarget(ts, r)
      case None => forall j :: 0 <= j < |ts| ==> !Concerns(r, ts[j])
      case Some(i) => i < |ts| && Concerns(r, ts[i]) && forall j :: 0 <= j < i ==> !Concerns(r, ts[j])
  {
    forall j | 0 <= j < |ts| ensures Matches(ts[j], r) <==> Concerns(r, ts[j]) {}
  }

  ghost predicate NothingDone(e: Effect, n: Id) {
    e == Effect(None, [], n)
  }

  /** A failed report that concerns its own target only. */
  predicate RollbackFailed(t: Target, r: Report) {
    r.errorCode == "rollback_failed" || t.status == TargetRollingBack
  }

  /** The effect of a report on the target it matches. */
  ghost predicate EventEffect(p: Plan, i: nat, r: Report, now: int, n: Id, e: Effect)
    requires i < |p.targets|
  {
    var t := p.targets[i];
    if r.stage != StageFailed then
      match ReportedStatus(r.stage, t.status)
      case None => NothingDone(e, n)
      case Some(status) =>
        var t' := t.(status := status, updatedAt := now, errorCode := r.errorCode,
                     finishedAt := if status == TargetRolledBack then Some(now) else t.finishedAt);
        e == Effect(Some(p.(targets := p.targets[i := t'])), [], n)
    else if RollbackFailed(t, r) then
      var t' := t.(status := TargetManualIntervention, updatedAt := now, errorCode := r.errorCode);
      e == Effect(Some(p.(status := PlanPaused, targets := p.targets[i := t'])), [], n)
    else BatchTakenBack(p, Failure(t.batch, t.id, r.errorCode, now), n, e)
  }

  /** The batch of the failed target is rolled back by status, and the plan paused. */
  ghost predicate BatchTakenBack(p: Plan, f: Failure, n: Id, e: Effect) {
    && e.saved.Some? && e.saved.value == p.(status := PlanPaused, targets := e.saved.value.targets)
    && |e.saved.value.targets| == |p.targets|
    && (forall j :: 0 <= j < |p.targets| ==> RolledFrom(p.targets[j], e.saved.value.targets[j], f, n, e.nextId))
    && (forall j :: 0 <= j < |p.targets| && IsSent(p.targets[j], f) ==>
          SentOnce(e.commands, UndoCommand(p.targets[j], e.saved.value.targets[j].commandId)))
    && (forall c :: c in e.commands ==> SentTo(c, p.targets, e.saved.value.targets, f))
  }

  /** A report moves the one target it matches forward, or takes its batch back, and does nothing otherwise. */
  lemma EventByStatus(p: Plan, r: Report, now: int, n: Id)
    ensures match MatchTarget(p.targets, r)
      case None => NothingDone(ApplyEvent(p, r, now, n), n)
      case Some(i) => EventEffect(p, i, r, now, n, ApplyEvent(p, r, now, n))
  {
    match MatchTarget(p.targets, r)
    case None =>
    case Some(i) =>
      if r.stage == StageFailed && !RollbackFailed(p.targets[i], r) {
        FailureByStatus(p, i, r, now, n);
      }
  }

  lemma FailureByStatus(p: Plan, i: nat, r: Report, now: int, n: Id)
    requires MatchTarget(p.targets, r) == Some(i) && r.stage == StageFailed && !RollbackFailed(p.targets[i], r)
    ensures BatchTakenBack(p, Failure(p.targets[i].batch, p.targets[i].id, r.errorCode, now), n, ApplyEvent(p, r, now, n))
  {
    var f := Failure(p.targets[i].batch, p.targets[i].id, r.errorCode, now);
    TakenBack(p, f, n);
  }

  lemma TakenBack(p: Plan, f: Failure, n: Id)
    ensures
      var rolled := RollbackTargets(p.targets, f, n);
      BatchTakenBack(p, f, n, Effect(Some(p.(status := PlanPaused, targets := rolled.targets)), rolled.commands, rolled.nextId))
  {
    RollbackByStatus(p.targets, f, n);
  }

  /** The effect of a heartbeat on the target it matches: the old version again ends a rollback; after a restart, exactly
      the new version starts the health check, and any other version takes the target back with a new command. */
  ghost predicate HeartbeatEffect(p: Plan, i: nat, r: Report, now: int, n: Id, e: Effect)
    requires i < |p.targets|
  {
    var t := p.targets[i];
    if t.status == TargetRollingBack && r.agentVersion == t.sourceVersion then
      e == Effect(Some(p.(targets := p.targets[i := t.(status := TargetRolledBack, updatedAt := now, finishedAt := Some(now))])), [], n)
    else if t.status == TargetReconnecting && r.agentVersion == t.targetVersion then
      e == Effect(Some(p.(targets := p.targets[i := t.(status := TargetHealthChecking, updatedAt := now)])), [], n)
    else if t.status == TargetReconnecting then
      && e.saved == Some(p.(status := PlanPaused, targets := p.targets[i := t.(status := TargetRollingBack, commandId := n, updatedAt := now)]))
      && e.commands == [UndoCommand(t, n)] && e.nextId == n + 1
    else NothingDone(e, n)
  }

  lemma HeartbeatByStatus(p: Plan, r: Report, now: int, n: Id)
    ensures match MatchTarget(p.targets, r)
      case None => NothingDone(ObserveHeartbeat(p, r, now, n), n)
      case Some(i) => HeartbeatEffect(p, i, r, now, n, ObserveHeartbeat(p, r, now, n))
  {
  }

  // ---------------------------------------------------------------------------------------------
  // The operator
  // ---------------------------------------------------------------------------------------------

  /** Pausing is saved exactly for a plan that is pending or runs, and only pauses it. */
  lemma PauseIff(p: Plan, n: Id)
    ensures Pause(p, n).saved == Some(p.(status := PlanPaused)) <==> p.status == PlanPending || p.status == PlanRunning
    ensures Pause(p, n).saved.Some? <==> p.status == PlanPending || p.status == PlanRunning
    ensures Pause(p, n).commands == [] && Pause(p, n).nextId == n
  {
  }

  /** The server can still be upgraded from where the plan found it: it is enabled, online or draining, can upgrade
      itself, runs the version the plan started from, and the release has an artifact for it. */
  predicate StillFits(t: Target, release: ReleaseInfo, servers: map<Id, ServerInfo>) {
    t.serverId in servers &&
    var server := servers[t.serverId];
    && server.enabled && (server.status == "online" || server.status == "draining")
    && "self_upgrade_v1" in server.capabilities && server.agentVersion == t.sourceVersion
    && exists k :: 0 <= k < |release.artifacts| && release.artifacts[k].os == server.agentOs && release.artifacts[k].arch == server.agentArch
  }

  /** Resuming is saved exactly for a paused plan that is not being cancelled, whose release is still to be had, and whose
      targets not yet installed all still fit; it only sets the plan running. */
  lemma ResumeIff(p: Plan, release: Option<ReleaseInfo>, servers: map<Id, ServerInfo>, n: Id)
    ensures Resume(p, release, servers, n).saved.Some? <==>
            && p.status == PlanPaused && !p.cancelRequested
            && release.Some? && release.value.status == "available" && "self_upgrade_v1" in release.value.capabilities
            && forall i :: 0 <= i < |p.targets| && p.targets[i].status in {TargetWaiting, TargetDraining} ==>
                 StillFits(p.targets[i], release.value, servers)
    ensures Resume(p, release, servers, n).saved.Some? ==> Resume(p, release, servers, n).saved.value == p.(status := PlanRunning)
    ensures Resume(p, release, servers, n).commands == [] && Resume(p, release, servers, n).nextId == n
  {
    if release.Some? {
      forall i | 0 <= i < |p.targets|
        ensures Resumable(p.targets[i], release.value, servers) <==>
                (p.targets[i].status in {TargetWaiting, TargetDraining} ==> StillFits(p.targets[i], release.value, servers))
      {
      }
    }
  }

  /** Cancelling is saved exactly for an active plan not yet being cancelled. It cancels the waiting targets and leaves the
      others alone; the plan is over at once exactly if every other target has come to its end. */
  lemma CancelIff(p: Plan, now: int, n: Id)
    ensures Cancel(p, now, n).saved.Some? <==> p.status in {PlanPending, PlanRunning, PlanPaused} && !p.cancelRequested
    ensures Cancel(p, now, n).commands == [] && Cancel(p, now, n).nextId == n
    ensures Cancel(p, now, n).saved.Some? ==> Cancelled(p, now, Cancel(p, now, n).saved.value)
  {
  }

  ghost predicate Cancelled(p: Plan, now: int, q: Plan) {
    var over := forall i :: 0 <= i < |p.targets| ==> p.targets[i].status == TargetWaiting || Terminal(p.targets[i].status);
    && |q.targets| == |p.targets|
    && (forall i :: 0 <= i < |p.targets| && p.targets[i].status == TargetWaiting ==>
          q.targets[i] == p.targets[i].(status := TargetCancelled, updatedAt := now, finishedAt := Some(now)))
    && (forall i :: 0 <= i < |p.targets| && p.targets[i].status != TargetWaiting ==> q.targets[i] == p.targets[i])
    && q == p.(targets := q.targets, cancelRequested := true, status := if over then PlanCancelled else PlanPaused,
               finishedAt := if over then Some(now) else p.finishedAt)
  }

  /** The target may be tried again: its upgrade was taken back or given up, and its server is back at the old version. */
  predicate MayRetry(p: Plan, targetId: Id, agentVersions: map<Id, string>, i: int) {
    && 0 <= i < |p.targets| && p.targets[i].id == targetId && !p.cancelRequested
    && (p.targets[i].status == TargetRolledBack || p.targets[i].status == TargetManualIntervention)
    && p.targets[i].serverId in agentVersions && agentVersions[p.targets[i].serverId] == p.targets[i].sourceVersion
  }

  /** A retry is saved exactly if the target may be tried again. It starts over with a drain, as a new attempt with a new
      command, and sets the plan running. */
  lemma RetryIff(p: Plan, targetId: Id, agentVersions: map<Id, string>, now: int, n: Id)
    requires DistinctIds(p.targets)
    ensures RetryTarget(p, targetId, agentVersions, now, n).saved.Some? <==> exists i :: MayRetry(p, targetId, agentVersions, i)
    ensures forall i :: MayRetry(p, targetId, agentVersions, i) ==>
              var t := p.targets[i];
              var t' := t.(status := TargetDraining, commandId := n, installCommandId := n, attempts := t.attempts + 1,
                           errorCode := "", finishedAt := None, updatedAt := now, retries := t.retries + 1);
              RetryTarget(p, targetId, agentVersions, now, n) == Effect(Some(p.(status := PlanRunning, targets := p.targets[i := t'])), [], n + 1)
  {
    var found := FindTarget(p.targets, targetId);
    if found.Some? {
      forall i | MayRetry(p, targetId, agentVersions, i) ensures i == found.value {}
      if RetryTarget(p, targetId, agentVersions, now, n).saved.Some? {
        assert MayRetry(p, targetId, agentVersions, found.value);
      }
    }
  }
}
