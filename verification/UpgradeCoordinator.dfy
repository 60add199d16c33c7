/** The coordinator's operations on the active plan (internal/agentupgrade/coordinator.go). */
module UpgradeCoordinator {
  import opened Common
  import opened UpgradeModel

  // ---------------------------------------------------------------------------------------------
  // Rolling a batch back
  // ---------------------------------------------------------------------------------------------

  datatype Rolled = Rolled(targets: seq<Target>, commands: seq<Command>, nextId: Id)

  /** The reason a batch is rolled back: the failed target, its error code and the time. */
  datatype Failure = Failure(batch: int, failedId: Id, errorCode: string, now: int)

  /** The failed target has not replaced any file, so there is nothing to restore on its server. */
  predicate Uninstalled(t: Target, f: Failure) {
    || t.status in {TargetWaiting, TargetDraining}
    || (&& t.id == f.failedId
        && (|| t.status in {TargetDownloading, TargetVerifying}
            || f.errorCode in {"apply_start_failed", "apply_rolled_back", "stage_failed"}))
  }

  predicate RollbackSkips(t: Target, f: Failure) {
    || t.batch != f.batch
    || t.status in {TargetCancelled, TargetRollingBack, TargetRolledBack, TargetManualIntervention}
  }

  /** The target may have replaced files: it is sent a rollback command. */
  predicate RollbackSends(t: Target, f: Failure) {
    !RollbackSkips(t, f) && !Uninstalled(t, f)
  }

  function RollbackTarget(t: Target, f: Failure, id: Id): Target {
    if RollbackSkips(t, f) then t
    else if Uninstalled(t, f) then
      t.(status := TargetRolledBack, updatedAt := f.now, finishedAt := Some(f.now))
    else
      t.(status := TargetRollingBack, commandId := id, updatedAt := f.now, finishedAt := None)
  }

  function RollbackTargets(ts: seq<Target>, f: Failure, id: Id): (r: Rolled)
    ensures |r.targets| == |ts|
    ensures id <= r.nextId
  {
    if |ts| == 0 then Rolled([], [], id)
    else
      var before := RollbackTargets(ts[..|ts| - 1], f, id);
      var t := RollbackTarget(ts[|ts| - 1], f, before.nextId);
      if RollbackSends(ts[|ts| - 1], f) then
        Rolled(before.targets + [t], before.commands + [RollbackCommand(t)], before.nextId + 1)
      else
        Rolled(before.targets + [t], before.commands, before.nextId)
  }

  /** What one target becomes when its batch is rolled back with identifiers drawn from [id, id'). */
  predicate RolledMove(t: Target, t': Target, f: Failure, id: Id, id': Id) {
    && t' == RollbackTarget(t, f, t'.commandId)
    && (RollbackSends(t, f) ==> id <= t'.commandId < id')
  }

  /** Every target moves as `RolledMove` says, and no two of them are given the same identifier. */
  lemma {:induction false} RollbackMoves(ts: seq<Target>, f: Failure, id: Id)
    ensures var r := RollbackTargets(ts, f, id);
      && (forall i :: 0 <= i < |ts| ==> RolledMove(ts[i], r.targets[i], f, id, r.nextId))
      && (forall i, j :: 0 <= i < j < |ts| && RollbackSends(ts[i], f) && RollbackSends(ts[j], f)
                         ==> r.targets[i].commandId < r.targets[j].commandId)
  {
    if |ts| > 0 {
      var n := |ts| - 1;
      RollbackMoves(ts[..n], f, id);
      var before := RollbackTargets(ts[..n], f, id);
      var r := RollbackTargets(ts, f, id);
      forall i | 0 <= i < |ts| ensures RolledMove(ts[i], r.targets[i], f, id, r.nextId) {
        if i < n {
          assert RolledMove(ts[..n][i], before.targets[i], f, id, before.nextId);
        }
      }
    }
  }

  /** A rollback command goes out for exactly the targets that may have replaced files. */
  lemma {:induction false} RollbackSendsExactly(ts: seq<Target>, f: Failure, id: Id)
    ensures var r := RollbackTargets(ts, f, id);
      && (forall i :: 0 <= i < |ts| && RollbackSends(ts[i], f) ==> RollbackCommand(r.targets[i]) in r.commands)
      && (forall c :: c in r.commands ==> SentFor(c, ts, r.targets, f))
  {
    if |ts| > 0 {
      var n := |ts| - 1;
      RollbackSendsExactly(ts[..n], f, id);
      var before := RollbackTargets(ts[..n], f, id);
      var r := RollbackTargets(ts, f, id);
      forall i | 0 <= i < |ts| && RollbackSends(ts[i], f) ensures RollbackCommand(r.targets[i]) in r.commands {
        if i < n {
          assert RollbackSends(ts[..n][i], f);
          assert RollbackCommand(before.targets[i]) in before.commands;
        } else {
          assert RollbackCommand(r.targets[n]) == r.commands[|r.commands| - 1];
        }
      }
      forall c | c in r.commands ensures SentFor(c, ts, r.targets, f) {
        if c in before.commands {
          assert SentFor(c, ts[..n], before.targets, f);
          var i :| 0 <= i < n && RollbackSends(ts[..n][i], f) && c == RollbackCommand(before.targets[i]);
          assert RollbackSends(ts[i], f) && c == RollbackCommand(r.targets[i]);
        } else {
          assert RollbackSends(ts[n], f) && c == RollbackCommand(r.targets[n]);
        }
      }
    }
  }

  ghost predicate SentFor(c: Command, ts: seq<Target>, ts': seq<Target>, f: Failure)
    requires |ts| == |ts'|
  {
    exists i :: 0 <= i < |ts| && RollbackSends(ts[i], f) && c == RollbackCommand(ts'[i])
  }

  // ---------------------------------------------------------------------------------------------
  // Scan
  // ---------------------------------------------------------------------------------------------

  /** What a scan reads from outside the plan: the clock, the servers' run-time rows (a missing row is
      an error), the release's artifacts (`None` is an error) and the servers whose drain flag can be set. */
  datatype ScanEnv = ScanEnv(now: int, runtimes: map<Id, ServerRuntime>, release: Option<seq<Artifact>>, drainable: set<Id>)

  /** The local variables of the scan loop. */
  datatype ScanState = ScanState(plan: Plan, changed: bool, commands: seq<Command>, mayStart: bool, nextId: Id)

  function MatchingArtifact(items: seq<Artifact>, os: string, arch: string): Option<Artifact> {
    if |items| == 0 then None
    else if (os == "" || items[0].os == os) && (arch == "" || items[0].arch == arch) then Some(items[0])
    else MatchingArtifact(items[1..], os, arch)
  }

  predicate RuntimeAvailable(runtime: ServerRuntime, targetVersion: string, now: int) {
    && runtime.enabled
    && runtime.status in {"online", "draining"}
    && runtime.agentVersion == targetVersion
    && runtime.hasSnapshot
    && runtime.lastSeenAt.Some?
    && now - runtime.lastSeenAt.value <= 15 * SECOND
  }

  function SetTarget(plan: Plan, i: nat, t: Target): Plan
    requires i < |plan.targets|
  {
    plan.(targets := plan.targets[i := t])
  }

  function SourceVersionChanged(a: ScanState, i: nat, now: int): ScanState
    requires i < |a.plan.targets|
  {
    var t := a.plan.targets[i].(status := TargetManualIntervention, errorCode := "source_version_changed",
                                updatedAt := now, finishedAt := Some(now));
    a.(plan := SetTarget(a.plan, i, t).(status := PlanPaused), changed := true, mayStart := false)
  }

  function RemoveBatchCommands(commands: seq<Command>, targets: seq<Target>, batch: int): (kept: seq<Command>) {
    if |commands| == 0 then []
    else
      var rest := RemoveBatchCommands(commands[..|commands| - 1], targets, batch);
      var c := commands[|commands| - 1];
      if exists j :: 0 <= j < |targets| && targets[j].batch == batch && c.targetId == targets[j].id
      then rest else rest + [c]
  }

  function ScanRollback(a: ScanState, i: nat, errorCode: string, now: int): ScanState
    requires i < |a.plan.targets|
  {
    var t := a.plan.targets[i];
    var kept := RemoveBatchCommands(a.commands, a.plan.targets, t.batch);
    var r := RollbackTargets(a.plan.targets, Failure(t.batch, t.id, errorCode, now), a.nextId);
    a.(plan := a.plan.(status := PlanPaused, targets := r.targets), changed := true,
       commands := kept + r.commands, nextId := r.nextId)
  }

  function ScanDraining(a: ScanState, i: nat, env: ScanEnv): Option<ScanState>
    requires i < |a.plan.targets|
  {
    var t := a.plan.targets[i];
    if !a.mayStart && !a.plan.cancelRequested then Some(a)
    else if t.startedAt.Some? && env.now - t.startedAt.value > a.plan.drainTimeoutSeconds * SECOND then
      Some(a.(plan := a.plan.(status := PlanPaused), changed := true))
    else if t.serverId !in env.drainable || t.serverId !in env.runtimes then None
    else
      var runtime := env.runtimes[t.serverId];
      if !runtime.enabled || runtime.status !in {"online", "draining"} || runtime.runningTasks > 0 then Some(a)
      else if runtime.agentVersion != t.sourceVersion then Some(SourceVersionChanged(a, i, env.now))
      else if env.release.None? then None
      else
        match MatchingArtifact(env.release.value, runtime.agentOs, runtime.agentArch)
        case None => None
        case Some(artifact) =>
          var t' := t.(status := TargetDownloading, attempts := t.attempts + 1, updatedAt := env.now);
          Some(a.(plan := SetTarget(a.plan, i, t'), changed := true,
                  commands := a.commands + [InstallCommand(t', artifact)]))
  }

  function ScanInstalling(a: ScanState, i: nat, env: ScanEnv): Option<ScanState>
    requires i < |a.plan.targets|
  {
    var t := a.plan.targets[i];
    if t.serverId !in env.runtimes then None
    else
      var runtime := env.runtimes[t.serverId];
      if runtime.agentVersion != t.sourceVersion && runtime.agentVersion != t.targetVersion then
        Some(SourceVersionChanged(a, i, env.now))
      else if env.release.None? then None
      else
        match MatchingArtifact(env.release.value, runtime.agentOs, runtime.agentArch)
        case None => None
        case Some(artifact) => Some(a.(commands := a.commands + [InstallCommand(t, artifact)]))
  }

  function ScanHealthChecking(a: ScanState, i: nat, env: ScanEnv): Option<ScanState>
    requires i < |a.plan.targets|
  {
    var t := a.plan.targets[i];
    if t.serverId !in env.runtimes then None
    else
      var runtime := env.runtimes[t.serverId];
      if !RuntimeAvailable(runtime, t.targetVersion, env.now) then
        Some(ScanRollback(a, i, "health_check_failed", env.now))
      else if env.now - t.updatedAt < a.plan.verificationSeconds * SECOND then Some(a)
      else if runtime.lastSeenAt.None? || runtime.lastSeenAt.value <= t.updatedAt then
        Some(ScanRollback(a, i, "health_check_failed", env.now))
      else if !t.sourceDraining && t.serverId !in env.drainable then None
      else
        var t' := t.(status := TargetSucceeded, updatedAt := env.now, finishedAt := Some(env.now));
        Some(a.(plan := SetTarget(a.plan, i, t'), changed := true))
  }

  function ScanRollingBack(a: ScanState, i: nat, env: ScanEnv): ScanState
    requires i < |a.plan.targets|
  {
    var t := a.plan.targets[i];
    if env.now - t.updatedAt >= a.plan.reconnectTimeoutSeconds * SECOND then
      var t' := t.(status := TargetManualIntervention, errorCode := "rollback_timeout",
                   updatedAt := env.now, finishedAt := Some(env.now));
      a.(plan := SetTarget(a.plan, i, t').(status := PlanPaused), changed := true)
    else
      a.(commands := a.commands + [RollbackCommand(t)])
  }

  /** One iteration of the scan loop; `None` is an error that ends the scan with nothing saved or sent. */
  function ScanTarget(a: ScanState, i: nat, env: ScanEnv): (r: Option<ScanState>)
    requires i < |a.plan.targets|
    ensures r.Some? ==> |r.value.plan.targets| == |a.plan.targets|
  {
    var t := a.plan.targets[i];
    if t.batch != a.plan.currentBatch then Some(a)
    else match t.status
      case TargetWaiting =>
        if !a.mayStart then Some(a)
        else
          var t' := t.(status := TargetDraining, startedAt := Some(env.now), updatedAt := env.now);
          Some(a.(plan := SetTarget(a.plan, i, t'), changed := true))
      case TargetDraining => ScanDraining(a, i, env)
      case TargetDownloading => ScanInstalling(a, i, env)
      case TargetVerifying => ScanInstalling(a, i, env)
      case TargetInstalling => ScanInstalling(a, i, env)
      case TargetReconnecting =>
        if env.now - t.updatedAt >= a.plan.reconnectTimeoutSeconds * SECOND
        then Some(ScanRollback(a, i, "reconnect_timeout", env.now)) else Some(a)
      case TargetHealthChecking => ScanHealthChecking(a, i, env)
      case TargetRollingBack => Some(ScanRollingBack(a, i, env))
      case _ => Some(a)
  }

  /** The whole loop, from target `i` on. */
  function ScanFrom(a: ScanState, i: nat, env: ScanEnv): (r: Option<ScanState>)
    requires i <= |a.plan.targets|
    ensures r.Some? ==> |r.value.plan.targets| == |a.plan.targets|
    decreases |a.plan.targets| - i
  {
    if i == |a.plan.targets| then Some(a)
    else
      match ScanTarget(a, i, env)
      case None => None
      case Some(a') => ScanFrom(a', i + 1, env)
  }

  function ScanStart(plan: Plan, nextId: Id): ScanState {
    ScanState(plan, false, [], plan.status in {PlanRunning, PlanPending} && !plan.cancelRequested, nextId)
  }

  /** What follows the loop: cancel, advance to the next batch, or finish the plan. */
  function ScanFinish(a: ScanState, now: int): ScanState {
    if a.plan.cancelRequested && AllTerminal(a.plan.targets) then
      a.(plan := a.plan.(status := PlanCancelled, finishedAt := Some(now)), changed := true)
    else if a.mayStart && BatchSucceeded(a.plan.targets, a.plan.currentBatch) then
      if HasBatch(a.plan.targets, a.plan.currentBatch + 1) then
        a.(plan := a.plan.(currentBatch := a.plan.currentBatch + 1), changed := true)
      else
        a.(plan := a.plan.(status := PlanSucceeded, finishedAt := Some(now)), changed := true)
    else a
  }

  function ScanPlan(p: Plan, n: Id, env: ScanEnv): Option<ScanState> {
    match ScanFrom(ScanStart(p, n), 0, env)
    case None => None
    case Some(a) => Some(ScanFinish(a, env.now))
  }

  // ---------------------------------------------------------------------------------------------
  // Agent events and heartbeats
  // ---------------------------------------------------------------------------------------------

  datatype Stage =
    | StageAccepted | StageDownloading | StageVerifying | StageInstalling | StageReconnecting
    | StageSucceeded | StageRollingBack | StageRolledBack | StageFailed | StageUnknown

  /** An upgrade event or the upgrade part of a heartbeat, as reported by the agent of `serverId`. */
  datatype Report = Report(serverId: Id, targetId: Id, commandId: Id, stage: Stage, errorCode: string, agentVersion: string)

  predicate Matches(t: Target, r: Report) {
    t.id == r.targetId && t.serverId == r.serverId && t.commandId == r.commandId
  }

  /** The index of the first target the report is about, if there is one. */
  function MatchTarget(ts: seq<Target>, r: Report): (found: Option<nat>)
    ensures found.Some? ==> found.value < |ts| && Matches(ts[found.value], r)
    ensures forall i :: 0 <= i < (if found.Some? then found.value else |ts|) ==> !Matches(ts[i], r)
  {
    if |ts| == 0 then None
    else if Matches(ts[0], r) then Some(0)
    else match MatchTarget(ts[1..], r)
      case None => None
      case Some(i) => Some(i + 1)
  }

  function StatusForStage(stage: Stage): Option<TargetStatus> {
    match stage
    case StageAccepted => Some(TargetDownloading)
    case StageDownloading => Some(TargetDownloading)
    case StageVerifying => Some(TargetVerifying)
    case StageInstalling => Some(TargetInstalling)
    case StageReconnecting => Some(TargetReconnecting)
    case StageSucceeded => Some(TargetReconnecting)
    case StageRollingBack => Some(TargetRollingBack)
    case StageRolledBack => Some(TargetRolledBack)
    case _ => None
  }

  function Rank(status: TargetStatus): Option<nat> {
    match status
    case TargetWaiting => Some(0)
    case TargetDraining => Some(1)
    case TargetDownloading => Some(2)
    case TargetVerifying => Some(3)
    case TargetInstalling => Some(4)
    case TargetReconnecting => Some(5)
    case TargetHealthChecking => Some(6)
    case TargetSucceeded => Some(7)
    case _ => None
  }

  predicate ForwardTransition(current: TargetStatus, next: TargetStatus) {
    || current == next
    || (current == TargetRollingBack && next == TargetRolledBack)
    || (Rank(current).Some? && Rank(next).Some? && Rank(next).value > Rank(current).value)
  }

  function ApplyEvent(p: Plan, r: Report, now: int, n: Id): Effect {
    match MatchTarget(p.targets, r)
    case None => Effect(None, [], n)
    case Some(i) =>
      var t := p.targets[i];
      if r.stage == StageFailed then
        if r.errorCode == "rollback_failed" || t.status == TargetRollingBack then
          var t' := t.(status := TargetManualIntervention, errorCode := r.errorCode, updatedAt := now);
          Effect(Some(SetTarget(p, i, t').(status := PlanPaused)), [], n)
        else
          var rolled := RollbackTargets(p.targets, Failure(t.batch, t.id, r.errorCode, now), n);
          Effect(Some(p.(status := PlanPaused, targets := rolled.targets)), rolled.commands, rolled.nextId)
      else if t.status == TargetRollingBack && r.stage in {StageReconnecting, StageSucceeded} then Effect(None, [], n)
      else match StatusForStage(r.stage)
        case None => Effect(None, [], n)
        case Some(status) =>
          if t.status == status || !ForwardTransition(t.status, status) then Effect(None, [], n)
          else
            var finishedAt := if status == TargetRolledBack then Some(now) else t.finishedAt;
            var t' := t.(status := status, updatedAt := now, finishedAt := finishedAt, errorCode := r.errorCode);
            Effect(Some(SetTarget(p, i, t')), [], n)
  }

  function ObserveHeartbeat(p: Plan, r: Report, now: int, n: Id): Effect {
    match MatchTarget(p.targets, r)
    case None => Effect(None, [], n)
    case Some(i) =>
      var t := p.targets[i];
      if t.status == TargetRollingBack then
        if r.agentVersion != t.sourceVersion then Effect(None, [], n)
        else
          var t' := t.(status := TargetRolledBack, updatedAt := now, finishedAt := Some(now));
          Effect(Some(SetTarget(p, i, t')), [], n)
      else if t.status != TargetReconnecting then Effect(None, [], n)
      else if r.agentVersion != t.targetVersion then
        var t' := t.(status := TargetRollingBack, commandId := n, updatedAt := now);
        Effect(Some(SetTarget(p, i, t').(status := PlanPaused)), [RollbackCommand(t')], n + 1)
      else
        Effect(Some(SetTarget(p, i, t.(status := TargetHealthChecking, updatedAt := now))), [], n)
  }
}
