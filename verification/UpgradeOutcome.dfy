/** What a rollback and a scan do to every target of a plan, said from the loaded plan and the environment alone: no
    state is handed from one target to the next, as the loops do. */
module UpgradeOutcome {
  import opened Common
  import opened UpgradeModel
  import opened UpgradeCoordinator
  import opened UpgradeScan

  // ---------------------------------------------------------------------------------------------
  // Rolling a batch back
  // ---------------------------------------------------------------------------------------------

  /** The error codes with which an agent says that it has kept, or restored, its old files. */
  const OLD_FILES: set<string> := {"apply_start_failed", "apply_rolled_back", "stage_failed"}

  /** What becomes of a target of the batch, by its status and the error code. */
  function RolledStatus(t: Target, f: Failure): TargetStatus {
    match t.status
    case TargetWaiting | TargetDraining => TargetRolledBack
    case TargetDownloading | TargetVerifying => if t.id == f.failedId then TargetRolledBack else TargetRollingBack
    case TargetInstalling | TargetReconnecting | TargetHealthChecking | TargetSucceeded =>
      if t.id == f.failedId && f.errorCode in OLD_FILES then TargetRolledBack else TargetRollingBack
    case TargetRollingBack | TargetRolledBack | TargetManualIntervention | TargetCancelled => t.status
  }

  /** The target is sent a rollback command. */
  predicate IsSent(t: Target, f: Failure) {
    t.batch == f.batch && t.status != TargetRollingBack && RolledStatus(t, f) == TargetRollingBack
  }

  predicate RolledFrom(t: Target, t': Target, f: Failure, n: Id, n': Id) {
    if t.batch != f.batch || t.status == RolledStatus(t, f) then t' == t
    else if IsSent(t, f) then
      && t' == t.(status := TargetRollingBack, commandId := t'.commandId, updatedAt := f.now, finishedAt := None)
      && n <= t'.commandId < n'
    else t' == t.(status := TargetRolledBack, updatedAt := f.now, finishedAt := Some(f.now))
  }

  /** The rollback command for a target: it names the server, the target, and the installation to undo. */
  function UndoCommand(t: Target, commandId: Id): Command {
    Rollback(t.serverId, t.id, commandId, t.targetVersion, t.sourceVersion, t.installCommandId)
  }

  ghost predicate SentOnce(commands: seq<Command>, c: Command) {
    exists k :: 0 <= k < |commands| && commands[k] == c && forall l :: 0 <= l < |commands| && l != k ==> commands[l].commandId != c.commandId
  }

  ghost predicate SentTo(c: Command, ts: seq<Target>, ts': seq<Target>, f: Failure)
    requires |ts| == |ts'|
  {
    exists i :: 0 <= i < |ts| && IsSent(ts[i], f) && c == UndoCommand(ts[i], ts'[i].commandId)
  }

  /** Rolling a batch back moves every target as its status and the error code say. A target that is taken back is sent
      exactly one command, with an identifier of its own; nothing else is sent. */
  lemma RollbackByStatus(ts: seq<Target>, f: Failure, n: Id)
    ensures var r := RollbackTargets(ts, f, n);
      && (forall i :: 0 <= i < |ts| ==> RolledFrom(ts[i], r.targets[i], f, n, r.nextId))
      && (forall i :: 0 <= i < |ts| && IsSent(ts[i], f) ==> SentOnce(r.commands, UndoCommand(ts[i], r.targets[i].commandId)))
      && (forall c :: c in r.commands ==> SentTo(c, ts, r.targets, f))
  {
    var r := RollbackTargets(ts, f, n);
    forall i | 0 <= i < |ts|
      ensures RolledFrom(ts[i], r.targets[i], f, n, r.nextId)
    {
      RolledByStatus(ts, f, n, i);
    }
    forall i | 0 <= i < |ts| && IsSent(ts[i], f)
      ensures SentOnce(r.commands, UndoCommand(ts[i], r.targets[i].commandId))
    {
      SentExactlyOnce(ts, f, n, i);
    }
    forall c | c in r.commands
      ensures SentTo(c, ts, r.targets, f)
    {
      OnlySentTo(ts, f, n, c);
    }
  }

  lemma RolledByStatus(ts: seq<Target>, f: Failure, n: Id, i: nat)
    requires i < |ts|
    ensures var r := RollbackTargets(ts, f, n); RolledFrom(ts[i], r.targets[i], f, n, r.nextId)
  {
    var r := RollbackTargets(ts, f, n);
    RollbackMoves(ts, f, n);
    assert RolledMove(ts[i], r.targets[i], f, n, r.nextId);
  }

  lemma OnlySentTo(ts: seq<Target>, f: Failure, n: Id, c: Command)
    requires c in RollbackTargets(ts, f, n).commands
    ensures SentTo(c, ts, RollbackTargets(ts, f, n).targets, f)
  {
    var r := RollbackTargets(ts, f, n);
    RollbackSendsExactly(ts, f, n);
    assert SentFor(c, ts, r.targets, f);
    var i :| 0 <= i < |ts| && RollbackSends(ts[i], f) && c == RollbackCommand(r.targets[i]);
    RolledByStatus(ts, f, n, i);
  }

  lemma SentExactlyOnce(ts: seq<Target>, f: Failure, n: Id, i: nat)
    requires i < |ts| && IsSent(ts[i], f)
    ensures var r := RollbackTargets(ts, f, n); SentOnce(r.commands, UndoCommand(ts[i], r.targets[i].commandId))
  {
    var r := RollbackTargets(ts, f, n);
    RolledByStatus(ts, f, n, i);
    RollbackSendsExactly(ts, f, n);
    assert RollbackSends(ts[i], f);
    var c := UndoCommand(ts[i], r.targets[i].commandId);
    assert c == RollbackCommand(r.targets[i]);
    var k :| 0 <= k < |r.commands| && r.commands[k] == c;
    FreshCommands(ts, f, n);
  }

  /** The commands carry increasing identifiers below the bound. */
  predicate Increasing(commands: seq<Command>, bound: Id) {
    && (forall k :: 0 <= k < |commands| ==> commands[k].commandId < bound)
    && (forall k, l :: 0 <= k < l < |commands| ==> commands[k].commandId < commands[l].commandId)
  }

  lemma {:induction false} FreshCommands(ts: seq<Target>, f: Failure, n: Id)
    ensures Increasing(RollbackTargets(ts, f, n).commands, RollbackTargets(ts, f, n).nextId)
  {
    if |ts| > 0 {
      var last := |ts| - 1;
      FreshCommands(ts[..last], f, n);
      var before := RollbackTargets(ts[..last], f, n);
      var t := RollbackTarget(ts[last], f, before.nextId);
      if RollbackSends(ts[last], f) {
        IncreasingNext(before.commands, before.nextId, RollbackCommand(t));
      }
    }
  }

  lemma IncreasingNext(commands: seq<Command>, bound: Id, c: Command)
    requires Increasing(commands, bound) && c.commandId == bound
    ensures Increasing(commands + [c], bound + 1)
  {
  }

  // ---------------------------------------------------------------------------------------------
  // What a scan finds
  // ---------------------------------------------------------------------------------------------

  predicate InBatch(p: Plan, i: int) {
    0 <= i < |p.targets| && p.targets[i].batch == p.currentBatch
  }

  /** The agent is up, at exactly the new version, and was seen in the last fifteen seconds. */
  predicate Healthy(row: ServerRuntime, t: Target, now: int) {
    && row.enabled && (row.status == "online" || row.status == "draining")
    && row.agentVersion == t.targetVersion && row.hasSnapshot
    && row.lastSeenAt.Some? && now <= row.lastSeenAt.value + 15 * SECOND
  }

  /** The time for verification is over. */
  predicate Verified(p: Plan, t: Target, now: int) {
    t.updatedAt + p.verificationSeconds * SECOND <= now
  }

  predicate SeenSince(row: ServerRuntime, t: Target) {
    row.lastSeenAt.Some? && t.updatedAt < row.lastSeenAt.value
  }

  predicate TimedOut(p: Plan, t: Target, now: int) {
    t.updatedAt + p.reconnectTimeoutSeconds * SECOND <= now
  }

  /** The scan finds the new agent of the target in order. */
  predicate Confirms(p: Plan, env: ScanEnv, i: int) {
    InBatch(p, i) &&
    var t := p.targets[i];
    && t.status == TargetHealthChecking && t.serverId in env.runtimes
    && Healthy(env.runtimes[t.serverId], t, env.now) && Verified(p, t, env.now) && SeenSince(env.runtimes[t.serverId], t)
  }

  /** The scan finds that the upgrade of the target has failed: its agent is overdue, out of order, or silent since the
      verification began. */
  predicate FailsAt(p: Plan, env: ScanEnv, i: int) {
    InBatch(p, i) &&
    var t := p.targets[i];
    || (t.status == TargetReconnecting && TimedOut(p, t, env.now))
    || (&& t.status == TargetHealthChecking && t.serverId in env.runtimes
        && var row := env.runtimes[t.serverId];
           !Healthy(row, t, env.now) || (Verified(p, t, env.now) && !SeenSince(row, t)))
  }

  function FailureCode(t: Target): string {
    if t.status == TargetReconnecting then "reconnect_timeout" else "health_check_failed"
  }

  predicate DrainTimedOut(p: Plan, t: Target, now: int) {
    t.startedAt.Some? && t.startedAt.value + p.drainTimeoutSeconds * SECOND < now
  }

  /** The drain of the target is not overdue, and its server is found idle. */
  predicate Drained(p: Plan, env: ScanEnv, i: int) {
    InBatch(p, i) &&
    var t := p.targets[i];
    && t.status == TargetDraining && !DrainTimedOut(p, t, env.now) && t.serverId in env.drainable && t.serverId in env.runtimes
    && var row := env.runtimes[t.serverId];
       row.enabled && (row.status == "online" || row.status == "draining") && row.runningTasks <= 0
  }

  /** The agent is found at a version that the plan does not account for. */
  predicate VersionChanges(p: Plan, env: ScanEnv, i: int) {
    InBatch(p, i) &&
    var t := p.targets[i];
    t.serverId in env.runtimes &&
    var version := env.runtimes[t.serverId].agentVersion;
    || (Drained(p, env, i) && version != t.sourceVersion)
    || (InstallInProgress(t.status) && version != t.sourceVersion && version != t.targetVersion)
  }

  /** Targets are started while the plan runs, is not being cancelled, and no agent before this one was found changed. */
  predicate StartsAt(p: Plan, env: ScanEnv, i: nat) {
    MayStart(p) && forall j :: 0 <= j < i ==> !VersionChanges(p, env, j)
  }

  /** Draining goes on where targets are started, and for a plan being cancelled. */
  predicate DrainsAt(p: Plan, env: ScanEnv, i: nat) {
    StartsAt(p, env, i) || p.cancelRequested
  }

  /** The artifact of the release for a server, if the release can be read and has one. */
  function ArtifactFor(env: ScanEnv, serverId: Id): Option<Artifact> {
    if env.release.None? || serverId !in env.runtimes then None
    else MatchingArtifact(env.release.value, env.runtimes[serverId].agentOs, env.runtimes[serverId].agentArch)
  }

  /** The first artifact that fits; an agent that does not tell its system is content with any. */
  lemma {:induction false} FirstMatch(items: seq<Artifact>, os: string, arch: string) returns (k: nat)
    ensures k <= |items| && forall i :: 0 <= i < k ==> !Fits(items[i], os, arch)
    ensures MatchingArtifact(items, os, arch) == if k < |items| then Some(items[k]) else None
    ensures k < |items| ==> Fits(items[k], os, arch)
  {
    if |items| == 0 || Fits(items[0], os, arch) {
      k := 0;
    } else {
      var l := FirstMatch(items[1..], os, arch);
      k := l + 1;
      forall i | 0 <= i < k
        ensures !Fits(items[i], os, arch)
      {
        if i > 0 {
          assert items[i] == items[1..][i - 1];
        }
      }
    }
  }

  predicate Fits(item: Artifact, os: string, arch: string) {
    os in {"", item.os} && arch in {"", item.arch}
  }

  /** The scan needs something for this target that it cannot get. */
  predicate Missing(p: Plan, env: ScanEnv, i: int) {
    InBatch(p, i) &&
    var t := p.targets[i];
    match t.status
    case TargetDraining =>
      && DrainsAt(p, env, i) && !DrainTimedOut(p, t, env.now)
      && (|| t.serverId !in env.drainable || t.serverId !in env.runtimes
          || (Drained(p, env, i) && !VersionChanges(p, env, i) && ArtifactFor(env, t.serverId).None?))
    case TargetDownloading | TargetVerifying | TargetInstalling =>
      t.serverId !in env.runtimes || (!VersionChanges(p, env, i) && ArtifactFor(env, t.serverId).None?)
    case TargetHealthChecking =>
      t.serverId !in env.runtimes || (Confirms(p, env, i) && !t.sourceDraining && t.serverId !in env.drainable)
    case _ => false
  }

  function Intervene(t: Target, errorCode: string, now: int): Target {
    t.(status := TargetManualIntervention, errorCode := errorCode, updatedAt := now, finishedAt := Some(now))
  }

  /** What a scan makes of a target when no upgrade of the batch has failed. */
  function Settle(p: Plan, env: ScanEnv, i: nat): Target
    requires i < |p.targets|
  {
    var t := p.targets[i];
    if !InBatch(p, i) then t
    else match t.status
      case TargetWaiting =>
        if StartsAt(p, env, i) then t.(status := TargetDraining, startedAt := Some(env.now), updatedAt := env.now) else t
      case TargetDraining =>
        if !DrainsAt(p, env, i) || !Drained(p, env, i) then t
        else if VersionChanges(p, env, i) then Intervene(t, "source_version_changed", env.now)
        else t.(status := TargetDownloading, attempts := t.attempts + 1, updatedAt := env.now)
      case TargetDownloading | TargetVerifying | TargetInstalling =>
        if VersionChanges(p, env, i) then Intervene(t, "source_version_changed", env.now) else t
      case TargetHealthChecking =>
        if Confirms(p, env, i) then t.(status := TargetSucceeded, updatedAt := env.now, finishedAt := Some(env.now)) else t
      case TargetRollingBack =>
        if TimedOut(p, t, env.now) then Intervene(t, "rollback_timeout", env.now) else t
      case _ => t
  }

  /** The commands for one target: the install command while it is being installed, the rollback command while it is
      being rolled back. */
  function Sends(p: Plan, env: ScanEnv, i: nat): seq<Command>
    requires i < |p.targets|
  {
    var t := Settle(p, env, i);
    if !InBatch(p, i) then []
    else if InstallInProgress(t.status) && ArtifactFor(env, t.serverId).Some? then [InstallCommand(t, ArtifactFor(env, t.serverId).value)]
    else if t.status == TargetRollingBack then [UndoCommand(t, t.commandId)]
    else []
  }

  function Queue(p: Plan, env: ScanEnv, n: nat): seq<Command>
    requires n <= |p.targets|
  {
    if n == 0 then [] else Queue(p, env, n - 1) + Sends(p, env, n - 1)
  }

  /** The scan finds something that pauses the plan, other than a failed upgrade. */
  predicate Pauses(p: Plan, env: ScanEnv, i: int) {
    InBatch(p, i) &&
    var t := p.targets[i];
    || (t.status == TargetDraining && DrainsAt(p, env, i) && (DrainTimedOut(p, t, env.now) || VersionChanges(p, env, i)))
    || (InstallInProgress(t.status) && VersionChanges(p, env, i))
    || (t.status == TargetRollingBack && TimedOut(p, t, env.now))
  }

  // ---------------------------------------------------------------------------------------------
  // The loop, up to the first failed upgrade
  // ---------------------------------------------------------------------------------------------

  /** The loop stands at target `i`, and no upgrade before it has failed. */
  ghost predicate Reached(p: Plan, env: ScanEnv, a: ScanState, i: nat) {
    && i <= |p.targets| == |a.plan.targets|
    && a.plan == p.(status := a.plan.status, targets := a.plan.targets)
    && a.plan.status == (if PausedBefore(p, env, i) then PlanPaused else p.status)
    && (forall j :: 0 <= j < i ==> a.plan.targets[j] == Settle(p, env, j))
    && (forall j :: i <= j < |p.targets| ==> a.plan.targets[j] == p.targets[j])
    && a.mayStart == StartsAt(p, env, i)
    && a.commands == Queue(p, env, i)
  }

  ghost predicate PausedBefore(p: Plan, env: ScanEnv, i: nat) {
    exists j :: 0 <= j < i && Pauses(p, env, j)
  }

  /** One iteration, as the target alone tells. */
  predicate Steps(p: Plan, env: ScanEnv, a: ScanState, i: nat, a': ScanState)
    requires i < |p.targets| == |a.plan.targets|
  {
    && a'.plan.targets == a.plan.targets[i := Settle(p, env, i)]
    && a'.plan == a.plan.(status := if Pauses(p, env, i) then PlanPaused else a.plan.status, targets := a'.plan.targets)
    && a'.mayStart == (a.mayStart && !VersionChanges(p, env, i))
    && a'.commands == a.commands + Sends(p, env, i)
  }

  lemma ReachedNext(p: Plan, env: ScanEnv, a: ScanState, i: nat, a': ScanState)
    requires i < |p.targets| && Reached(p, env, a, i) && Steps(p, env, a, i, a')
    ensures Reached(p, env, a', i + 1)
  {
    assert StartsAt(p, env, i + 1) <==> StartsAt(p, env, i) && !VersionChanges(p, env, i);
    assert PausedBefore(p, env, i + 1) <==> PausedBefore(p, env, i) || Pauses(p, env, i);
  }

  lemma DrainingSteps(p: Plan, env: ScanEnv, a: ScanState, i: nat)
    requires Reached(p, env, a, i) && i < |p.targets| && InBatch(p, i) && p.targets[i].status == TargetDraining
    ensures ScanDraining(a, i, env).None? <==> Missing(p, env, i)
    ensures ScanDraining(a, i, env).Some? ==> Steps(p, env, a, i, ScanDraining(a, i, env).value)
  {
  }

  lemma InstallingSteps(p: Plan, env: ScanEnv, a: ScanState, i: nat)
    requires Reached(p, env, a, i) && i < |p.targets| && InBatch(p, i) && InstallInProgress(p.targets[i].status)
    ensures ScanInstalling(a, i, env).None? <==> Missing(p, env, i)
    ensures ScanInstalling(a, i, env).Some? ==> Steps(p, env, a, i, ScanInstalling(a, i, env).value)
  {
  }

  lemma HealthCheckingSteps(p: Plan, env: ScanEnv, a: ScanState, i: nat)
    requires Reached(p, env, a, i) && i < |p.targets| && InBatch(p, i) && p.targets[i].status == TargetHealthChecking
    requires !FailsAt(p, env, i)
    ensures ScanHealthChecking(a, i, env).None? <==> Missing(p, env, i)
    ensures ScanHealthChecking(a, i, env).Some? ==> Steps(p, env, a, i, ScanHealthChecking(a, i, env).value)
  {
  }

  lemma TargetSteps(p: Plan, env: ScanEnv, a: ScanState, i: nat)
    requires Reached(p, env, a, i) && i < |p.targets| && !FailsAt(p, env, i)
    ensures ScanTarget(a, i, env).None? <==> Missing(p, env, i)
    ensures ScanTarget(a, i, env).Some? ==> Steps(p, env, a, i, ScanTarget(a, i, env).value)
  {
    if InBatch(p, i) {
      match p.targets[i].status
      case TargetDraining => DrainingSteps(p, env, a, i);
      case TargetDownloading => InstallingSteps(p, env, a, i);
      case TargetVerifying => InstallingSteps(p, env, a, i);
      case TargetInstalling => InstallingSteps(p, env, a, i);
      case TargetHealthChecking => HealthCheckingSteps(p, env, a, i);
      case _ =>
    }
  }

  // ---------------------------------------------------------------------------------------------
  // The loop, from the first failed upgrade on
  // ---------------------------------------------------------------------------------------------

  function FailureOf(p: Plan, env: ScanEnv, f: nat): Failure
    requires f < |p.targets|
  {
    Failure(p.currentBatch, p.targets[f].id, FailureCode(p.targets[f]), env.now)
  }

  /** What the scan has made of a target when the upgrade of target `f` is found to have failed. */
  function Met(p: Plan, env: ScanEnv, f: nat, j: nat): Target
    requires j < |p.targets|
  {
    if j < f then Settle(p, env, j) else p.targets[j]
  }

  /** A rollback begun before this scan that the loop meets after the failure, and finds overdue. */
  predicate Overdue(p: Plan, env: ScanEnv, f: nat, j: nat)
    requires j < |p.targets|
  {
    f < j && p.targets[j].status == TargetRollingBack && TimedOut(p, p.targets[j], env.now)
  }

  /** What has become of target `j` when the loop stands at target `i`. */
  predicate Undone(p: Plan, env: ScanEnv, f: nat, i: nat, j: nat, t': Target, n: Id, n': Id)
    requires f < |p.targets| && j < |p.targets|
  {
    if j < i && InBatch(p, j) && Overdue(p, env, f, j) then t' == Intervene(p.targets[j], "rollback_timeout", env.now)
    else RolledFrom(Met(p, env, f, j), t', FailureOf(p, env, f), n, n')
  }

  /** The target is sent a rollback command: its own upgrade is taken back, or a rollback under way is met. */
  predicate UndoSent(p: Plan, env: ScanEnv, f: nat, j: int, i: nat)
    requires f < |p.targets|
  {
    && InBatch(p, j)
    && (|| IsSent(Met(p, env, f, j), FailureOf(p, env, f))
        || (f < j < i && p.targets[j].status == TargetRollingBack && !Overdue(p, env, f, j)))
  }

  ghost predicate IsUndo(p: Plan, env: ScanEnv, f: nat, ts: seq<Target>, i: nat, c: Command)
    requires f < |p.targets|
  {
    exists j :: 0 <= j < |ts| && UndoSent(p, env, f, j, i) && c == UndoCommand(ts[j], ts[j].commandId)
  }

  /** The loop stands at target `i` after the batch was rolled back at target `f`. */
  ghost predicate Failing(p: Plan, n: Id, env: ScanEnv, f: nat, a: ScanState, i: nat) {
    && f < i <= |p.targets| == |a.plan.targets| && InBatch(p, f)
    && a.plan == p.(status := PlanPaused, targets := a.plan.targets)
    && AllUndone(p, n, env, f, a, i)
    && UndoesSent(p, env, f, a, i)
  }

  ghost predicate AllUndone(p: Plan, n: Id, env: ScanEnv, f: nat, a: ScanState, i: nat)
    requires f < |p.targets| == |a.plan.targets|
  {
    forall j {:trigger Undone(p, env, f, i, j, a.plan.targets[j], n, a.nextId)} ::
      0 <= j < |a.plan.targets| ==> Undone(p, env, f, i, j, a.plan.targets[j], n, a.nextId)
  }

  ghost predicate UndoesSent(p: Plan, env: ScanEnv, f: nat, a: ScanState, i: nat)
    requires f < |p.targets|
  {
    forall c {:trigger IsUndo(p, env, f, a.plan.targets, i, c)} :: c in a.commands <==> IsUndo(p, env, f, a.plan.targets, i, c)
  }

  lemma SettleKeeps(p: Plan, env: ScanEnv, j: nat)
    requires j < |p.targets|
    ensures SameIdentity(p.targets[j], Settle(p, env, j)) && Settle(p, env, j).commandId == p.targets[j].commandId
    ensures !InBatch(p, j) ==> Settle(p, env, j) == p.targets[j]
  {
  }

  predicate NamedIn(c: Command, ts: seq<Target>, batch: int) {
    exists j :: 0 <= j < |ts| && ts[j].batch == batch && c.targetId == ts[j].id
  }

  /** The kept commands stood at these places, in this order, and these are the places of commands of other batches. */
  ghost predicate KeptAt(cs: seq<Command>, ts: seq<Target>, batch: int, kept: seq<Command>, at: seq<nat>) {
    && |at| == |kept|
    && (forall k :: 0 <= k < |at| ==> at[k] < |cs| && kept[k] == cs[at[k]])
    && (forall k, l :: 0 <= k < l < |at| ==> at[k] < at[l])
    && (forall i :: 0 <= i < |cs| ==> (i in at <==> !NamedIn(cs[i], ts, batch)))
  }

  lemma KeptNext(cs: seq<Command>, c: Command, ts: seq<Target>, batch: int, kept: seq<Command>, at: seq<nat>)
    requires KeptAt(cs, ts, batch, kept, at)
    ensures if NamedIn(c, ts, batch) then KeptAt(cs + [c], ts, batch, kept, at) else KeptAt(cs + [c], ts, batch, kept + [c], at + [|cs|])
  {
    assert |cs| !in at;
    if !NamedIn(c, ts, batch) {
      var at' := at + [|cs|];
      forall i | 0 <= i < |cs| + 1
        ensures i in at' <==> !NamedIn((cs + [c])[i], ts, batch)
      {
        if i < |cs| {
          assert i in at' <==> i in at;
        } else {
          assert at'[|at|] == i;
        }
      }
    }
  }

  /** Which commands are kept when the batch is rolled back: those of other batches, all of them and in order. */
  lemma {:induction false} RemoveKeepsOthers(cs: seq<Command>, ts: seq<Target>, batch: int) returns (at: seq<nat>)
    ensures KeptAt(cs, ts, batch, RemoveBatchCommands(cs, ts, batch), at)
  {
    if |cs| == 0 {
      at := [];
    } else {
      var last := |cs| - 1;
      var front, c := cs[..last], cs[last];
      var before := RemoveKeepsOthers(front, ts, batch);
      at := RemoveNext(front, c, ts, batch, before);
      assert front + [c] == cs;
    }
  }

  lemma RemoveNext(front: seq<Command>, c: Command, ts: seq<Target>, batch: int, before: seq<nat>) returns (at: seq<nat>)
    requires KeptAt(front, ts, batch, RemoveBatchCommands(front, ts, batch), before)
    ensures KeptAt(front + [c], ts, batch, RemoveBatchCommands(front + [c], ts, batch), at)
  {
    KeptNext(front, c, ts, batch, RemoveBatchCommands(front, ts, batch), before);
    RemoveOne(front, c, ts, batch);
    at := if NamedIn(c, ts, batch) then before else before + [|front|];
  }

  lemma RemoveOne(front: seq<Command>, c: Command, ts: seq<Target>, batch: int)
    ensures RemoveBatchCommands(front + [c], ts, batch) ==
            RemoveBatchCommands(front, ts, batch) + if NamedIn(c, ts, batch) then [] else [c]
  {
    assert (front + [c])[..|front|] == front;
    assert NamedIn(c, ts, batch) <==> exists j :: 0 <= j < |ts| && ts[j].batch == batch && c.targetId == ts[j].id;
  }

  lemma {:induction false} RemoveNamed(cs: seq<Command>, ts: seq<Target>, batch: int)
    requires forall k :: 0 <= k < |cs| ==> NamedIn(cs[k], ts, batch)
    ensures RemoveBatchCommands(cs, ts, batch) == []
  {
    if |cs| > 0 {
      RemoveNamed(cs[..|cs| - 1], ts, batch);
      assert NamedIn(cs[|cs| - 1], ts, batch);
    }
  }

  /** Everything queued before is for a target of the batch. */
  lemma {:induction false} QueueNamed(p: Plan, env: ScanEnv, i: nat, ts: seq<Target>)
    requires i <= |p.targets| == |ts|
    requires forall j :: 0 <= j < |ts| ==> ts[j].id == p.targets[j].id && ts[j].batch == p.targets[j].batch
    ensures forall k :: 0 <= k < |Queue(p, env, i)| ==> NamedIn(Queue(p, env, i)[k], ts, p.currentBatch)
  {
    if i > 0 {
      var m := i - 1;
      QueueNamed(p, env, m, ts);
      SettleKeeps(p, env, m);
      var before := Queue(p, env, m);
      forall k | 0 <= k < |Queue(p, env, i)|
        ensures NamedIn(Queue(p, env, i)[k], ts, p.currentBatch)
      {
        if k < |before| {
          assert NamedIn(before[k], ts, p.currentBatch);
        } else {
          assert ts[m].batch == p.currentBatch && Queue(p, env, i)[k].targetId == ts[m].id;
        }
      }
    }
  }

  /** The first failed upgrade rolls the batch back; nothing that was queued before is sent. */
  lemma FailureStep(p: Plan, env: ScanEnv, a: ScanState, f: nat)
    requires Reached(p, env, a, f) && f < |p.targets| && FailsAt(p, env, f)
    ensures
      var r := RollbackTargets(a.plan.targets, FailureOf(p, env, f), a.nextId);
      ScanTarget(a, f, env) == Some(a.(plan := p.(status := PlanPaused, targets := r.targets), changed := true, commands := r.commands, nextId := r.nextId))
  {
    var ts := a.plan.targets;
    NothingKept(p, env, a, f);
    var commands := RollbackTargets(ts, FailureOf(p, env, f), a.nextId).commands;
    assert [] + commands == commands;
    assert ScanTarget(a, f, env) == Some(ScanRollback(a, f, FailureCode(p.targets[f]), env.now));
  }

  lemma NothingKept(p: Plan, env: ScanEnv, a: ScanState, f: nat)
    requires Reached(p, env, a, f)
    ensures RemoveBatchCommands(a.commands, a.plan.targets, p.currentBatch) == []
  {
    var ts := a.plan.targets;
    forall j | 0 <= j < |ts|
      ensures ts[j].id == p.targets[j].id && ts[j].batch == p.targets[j].batch
    {
      SettleKeeps(p, env, j);
    }
    QueueNamed(p, env, f, ts);
    RemoveNamed(a.commands, ts, p.currentBatch);
  }

  lemma FailureReached(p: Plan, env: ScanEnv, a: ScanState, f: nat)
    requires Reached(p, env, a, f) && f < |p.targets| && FailsAt(p, env, f)
    ensures ScanTarget(a, f, env).Some? && Failing(p, a.nextId, env, f, ScanTarget(a, f, env).value, f + 1)
  {
    var ts := a.plan.targets;
    var failure := FailureOf(p, env, f);
    var r := RollbackTargets(ts, failure, a.nextId);
    FailureStep(p, env, a, f);
    RollbackByStatus(ts, failure, a.nextId);
    forall j | 0 <= j < |ts|
      ensures Undone(p, env, f, f + 1, j, r.targets[j], a.nextId, r.nextId)
    {
      assert RolledFrom(ts[j], r.targets[j], failure, a.nextId, r.nextId);
    }
    forall c
      ensures c in r.commands <==> IsUndo(p, env, f, r.targets, f + 1, c)
    {
      FirstUndo(p, env, a, f, c);
    }
  }

  lemma FirstUndo(p: Plan, env: ScanEnv, a: ScanState, f: nat, c: Command)
    requires Reached(p, env, a, f) && f < |p.targets| && FailsAt(p, env, f)
    ensures
      var r := RollbackTargets(a.plan.targets, FailureOf(p, env, f), a.nextId);
      c in r.commands <==> IsUndo(p, env, f, r.targets, f + 1, c)
  {
    var ts := a.plan.targets;
    var failure := FailureOf(p, env, f);
    var r := RollbackTargets(ts, failure, a.nextId);
    RollbackByStatus(ts, failure, a.nextId);
    if c in r.commands {
      assert SentTo(c, ts, r.targets, failure);
      var j :| 0 <= j < |ts| && IsSent(ts[j], failure) && c == UndoCommand(ts[j], r.targets[j].commandId);
      assert RolledFrom(ts[j], r.targets[j], failure, a.nextId, r.nextId);
      SettleKeeps(p, env, j);
      assert UndoSent(p, env, f, j, f + 1);
    }
    if IsUndo(p, env, f, r.targets, f + 1, c) {
      var j :| 0 <= j < |ts| && UndoSent(p, env, f, j, f + 1) && c == UndoCommand(r.targets[j], r.targets[j].commandId);
      assert RolledFrom(ts[j], r.targets[j], failure, a.nextId, r.nextId);
      assert SentOnce(r.commands, UndoCommand(ts[j], r.targets[j].commandId));
    }
  }

  /** After that the loop only repeats rollback commands, and gives up rollbacks that are overdue. */
  lemma FailingStep(p: Plan, n: Id, env: ScanEnv, f: nat, a: ScanState, i: nat)
    requires p.reconnectTimeoutSeconds > 0 && Failing(p, n, env, f, a, i) && i < |p.targets|
    ensures ScanTarget(a, i, env).Some?
    ensures
      var t, a' := a.plan.targets[i], ScanTarget(a, i, env).value;
      if InBatch(p, i) && Overdue(p, env, f, i) then
        a' == a.(plan := SetTarget(a.plan, i, Intervene(p.targets[i], "rollback_timeout", env.now)), changed := true)
      else a' == a.(commands := a.commands + if UndoSent(p, env, f, i, i + 1) then [UndoCommand(t, t.commandId)] else [])
  {
    var t := a.plan.targets[i];
    assert Undone(p, env, f, i, i, t, n, a.nextId);
    assert a.commands + [] == a.commands;
  }

  lemma FailingNext(p: Plan, n: Id, env: ScanEnv, f: nat, a: ScanState, i: nat)
    requires p.reconnectTimeoutSeconds > 0 && Failing(p, n, env, f, a, i) && i < |p.targets|
    ensures ScanTarget(a, i, env).Some? && Failing(p, n, env, f, ScanTarget(a, i, env).value, i + 1)
  {
    FailingStep(p, n, env, f, a, i);
    var a' := ScanTarget(a, i, env).value;
    forall j | 0 <= j < |p.targets|
      ensures Undone(p, env, f, i + 1, j, a'.plan.targets[j], n, a'.nextId)
    {
      assert Undone(p, env, f, i, j, a.plan.targets[j], n, a.nextId);
    }
    forall c
      ensures c in a'.commands <==> IsUndo(p, env, f, a'.plan.targets, i + 1, c)
    {
      UndoNext(p, n, env, f, a, i, c);
    }
  }

  lemma UndoNext(p: Plan, n: Id, env: ScanEnv, f: nat, a: ScanState, i: nat, c: Command)
    requires p.reconnectTimeoutSeconds > 0 && Failing(p, n, env, f, a, i) && i < |p.targets| && ScanTarget(a, i, env).Some?
    ensures
      var a' := ScanTarget(a, i, env).value;
      c in a'.commands <==> IsUndo(p, env, f, a'.plan.targets, i + 1, c)
  {
    FailingStep(p, n, env, f, a, i);
    var a' := ScanTarget(a, i, env).value;
    UndoGrows(p, env, f, a.plan.targets, a'.plan.targets, i, c);
  }

  /** The commands of the targets up to `i`, and of target `i` itself. */
  lemma UndoGrows(p: Plan, env: ScanEnv, f: nat, ts: seq<Target>, ts': seq<Target>, i: nat, c: Command)
    requires f < i < |p.targets| == |ts| == |ts'|
    requires forall j :: 0 <= j < |ts| && j != i ==> ts'[j] == ts[j]
    requires !(InBatch(p, i) && Overdue(p, env, f, i)) ==> ts'[i] == ts[i]
    ensures IsUndo(p, env, f, ts', i + 1, c) <==>
            IsUndo(p, env, f, ts, i, c) || (UndoSent(p, env, f, i, i + 1) && c == UndoCommand(ts[i], ts[i].commandId))
  {
    if IsUndo(p, env, f, ts, i, c) {
      var j :| 0 <= j < |ts| && UndoSent(p, env, f, j, i) && c == UndoCommand(ts[j], ts[j].commandId);
      assert UndoSent(p, env, f, j, i + 1) && ts'[j] == ts[j];
    }
    if IsUndo(p, env, f, ts', i + 1, c) {
      var j :| 0 <= j < |ts'| && UndoSent(p, env, f, j, i + 1) && c == UndoCommand(ts'[j], ts'[j].commandId);
      if j != i {
        assert UndoSent(p, env, f, j, i) && ts'[j] == ts[j];
      }
    }
  }

  lemma LoopNext(a: ScanState, i: nat, env: ScanEnv)
    requires i < |a.plan.targets| && ScanTarget(a, i, env).Some?
    ensures ScanFrom(a, i, env) == ScanFrom(ScanTarget(a, i, env).value, i + 1, env)
  {
  }

  lemma LoopEnds(a: ScanState, i: nat, env: ScanEnv)
    requires i == |a.plan.targets|
    ensures ScanFrom(a, i, env) == Some(a)
  {
  }

  lemma FailingOn(p: Plan, n: Id, env: ScanEnv, f: nat, a: ScanState, i: nat) returns (a': ScanState)
    requires p.reconnectTimeoutSeconds > 0 && Failing(p, n, env, f, a, i) && i < |p.targets|
    ensures Failing(p, n, env, f, a', i + 1) && ScanFrom(a, i, env) == ScanFrom(a', i + 1, env)
  {
    FailingNext(p, n, env, f, a, i);
    LoopNext(a, i, env);
    a' := ScanTarget(a, i, env).value;
  }

  lemma {:induction false} FailingFrom(p: Plan, n: Id, env: ScanEnv, f: nat, a: ScanState, i: nat) returns (last: ScanState)
    requires p.reconnectTimeoutSeconds > 0 && Failing(p, n, env, f, a, i)
    ensures ScanFrom(a, i, env) == Some(last) && Failing(p, n, env, f, last, |p.targets|)
    decreases |p.targets| - i
  {
    if i == |p.targets| {
      LoopEnds(a, i, env);
      last := a;
    } else {
      var a' := FailingOn(p, n, env, f, a, i);
      var next := i + 1;
      last := FailingFrom(p, n, env, f, a', next);
    }
  }

  // ---------------------------------------------------------------------------------------------
  // Every scan
  // ---------------------------------------------------------------------------------------------

  ghost predicate NoneFails(p: Plan, env: ScanEnv, i: nat) {
    forall j :: 0 <= j < i ==> !FailsAt(p, env, j)
  }

  ghost predicate FirstFailure(p: Plan, env: ScanEnv, f: nat) {
    FailsAt(p, env, f) && NoneFails(p, env, f)
  }

  /** The scan ends with an error here: it misses something, and no failed upgrade comes first. */
  ghost predicate ErrsAt(p: Plan, env: ScanEnv, i: nat) {
    i < |p.targets| && Missing(p, env, i) && NoneFails(p, env, i)
  }

  ghost predicate Errs(p: Plan, env: ScanEnv) {
    exists i: nat :: ErrsAt(p, env, i)
  }

  ghost predicate LoopOutcome(p: Plan, n: Id, env: ScanEnv, r: Option<ScanState>) {
    && (r.None? <==> Errs(p, env))
    && (r.Some? && NoneFails(p, env, |p.targets|) ==> Reached(p, env, r.value, |p.targets|))
    && (r.Some? ==> forall f: nat :: FirstFailure(p, env, f) ==> Failing(p, n, env, f, r.value, |p.targets|))
  }

  lemma NotMissing(p: Plan, env: ScanEnv, i: nat)
    requires FailsAt(p, env, i)
    ensures !Missing(p, env, i)
  {
  }

  lemma FirstFailureIsOne(p: Plan, env: ScanEnv, f: nat, g: nat)
    requires FirstFailure(p, env, f) && FirstFailure(p, env, g)
    ensures f == g
  {
  }

  ghost predicate NoneErrs(p: Plan, env: ScanEnv, i: nat) {
    forall j :: 0 <= j < i ==> !Missing(p, env, j)
  }

  lemma EndOutcome(p: Plan, n: Id, env: ScanEnv, a: ScanState)
    requires Reached(p, env, a, |p.targets|) && NoneFails(p, env, |p.targets|) && NoneErrs(p, env, |p.targets|)
    ensures LoopOutcome(p, n, env, Some(a))
  {
  }

  lemma FailureOutcome(p: Plan, n: Id, env: ScanEnv, f: nat, a: ScanState)
    requires FirstFailure(p, env, f) && NoneErrs(p, env, f) && Failing(p, n, env, f, a, |p.targets|)
    ensures LoopOutcome(p, n, env, Some(a))
  {
    NotMissing(p, env, f);
    forall i: nat ensures !ErrsAt(p, env, i) {}
    forall g: nat | FirstFailure(p, env, g) ensures g == f { FirstFailureIsOne(p, env, f, g); }
  }

  lemma ErrorOutcome(p: Plan, n: Id, env: ScanEnv, i: nat)
    requires ErrsAt(p, env, i)
    ensures LoopOutcome(p, n, env, None)
  {
  }

  lemma FailureOn(p: Plan, env: ScanEnv, a: ScanState, f: nat) returns (a': ScanState)
    requires Reached(p, env, a, f) && f < |p.targets| && FailsAt(p, env, f)
    ensures Failing(p, a.nextId, env, f, a', f + 1) && ScanFrom(a, f, env) == ScanFrom(a', f + 1, env)
  {
    FailureReached(p, env, a, f);
    LoopNext(a, f, env);
    a' := ScanTarget(a, f, env).value;
  }

  lemma FailureFrom(p: Plan, env: ScanEnv, a: ScanState, f: nat) returns (last: ScanState)
    requires p.reconnectTimeoutSeconds > 0 && Reached(p, env, a, f) && f < |p.targets| && FailsAt(p, env, f)
    ensures ScanFrom(a, f, env) == Some(last) && Failing(p, a.nextId, env, f, last, |p.targets|)
  {
    var a' := FailureOn(p, env, a, f);
    last := FailingFrom(p, a.nextId, env, f, a', f + 1);
  }

  lemma SettledOn(p: Plan, env: ScanEnv, a: ScanState, i: nat) returns (a': ScanState)
    requires Reached(p, env, a, i) && i < |p.targets| && !FailsAt(p, env, i) && !Missing(p, env, i)
    ensures Reached(p, env, a', i + 1) && a'.nextId == a.nextId && ScanFrom(a, i, env) == ScanFrom(a', i + 1, env)
  {
    TargetSteps(p, env, a, i);
    a' := ScanTarget(a, i, env).value;
    ReachedNext(p, env, a, i, a');
    TargetKeepsIds(a, i, env, p);
    LoopNext(a, i, env);
  }

  lemma TargetKeepsIds(a: ScanState, i: nat, env: ScanEnv, p: Plan)
    requires Reached(p, env, a, i) && i < |p.targets| && !FailsAt(p, env, i) && ScanTarget(a, i, env).Some?
    ensures ScanTarget(a, i, env).value.nextId == a.nextId
  {
  }

  lemma {:induction false} LoopFrom(p: Plan, n: Id, env: ScanEnv, a: ScanState, i: nat)
    requires p.reconnectTimeoutSeconds > 0 && Reached(p, env, a, i) && NoneFails(p, env, i) && NoneErrs(p, env, i) && a.nextId == n
    ensures LoopOutcome(p, n, env, ScanFrom(a, i, env))
    decreases |p.targets| - i
  {
    if i == |p.targets| {
      LoopEnds(a, i, env);
      EndOutcome(p, n, env, a);
    } else if FailsAt(p, env, i) {
      var last := FailureFrom(p, env, a, i);
      FailureOutcome(p, n, env, i, last);
    } else if Missing(p, env, i) {
      MissingFrom(p, env, a, i);
      ErrorOutcome(p, n, env, i);
    } else {
      var a' := SettledOn(p, env, a, i);
      LoopFrom(p, n, env, a', i + 1);
    }
  }

  lemma MissingFrom(p: Plan, env: ScanEnv, a: ScanState, i: nat)
    requires Reached(p, env, a, i) && i < |p.targets| && !FailsAt(p, env, i) && Missing(p, env, i)
    ensures ScanFrom(a, i, env) == None
  {
    TargetSteps(p, env, a, i);
  }

  lemma LoopStarts(p: Plan, n: Id, env: ScanEnv)
    ensures Reached(p, env, ScanStart(p, n), 0)
  {
  }

  /** Every scan, from the loaded plan and the environment alone. It ends in an error exactly if it misses something
      before it finds a failed upgrade. If it finds none, every target is settled by what is found about it, and the
      commands are those of the settled targets, in order. If it finds one, the first of them takes the whole batch
      back, the targets settled before it included; the commands are exactly the rollback commands of the targets taken
      back and of the rollbacks under way that come after it. */
  lemma ScanOutcome(p: Plan, n: Id, env: ScanEnv)
    requires p.reconnectTimeoutSeconds > 0
    ensures ScanPlan(p, n, env).None? <==> Errs(p, env)
    ensures ScanPlan(p, n, env).Some? ==> Outcome(p, n, env, ScanPlan(p, n, env).value)
  {
    LoopStarts(p, n, env);
    LoopFrom(p, n, env, ScanStart(p, n), 0);
    if ScanPlan(p, n, env).Some? {
      FinishOutcome(p, n, env, ScanFrom(ScanStart(p, n), 0, env).value);
    }
  }

  ghost predicate Outcome(p: Plan, n: Id, env: ScanEnv, a: ScanState) {
    && |a.plan.targets| == |p.targets|
    && (NoneFails(p, env, |p.targets|) ==> AllSettled(p, env, a))
    && (forall f: nat :: FirstFailure(p, env, f) ==> f < |p.targets| && AllUndone(p, n, env, f, a, |p.targets|) && UndoesSent(p, env, f, a, |p.targets|))
    && Finishes(p, env, a.plan)
  }

  ghost predicate AllSettled(p: Plan, env: ScanEnv, a: ScanState) {
    && |a.plan.targets| == |p.targets|
    && (forall j :: 0 <= j < |p.targets| ==> a.plan.targets[j] == Settle(p, env, j))
    && a.commands == Queue(p, env, |p.targets|)
  }

  /** Which plan the scan leaves: cancelled when nothing is left to do of a plan being cancelled, on to the next batch or
      succeeded when targets are started to the end and the whole batch has succeeded, paused if something was found,
      and as it was otherwise. */
  ghost predicate Finishes(p: Plan, env: ScanEnv, q: Plan) {
    var cancelled := p.cancelRequested && AllTerminal(q.targets);
    var passed := StartsAt(p, env, |p.targets|) && BatchSucceeded(q.targets, p.currentBatch);
    var stopped := PausedBefore(p, env, |p.targets|) || !NoneFails(p, env, |p.targets|);
    var next := HasBatch(q.targets, p.currentBatch + 1);
    && q.currentBatch == (if passed && next then p.currentBatch + 1 else p.currentBatch)
    && q.status == (if cancelled then PlanCancelled else if passed && !next then PlanSucceeded else if stopped then PlanPaused else p.status)
    && q.finishedAt == (if cancelled || (passed && !next) then Some(env.now) else p.finishedAt)
  }

  lemma FinishOutcome(p: Plan, n: Id, env: ScanEnv, a: ScanState)
    requires LoopOutcome(p, n, env, Some(a))
    ensures Outcome(p, n, env, ScanFinish(a, env.now))
  {
    if NoneFails(p, env, |p.targets|) {
      SettledFinish(p, env, a);
      forall f: nat ensures !FirstFailure(p, env, f) {}
    } else {
      var f := FirstOf(p, env, |p.targets|);
      FailedFinish(p, n, env, f, a);
      forall g: nat | FirstFailure(p, env, g) ensures g == f { FirstFailureIsOne(p, env, f, g); }
    }
  }

  lemma SettledFinish(p: Plan, env: ScanEnv, a: ScanState)
    requires Reached(p, env, a, |p.targets|) && NoneFails(p, env, |p.targets|)
    ensures AllSettled(p, env, ScanFinish(a, env.now)) && Finishes(p, env, ScanFinish(a, env.now).plan)
  {
  }

  lemma FailedFinish(p: Plan, n: Id, env: ScanEnv, f: nat, a: ScanState)
    requires FirstFailure(p, env, f) && f < |p.targets| && Failing(p, n, env, f, a, |p.targets|)
    ensures
      var b := ScanFinish(a, env.now);
      && |b.plan.targets| == |p.targets|
      && AllUndone(p, n, env, f, b, |p.targets|) && UndoesSent(p, env, f, b, |p.targets|) && Finishes(p, env, b.plan)
  {
    var b := ScanFinish(a, env.now);
    assert Undone(p, env, f, |p.targets|, f, a.plan.targets[f], n, a.nextId);
    assert a.plan.targets[f].batch == p.currentBatch && a.plan.targets[f].status == TargetRollingBack;
    assert !BatchSucceeded(a.plan.targets, p.currentBatch);
    assert b.plan.targets == a.plan.targets && b.commands == a.commands && b.nextId == a.nextId;
  }

  lemma {:induction false} FirstOf(p: Plan, env: ScanEnv, i: nat) returns (f: nat)
    requires !NoneFails(p, env, i)
    ensures f < i && FirstFailure(p, env, f)
  {
    if NoneFails(p, env, i - 1) {
      f := i - 1;
    } else {
      f := FirstOf(p, env, i - 1);
    }
  }

  /** After a scan exactly those targets of the batch are a success that were one, or whose new agent the scan finds in
      order, and none if it finds a failed upgrade in the batch. */
  lemma SucceedsIff(p: Plan, n: Id, env: ScanEnv, j: nat)
    requires p.reconnectTimeoutSeconds > 0 && ScanPlan(p, n, env).Some? && j < |p.targets|
    ensures
      var q := ScanPlan(p, n, env).value.plan;
      && |q.targets| == |p.targets|
      && (q.targets[j].status == TargetSucceeded <==>
            if !InBatch(p, j) then p.targets[j].status == TargetSucceeded
            else NoneFails(p, env, |p.targets|) && (p.targets[j].status == TargetSucceeded || Confirms(p, env, j)))
  {
    ScanOutcome(p, n, env);
    var a := ScanPlan(p, n, env).value;
    if !NoneFails(p, env, |p.targets|) {
      var f := FirstOf(p, env, |p.targets|);
      assert Undone(p, env, f, |p.targets|, j, a.plan.targets[j], n, a.nextId);
      SettleKeeps(p, env, j);
    }
  }

  /** A scan never ends a rollback, and sends a target straight to rolled back only if nothing was installed on its
      server: it was waiting or draining, and some upgrade of the batch had failed. */
  lemma ScanRollsBackOnly(p: Plan, n: Id, env: ScanEnv, j: nat)
    requires p.reconnectTimeoutSeconds > 0 && ScanPlan(p, n, env).Some? && j < |p.targets|
    requires DistinctIds(p.targets)
    ensures
      var q := ScanPlan(p, n, env).value.plan;
      && |q.targets| == |p.targets|
      && (q.targets[j].status == TargetRolledBack && p.targets[j].status != TargetRolledBack ==>
            InBatch(p, j) && p.targets[j].status in {TargetWaiting, TargetDraining} && !NoneFails(p, env, |p.targets|))
  {
    ScanOutcome(p, n, env);
    var a := ScanPlan(p, n, env).value;
    if !NoneFails(p, env, |p.targets|) {
      var f := FirstOf(p, env, |p.targets|);
      assert Undone(p, env, f, |p.targets|, j, a.plan.targets[j], n, a.nextId);
      SettleKeeps(p, env, j);
    }
  }
}
