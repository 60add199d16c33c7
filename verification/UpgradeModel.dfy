/** The rolling agent upgrade: plans, targets and the commands sent to agents.

    Identifiers (`newID`) are naturals drawn from a counter, so a new identifier is one that no
    plan, target or command has used before. Times are nanoseconds. Message texts are dropped. */
module UpgradeModel {
  import opened Common

  type Id = nat
  const SECOND: int := 1_000_000_000

  datatype PlanStatus = PlanPending | PlanRunning | PlanPaused | PlanSucceeded | PlanCancelled

  datatype TargetStatus =
    | TargetWaiting | TargetDraining | TargetDownloading | TargetVerifying | TargetInstalling
    | TargetReconnecting | TargetHealthChecking | TargetSucceeded
    | TargetRollingBack | TargetRolledBack | TargetManualIntervention | TargetCancelled

  /** `retries` is a history variable: it counts the operator's retries of the target and is read by
      no operation. The attempt a command belongs to is the value of `retries` when it was sent. */
  datatype Target = Target(
    id: Id, serverId: Id, batch: int, sourceVersion: string, targetVersion: string, sourceDraining: bool,
    status: TargetStatus, attempts: nat, commandId: Id, installCommandId: Id, errorCode: string,
    startedAt: Option<int>, updatedAt: int, finishedAt: Option<int>, retries: nat)

  datatype Plan = Plan(
    id: Id, releaseId: Id, status: PlanStatus, batchSize: int, drainTimeoutSeconds: int,
    reconnectTimeoutSeconds: int, verificationSeconds: int, currentBatch: int, revision: nat,
    cancelRequested: bool, finishedAt: Option<int>, targets: seq<Target>)

  datatype Artifact = Artifact(os: string, arch: string, sha256: string)

  datatype ServerRuntime = ServerRuntime(
    status: string, enabled: bool, runningTasks: int, agentVersion: string,
    agentOs: string, agentArch: string, lastSeenAt: Option<int>, hasSnapshot: bool)

  datatype Command =
    | Install(serverId: Id, targetId: Id, commandId: Id, sourceVersion: string, targetVersion: string, artifact: Artifact)
    | Rollback(serverId: Id, targetId: Id, commandId: Id, sourceVersion: string, targetVersion: string, installCommandId: Id)
  {
    /** The install attempt the command speaks about. */
    function InstallId(): Id {
      if Install? then commandId else installCommandId
    }
  }

  /** A command together with the attempt number of its target at the time it was sent. */
  datatype Sent = Sent(attempt: nat, command: Command)

  /** What one load of a plan leads to: a plan to save (with the loaded revision), the commands to send
      once the save has gone through, and the identifier counter. */
  datatype Effect = Effect(saved: Option<Plan>, commands: seq<Command>, nextId: Id)

  predicate Active(plan: Plan) {
    plan.status in {PlanPending, PlanRunning, PlanPaused}
  }

  predicate Terminal(status: TargetStatus) {
    status in {TargetSucceeded, TargetRolledBack, TargetManualIntervention, TargetCancelled}
  }

  /** The statuses a target passes through before its rollback begins. */
  predicate BeforeRollback(status: TargetStatus) {
    status in {TargetWaiting, TargetDraining, TargetDownloading, TargetVerifying, TargetInstalling,
               TargetReconnecting, TargetHealthChecking, TargetSucceeded}
  }

  predicate InstallInProgress(status: TargetStatus) {
    status in {TargetDownloading, TargetVerifying, TargetInstalling}
  }

  predicate DistinctIds(targets: seq<Target>) {
    forall i, j :: 0 <= i < j < |targets| ==> targets[i].id != targets[j].id
  }

  predicate AllTerminal(targets: seq<Target>) {
    forall i :: 0 <= i < |targets| ==> Terminal(targets[i].status)
  }

  predicate HasBatch(targets: seq<Target>, batch: int) {
    exists i :: 0 <= i < |targets| && targets[i].batch == batch
  }

  /** The batch has a member and every member has succeeded. */
  predicate BatchSucceeded(targets: seq<Target>, batch: int) {
    && HasBatch(targets, batch)
    && forall i :: 0 <= i < |targets| && targets[i].batch == batch ==> targets[i].status == TargetSucceeded
  }

  function InstallCommand(target: Target, artifact: Artifact): Command {
    Install(target.serverId, target.id, target.commandId, target.sourceVersion, target.targetVersion, artifact)
  }

  function RollbackCommand(target: Target): Command {
    Rollback(target.serverId, target.id, target.commandId, target.targetVersion, target.sourceVersion,
             target.installCommandId)
  }

  /** What a command must agree with in the plan that was saved before it was sent. */
  predicate Coherent(command: Command, target: Target) {
    && command.serverId == target.serverId
    && command.targetId == target.id
    && command.commandId == target.commandId
    && (command.Install? ==> InstallInProgress(target.status))
    && (command.Rollback? ==> target.status == TargetRollingBack && command.installCommandId == target.installCommandId)
  }

  ghost predicate CoherentWith(command: Command, targets: seq<Target>) {
    exists i :: 0 <= i < |targets| && Coherent(command, targets[i])
  }

  ghost predicate AllCoherent(commands: seq<Command>, targets: seq<Target>) {
    forall k :: 0 <= k < |commands| ==> CoherentWith(commands[k], targets)
  }
}
