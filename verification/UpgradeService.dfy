/** The operator's actions on a plan (internal/agentupgrade/service.go). */
module UpgradeService {
  import opened Common
  import opened UpgradeModel
  import opened UpgradeCoordinator

  datatype ServerInfo = ServerInfo(
    id: Id, status: string, enabled: bool, draining: bool, agentVersion: string, agentOs: string, agentArch: string,
    capabilities: set<string>)

  datatype ReleaseInfo = ReleaseInfo(id: Id, version: string, status: string, capabilities: set<string>, artifacts: seq<Artifact>)

  const SELF_UPGRADE: string := "self_upgrade_v1"

  predicate Usable(release: ReleaseInfo) {
    release.status == "available" && SELF_UPGRADE in release.capabilities
  }

  predicate Eligible(server: ServerInfo) {
    server.enabled && server.status in {"online", "draining"}
  }

  predicate HasArtifact(release: ReleaseInfo, os: string, arch: string) {
    exists i :: 0 <= i < |release.artifacts| && release.artifacts[i].os == os && release.artifacts[i].arch == arch
  }

  function Pause(p: Plan, n: Id): Effect {
    if p.status !in {PlanPending, PlanRunning} then Effect(None, [], n)
    else Effect(Some(p.(status := PlanPaused)), [], n)
  }

  /** A target that has not been installed yet can still be started on its server. */
  predicate Resumable(t: Target, release: ReleaseInfo, servers: map<Id, ServerInfo>) {
    t.status in {TargetWaiting, TargetDraining} ==>
      && t.serverId in servers
      && Eligible(servers[t.serverId])
      && SELF_UPGRADE in servers[t.serverId].capabilities
      && servers[t.serverId].agentVersion == t.sourceVersion
      && HasArtifact(release, servers[t.serverId].agentOs, servers[t.serverId].agentArch)
  }

  function Resume(p: Plan, release: Option<ReleaseInfo>, servers: map<Id, ServerInfo>, n: Id): Effect {
    if p.status != PlanPaused || p.cancelRequested || release.None? || !Usable(release.value) then Effect(None, [], n)
    else if exists i :: 0 <= i < |p.targets| && !Resumable(p.targets[i], release.value, servers) then Effect(None, [], n)
    else Effect(Some(p.(status := PlanRunning)), [], n)
  }

  function CancelTarget(t: Target, now: int): Target {
    if t.status == TargetWaiting then t.(status := TargetCancelled, updatedAt := now, finishedAt := Some(now)) else t
  }

  function Cancel(p: Plan, now: int, n: Id): Effect {
    if !Active(p) || p.cancelRequested then Effect(None, [], n)
    else
      var targets := seq(|p.targets|, i requires 0 <= i < |p.targets| => CancelTarget(p.targets[i], now));
      var started := exists i :: 0 <= i < |p.targets| && p.targets[i].status != TargetWaiting && !Terminal(p.targets[i].status);
      if started then Effect(Some(p.(targets := targets, status := PlanPaused, cancelRequested := true)), [], n)
      else Effect(Some(p.(targets := targets, status := PlanCancelled, cancelRequested := true, finishedAt := Some(now))), [], n)
  }

  function FindTarget(ts: seq<Target>, id: Id): (found: Option<nat>)
    ensures found.Some? ==> found.value < |ts| && ts[found.value].id == id
    ensures forall i :: 0 <= i < (if found.Some? then found.value else |ts|) ==> ts[i].id != id
  {
    if |ts| == 0 then None
    else if ts[0].id == id then Some(0)
    else match FindTarget(ts[1..], id)
      case None => None
      case Some(i) => Some(i + 1)
  }

  /** `agentVersions` is what the servers table says; a server that is gone has no entry. */
  function RetryTarget(p: Plan, targetId: Id, agentVersions: map<Id, string>, now: int, n: Id): Effect {
    if p.cancelRequested then Effect(None, [], n)
    else match FindTarget(p.targets, targetId)
      case None => Effect(None, [], n)
      case Some(i) =>
        var t := p.targets[i];
        if t.status !in {TargetRolledBack, TargetManualIntervention} then Effect(None, [], n)
        else if t.serverId !in agentVersions || agentVersions[t.serverId] != t.sourceVersion then Effect(None, [], n)
        else
          var t' := t.(status := TargetDraining, commandId := n, installCommandId := n, attempts := t.attempts + 1,
                       errorCode := "", finishedAt := None, updatedAt := now, retries := t.retries + 1);
          Effect(Some(SetTarget(p, i, t').(status := PlanRunning)), [], n + 1)
  }
}
