/** The coordinator's loops in the source's own form, proved against the specification functions. */
module UpgradeLoops {
  import opened Common
  import opened UpgradeModel
  import opened UpgradeCoordinator

  /** `rollbackBatch`: rewrites the targets in place. */
  method RollbackBatch(targets: array<Target>, f: Failure, n: Id) returns (commands: seq<Command>, n': Id)
    modifies targets
    ensures Rolled(targets[..], commands, n') == RollbackTargets(old(targets[..]), f, n)
  {
    commands, n' := [], n;
    ghost var was := targets[..];
    var index := 0;
    while index < targets.Length
      invariant 0 <= index <= targets.Length
      invariant Rolled(targets[..index], commands, n') == RollbackTargets(was[..index], f, n)
      invariant targets[index..] == was[index..]
    {
      assert was[..index + 1][..index] == was[..index];
      assert targets[index] == was[index] by { assert targets[index..][0] == was[index..][0]; }
      ghost var done := targets[..index];
      ghost var later := targets[index + 1..];
      assert later == was[index + 1..] by { assert later == targets[index..][1..]; assert was[index + 1..] == was[index..][1..]; }
      var target := targets[index];
      if !RollbackSkips(target, f) {
        if Uninstalled(target, f) {
          targets[index] := target.(status := TargetRolledBack, updatedAt := f.now, finishedAt := Some(f.now));
        } else {
          targets[index] := target.(status := TargetRollingBack, commandId := n', updatedAt := f.now, finishedAt := None);
          commands := commands + [RollbackCommand(targets[index])];
          n' := n' + 1;
        }
      }
      assert targets[..index + 1] == done + [targets[index]];
      assert targets[index + 1..] == later;
      index := index + 1;
    }
    assert targets[..index] == targets[..] && was[..index] == was;
  }

  /** `withoutBatchCommands`: moves the commands that stay to the front of the same buffer. */
  method WithoutBatchCommands(commands: array<Command>, targets: seq<Target>, batch: int) returns (kept: nat)
    modifies commands
    ensures kept <= commands.Length
    ensures commands[..kept] == RemoveBatchCommands(old(commands[..]), targets, batch)
  {
    kept := 0;
    ghost var was := commands[..];
    var index := 0;
    while index < commands.Length
      invariant 0 <= kept <= index <= commands.Length
      invariant commands[..kept] == RemoveBatchCommands(was[..index], targets, batch)
      invariant forall k :: index <= k < commands.Length ==> commands[k] == was[k]
    {
      assert was[..index + 1][..index] == was[..index];
      var command := commands[index];
      var remove := false;
      var k := 0;
      while k < |targets| && !remove
        invariant 0 <= k <= |targets|
        invariant remove <==> exists j :: 0 <= j < k && targets[j].batch == batch && command.targetId == targets[j].id
      {
        if targets[k].batch == batch && command.targetId == targets[k].id {
          remove := true;
        }
        k := k + 1;
      }
      if !remove {
        ghost var front := commands[..kept];
        commands[kept] := command;
        kept := kept + 1;
        assert commands[..kept] == front + [command];
      }
      index := index + 1;
    }
    assert was[..index] == was;
  }

  method CheckBatchSucceeded(targets: array<Target>, batch: int) returns (b: bool)
    ensures b == BatchSucceeded(targets[..], batch)
  {
    var found := false;
    var index := 0;
    while index < targets.Length
      invariant 0 <= index <= targets.Length
      invariant found <==> exists i :: 0 <= i < index && targets[..][i].batch == batch
      invariant forall i :: 0 <= i < index && targets[..][i].batch == batch ==> targets[..][i].status == TargetSucceeded
    {
      var t := targets[index];
      assert t == targets[..][index];
      if t.batch == batch {
        found := true;
        if t.status != TargetSucceeded {
          return false;
        }
      }
      index := index + 1;
    }
    b := found;
  }

  method CheckHasBatch(targets: array<Target>, batch: int) returns (b: bool)
    ensures b == HasBatch(targets[..], batch)
  {
    var index := 0;
    while index < targets.Length
      invariant 0 <= index <= targets.Length
      invariant forall i :: 0 <= i < index ==> targets[..][i].batch != batch
    {
      if targets[index].batch == batch {
        assert targets[..][index].batch == batch;
        return true;
      }
      index := index + 1;
    }
    b := false;
  }

  method CheckAllTerminal(targets: array<Target>) returns (b: bool)
    ensures b == AllTerminal(targets[..])
  {
    var index := 0;
    while index < targets.Length
      invariant 0 <= index <= targets.Length
      invariant forall i :: 0 <= i < index ==> Terminal(targets[..][i].status)
    {
      if !Terminal(targets[index].status) {
        assert !Terminal(targets[..][index].status);
        return false;
      }
      index := index + 1;
    }
    b := true;
  }

  /** The working copy of the plan and the local variables of one scan. */
  class ScanLoop {
    const loaded: Plan
    const targets: array<Target>
    var status: PlanStatus
    var changed: bool
    var commands: seq<Command>
    var mayStart: bool
    var nextId: Id

    ghost function View(): ScanState
      reads this, targets
    {
      ScanState(loaded.(status := status, targets := targets[..]), changed, commands, mayStart, nextId)
    }

    constructor (p: Plan, n: Id)
      ensures fresh(targets) && loaded == p && View() == ScanStart(p, n)
    {
      loaded := p;
      targets := new Target[|p.targets|](i requires 0 <= i < |p.targets| => p.targets[i]);
      status, changed, commands, nextId := p.status, false, [], n;
      mayStart := (p.status == PlanRunning || p.status == PlanPending) && !p.cancelRequested;
      new;
      assert targets[..] == p.targets;
    }

    method Replace(index: nat, t: Target)
      requires index < targets.Length
      modifies this`changed, targets
      ensures View() == old(View()).(plan := SetTarget(old(View()).plan, index, t), changed := true)
    {
      targets[index] := t;
      changed := true;
      assert targets[..] == old(targets[..])[index := t];
    }

    method MarkSourceVersionChanged(index: nat, now: int)
      requires index < targets.Length
      modifies this, targets
      ensures View() == SourceVersionChanged(old(View()), index, now)
    {
      Replace(index, targets[index].(status := TargetManualIntervention, errorCode := "source_version_changed",
                                     updatedAt := now, finishedAt := Some(now)));
      status, mayStart := PlanPaused, false;
    }

    /** Drops the batch's queued commands, rolls the batch back and queues the rollback commands. */
    method RollBack(index: nat, errorCode: string, now: int)
      requires index < targets.Length
      modifies this, targets
      ensures View() == ScanRollback(old(View()), index, errorCode, now)
    {
      var t := targets[index];
      var buffer := new Command[|commands|](i requires 0 <= i < |commands| reads this => commands[i]);
      assert buffer[..] == commands;
      var kept := WithoutBatchCommands(buffer, targets[..], t.batch);
      var rollbacks, n := RollbackBatch(targets, Failure(t.batch, t.id, errorCode, now), nextId);
      status, changed, commands, nextId := PlanPaused, true, buffer[..kept] + rollbacks, n;
    }

    method VisitDraining(index: nat, env: ScanEnv) returns (ok: bool)
      requires index < targets.Length
      modifies this, targets
      ensures ok <==> ScanDraining(old(View()), index, env).Some?
      ensures ok ==> View() == ScanDraining(old(View()), index, env).value
    {
      var t := targets[index];
      if !mayStart && !loaded.cancelRequested {
        return true;
      }
      if t.startedAt.Some? && env.now - t.startedAt.value > loaded.drainTimeoutSeconds * SECOND {
        status, changed := PlanPaused, true;
        return true;
      }
      if t.serverId !in env.drainable || t.serverId !in env.runtimes {
        return false;
      }
      var runtime := env.runtimes[t.serverId];
      if !runtime.enabled || (runtime.status != "online" && runtime.status != "draining") || runtime.runningTasks > 0 {
        return true;
      }
      if runtime.agentVersion != t.sourceVersion {
        MarkSourceVersionChanged(index, env.now);
        return true;
      }
      if env.release.None? {
        return false;
      }
      var artifact := MatchingArtifact(env.release.value, runtime.agentOs, runtime.agentArch);
      if artifact.None? {
        return false;
      }
      Replace(index, t.(status := TargetDownloading, attempts := t.attempts + 1, updatedAt := env.now));
      commands := commands + [InstallCommand(targets[index], artifact.value)];
      ok := true;
    }

    method VisitInstalling(index: nat, env: ScanEnv) returns (ok: bool)
      requires index < targets.Length
      modifies this, targets
      ensures ok <==> ScanInstalling(old(View()), index, env).Some?
      ensures ok ==> View() == ScanInstalling(old(View()), index, env).value
    {
      var t := targets[index];
      if t.serverId !in env.runtimes {
        return false;
      }
      var runtime := env.runtimes[t.serverId];
      if runtime.agentVersion != t.sourceVersion && runtime.agentVersion != t.targetVersion {
        MarkSourceVersionChanged(index, env.now);
        return true;
      }
      if env.release.None? {
        return false;
      }
      var artifact := MatchingArtifact(env.release.value, runtime.agentOs, runtime.agentArch);
      if artifact.None? {
        return false;
      }
      commands := commands + [InstallCommand(t, artifact.value)];
      ok := true;
    }

    method VisitHealthChecking(index: nat, env: ScanEnv) returns (ok: bool)
      requires index < targets.Length
      modifies this, targets
      ensures ok <==> ScanHealthChecking(old(View()), index, env).Some?
      ensures ok ==> View() == ScanHealthChecking(old(View()), index, env).value
    {
      var t := targets[index];
      if t.serverId !in env.runtimes {
        return false;
      }
      var runtime := env.runtimes[t.serverId];
      if !RuntimeAvailable(runtime, t.targetVersion, env.now) {
        RollBack(index, "health_check_failed", env.now);
      } else if env.now - t.updatedAt >= loaded.verificationSeconds * SECOND {
        if runtime.lastSeenAt.None? || runtime.lastSeenAt.value <= t.updatedAt {
          RollBack(index, "health_check_failed", env.now);
          return true;
        }
        if !t.sourceDraining && t.serverId !in env.drainable {
          return false;
        }
        Replace(index, t.(status := TargetSucceeded, updatedAt := env.now, finishedAt := Some(env.now)));
      }
      ok := true;
    }

    method VisitRollingBack(index: nat, env: ScanEnv)
      requires index < targets.Length
      modifies this, targets
      ensures View() == ScanRollingBack(old(View()), index, env)
    {
      var t := targets[index];
      if env.now - t.updatedAt >= loaded.reconnectTimeoutSeconds * SECOND {
        Replace(index, t.(status := TargetManualIntervention, errorCode := "rollback_timeout",
                          updatedAt := env.now, finishedAt := Some(env.now)));
        status := PlanPaused;
      } else {
        commands := commands + [RollbackCommand(t)];
      }
    }

    /** The body of the loop; false is an error. */
    method Visit(index: nat, env: ScanEnv) returns (ok: bool)
      requires index < targets.Length
      modifies this, targets
      ensures ok <==> ScanTarget(old(View()), index, env).Some?
      ensures ok ==> View() == ScanTarget(old(View()), index, env).value
    {
      ok := true;
      var t := targets[index];
      if t.batch != loaded.currentBatch {
        return;
      }
      match t.status
      case TargetWaiting =>
        if mayStart {
          Replace(index, t.(status := TargetDraining, startedAt := Some(env.now), updatedAt := env.now));
        }
      case TargetDraining => ok := VisitDraining(index, env);
      case TargetDownloading => ok := VisitInstalling(index, env);
      case TargetVerifying => ok := VisitInstalling(index, env);
      case TargetInstalling => ok := VisitInstalling(index, env);
      case TargetReconnecting =>
        if env.now - t.updatedAt >= loaded.reconnectTimeoutSeconds * SECOND {
          RollBack(index, "reconnect_timeout", env.now);
        }
      case TargetHealthChecking => ok := VisitHealthChecking(index, env);
      case TargetRollingBack => VisitRollingBack(index, env);
      case _ =>
    }
  }

  /** `Scan` up to the point where it saves and sends: the plan to save (if changed) and the commands. */
  method ScanActive(p: Plan, n: Id, env: ScanEnv) returns (r: Option<ScanState>)
    ensures r == ScanPlan(p, n, env)
  {
    var loop := new ScanLoop(p, n);
    var index := 0;
    while index < loop.targets.Length
      invariant 0 <= index <= loop.targets.Length && fresh(loop) && fresh(loop.targets)
      invariant ScanFrom(ScanStart(p, n), 0, env) == ScanFrom(loop.View(), index, env)
    {
      var ok := loop.Visit(index, env);
      if !ok {
        return None;
      }
      index := index + 1;
    }
    assert ScanFrom(ScanStart(p, n), 0, env) == Some(loop.View());
    var plan := p.(status := loop.status, targets := loop.targets[..]);
    var changed := loop.changed;
    var terminal := CheckAllTerminal(loop.targets);
    var succeeded := CheckBatchSucceeded(loop.targets, p.currentBatch);
    var another := CheckHasBatch(loop.targets, p.currentBatch + 1);
    if p.cancelRequested && terminal {
      plan, changed := plan.(status := PlanCancelled, finishedAt := Some(env.now)), true;
    } else if loop.mayStart && succeeded {
      if another {
        plan, changed := plan.(currentBatch := plan.currentBatch + 1), true;
      } else {
        plan, changed := plan.(status := PlanSucceeded, finishedAt := Some(env.now)), true;
      }
    }
    r := Some(ScanState(plan, changed, loop.commands, loop.mayStart, loop.nextId));
  }
}
