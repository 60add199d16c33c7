/** What a scan may do to a plan, proved for every plan and every environment. */
module UpgradeScan {
  import opened Common
  import opened UpgradeModel
  import opened UpgradeCoordinator

  /** The parts of a target that no coordinator operation changes. */
  predicate SameIdentity(t: Target, t': Target) {
    && t'.id == t.id && t'.serverId == t.serverId && t'.batch == t.batch
    && t'.sourceVersion == t.sourceVersion && t'.targetVersion == t.targetVersion
    && t'.sourceDraining == t.sourceDraining
    && t'.installCommandId == t.installCommandId && t'.retries == t.retries
  }

  /** A target's legal changes when identifiers are drawn from [n, n'): nothing returns to waiting,
      nothing enters or leaves cancelled, a rollback is never taken back, and a target enters
      rolling back exactly by being given a new command identifier. */
  predicate TargetMove(t: Target, t': Target, n: Id, n': Id) {
    && SameIdentity(t, t')
    && (t'.status == TargetWaiting ==> t.status == TargetWaiting)
    && (t'.status == TargetDraining ==> t.status in {TargetWaiting, TargetDraining})
    && (t'.status == TargetCancelled <==> t.status == TargetCancelled)
    && (BeforeRollback(t'.status) ==> BeforeRollback(t.status))
    && (|| (t'.commandId == t.commandId && (t'.status == TargetRollingBack ==> t.status == TargetRollingBack))
        || (n <= t'.commandId < n' && !BeforeRollback(t'.status)))
  }

  lemma TargetMoveTransitive(t: Target, t1: Target, t2: Target, n: Id, n1: Id, n2: Id)
    requires n <= n1 <= n2
    requires TargetMove(t, t1, n, n1) && TargetMove(t1, t2, n1, n2)
    ensures TargetMove(t, t2, n, n2)
  {
  }

  ghost predicate Moves(ts: seq<Target>, ts': seq<Target>, batch: int, n: Id, n': Id) {
    && |ts'| == |ts|
    && n <= n'
    && (forall j :: 0 <= j < |ts| ==> TargetMove(ts[j], ts'[j], n, n'))
    && (forall j :: 0 <= j < |ts| && ts[j].batch != batch ==> ts'[j] == ts[j])
  }

  lemma MovesTransitive(ts: seq<Target>, ts1: seq<Target>, ts2: seq<Target>, batch: int, n: Id, n1: Id, n2: Id)
    requires Moves(ts, ts1, batch, n, n1) && Moves(ts1, ts2, batch, n1, n2)
    ensures Moves(ts, ts2, batch, n, n2)
  {
    forall j | 0 <= j < |ts| ensures TargetMove(ts[j], ts2[j], n, n2) {
      TargetMoveTransitive(ts[j], ts1[j], ts2[j], n, n1, n2);
    }
    forall j | 0 <= j < |ts| && ts[j].batch != batch ensures ts2[j] == ts[j] {
      assert ts1[j] == ts[j];
    }
  }

  lemma MovesReflexive(ts: seq<Target>, batch: int, n: Id)
    ensures Moves(ts, ts, batch, n, n)
  {
  }

  lemma MovesSet(ts: seq<Target>, i: nat, t: Target, batch: int, n: Id)
    requires i < |ts| && ts[i].batch == batch && TargetMove(ts[i], t, n, n)
    ensures Moves(ts, ts[i := t], batch, n, n)
  {
  }

  lemma RollbackIsMoves(ts: seq<Target>, f: Failure, n: Id)
    ensures var r := RollbackTargets(ts, f, n); Moves(ts, r.targets, f.batch, n, r.nextId)
  {
    RollbackMoves(ts, f, n);
    var r := RollbackTargets(ts, f, n);
    forall j | 0 <= j < |ts|
      ensures TargetMove(ts[j], r.targets[j], n, r.nextId) && (ts[j].batch != f.batch ==> r.targets[j] == ts[j])
    {
      assert RolledMove(ts[j], r.targets[j], f, n, r.nextId);
    }
  }

  /** Only a plan that may start targets takes a target into draining. */
  ghost predicate DrainsOnlyIf(ts: seq<Target>, ts': seq<Target>, allowed: bool)
    requires |ts| == |ts'|
  {
    forall j :: 0 <= j < |ts| && ts'[j].status == TargetDraining && ts[j].status != TargetDraining ==> allowed
  }

  /** A queued command agrees with a target of the current batch; a target the loop has not reached
      yet can only have been queued by the rollback of its batch in this very scan. */
  ghost predicate Queued(c: Command, ts: seq<Target>, i: nat, batch: int, now: int) {
    exists j :: QueuedFor(c, ts, j, i, batch, now)
  }

  ghost predicate QueuedFor(c: Command, ts: seq<Target>, j: int, i: nat, batch: int, now: int) {
    && 0 <= j < |ts|
    && Coherent(c, ts[j])
    && ts[j].batch == batch
    && (j >= i ==> ts[j].status == TargetRollingBack && ts[j].updatedAt == now)
  }

  ghost predicate AllQueued(cs: seq<Command>, ts: seq<Target>, i: nat, batch: int, now: int) {
    forall c :: c in cs ==> Queued(c, ts, i, batch, now)
  }

  predicate MayStart(p: Plan) {
    p.status in {PlanRunning, PlanPending} && !p.cancelRequested
  }

  /** The scan loop's invariant before target `i`, for a scan that loaded plan `p` and counter `n`. */
  ghost predicate LoopInv(p: Plan, n: Id, a: ScanState, i: nat, now: int) {
    && a.plan == p.(status := a.plan.status, targets := a.plan.targets)
    && (a.plan.status == p.status || a.plan.status == PlanPaused)
    && Moves(p.targets, a.plan.targets, p.currentBatch, n, a.nextId)
    && (!a.changed ==> a.plan == p && a.nextId == n)
    && (a.mayStart ==> MayStart(p))
    && DrainsOnlyIf(p.targets, a.plan.targets, MayStart(p))
    && AllQueued(a.commands, a.plan.targets, i, p.currentBatch, now)
  }

  /** Replacing the target under the loop's hand keeps the queued commands, if none was queued for it. */
  lemma AllQueuedSet(cs: seq<Command>, ts: seq<Target>, i: nat, t: Target, batch: int, now: int)
    requires i < |ts|
    requires AllQueued(cs, ts, i, batch, now)
    requires ts[i].status == TargetRollingBack ==> ts[i].updatedAt != now
    ensures AllQueued(cs, ts[i := t], i + 1, batch, now)
  {
    forall c | c in cs ensures Queued(c, ts[i := t], i + 1, batch, now) {
      assert Queued(c, ts, i, batch, now);
      var j :| QueuedFor(c, ts, j, i, batch, now);
      assert QueuedFor(c, ts[i := t], j, i + 1, batch, now);
    }
  }

  lemma AllQueuedNext(cs: seq<Command>, ts: seq<Target>, i: nat, batch: int, now: int)
    requires AllQueued(cs, ts, i, batch, now)
    ensures AllQueued(cs, ts, i + 1, batch, now)
  {
    forall c | c in cs ensures Queued(c, ts, i + 1, batch, now) {
      assert Queued(c, ts, i, batch, now);
      var j :| QueuedFor(c, ts, j, i, batch, now);
      assert QueuedFor(c, ts, j, i + 1, batch, now);
    }
  }

  lemma AllQueuedAppend(cs: seq<Command>, c: Command, ts: seq<Target>, i: nat, batch: int, now: int)
    requires i < |ts| && ts[i].batch == batch && Coherent(c, ts[i])
    requires AllQueued(cs, ts, i + 1, batch, now)
    ensures AllQueued(cs + [c], ts, i + 1, batch, now)
  {
    assert QueuedFor(c, ts, i, i + 1, batch, now);
    forall d | d in cs + [c] ensures Queued(d, ts, i + 1, batch, now) {
      if d != c { assert d in cs; }
    }
  }

  /** Dropping a batch's commands drops everything queued for it. */
  lemma {:induction false} RemoveQueued(cs: seq<Command>, ts: seq<Target>, i: nat, batch: int, now: int)
    requires AllQueued(cs, ts, i, batch, now)
    ensures RemoveBatchCommands(cs, ts, batch) == []
  {
    if |cs| > 0 {
      var m := |cs| - 1;
      assert forall c :: c in cs[..m] ==> c in cs;
      RemoveQueued(cs[..m], ts, i, batch, now);
      assert Queued(cs[m], ts, i, batch, now);
      var j :| QueuedFor(cs[m], ts, j, i, batch, now);
      assert ts[j].batch == batch && cs[m].targetId == ts[j].id;
    }
  }

  /** The loop step that replaces target `i` by `t`. */
  lemma StepSet(p: Plan, n: Id, a: ScanState, i: nat, now: int, t: Target, status: PlanStatus, mayStart: bool, cs: seq<Command>)
    requires i < |a.plan.targets| && a.plan.targets[i].batch == p.currentBatch
    requires LoopInv(p, n, a, i, now)
    requires TargetMove(a.plan.targets[i], t, a.nextId, a.nextId)
    requires a.plan.targets[i].status == TargetRollingBack ==> a.plan.targets[i].updatedAt != now
    requires status == a.plan.status || status == PlanPaused
    requires mayStart ==> a.mayStart
    requires t.status == TargetDraining ==> a.mayStart
    requires |cs| <= 1 && forall c :: c in cs ==> Coherent(c, t)
    ensures LoopInv(p, n, a.(plan := SetTarget(a.plan, i, t).(status := status), changed := true,
                             mayStart := mayStart, commands := a.commands + cs), i + 1, now)
  {
    var ts := a.plan.targets;
    MovesSet(ts, i, t, p.currentBatch, a.nextId);
    MovesTransitive(p.targets, ts, ts[i := t], p.currentBatch, n, a.nextId, a.nextId);
    AllQueuedSet(a.commands, ts, i, t, p.currentBatch, now);
    if |cs| == 1 {
      AllQueuedAppend(a.commands, cs[0], ts[i := t], i, p.currentBatch, now);
      assert cs == [cs[0]];
    } else {
      assert a.commands + cs == a.commands;
    }
  }

  /** The loop step that leaves the plan's targets alone. */
  lemma StepKeep(p: Plan, n: Id, a: ScanState, i: nat, now: int, a': ScanState)
    requires i < |a.plan.targets| && LoopInv(p, n, a, i, now)
    requires a'.plan.targets == a.plan.targets && a'.mayStart == a.mayStart && a'.nextId == a.nextId
    requires || (a'.plan == a.plan && a'.changed == a.changed)
             || (a'.plan == a.plan.(status := PlanPaused) && a'.changed)
    requires || a'.commands == a.commands
             || (exists c :: a'.commands == a.commands + [c] && Coherent(c, a.plan.targets[i]) && a.plan.targets[i].batch == p.currentBatch)
    ensures LoopInv(p, n, a', i + 1, now)
  {
    AllQueuedNext(a.commands, a.plan.targets, i, p.currentBatch, now);
    if a'.commands != a.commands {
      var c :| a'.commands == a.commands + [c] && Coherent(c, a.plan.targets[i]) && a.plan.targets[i].batch == p.currentBatch;
      AllQueuedAppend(a.commands, c, a.plan.targets, i, p.currentBatch, now);
    }
  }

  /** The loop step that rolls the batch back: the install commands queued so far are gone. */
  lemma StepRollback(p: Plan, n: Id, a: ScanState, i: nat, now: int, errorCode: string)
    requires i < |a.plan.targets| && a.plan.targets[i].batch == p.currentBatch
    requires LoopInv(p, n, a, i, now)
    ensures LoopInv(p, n, ScanRollback(a, i, errorCode, now), i + 1, now)
  {
    var ts := a.plan.targets;
    var f := Failure(ts[i].batch, ts[i].id, errorCode, now);
    var r := RollbackTargets(ts, f, a.nextId);
    RemoveQueued(a.commands, ts, i, p.currentBatch, now);
    RollbackIsMoves(ts, f, a.nextId);
    MovesTransitive(p.targets, ts, r.targets, p.currentBatch, n, a.nextId, r.nextId);
    assert [] + r.commands == r.commands;
    RollbackQueues(ts, f, a.nextId, i + 1);
    RollbackDrainsNone(p.targets, ts, f, a.nextId, MayStart(p));
  }

  /** The commands of a rollback are queued for the targets it moves. */
  lemma RollbackQueues(ts: seq<Target>, f: Failure, n: Id, i: nat)
    ensures var r := RollbackTargets(ts, f, n); AllQueued(r.commands, r.targets, i, f.batch, f.now)
  {
    var r := RollbackTargets(ts, f, n);
    RollbackMoves(ts, f, n);
    RollbackSendsExactly(ts, f, n);
    forall c | c in r.commands ensures Queued(c, r.targets, i, f.batch, f.now) {
      assert SentFor(c, ts, r.targets, f);
      var j :| 0 <= j < |ts| && RollbackSends(ts[j], f) && c == RollbackCommand(r.targets[j]);
      assert RolledMove(ts[j], r.targets[j], f, n, r.nextId);
      assert QueuedFor(c, r.targets, j, i, f.batch, f.now);
    }
  }

  lemma RollbackDrainsNone(before: seq<Target>, ts: seq<Target>, f: Failure, n: Id, allowed: bool)
    requires |before| == |ts| && DrainsOnlyIf(before, ts, allowed)
    ensures DrainsOnlyIf(before, RollbackTargets(ts, f, n).targets, allowed)
  {
    RollbackMoves(ts, f, n);
    var r := RollbackTargets(ts, f, n);
    forall j | 0 <= j < |ts| && r.targets[j].status == TargetDraining ensures ts[j].status == TargetDraining {
      assert RolledMove(ts[j], r.targets[j], f, n, r.nextId);
    }
  }

  /** The loop step that finds another agent version than expected. */
  lemma StepSourceChanged(p: Plan, n: Id, a: ScanState, i: nat, now: int)
    requires i < |a.plan.targets| && a.plan.targets[i].batch == p.currentBatch && LoopInv(p, n, a, i, now)
    requires a.plan.targets[i].status == TargetDraining || InstallInProgress(a.plan.targets[i].status)
    ensures LoopInv(p, n, SourceVersionChanged(a, i, now), i + 1, now)
  {
    var t := a.plan.targets[i].(status := TargetManualIntervention, errorCode := "source_version_changed",
                                updatedAt := now, finishedAt := Some(now));
    StepSet(p, n, a, i, now, t, PlanPaused, false, []);
    assert a.commands + [] == a.commands;
  }

  /** The loop step that sends a drained target its command. */
  lemma StepDownload(p: Plan, n: Id, a: ScanState, i: nat, now: int, artifact: Artifact)
    requires i < |a.plan.targets| && a.plan.targets[i].batch == p.currentBatch && LoopInv(p, n, a, i, now)
    requires a.plan.targets[i].status == TargetDraining
    ensures
      var t := a.plan.targets[i].(status := TargetDownloading, attempts := a.plan.targets[i].attempts + 1, updatedAt := now);
      LoopInv(p, n, a.(plan := SetTarget(a.plan, i, t), changed := true, commands := a.commands + [InstallCommand(t, artifact)]), i + 1, now)
  {
    var t := a.plan.targets[i].(status := TargetDownloading, attempts := a.plan.targets[i].attempts + 1, updatedAt := now);
    StepSet(p, n, a, i, now, t, a.plan.status, a.mayStart, [InstallCommand(t, artifact)]);
  }

  lemma StepDraining(p: Plan, n: Id, a: ScanState, i: nat, env: ScanEnv)
    requires i < |a.plan.targets| && a.plan.targets[i].batch == p.currentBatch && a.plan.targets[i].status == TargetDraining
    requires LoopInv(p, n, a, i, env.now) && ScanDraining(a, i, env).Some?
    ensures LoopInv(p, n, ScanDraining(a, i, env).value, i + 1, env.now)
  {
    var t := a.plan.targets[i];
    var a' := ScanDraining(a, i, env).value;
    if a' == a || a' == a.(plan := a.plan.(status := PlanPaused), changed := true) {
      StepKeep(p, n, a, i, env.now, a');
    } else {
      var runtime := env.runtimes[t.serverId];
      if runtime.agentVersion != t.sourceVersion {
        StepSourceChanged(p, n, a, i, env.now);
      } else {
        StepDownload(p, n, a, i, env.now, MatchingArtifact(env.release.value, runtime.agentOs, runtime.agentArch).value);
      }
    }
  }

  lemma StepInstalling(p: Plan, n: Id, a: ScanState, i: nat, env: ScanEnv)
    requires i < |a.plan.targets| && a.plan.targets[i].batch == p.currentBatch && InstallInProgress(a.plan.targets[i].status)
    requires LoopInv(p, n, a, i, env.now) && ScanInstalling(a, i, env).Some?
    ensures LoopInv(p, n, ScanInstalling(a, i, env).value, i + 1, env.now)
  {
    var t := a.plan.targets[i];
    var runtime := env.runtimes[t.serverId];
    if runtime.agentVersion != t.sourceVersion && runtime.agentVersion != t.targetVersion {
      StepSourceChanged(p, n, a, i, env.now);
    } else {
      StepKeep(p, n, a, i, env.now, ScanInstalling(a, i, env).value);
    }
  }

  lemma StepHealthChecking(p: Plan, n: Id, a: ScanState, i: nat, env: ScanEnv)
    requires i < |a.plan.targets| && a.plan.targets[i].batch == p.currentBatch && a.plan.targets[i].status == TargetHealthChecking
    requires LoopInv(p, n, a, i, env.now) && ScanHealthChecking(a, i, env).Some?
    ensures LoopInv(p, n, ScanHealthChecking(a, i, env).value, i + 1, env.now)
  {
    var t := a.plan.targets[i];
    var a' := ScanHealthChecking(a, i, env).value;
    if a' == a {
      StepKeep(p, n, a, i, env.now, a');
    } else if a' == ScanRollback(a, i, "health_check_failed", env.now) {
      StepRollback(p, n, a, i, env.now, "health_check_failed");
    } else {
      var t' := t.(status := TargetSucceeded, updatedAt := env.now, finishedAt := Some(env.now));
      StepSet(p, n, a, i, env.now, t', a.plan.status, a.mayStart, []);
      assert a.commands + [] == a.commands;
    }
  }

  lemma StepRollingBack(p: Plan, n: Id, a: ScanState, i: nat, env: ScanEnv)
    requires i < |a.plan.targets| && a.plan.targets[i].batch == p.currentBatch && a.plan.targets[i].status == TargetRollingBack
    requires p.reconnectTimeoutSeconds > 0
    requires LoopInv(p, n, a, i, env.now)
    ensures LoopInv(p, n, ScanRollingBack(a, i, env), i + 1, env.now)
  {
    var t := a.plan.targets[i];
    if env.now - t.updatedAt >= a.plan.reconnectTimeoutSeconds * SECOND {
      var t' := t.(status := TargetManualIntervention, errorCode := "rollback_timeout",
                   updatedAt := env.now, finishedAt := Some(env.now));
      StepSet(p, n, a, i, env.now, t', PlanPaused, a.mayStart, []);
      assert a.commands + [] == a.commands;
    } else {
      StepKeep(p, n, a, i, env.now, ScanRollingBack(a, i, env));
    }
  }

  lemma StepTarget(p: Plan, n: Id, a: ScanState, i: nat, env: ScanEnv)
    requires p.reconnectTimeoutSeconds > 0
    requires i < |a.plan.targets| && LoopInv(p, n, a, i, env.now) && ScanTarget(a, i, env).Some?
    ensures LoopInv(p, n, ScanTarget(a, i, env).value, i + 1, env.now)
  {
    var t := a.plan.targets[i];
    if t.batch != a.plan.currentBatch {
      StepKeep(p, n, a, i, env.now, a);
    } else {
      match t.status
      case TargetWaiting =>
        if a.mayStart {
          StepSet(p, n, a, i, env.now, t.(status := TargetDraining, startedAt := Some(env.now), updatedAt := env.now),
                  a.plan.status, a.mayStart, []);
          assert a.commands + [] == a.commands;
        } else {
          StepKeep(p, n, a, i, env.now, a);
        }
      case TargetDraining => StepDraining(p, n, a, i, env);
      case TargetDownloading => StepInstalling(p, n, a, i, env);
      case TargetVerifying => StepInstalling(p, n, a, i, env);
      case TargetInstalling => StepInstalling(p, n, a, i, env);
      case TargetReconnecting =>
        if env.now - t.updatedAt >= a.plan.reconnectTimeoutSeconds * SECOND {
          StepRollback(p, n, a, i, env.now, "reconnect_timeout");
        } else {
          StepKeep(p, n, a, i, env.now, a);
        }
      case TargetHealthChecking => StepHealthChecking(p, n, a, i, env);
      case TargetRollingBack => StepRollingBack(p, n, a, i, env);
      case _ => StepKeep(p, n, a, i, env.now, a);
    }
  }

  lemma {:induction false} ScanLoop(p: Plan, n: Id, a: ScanState, i: nat, env: ScanEnv)
    requires p.reconnectTimeoutSeconds > 0
    requires i <= |a.plan.targets| && LoopInv(p, n, a, i, env.now) && ScanFrom(a, i, env).Some?
    ensures LoopInv(p, n, ScanFrom(a, i, env).value, |a.plan.targets|, env.now)
    decreases |a.plan.targets| - i
  {
    if i < |a.plan.targets| {
      StepTarget(p, n, a, i, env);
      ScanLoop(p, n, ScanTarget(a, i, env).value, i + 1, env);
    }
  }

  /** The plan a scan leaves and the commands it sends, when it does not end in an error. */
  ghost predicate ScanResult(p: Plan, n: Id, a: ScanState) {
    && a.plan == p.(status := a.plan.status, targets := a.plan.targets, currentBatch := a.plan.currentBatch, finishedAt := a.plan.finishedAt)
    && (!a.changed ==> a.plan == p && a.nextId == n)
    && Moves(p.targets, a.plan.targets, p.currentBatch, n, a.nextId)
    && DrainsOnlyIf(p.targets, a.plan.targets, MayStart(p))
    && AllCoherent(a.commands, a.plan.targets)
    && (|| a.plan.currentBatch == p.currentBatch
        || (&& a.plan.currentBatch == p.currentBatch + 1 && MayStart(p)
            && BatchSucceeded(a.plan.targets, p.currentBatch) && HasBatch(a.plan.targets, p.currentBatch + 1)))
    && (|| a.plan.status == p.status
        || a.plan.status == PlanPaused
        || (a.plan.status == PlanCancelled && p.cancelRequested && AllTerminal(a.plan.targets))
        || (&& a.plan.status == PlanSucceeded && MayStart(p) && a.plan.currentBatch == p.currentBatch
            && BatchSucceeded(a.plan.targets, p.currentBatch) && !HasBatch(a.plan.targets, p.currentBatch + 1)))
  }

  /** Every scan: moves only within the current batch, every command coherent with the plan it saves,
      batch advance and completion only on a batch that has succeeded as a whole. */
  lemma ScanTheorem(p: Plan, n: Id, env: ScanEnv)
    requires p.reconnectTimeoutSeconds > 0
    requires ScanPlan(p, n, env).Some?
    ensures ScanResult(p, n, ScanPlan(p, n, env).value)
  {
    var a0 := ScanStart(p, n);
    MovesReflexive(p.targets, p.currentBatch, n);
    ScanLoop(p, n, a0, 0, env);
    var a := ScanFrom(a0, 0, env).value;
    forall k | 0 <= k < |a.commands| ensures CoherentWith(a.commands[k], a.plan.targets) {
      assert Queued(a.commands[k], a.plan.targets, |a.plan.targets|, p.currentBatch, env.now);
      var j :| QueuedFor(a.commands[k], a.plan.targets, j, |a.plan.targets|, p.currentBatch, env.now);
      assert Coherent(a.commands[k], a.plan.targets[j]);
    }
  }
}
