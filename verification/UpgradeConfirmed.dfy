/** Where success and the end of a rollback come from, over every run of the upgrade protocol. */
module UpgradeConfirmed {
  import opened Common
  import opened UpgradeModel
  import opened UpgradeCoordinator
  import opened UpgradeScan
  import opened UpgradeService
  import opened UpgradeOutcome
  import opened UpgradeReports
  import opened UpgradeRuns
  import opened UpgradeHistory

  // ---------------------------------------------------------------------------------------------
  // What one saved action does to a target, by the status it ends in
  // ---------------------------------------------------------------------------------------------

  /** The action is a scan that finds the new agent of target `i` in order, and no failed upgrade in the batch. */
  ghost predicate ScanConfirms(a: Action, p: Plan, i: nat) {
    a.Scan? && Confirms(p, a.env, i) && NoneFails(p, a.env, |p.targets|)
  }

  /** The action is a heartbeat, after the restart, of an agent at exactly the new version. */
  predicate Returns(a: Action, p: Plan, i: nat)
    requires i < |p.targets|
  {
    a.Heartbeat? && Matches(p.targets[i], a.report) && p.targets[i].status == TargetReconnecting && a.report.agentVersion == p.targets[i].targetVersion
  }

  /** The action is a failed report that rolls back the batch of target `i`. */
  predicate ReportFails(a: Action, p: Plan, i: nat)
    requires i < |p.targets|
  {
    RolledBatch(a, p) == Some(p.targets[i].batch)
  }

  /** The action is a failed report of target `i` itself. */
  predicate OwnFailure(a: Action, p: Plan, i: nat)
    requires i < |p.targets|
  {
    a.AgentEvent? && a.report.stage == StageFailed && Matches(p.targets[i], a.report)
  }

  /** The agent of target `i` says that the rollback is done, or is seen at the old version again. */
  predicate OldAgain(a: Action, p: Plan, i: nat)
    requires i < |p.targets|
  {
    || (a.AgentEvent? && a.report.stage == StageRolledBack && Matches(p.targets[i], a.report))
    || (a.Heartbeat? && Matches(p.targets[i], a.report) && a.report.agentVersion == p.targets[i].sourceVersion)
  }

  /** How a target comes to be rolled back, by the status it had. */
  ghost predicate MayEnd(a: Action, p: Plan, i: nat)
    requires i < |p.targets|
  {
    match p.targets[i].status
    case TargetRolledBack => true
    case TargetRollingBack => OldAgain(a, p, i)
    case TargetWaiting | TargetDraining => ReportFails(a, p, i) || (a.Scan? && InBatch(p, i) && !NoneFails(p, a.env, |p.targets|))
    case TargetDownloading | TargetVerifying => OwnFailure(a, p, i)
    case TargetInstalling | TargetReconnecting | TargetHealthChecking | TargetSucceeded =>
      OwnFailure(a, p, i) && a.report.errorCode in OLD_FILES
    case TargetManualIntervention | TargetCancelled => false
  }

  /** The statuses that say something about the agent, and what they take. A target in its health check has not been
      touched since it was put there. */
  ghost predicate Earned(a: Action, p: Plan, i: nat, t': Target)
    requires i < |p.targets|
  {
    var t := p.targets[i];
    && (t'.status == TargetSucceeded ==> t.status == TargetSucceeded || ScanConfirms(a, p, i))
    && (t'.status == TargetHealthChecking ==> t' == t || (Returns(a, p, i) && t' == t.(status := TargetHealthChecking, updatedAt := a.now)))
    && (t'.status == TargetRolledBack ==> MayEnd(a, p, i))
  }

  lemma ScanEarned(p: Plan, n: Id, env: ScanEnv, i: nat)
    requires PlanInv(p, n) && i < |p.targets| && ScanPlan(p, n, env).Some?
    ensures
      var q := ScanPlan(p, n, env).value.plan;
      |q.targets| == |p.targets| && Earned(Scan(env), p, i, q.targets[i])
  {
    SucceedsIff(p, n, env, i);
    ScanRollsBackOnly(p, n, env, i);
    ScanStillChecks(p, n, env, i);
  }

  lemma ScanStillChecks(p: Plan, n: Id, env: ScanEnv, i: nat)
    requires p.reconnectTimeoutSeconds > 0 && i < |p.targets| && ScanPlan(p, n, env).Some?
    ensures
      var q := ScanPlan(p, n, env).value.plan;
      |q.targets| == |p.targets| && (q.targets[i].status == TargetHealthChecking ==> q.targets[i] == p.targets[i])
  {
    ScanOutcome(p, n, env);
    var a := ScanPlan(p, n, env).value;
    if !NoneFails(p, env, |p.targets|) {
      var f := FirstOf(p, env, |p.targets|);
      assert Undone(p, env, f, |p.targets|, i, a.plan.targets[i], n, a.nextId);
      SettleKeeps(p, env, i);
    }
  }

  lemma FailureEarned(a: Action, p: Plan, n: Id, j: nat, e: Effect, i: nat)
    requires DistinctIds(p.targets) && i < |p.targets| && FailedTarget(a, p) == Some(j) && !RollbackFailed(p.targets[j], a.report)
    requires BatchTakenBack(p, Failure(p.targets[j].batch, p.targets[j].id, a.report.errorCode, a.now), n, e)
    ensures Earned(a, p, i, e.saved.value.targets[i])
  {
    assert RolledFrom(p.targets[i], e.saved.value.targets[i], Failure(p.targets[j].batch, p.targets[j].id, a.report.errorCode, a.now), n, e.nextId);
  }

  lemma ProgressEarned(a: Action, p: Plan, n: Id, j: nat, e: Effect, i: nat)
    requires a.AgentEvent? && i < |p.targets| && j < |p.targets| && Matches(p.targets[j], a.report)
    requires a.report.stage != StageFailed || RollbackFailed(p.targets[j], a.report)
    requires EventEffect(p, j, a.report, a.now, n, e) && e.saved.Some?
    ensures |e.saved.value.targets| == |p.targets| && Earned(a, p, i, e.saved.value.targets[i])
  {
  }

  lemma EventEarned(p: Plan, n: Id, r: Report, now: int, i: nat)
    requires DistinctIds(p.targets) && i < |p.targets| && ApplyEvent(p, r, now, n).saved.Some?
    ensures
      var q := ApplyEvent(p, r, now, n).saved.value;
      |q.targets| == |p.targets| && Earned(AgentEvent(r, now), p, i, q.targets[i])
  {
    EventByStatus(p, r, now, n);
    var j := MatchTarget(p.targets, r).value;
    if r.stage == StageFailed && !RollbackFailed(p.targets[j], r) {
      FailureEarned(AgentEvent(r, now), p, n, j, ApplyEvent(p, r, now, n), i);
    } else {
      ProgressEarned(AgentEvent(r, now), p, n, j, ApplyEvent(p, r, now, n), i);
    }
  }

  lemma HeartbeatEarned(p: Plan, n: Id, r: Report, now: int, i: nat)
    requires i < |p.targets| && ObserveHeartbeat(p, r, now, n).saved.Some?
    ensures
      var q := ObserveHeartbeat(p, r, now, n).saved.value;
      |q.targets| == |p.targets| && Earned(Heartbeat(r, now), p, i, q.targets[i])
  {
    HeartbeatByStatus(p, r, now, n);
  }

  lemma OperatorEarned(a: Action, p: Plan, n: Id, i: nat)
    requires i < |p.targets| && Act(a, p, n).saved.Some?
    requires a.OperatorPause? || a.OperatorResume? || a.OperatorCancel? || a.OperatorRetry?
    ensures
      var q := Act(a, p, n).saved.value;
      |q.targets| == |p.targets| && Earned(a, p, i, q.targets[i])
  {
  }

  lemma ActEarned(a: Action, p: Plan, n: Id, i: nat)
    requires PlanInv(p, n) && i < |p.targets| && Act(a, p, n).saved.Some?
    ensures
      var q := Act(a, p, n).saved.value;
      |q.targets| == |p.targets| && Earned(a, p, i, q.targets[i])
  {
    match a
    case Scan(env) => ScanEarned(p, n, env, i);
    case AgentEvent(r, now) => EventEarned(p, n, r, now, i);
    case Heartbeat(r, now) => HeartbeatEarned(p, n, r, now, i);
    case _ => OperatorEarned(a, p, n, i);
  }

  // ---------------------------------------------------------------------------------------------
  // Over every run
  // ---------------------------------------------------------------------------------------------

  /** The target a target of the new version was in the copy the step worked on. */
  lemma SavedTarget(w: World, m: Move, w': World, t': Target) returns (i: nat)
    requires WorldInv(w) && MovesTo(w, m, w') && Saves(w, w')
    requires w'.versions != [] && t' in Current(w').targets
    ensures w.versions != [] && i < |m.p.targets| && m.p.targets[i] in Current(w).targets && m.p.targets[i].id == t'.id
    ensures PlanInv(m.p, w.nextId) && Saved(w, m).Some? && i < |Saved(w, m).value.targets| && Saved(w, m).value.targets[i] == t'
  {
    SavingStep(w, m, w');
    var q := Saved(w, m).value;
    i :| 0 <= i < |q.targets| && q.targets[i] == t';
    assert Advance(m.p.targets[i], q.targets[i], w.nextId, Act(m.a, m.p, w.nextId).nextId);
    assert m.p.targets[i] in m.p.targets;
  }

  lemma EarnedStep(w: World, m: Move, w': World, t': Target) returns (i: nat)
    requires WorldInv(w) && MovesTo(w, m, w') && Saves(w, w')
    requires w'.versions != [] && t' in Current(w').targets
    ensures w.versions != [] && i < |m.p.targets| && m.p.targets[i] in Current(w).targets && m.p.targets[i].id == t'.id
    ensures Earned(m.a, m.p, i, t')
  {
    i := SavedTarget(w, m, w', t');
    ActEarned(m.a, m.p, w.nextId, i);
  }

  /** A target reaches the end of a rollback, over every run, only as its status allows. Past the verification that takes
      a rollback under way, or a report of the target itself that says the old files are in place. */
  lemma RolledBackOnlyBy(ws: seq<World>, moves: seq<Move>, k: nat, t': Target) returns (i: nat)
    requires IsTrace(ws, moves) && k < |moves| && Saves(ws[k], ws[k + 1])
    requires ws[k + 1].versions != [] && t' in Current(ws[k + 1]).targets && t'.status == TargetRolledBack
    ensures ws[k].versions != [] && i < |moves[k].p.targets| && moves[k].p.targets[i] in Current(ws[k]).targets
    ensures moves[k].p.targets[i].id == t'.id && MayEnd(moves[k].a, moves[k].p, i)
  {
    StepOfTrace(ws, moves, k);
    i := EarnedStep(ws[k], moves[k], ws[k + 1], t');
  }

  predicate HasSucceeded(w: World, id: Id) {
    w.versions != [] && exists t :: t in Current(w).targets && t.id == id && t.status == TargetSucceeded
  }

  /** Step `k` is a saved scan that confirms the target. */
  ghost predicate ConfirmedAt(ws: seq<World>, moves: seq<Move>, k: nat, i: nat, id: Id)
    requires |ws| == |moves| + 1 && k < |moves|
  {
    && Saves(ws[k], ws[k + 1]) && i < |moves[k].p.targets| && moves[k].p.targets[i].id == id
    && ScanConfirms(moves[k].a, moves[k].p, i)
  }

  ghost predicate SucceedsSince(ws: seq<World>, k: nat, n: nat, id: Id)
    requires n < |ws|
  {
    forall l :: k < l <= n ==> HasSucceeded(ws[l], id)
  }

  /** In every version of every run, a target that is a success was confirmed by a scan, and has been a success ever
      since. */
  lemma {:induction false} SuccessIsConfirmed(ws: seq<World>, moves: seq<Move>, n: nat, t: Target) returns (k: nat, i: nat)
    requires IsTrace(ws, moves) && n <= |moves| && ws[n].versions != [] && t in Current(ws[n]).targets && t.status == TargetSucceeded
    ensures k < n && ConfirmedAt(ws, moves, k, i, t.id) && SucceedsSince(ws, k, n, t.id)
    decreases n
  {
    if n == 0 {
      NoneAtFirst(ws, moves, t);
    } else {
      var l := n - 1;
      var t0;
      t0, i := SuccessBefore(ws, moves, l, n, t);
      if t0.Some? {
        k, i := SuccessIsConfirmed(ws, moves, l, t0.value);
      } else {
        k := l;
      }
      StillSucceeds(ws, k, l, n, t.id);
    }
  }

  lemma StillSucceeds(ws: seq<World>, k: nat, l: nat, n: nat, id: Id)
    requires n == l + 1 < |ws| && k <= l && SucceedsSince(ws, k, l, id) && HasSucceeded(ws[n], id)
    ensures SucceedsSince(ws, k, n, id)
  {
  }

  /** A success after a step was one before it, or the step confirms it. */
  lemma SuccessBefore(ws: seq<World>, moves: seq<Move>, l: nat, n: nat, t: Target) returns (t0: Option<Target>, i: nat)
    requires IsTrace(ws, moves) && n == l + 1 <= |moves| && ws[n].versions != [] && t in Current(ws[n]).targets && t.status == TargetSucceeded
    ensures HasSucceeded(ws[n], t.id) && ws[l].versions != []
    ensures t0.Some? ==> t0.value in Current(ws[l]).targets && t0.value.id == t.id && t0.value.status == TargetSucceeded
    ensures t0.None? ==> ConfirmedAt(ws, moves, l, i, t.id)
  {
    StepOfTrace(ws, moves, l);
    if Saves(ws[l], ws[n]) {
      i := EarnedStep(ws[l], moves[l], ws[n], t);
      var was := moves[l].p.targets[i];
      t0 := if was.status == TargetSucceeded then Some(was) else None;
    } else {
      OtherStep(ws[l], moves[l], ws[n]);
      t0, i := Some(t), 0;
    }
  }

  lemma NoneAtFirst(ws: seq<World>, moves: seq<Move>, t: Target)
    requires IsTrace(ws, moves) && t in Current(ws[0]).targets
    ensures t.status == TargetWaiting
  {
    assert Fresh(ws[0].versions[0], ws[0].nextId);
  }

  /** Step `k` is a saved heartbeat of the target's agent at exactly the new version. */
  predicate ReturnedAt(ws: seq<World>, moves: seq<Move>, k: nat, i: nat, t: Target)
    requires |ws| == |moves| + 1 && k < |moves|
  {
    && Saves(ws[k], ws[k + 1]) && i < |moves[k].p.targets| && Returns(moves[k].a, moves[k].p, i)
    && t == moves[k].p.targets[i].(status := TargetHealthChecking, updatedAt := moves[k].a.now)
  }

  /** A target in its health check was put there by a heartbeat, at the time it was last updated. */
  lemma {:induction false} CheckFollowsHeartbeat(ws: seq<World>, moves: seq<Move>, n: nat, t: Target) returns (k: nat, i: nat)
    requires IsTrace(ws, moves) && n <= |moves| && ws[n].versions != [] && t in Current(ws[n]).targets && t.status == TargetHealthChecking
    ensures k < n && ReturnedAt(ws, moves, k, i, t)
    decreases n
  {
    if n == 0 {
      NoneAtFirst(ws, moves, t);
    } else {
      var l := n - 1;
      StepOfTrace(ws, moves, l);
      if Saves(ws[l], ws[l + 1]) {
        i := EarnedStep(ws[l], moves[l], ws[l + 1], t);
        if moves[l].p.targets[i] == t {
          k, i := CheckFollowsHeartbeat(ws, moves, l, t);
        } else {
          k := l;
        }
      } else {
        OtherStep(ws[l], moves[l], ws[l + 1]);
        k, i := CheckFollowsHeartbeat(ws, moves, l, t);
      }
    }
  }

  /** No success without both: the agent was heard, after its restart, at exactly the new version, and a scan at least the
      verification time later found it in order. */
  lemma SuccessWasVerified(ws: seq<World>, moves: seq<Move>, n: nat, t: Target) returns (h: nat, j: nat, k: nat, i: nat)
    requires IsTrace(ws, moves) && n <= |moves| && ws[n].versions != [] && t in Current(ws[n]).targets && t.status == TargetSucceeded
    ensures h < k < n && ConfirmedAt(ws, moves, k, i, t.id) && SucceedsSince(ws, k, n, t.id)
    ensures ReturnedAt(ws, moves, h, j, moves[k].p.targets[i])
    ensures moves[h].a.now + moves[k].p.verificationSeconds * SECOND <= moves[k].a.env.now
  {
    k, i := SuccessIsConfirmed(ws, moves, n, t);
    StepOfTrace(ws, moves, k);
    SavingStep(ws[k], moves[k], ws[k + 1]);
    assert moves[k].p.targets[i] in moves[k].p.targets;
    h, j := CheckFollowsHeartbeat(ws, moves, k, moves[k].p.targets[i]);
  }
}
