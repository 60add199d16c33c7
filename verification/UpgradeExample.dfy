/** A whole run of the upgrade protocol, from the creation of a plan to its success, in which a target of the first
    batch ends rolled back. */
module UpgradeExample {
  import opened Common
  import opened UpgradeModel
  import opened UpgradeCoordinator
  import opened UpgradeScan
  import opened UpgradeService
  import opened UpgradeRuns
  import opened UpgradeHistory

  // ---------------------------------------------------------------------------------------------
  // Steps on a plan of two targets
  // ---------------------------------------------------------------------------------------------

  /** A running plan of two targets, one of which makes up the current batch. */
  predicate Pair(p: Plan, x: nat) {
    && |p.targets| == 2 && x < 2 && p.status == PlanRunning && !p.cancelRequested
    && p.targets[x].batch == p.currentBatch && p.targets[1 - x].batch != p.currentBatch
    && p.drainTimeoutSeconds >= 0 && p.verificationSeconds >= 0
  }

  function Runtime(version: string, seen: int): ServerRuntime {
    ServerRuntime("online", true, 0, version, "linux", "amd64", Some(seen), true)
  }

  function Env(t: Target, version: string, now: int): ScanEnv {
    ScanEnv(now, map[t.serverId := Runtime(version, now)], Some([Artifact("linux", "amd64", "")]), {t.serverId})
  }

  /** A scan of such a plan visits one target. */
  lemma ScanOne(p: Plan, x: nat, n: Id, env: ScanEnv, a: ScanState)
    requires Pair(p, x) && ScanTarget(ScanStart(p, n), x, env) == Some(a)
    requires |a.plan.targets| == 2 && a.plan.targets[1 - x] == p.targets[1 - x] && a.plan.currentBatch == p.currentBatch
    ensures ScanPlan(p, n, env) == Some(ScanFinish(a, env.now))
  {
    var start := ScanStart(p, n);
    if x == 0 {
      assert ScanTarget(a, 1, env) == Some(a);
      assert ScanFrom(a, 2, env) == Some(a);
      assert ScanFrom(a, 1, env) == Some(a);
    } else {
      assert ScanTarget(start, 0, env) == Some(start);
      assert ScanFrom(a, 2, env) == Some(a);
      assert ScanFrom(start, 1, env) == Some(a);
    }
  }

  function Draining(p: Plan, x: nat, now: int): Plan
    requires x < |p.targets|
  {
    SetTarget(p, x, p.targets[x].(status := TargetDraining, startedAt := Some(now), updatedAt := now))
  }

  lemma ScanWaiting(p: Plan, x: nat, n: Id, now: int)
    requires Pair(p, x) && p.targets[x].status == TargetWaiting
    ensures Act(Scan(Env(p.targets[x], "", now)), p, n) == Effect(Some(Draining(p, x, now)), [], n)
  {
    var a := ScanState(Draining(p, x, now), true, [], true, n);
    ScanOne(p, x, n, Env(p.targets[x], "", now), a);
    NotSucceeded(a.plan, x);
  }

  /** The current batch has a target that has not succeeded. */
  lemma NotSucceeded(p: Plan, x: nat)
    requires x < |p.targets| && p.targets[x].batch == p.currentBatch && p.targets[x].status != TargetSucceeded
    ensures !BatchSucceeded(p.targets, p.currentBatch)
  {
  }

  function Downloading(p: Plan, x: nat, now: int): Plan
    requires x < |p.targets|
  {
    SetTarget(p, x, p.targets[x].(status := TargetDownloading, attempts := p.targets[x].attempts + 1, updatedAt := now))
  }

  lemma ScanDrained(p: Plan, x: nat, n: Id, now: int)
    requires Pair(p, x) && p.targets[x].status == TargetDraining && p.targets[x].startedAt == Some(now)
    ensures
      var t := p.targets[x];
      var q := Downloading(p, x, now);
      Act(Scan(Env(t, t.sourceVersion, now)), p, n) == Effect(Some(q), [InstallCommand(q.targets[x], Artifact("linux", "amd64", ""))], n)
  {
    var t := p.targets[x];
    var q := Downloading(p, x, now);
    var artifact := Artifact("linux", "amd64", "");
    assert MatchingArtifact([artifact], "linux", "amd64") == Some(artifact);
    var none: seq<Command> := [];
    assert none + [InstallCommand(q.targets[x], artifact)] == [InstallCommand(q.targets[x], artifact)];
    var a := ScanState(q, true, [InstallCommand(q.targets[x], artifact)], true, n);
    ScanOne(p, x, n, Env(t, t.sourceVersion, now), a);
    NotSucceeded(q, x);
  }

  function ReportOf(t: Target, stage: Stage, code: string): Report {
    Report(t.serverId, t.id, t.commandId, stage, code, t.targetVersion)
  }

  lemma MatchOne(p: Plan, x: nat, stage: Stage, code: string)
    requires |p.targets| == 2 && x < 2 && p.targets[0].id != p.targets[1].id
    ensures MatchTarget(p.targets, ReportOf(p.targets[x], stage, code)) == Some(x)
  {
    var r := ReportOf(p.targets[x], stage, code);
    if x == 1 {
      assert !Matches(p.targets[0], r);
      assert p.targets[1..][0] == p.targets[1];
      assert MatchTarget(p.targets[1..], r) == Some(0);
    }
  }

  lemma EventInstalled(p: Plan, x: nat, n: Id, now: int)
    requires |p.targets| == 2 && x < 2 && p.targets[0].id != p.targets[1].id && p.targets[x].status == TargetDownloading
    ensures
      var t := p.targets[x];
      Act(AgentEvent(ReportOf(t, StageSucceeded, ""), now), p, n)
      == Effect(Some(SetTarget(p, x, t.(status := TargetReconnecting, updatedAt := now, errorCode := ""))), [], n)
  {
    MatchOne(p, x, StageSucceeded, "");
  }

  lemma HeartbeatConnected(p: Plan, x: nat, n: Id, now: int)
    requires |p.targets| == 2 && x < 2 && p.targets[0].id != p.targets[1].id && p.targets[x].status == TargetReconnecting
    ensures
      var t := p.targets[x];
      Act(Heartbeat(ReportOf(t, StageSucceeded, ""), now), p, n)
      == Effect(Some(SetTarget(p, x, t.(status := TargetHealthChecking, updatedAt := now))), [], n)
  {
    MatchOne(p, x, StageSucceeded, "");
  }

  function Finished(p: Plan, x: nat, now: int): Plan
    requires x < |p.targets|
  {
    var q := SetTarget(p, x, p.targets[x].(status := TargetSucceeded, updatedAt := now, finishedAt := Some(now)));
    if HasBatch(p.targets, p.currentBatch + 1) then q.(currentBatch := p.currentBatch + 1)
    else q.(status := PlanSucceeded, finishedAt := Some(now))
  }

  lemma ScanHealthy(p: Plan, x: nat, n: Id, now: int)
    requires Pair(p, x) && p.targets[x].status == TargetHealthChecking
    requires now == p.targets[x].updatedAt + p.verificationSeconds * SECOND + SECOND
    ensures
      var t := p.targets[x];
      Act(Scan(Env(t, t.targetVersion, now)), p, n) == Effect(Some(Finished(p, x, now)), [], n)
  {
    var t := p.targets[x];
    var q := SetTarget(p, x, t.(status := TargetSucceeded, updatedAt := now, finishedAt := Some(now)));
    var a := ScanState(q, true, [], true, n);
    VisitHealthy(p, x, n, now);
    ScanOne(p, x, n, Env(t, t.targetVersion, now), a);
    AloneSucceeded(p, x, now);
    SameBatch(p, q);
  }

  lemma VisitHealthy(p: Plan, x: nat, n: Id, now: int)
    requires Pair(p, x) && p.targets[x].status == TargetHealthChecking
    requires now == p.targets[x].updatedAt + p.verificationSeconds * SECOND + SECOND
    ensures
      var t := p.targets[x];
      var q := SetTarget(p, x, t.(status := TargetSucceeded, updatedAt := now, finishedAt := Some(now)));
      ScanTarget(ScanStart(p, n), x, Env(t, t.targetVersion, now)) == Some(ScanState(q, true, [], true, n))
  {
  }

  /** The batch of one is done. */
  lemma AloneSucceeded(p: Plan, x: nat, now: int)
    requires Pair(p, x)
    ensures
      var q := SetTarget(p, x, p.targets[x].(status := TargetSucceeded, updatedAt := now, finishedAt := Some(now)));
      BatchSucceeded(q.targets, q.currentBatch)
  {
    var q := SetTarget(p, x, p.targets[x].(status := TargetSucceeded, updatedAt := now, finishedAt := Some(now)));
    assert q.targets[x].batch == q.currentBatch;
  }

  lemma SameBatch(p: Plan, q: Plan)
    requires |q.targets| == |p.targets| && forall i :: 0 <= i < |p.targets| ==> q.targets[i].batch == p.targets[i].batch
    ensures HasBatch(q.targets, p.currentBatch + 1) <==> HasBatch(p.targets, p.currentBatch + 1)
  {
    if i :| 0 <= i < |p.targets| && p.targets[i].batch == p.currentBatch + 1 {
      assert q.targets[i].batch == p.currentBatch + 1;
    }
    if i :| 0 <= i < |q.targets| && q.targets[i].batch == p.currentBatch + 1 {
      assert p.targets[i].batch == p.currentBatch + 1;
    }
  }

  lemma EventLateFailure(p: Plan, n: Id, now: int)
    requires |p.targets| == 2 && p.targets[0].id != p.targets[1].id && p.targets[0].status == TargetSucceeded
    requires p.targets[0].batch != p.targets[1].batch
    ensures
      var t := p.targets[0];
      Act(AgentEvent(ReportOf(t, StageFailed, "stage_failed"), now), p, n)
      == Effect(Some(SetTarget(p, 0, t.(status := TargetRolledBack, updatedAt := now, finishedAt := Some(now))).(status := PlanPaused)), [], n)
  {
    var t, u := p.targets[0], p.targets[1];
    MatchOne(p, 0, StageFailed, "stage_failed");
    var f := Failure(t.batch, t.id, "stage_failed", now);
    var t' := t.(status := TargetRolledBack, updatedAt := now, finishedAt := Some(now));
    var none: seq<Target> := [];
    assert p.targets[..1] == [t] && [t][..0] == none;
    assert RollbackTargets(none, f, n) == Rolled([], [], n);
    assert none + [t'] == [t'];
    assert RollbackTargets([t], f, n) == Rolled([t'], [], n);
    assert [t'] + [u] == [t', u];
    assert RollbackTargets(p.targets, f, n) == Rolled([t', u], [], n);
    assert p.targets[0 := t'] == [t', u];
  }

  function Release(): ReleaseInfo {
    ReleaseInfo(0, "", "available", {SELF_UPGRADE}, [Artifact("linux", "amd64", "")])
  }

  function ServerOf(t: Target): ServerInfo {
    ServerInfo(t.serverId, "online", true, false, t.sourceVersion, "linux", "amd64", {SELF_UPGRADE})
  }

  lemma ResumeRest(p: Plan, n: Id)
    requires |p.targets| == 2 && p.status == PlanPaused && !p.cancelRequested && p.targets[0].status == TargetRolledBack
    ensures
      var u := p.targets[1];
      Act(OperatorResume(Some(Release()), map[u.serverId := ServerOf(u)]), p, n) == Effect(Some(p.(status := PlanRunning)), [], n)
  {
    var servers := map[p.targets[1].serverId := ServerOf(p.targets[1])];
    assert Release().artifacts[0] == Artifact("linux", "amd64", "");
    assert Resumable(p.targets[1], Release(), servers);
  }

  // ---------------------------------------------------------------------------------------------
  // Steps of a run
  // ---------------------------------------------------------------------------------------------

  function Last(ws: seq<World>): World
    requires ws != []
  {
    ws[|ws| - 1]
  }

  /** The last version of the plan, which has two targets with different identifiers. */
  ghost predicate Shows(ws: seq<World>, moves: seq<Move>, p: Plan) {
    && IsTrace(ws, moves)
    && Last(ws).versions != [] && Current(Last(ws)) == p
    && |p.targets| == 2 && p.targets[0].id != p.targets[1].id
  }

  /** An action on the current version, all of whose commands go out. */
  lemma Extend(ws: seq<World>, moves: seq<Move>, p: Plan, a: Action, q: Plan, commands: seq<Command>) returns (ws': seq<World>, moves': seq<Move>)
    requires Shows(ws, moves, p) && Enabled(a, p, Last(ws))
    requires
      var e := Act(a, p, Last(ws).nextId);
      e.saved == Some(q) && e.commands == commands
    requires |q.targets| == 2 && q.targets[0].id != q.targets[1].id
    ensures Shows(ws', moves', q.(revision := p.revision + 1))
    ensures Last(ws').sent == Last(ws).sent + Stamp(commands, q.targets)
  {
    var w := Last(ws);
    var e := Act(a, p, w.nextId);
    var m := Move(|w.versions| - 1, p, [0, 1], a, |commands|);
    var w' := World(w.versions + [q.(revision := p.revision + 1)], e.nextId, w.sent + Stamp(commands, q.targets));
    SameOrder(p);
    assert commands[..|commands|] == commands;
    assert MovesTo(w, m, w');
    ws', moves' := ws + [w'], moves + [m];
    forall i | 0 <= i < |moves'|
      ensures MovesTo(ws'[i], moves'[i], ws'[i + 1])
    {
      if i < |moves| {
        assert MovesTo(ws[i], moves[i], ws[i + 1]);
      }
    }
  }

  lemma SameOrder(p: Plan)
    requires |p.targets| == 2
    ensures Loads(p, p, [0, 1])
  {
    assert [0, 1][0] == 0 && [0, 1][1] == 1;
  }

  /** The agent has been sent the command of the target. */
  ghost predicate Told(w: World, t: Target) {
    exists k :: 0 <= k < |w.sent| && w.sent[k].command.targetId == t.id && w.sent[k].command.commandId == t.commandId
  }

  lemma StaysTold(w: World, w': World, t: Target, more: seq<Sent>)
    requires Told(w, t) && w'.sent == w.sent + more
    ensures Told(w', t)
  {
    var k :| 0 <= k < |w.sent| && w.sent[k].command.targetId == t.id && w.sent[k].command.commandId == t.commandId;
    assert w'.sent[k] == w.sent[k];
  }

  lemma NowTold(w: World, before: seq<Sent>, c: Command, targets: seq<Target>, t: Target)
    requires w.sent == before + Stamp([c], targets) && c.targetId == t.id && c.commandId == t.commandId
    ensures Told(w, t)
  {
    assert w.sent[|before|] == Stamp([c], targets)[0];
  }

  /** Up to the download: the target drains and is sent its command. */
  lemma StartOne(ws: seq<World>, moves: seq<Move>, p: Plan, x: nat, now: int) returns (ws': seq<World>, moves': seq<Move>, q: Plan)
    requires Shows(ws, moves, p) && Pair(p, x) && p.targets[x].status == TargetWaiting
    ensures Shows(ws', moves', q) && Pair(q, x) && Told(Last(ws'), q.targets[x])
    ensures q == p.(targets := q.targets, revision := q.revision) && q.targets[1 - x] == p.targets[1 - x]
    ensures q.targets[x].status == TargetDownloading && SameIdentity(p.targets[x], q.targets[x]) && q.targets[x].commandId == p.targets[x].commandId
  {
    ScanWaiting(p, x, Last(ws).nextId, now);
    var p1 := Draining(p, x, now);
    ws', moves' := Extend(ws, moves, p, Scan(Env(p.targets[x], "", now)), p1, []);
    p1 := p1.(revision := p.revision + 1);
    ScanDrained(p1, x, Last(ws').nextId, now);
    q := Downloading(p1, x, now);
    var t := p1.targets[x];
    var c := InstallCommand(q.targets[x], Artifact("linux", "amd64", ""));
    var before := Last(ws').sent;
    ws', moves' := Extend(ws', moves', p1, Scan(Env(t, t.sourceVersion, now)), q, [c]);
    NowTold(Last(ws'), before, c, q.targets, q.targets[x]);
    q := q.(revision := p1.revision + 1);
  }

  /** From the download on: the agent reports, connects, and stays healthy. */
  lemma FinishOne(ws: seq<World>, moves: seq<Move>, p: Plan, x: nat, now: int) returns (ws': seq<World>, moves': seq<Move>, q: Plan)
    requires Shows(ws, moves, p) && Pair(p, x) && Told(Last(ws), p.targets[x]) && p.targets[x].status == TargetDownloading
    ensures Shows(ws', moves', q) && Told(Last(ws'), q.targets[x])
    ensures q.targets[1 - x] == p.targets[1 - x] && SameIdentity(p.targets[x], q.targets[x])
    ensures q.targets[x].status == TargetSucceeded && q.targets[x].commandId == p.targets[x].commandId
    ensures q == p.(targets := q.targets, revision := q.revision, status := q.status, currentBatch := q.currentBatch, finishedAt := q.finishedAt)
    ensures if HasBatch(p.targets, p.currentBatch + 1) then q.status == PlanRunning && q.currentBatch == p.currentBatch + 1
            else q.status == PlanSucceeded && q.currentBatch == p.currentBatch
  {
    var p1;
    ws', moves', p1 := InstallOne(ws, moves, p, x, now);
    SameBatch(p, p1);
    ws', moves', q := ConnectOne(ws', moves', p1, x, now);
  }

  lemma InstallOne(ws: seq<World>, moves: seq<Move>, p: Plan, x: nat, now: int) returns (ws': seq<World>, moves': seq<Move>, q: Plan)
    requires Shows(ws, moves, p) && Pair(p, x) && Told(Last(ws), p.targets[x]) && p.targets[x].status == TargetDownloading
    ensures Shows(ws', moves', q) && Pair(q, x) && Told(Last(ws'), q.targets[x])
    ensures q == p.(targets := q.targets, revision := q.revision) && q.targets[1 - x] == p.targets[1 - x]
    ensures q.targets[x].status == TargetReconnecting && SameIdentity(p.targets[x], q.targets[x]) && q.targets[x].commandId == p.targets[x].commandId
  {
    var none: seq<Command> := [];
    var t := p.targets[x];
    EventInstalled(p, x, Last(ws).nextId, now);
    q := SetTarget(p, x, t.(status := TargetReconnecting, updatedAt := now, errorCode := ""));
    ws', moves' := Extend(ws, moves, p, AgentEvent(ReportOf(t, StageSucceeded, ""), now), q, []);
    StaysTold(Last(ws), Last(ws'), t, Stamp(none, q.targets));
    q := q.(revision := p.revision + 1);
  }

  lemma ConnectOne(ws: seq<World>, moves: seq<Move>, p: Plan, x: nat, now: int) returns (ws': seq<World>, moves': seq<Move>, q: Plan)
    requires Shows(ws, moves, p) && Pair(p, x) && Told(Last(ws), p.targets[x]) && p.targets[x].status == TargetReconnecting
    ensures Shows(ws', moves', q) && Told(Last(ws'), q.targets[x])
    ensures q.targets[1 - x] == p.targets[1 - x] && SameIdentity(p.targets[x], q.targets[x])
    ensures q.targets[x].status == TargetSucceeded && q.targets[x].commandId == p.targets[x].commandId
    ensures q == p.(targets := q.targets, revision := q.revision, status := q.status, currentBatch := q.currentBatch, finishedAt := q.finishedAt)
    ensures if HasBatch(p.targets, p.currentBatch + 1) then q.status == PlanRunning && q.currentBatch == p.currentBatch + 1
            else q.status == PlanSucceeded && q.currentBatch == p.currentBatch
  {
    var t := p.targets[x];
    HeartbeatConnected(p, x, Last(ws).nextId, now);
    var p1 := SetTarget(p, x, t.(status := TargetHealthChecking, updatedAt := now));
    ws', moves' := Extend(ws, moves, p, Heartbeat(ReportOf(t, StageSucceeded, ""), now), p1, []);
    p1 := p1.(revision := p.revision + 1);
    var later := now + p.verificationSeconds * SECOND + SECOND;
    ScanHealthy(p1, x, Last(ws').nextId, later);
    SameBatch(p, p1);
    q := Finished(p1, x, later);
    ws', moves' := Extend(ws', moves', p1, Scan(Env(p1.targets[x], t.targetVersion, later)), q, []);
    q := q.(revision := p1.revision + 1);
    NothingSent(Last(ws).sent, p1.targets, q.targets);
    StaysTold(Last(ws), Last(ws'), t, []);
  }

  lemma NothingSent(sent: seq<Sent>, ts: seq<Target>, us: seq<Target>)
    ensures sent + Stamp([], ts) + Stamp([], us) == sent + []
  {
  }

  /** From the start of a batch of one to its end. */
  lemma UpgradeOne(ws: seq<World>, moves: seq<Move>, p: Plan, x: nat, now: int) returns (ws': seq<World>, moves': seq<Move>, q: Plan)
    requires Shows(ws, moves, p) && Pair(p, x) && p.targets[x].status == TargetWaiting
    ensures Shows(ws', moves', q) && Told(Last(ws'), q.targets[x])
    ensures q.targets[1 - x] == p.targets[1 - x] && SameIdentity(p.targets[x], q.targets[x]) && q.targets[x].status == TargetSucceeded
    ensures q == p.(targets := q.targets, revision := q.revision, status := q.status, currentBatch := q.currentBatch, finishedAt := q.finishedAt)
    ensures if HasBatch(p.targets, p.currentBatch + 1) then q.status == PlanRunning && q.currentBatch == p.currentBatch + 1
            else q.status == PlanSucceeded && q.currentBatch == p.currentBatch
  {
    var p1;
    ws', moves', p1 := StartOne(ws, moves, p, x, now);
    SameBatch(p, p1);
    ws', moves', q := FinishOne(ws', moves', p1, x, now);
  }

  function FirstTarget(): Target {
    Target(1, 1, 1, "1.0.0", "2.0.0", false, TargetWaiting, 0, 1, 1, "", None, 0, None, 0)
  }

  function SecondTarget(): Target {
    Target(2, 2, 2, "1.0.0", "2.0.0", false, TargetWaiting, 0, 2, 2, "", None, 0, None, 0)
  }

  function FirstPlan(): Plan {
    Plan(0, 0, PlanRunning, 1, 600, 60, 60, 1, 0, false, None, [FirstTarget(), SecondTarget()])
  }

  lemma StartRun() returns (ws: seq<World>, moves: seq<Move>)
    ensures Shows(ws, moves, FirstPlan())
  {
    var p := FirstPlan();
    ws, moves := [World([p], 10, [])], [];
    assert p.targets[0] == FirstTarget() && p.targets[1] == SecondTarget();
    assert HasBatch(p.targets, 1);
    assert Fresh(p, 10);
  }

  /** The stronger "a succeeded plan has only succeeded targets" is false. The first target succeeds and its batch is
      passed; then its agent reports a failure, the batch is rolled back, the operator resumes the plan, and the
      second batch succeeds. */
  lemma SucceededPlanMayHoldRolledBackTarget() returns (ws: seq<World>, moves: seq<Move>, t: Target)
    ensures IsTrace(ws, moves) && Last(ws).versions != [] && Current(Last(ws)).status == PlanSucceeded
    ensures t in Current(Last(ws)).targets && t.status == TargetRolledBack && t.batch < Current(Last(ws)).currentBatch
  {
    ws, moves := StartRun();
    var p := FirstPlan();
    assert p.targets[1].batch == 2;
    ws, moves, p := UpgradeOne(ws, moves, p, 0, 0);
    ws, moves, p := FailAndResume(ws, moves, p);
    assert p.targets[0].batch == 1 && p.targets[1].batch == 2;
    assert !HasBatch(p.targets, 3);
    ws, moves, p := UpgradeOne(ws, moves, p, 1, 0);
    t := p.targets[0];
  }

  /** The input of `RetriedTargetDrains`: the same run up to the resume, and then the operator retries the target that
      was rolled back. Its batch is passed, and it drains. */
  lemma RetriedTargetOfPassedBatch() returns (ws: seq<World>, moves: seq<Move>, t: Target)
    ensures IsTrace(ws, moves) && Last(ws).versions != [] && Current(Last(ws)).status == PlanRunning
    ensures t in Current(Last(ws)).targets && t.status == TargetDraining && t.batch < Current(Last(ws)).currentBatch
  {
    ws, moves := StartRun();
    var p := FirstPlan();
    assert p.targets[1].batch == 2;
    ws, moves, p := UpgradeOne(ws, moves, p, 0, 0);
    ws, moves, p := FailAndResume(ws, moves, p);
    var u, now := p.targets[0], 0;
    var q := Retried(p, Last(ws).nextId, now);
    RetryFirst(p, Last(ws).nextId, now);
    ws, moves := Extend(ws, moves, p, OperatorRetry(u.id, map[u.serverId := u.sourceVersion], now), q, []);
    t := q.targets[0];
  }

  function Retried(p: Plan, n: Id, now: int): Plan
    requires |p.targets| == 2
  {
    var t := p.targets[0];
    var t' := t.(status := TargetDraining, commandId := n, installCommandId := n, attempts := t.attempts + 1,
                 errorCode := "", finishedAt := None, updatedAt := now, retries := t.retries + 1);
    SetTarget(p, 0, t').(status := PlanRunning)
  }

  lemma RetryFirst(p: Plan, n: Id, now: int)
    requires |p.targets| == 2 && !p.cancelRequested && p.targets[0].status == TargetRolledBack
    ensures
      var t := p.targets[0];
      Act(OperatorRetry(t.id, map[t.serverId := t.sourceVersion], now), p, n) == Effect(Some(Retried(p, n, now)), [], n + 1)
  {
    assert FindTarget(p.targets, p.targets[0].id) == Some(0);
  }

  lemma FailAndResume(ws: seq<World>, moves: seq<Move>, p: Plan) returns (ws': seq<World>, moves': seq<Move>, q: Plan)
    requires Shows(ws, moves, p) && p.status == PlanRunning && !p.cancelRequested && Told(Last(ws), p.targets[0])
    requires p.targets[0].status == TargetSucceeded && p.targets[0].batch != p.targets[1].batch
    ensures Shows(ws', moves', q) && q == p.(targets := q.targets, revision := q.revision)
    ensures q.targets[1] == p.targets[1] && SameIdentity(p.targets[0], q.targets[0]) && q.targets[0].status == TargetRolledBack
  {
    var t, now := p.targets[0], 0;
    EventLateFailure(p, Last(ws).nextId, now);
    var p1 := SetTarget(p, 0, t.(status := TargetRolledBack, updatedAt := now, finishedAt := Some(now))).(status := PlanPaused);
    ws', moves' := Extend(ws, moves, p, AgentEvent(ReportOf(t, StageFailed, "stage_failed"), now), p1, []);
    p1 := p1.(revision := p.revision + 1);
    ResumeRest(p1, Last(ws').nextId);
    var u := p1.targets[1];
    q := p1.(status := PlanRunning);
    ws', moves' := Extend(ws', moves', p1, OperatorResume(Some(Release()), map[u.serverId := ServerOf(u)]), q, []);
    q := q.(revision := p1.revision + 1);
  }
}
