/** What whole runs of the upgrade protocol say about batches already passed: which step breaks the success of a
    target, and what becomes of one that is retried. */
module UpgradeHistory {
  import opened Common
  import opened UpgradeModel
  import opened UpgradeCoordinator
  import opened UpgradeScan
  import opened UpgradeService
  import opened UpgradeRuns

  /** One step of a run: the version loaded, the copy worked on, the action and the commands that went out. */
  datatype Move = Move(k: nat, p: Plan, order: seq<nat>, a: Action, delivered: nat)

  ghost predicate MovesTo(w: World, m: Move, w': World) {
    StepWith(w, w', m.k, m.p, m.order, m.a, m.delivered)
  }

  /** A run with the steps that make it. */
  ghost predicate IsTrace(ws: seq<World>, moves: seq<Move>) {
    && |ws| == |moves| + 1
    && Init(ws[0])
    && forall i :: 0 <= i < |moves| ==> MovesTo(ws[i], moves[i], ws[i + 1])
  }

  lemma TraceIsRun(ws: seq<World>, moves: seq<Move>)
    requires IsTrace(ws, moves)
    ensures IsRun(ws)
  {
    forall i | 0 <= i < |ws| - 1
      ensures Step(ws[i], ws[i + 1])
    {
      assert MovesTo(ws[i], moves[i], ws[i + 1]);
    }
  }

  /** Every run has its steps. */
  lemma {:induction false} RunHasTrace(ws: seq<World>) returns (moves: seq<Move>)
    requires IsRun(ws)
    ensures IsTrace(ws, moves)
    decreases |ws|
  {
    if |ws| == 1 {
      moves := [];
    } else {
      var n := |ws| - 1;
      var init := ws[..n];
      forall i | 0 <= i < |init| - 1
        ensures Step(init[i], init[i + 1])
      {
        assert Step(ws[i], ws[i + 1]);
      }
      var before := RunHasTrace(init);
      assert Step(ws[n - 1], ws[n - 1 + 1]);
      var k, p, order, a, delivered :| StepWith(ws[n - 1], ws[n], k, p, order, a, delivered);
      moves := before + [Move(k, p, order, a, delivered)];
      forall i | 0 <= i < |moves|
        ensures MovesTo(ws[i], moves[i], ws[i + 1])
      {
        if i < n - 1 {
          assert MovesTo(init[i], before[i], init[i + 1]);
        }
      }
    }
  }

  /** The step saved a new version. */
  predicate Saves(w: World, w': World) {
    |w'.versions| > |w.versions|
  }

  // ---------------------------------------------------------------------------------------------
  // What one saved action does to batches already passed
  // ---------------------------------------------------------------------------------------------

  /** The index of the target a failed report is taken for. */
  function FailedTarget(a: Action, p: Plan): (r: Option<nat>)
    ensures r.Some? ==> r.value < |p.targets| && a.AgentEvent? && Matches(p.targets[r.value], a.report)
  {
    if a.AgentEvent? && a.report.stage == StageFailed then MatchTarget(p.targets, a.report) else None
  }

  /** A failed report for a target of a batch already passed. */
  predicate LateFailure(a: Action, p: Plan) {
    FailedTarget(a, p).Some? && p.targets[FailedTarget(a, p).value].batch < p.currentBatch
  }

  /** The batch a failed report rolls back; a failed rollback concerns its own target only. */
  function RolledBatch(a: Action, p: Plan): Option<int> {
    match FailedTarget(a, p)
    case None => None
    case Some(i) =>
      if a.report.errorCode == "rollback_failed" || p.targets[i].status == TargetRollingBack then None
      else Some(p.targets[i].batch)
  }

  /** A target of a passed batch succeeds no more, keeps its success without a late failure, and loses it if it is
      the one reported. A draining one stays so, unless its batch is rolled back or the report is its own. */
  predicate PassedMove(a: Action, p: Plan, i: nat, t': Target)
    requires i < |p.targets|
  {
    var t := p.targets[i];
    && (t'.status == TargetSucceeded ==> t.status == TargetSucceeded)
    && (t.status == TargetSucceeded && !LateFailure(a, p) ==> t'.status == TargetSucceeded)
    && (LateFailure(a, p) && FailedTarget(a, p).value == i ==> t'.status != TargetSucceeded)
    && (t.status == TargetDraining && !((a.AgentEvent? || a.Heartbeat?) && Matches(t, a.report)) ==>
          t'.commandId == t.commandId && t'.status == if RolledBatch(a, p) == Some(t.batch) then TargetRolledBack else TargetDraining)
  }

  lemma ScanPassed(p: Plan, n: Id, env: ScanEnv, i: nat)
    requires PlanInv(p, n) && Active(p) && i < |p.targets| && p.targets[i].batch < p.currentBatch
    requires Act(Scan(env), p, n).saved.Some?
    ensures
      var q := Act(Scan(env), p, n).saved.value;
      |q.targets| == |p.targets| && PassedMove(Scan(env), p, i, q.targets[i])
  {
    ScanTheorem(p, n, env);
  }

  lemma EventPassed(p: Plan, n: Id, r: Report, now: int, i: nat)
    requires i < |p.targets| && p.targets[i].batch < p.currentBatch
    requires ApplyEvent(p, r, now, n).saved.Some?
    ensures
      var q := ApplyEvent(p, r, now, n).saved.value;
      |q.targets| == |p.targets| && PassedMove(AgentEvent(r, now), p, i, q.targets[i])
  {
    if r.stage == StageFailed {
      FailurePassed(p, n, r, now, i);
    }
  }

  lemma FailurePassed(p: Plan, n: Id, r: Report, now: int, i: nat)
    requires i < |p.targets| && p.targets[i].batch < p.currentBatch && r.stage == StageFailed
    requires ApplyEvent(p, r, now, n).saved.Some?
    ensures
      var q := ApplyEvent(p, r, now, n).saved.value;
      |q.targets| == |p.targets| && PassedMove(AgentEvent(r, now), p, i, q.targets[i])
  {
    var j := MatchTarget(p.targets, r).value;
    var t := p.targets[j];
    if !(r.errorCode == "rollback_failed" || t.status == TargetRollingBack) {
      RolledTarget(p.targets, Failure(t.batch, t.id, r.errorCode, now), n, i);
    }
  }

  /** Rolling a batch back leaves no success in it, and takes draining targets out of it. */
  lemma RolledTarget(ts: seq<Target>, f: Failure, n: Id, i: nat)
    requires i < |ts|
    ensures
      var t' := RollbackTargets(ts, f, n).targets[i];
      if ts[i].batch != f.batch then t' == ts[i]
      else t'.status != TargetSucceeded && (ts[i].status == TargetDraining ==> t'.status == TargetRolledBack && t'.commandId == ts[i].commandId)
  {
    RollbackMoves(ts, f, n);
    var rolled := RollbackTargets(ts, f, n);
    assert RolledMove(ts[i], rolled.targets[i], f, n, rolled.nextId);
  }

  lemma HeartbeatPassed(p: Plan, n: Id, r: Report, now: int, i: nat)
    requires i < |p.targets| && p.targets[i].batch < p.currentBatch
    requires ObserveHeartbeat(p, r, now, n).saved.Some?
    ensures
      var q := ObserveHeartbeat(p, r, now, n).saved.value;
      |q.targets| == |p.targets| && PassedMove(Heartbeat(r, now), p, i, q.targets[i])
  {
  }

  lemma OperatorPassed(a: Action, p: Plan, n: Id, i: nat)
    requires i < |p.targets| && p.targets[i].batch < p.currentBatch
    requires a.OperatorPause? || a.OperatorResume? || a.OperatorCancel? || a.OperatorRetry?
    requires Act(a, p, n).saved.Some?
    ensures
      var q := Act(a, p, n).saved.value;
      |q.targets| == |p.targets| && PassedMove(a, p, i, q.targets[i])
  {
  }

  lemma ActPassed(a: Action, p: Plan, n: Id, i: nat)
    requires PlanInv(p, n) && (a.Scan? ==> Active(p))
    requires i < |p.targets| && p.targets[i].batch < p.currentBatch && Act(a, p, n).saved.Some?
    ensures
      var q := Act(a, p, n).saved.value;
      |q.targets| == |p.targets| && PassedMove(a, p, i, q.targets[i])
  {
    match a
    case Scan(env) => ScanPassed(p, n, env, i);
    case AgentEvent(r, now) => EventPassed(p, n, r, now, i);
    case Heartbeat(r, now) => HeartbeatPassed(p, n, r, now, i);
    case _ => OperatorPassed(a, p, n, i);
  }

  // ---------------------------------------------------------------------------------------------
  // From version to version
  // ---------------------------------------------------------------------------------------------

  function Saved(w: World, m: Move): Option<Plan> {
    Act(m.a, m.p, w.nextId).saved
  }

  /** A step that saves works on the current version, and its result is the next one. */
  lemma SavingStep(w: World, m: Move, w': World)
    requires WorldInv(w) && MovesTo(w, m, w') && Saves(w, w')
    ensures w.versions != [] && w'.versions != [] && Loads(m.p, Current(w), m.order) && PlanInv(m.p, w.nextId)
    ensures Saved(w, m).Some? && Current(w') == Saved(w, m).value.(revision := m.p.revision + 1)
    ensures Legal(m.p, Saved(w, m).value, w.nextId, Act(m.a, m.p, w.nextId).nextId)
    ensures forall t :: t in m.p.targets <==> t in Current(w).targets
  {
    SavesCurrent(w, m, w');
    LoadKeeps(m.p, Current(w), m.order, w.nextId);
    LegalOnCurrent(w, m);
  }

  /** Only a step on the latest version is saved. */
  lemma SavesCurrent(w: World, m: Move, w': World)
    requires WorldInv(w) && MovesTo(w, m, w') && Saves(w, w')
    ensures w.versions != [] && w'.versions != [] && Loads(m.p, Current(w), m.order) && PlanInv(Current(w), w.nextId)
    ensures Saved(w, m).Some? && Current(w') == Saved(w, m).value.(revision := m.p.revision + 1)
    ensures m.a.Scan? || m.a.AgentEvent? || m.a.Heartbeat? ==> Active(m.p)
    ensures m.a.AgentEvent? || m.a.Heartbeat? ==> Heard(m.a.report, w.sent)
  {
    SwapOnlyCurrent(w, m.k, m.p, m.order);
  }

  lemma LegalOnCurrent(w: World, m: Move)
    requires WorldInv(w) && w.versions != [] && Loads(m.p, Current(w), m.order) && PlanInv(m.p, w.nextId) && Saved(w, m).Some?
    requires m.a.Scan? || m.a.AgentEvent? || m.a.Heartbeat? ==> Active(m.p)
    requires m.a.AgentEvent? || m.a.Heartbeat? ==> Heard(m.a.report, w.sent)
    ensures Legal(m.p, Saved(w, m).value, w.nextId, Act(m.a, m.p, w.nextId).nextId)
  {
    if m.a.AgentEvent? || m.a.Heartbeat? {
      HeardOpened(w, m.p, m.order, m.a.report);
    }
    ActLegal(m.a, m.p, w.nextId);
  }

  lemma OtherStep(w: World, m: Move, w': World)
    requires MovesTo(w, m, w') && !Saves(w, w')
    ensures w'.versions == w.versions
  {
  }

  /** Where a target of the next version comes from. */
  lemma CameFrom(w: World, m: Move, w': World, t': Target) returns (i: nat)
    requires WorldInv(w) && MovesTo(w, m, w') && Saves(w, w')
    requires w'.versions != [] && t' in Current(w').targets
    ensures w.versions != [] && i < |m.p.targets| && m.p.targets[i] in Current(w).targets
    ensures m.p.targets[i].id == t'.id && m.p.targets[i].batch == t'.batch
    ensures m.p.targets[i].batch < m.p.currentBatch ==> PassedMove(m.a, m.p, i, t')
  {
    SavingStep(w, m, w');
    var q := Saved(w, m).value;
    i :| 0 <= i < |q.targets| && q.targets[i] == t';
    assert Advance(m.p.targets[i], q.targets[i], w.nextId, Act(m.a, m.p, w.nextId).nextId);
    assert m.p.targets[i] in m.p.targets;
    if m.p.targets[i].batch < m.p.currentBatch {
      ActPassed(m.a, m.p, w.nextId, i);
    }
  }

  /** Where a target of the current version goes. */
  lemma GoesTo(w: World, m: Move, w': World, t: Target) returns (i: nat, t': Target)
    requires WorldInv(w) && MovesTo(w, m, w') && Saves(w, w')
    requires w.versions != [] && t in Current(w).targets
    ensures w'.versions != [] && i < |m.p.targets| && m.p.targets[i] == t
    ensures t' in Current(w').targets && t'.id == t.id && t'.batch == t.batch
    ensures m.p.currentBatch == Current(w).currentBatch <= Current(w').currentBatch
    ensures t.batch < m.p.currentBatch ==> PassedMove(m.a, m.p, i, t')
  {
    SavingStep(w, m, w');
    var q := Saved(w, m).value;
    i :| 0 <= i < |m.p.targets| && m.p.targets[i] == t;
    assert Advance(m.p.targets[i], q.targets[i], w.nextId, Act(m.a, m.p, w.nextId).nextId);
    t' := q.targets[i];
    if t.batch < m.p.currentBatch {
      ActPassed(m.a, m.p, w.nextId, i);
    }
  }

  lemma StepOfTrace(ws: seq<World>, moves: seq<Move>, i: nat)
    requires IsTrace(ws, moves) && i < |moves|
    ensures WorldInv(ws[i]) && MovesTo(ws[i], moves[i], ws[i + 1])
  {
    TraceIsRun(ws, moves);
    RunKeepsInv(ws, i);
  }

  // ---------------------------------------------------------------------------------------------
  // When a succeeded plan has only succeeded targets
  // ---------------------------------------------------------------------------------------------

  /** The step took a failed report for a target of a batch already passed. */
  predicate TakesLateFailure(w: World, m: Move, w': World) {
    Saves(w, w') && LateFailure(m.a, m.p)
  }

  ghost predicate NoLateFailure(ws: seq<World>, moves: seq<Move>, n: nat)
    requires |ws| == |moves| + 1 && n <= |moves|
  {
    forall i :: 0 <= i < n ==> !TakesLateFailure(ws[i], moves[i], ws[i + 1])
  }

  ghost predicate PassedSucceeded(w: World) {
    w.versions != [] && forall t :: t in Current(w).targets && t.batch < Current(w).currentBatch ==> t.status == TargetSucceeded
  }

  lemma NonePassed(ws: seq<World>, moves: seq<Move>)
    requires IsTrace(ws, moves)
    ensures PassedSucceeded(ws[0])
  {
    assert Fresh(ws[0].versions[0], ws[0].nextId);
  }

  /** Without such a step, every target of every passed batch is a success. */
  lemma {:induction false} PassedStaysSucceeded(ws: seq<World>, moves: seq<Move>, n: nat)
    requires IsTrace(ws, moves) && n <= |moves| && NoLateFailure(ws, moves, n)
    ensures PassedSucceeded(ws[n])
    decreases n
  {
    if n == 0 {
      NonePassed(ws, moves);
    } else {
      var i := n - 1;
      assert !TakesLateFailure(ws[i], moves[i], ws[i + 1]);
      PassedStaysSucceeded(ws, moves, i);
      PassedNext(ws, moves, i);
    }
  }

  lemma PassedNext(ws: seq<World>, moves: seq<Move>, i: nat)
    requires IsTrace(ws, moves) && i < |moves| && !TakesLateFailure(ws[i], moves[i], ws[i + 1])
    requires PassedSucceeded(ws[i])
    ensures PassedSucceeded(ws[i + 1])
  {
    StepOfTrace(ws, moves, i);
    if Saves(ws[i], ws[i + 1]) {
      PassedStep(ws[i], moves[i], ws[i + 1]);
    } else {
      OtherStep(ws[i], moves[i], ws[i + 1]);
    }
  }

  lemma PassedStep(w: World, m: Move, w': World)
    requires WorldInv(w) && MovesTo(w, m, w') && Saves(w, w') && !TakesLateFailure(w, m, w') && PassedSucceeded(w)
    ensures PassedSucceeded(w')
  {
    SavingStep(w, m, w');
    forall t | t in Current(w').targets && t.batch < Current(w').currentBatch
      ensures t.status == TargetSucceeded
    {
      var i := CameFrom(w, m, w', t);
    }
  }

  /** After such a step, some target of a passed batch is a success no more, for good. */
  lemma {:induction false} LateFailureStays(ws: seq<World>, moves: seq<Move>, j: nat, n: nat) returns (t: Target)
    requires IsTrace(ws, moves) && j < n <= |moves| && TakesLateFailure(ws[j], moves[j], ws[j + 1])
    ensures ws[n].versions != [] && t in Current(ws[n]).targets
    ensures t.batch < Current(ws[n]).currentBatch && t.status != TargetSucceeded
    decreases n
  {
    if j == n - 1 {
      StepOfTrace(ws, moves, j);
      t := LateFailureStarts(ws[j], moves[j], ws[j + 1]);
    } else {
      var before := LateFailureStays(ws, moves, j, n - 1);
      t := LateNext(ws, moves, n - 1, before);
    }
  }

  lemma LateNext(ws: seq<World>, moves: seq<Move>, i: nat, t: Target) returns (t': Target)
    requires IsTrace(ws, moves) && i < |moves| && ws[i].versions != []
    requires t in Current(ws[i]).targets && t.batch < Current(ws[i]).currentBatch && t.status != TargetSucceeded
    ensures ws[i + 1].versions != [] && t' in Current(ws[i + 1]).targets
    ensures t'.batch < Current(ws[i + 1]).currentBatch && t'.status != TargetSucceeded
  {
    StepOfTrace(ws, moves, i);
    t' := NeverSucceedsAgain(ws[i], moves[i], ws[i + 1], t);
  }

  lemma LateFailureStarts(w: World, m: Move, w': World) returns (t: Target)
    requires WorldInv(w) && MovesTo(w, m, w') && TakesLateFailure(w, m, w')
    ensures w'.versions != [] && t in Current(w').targets && t.batch < Current(w').currentBatch && t.status != TargetSucceeded
  {
    SavingStep(w, m, w');
    var i, j := 0, FailedTarget(m.a, m.p).value;
    i, t := GoesTo(w, m, w', m.p.targets[j]);
    SameIndex(m.p, w.nextId, i, j);
  }

  lemma NeverSucceedsAgain(w: World, m: Move, w': World, t: Target) returns (t': Target)
    requires WorldInv(w) && MovesTo(w, m, w') && w.versions != []
    requires t in Current(w).targets && t.batch < Current(w).currentBatch && t.status != TargetSucceeded
    ensures w'.versions != [] && t' in Current(w').targets && t'.batch < Current(w').currentBatch && t'.status != TargetSucceeded
  {
    if Saves(w, w') {
      var i;
      i, t' := GoesTo(w, m, w', t);
    } else {
      OtherStep(w, m, w');
      t' := t;
    }
  }

  lemma SameIndex(p: Plan, n: Id, i: nat, j: nat)
    requires PlanInv(p, n) && i < |p.targets| && j < |p.targets| && p.targets[i] == p.targets[j]
    ensures i == j
  {
  }

  /** In every run: a plan that has succeeded has only succeeded targets exactly if no step before took a failed
      report for a target of a batch already passed. */
  lemma SucceededPlanAllSucceededIff(ws: seq<World>, moves: seq<Move>, n: nat)
    requires IsTrace(ws, moves) && n <= |moves|
    requires ws[n].versions != [] && Current(ws[n]).status == PlanSucceeded
    ensures (forall t :: t in Current(ws[n]).targets ==> t.status == TargetSucceeded) <==> NoLateFailure(ws, moves, n)
  {
    TraceIsRun(ws, moves);
    RunKeepsInv(ws, n);
    var v, l := Current(ws[n]), |ws[n].versions| - 1;
    if NoLateFailure(ws, moves, n) {
      PassedStaysSucceeded(ws, moves, n);
      forall t | t in v.targets
        ensures t.status == TargetSucceeded
      {
        SucceededOnLastBatch(ws[n].versions, ws[n].nextId, l, t);
        if t.batch == v.currentBatch {
          SucceededCurrentBatch(ws[n].versions, ws[n].nextId, l, t);
        }
      }
    } else {
      var j :| 0 <= j < n && TakesLateFailure(ws[j], moves[j], ws[j + 1]);
      var t := LateFailureStays(ws, moves, j, n);
    }
  }

  lemma SucceededCurrentBatch(vs: seq<Plan>, n: Id, l: nat, t: Target)
    requires VersionsInv(vs, n) && l < |vs| && vs[l].status == PlanSucceeded && t in vs[l].targets && t.batch == vs[l].currentBatch
    ensures t.status == TargetSucceeded
  {
    var i :| 0 <= i < |vs[l].targets| && vs[l].targets[i] == t;
  }

  // ---------------------------------------------------------------------------------------------
  // A retried target of a passed batch
  // ---------------------------------------------------------------------------------------------

  /** Retrying a target does not look at its batch: one of a passed batch starts to drain there. */
  lemma RetryDrainsPassedTarget(p: Plan, i: nat, versions: map<Id, string>, now: int, n: Id)
    requires PlanInv(p, n) && i < |p.targets| && p.targets[i].batch < p.currentBatch && !p.cancelRequested
    requires p.targets[i].status in {TargetRolledBack, TargetManualIntervention}
    requires p.targets[i].serverId in versions && versions[p.targets[i].serverId] == p.targets[i].sourceVersion
    ensures
      var e := RetryTarget(p, p.targets[i].id, versions, now, n);
      e.saved.Some? && e.saved.value.currentBatch == p.currentBatch && e.saved.value.targets[i].status == TargetDraining
  {
    FindUnique(p.targets, i);
  }

  /** The step rolled the batch back. */
  predicate RollsBack(w: World, m: Move, w': World, batch: int) {
    Saves(w, w') && RolledBatch(m.a, m.p) == Some(batch)
  }

  /** One step: such a target drains on, exactly unless a failed report for its batch is taken. */
  lemma DrainsOn(w: World, m: Move, w': World, t: Target) returns (t': Target)
    requires WorldInv(w) && w.versions != [] && MovesTo(w, m, w') && t in Current(w).targets
    requires t.status == TargetDraining && t.batch < Current(w).currentBatch
    requires forall s :: s in w.sent && s.command.targetId == t.id ==> s.command.commandId != t.commandId
    ensures w'.versions != [] && t' in Current(w').targets && t'.id == t.id && t'.batch == t.batch < Current(w').currentBatch
    ensures t'.status == if RollsBack(w, m, w', t.batch) then TargetRolledBack else TargetDraining
  {
    if Saves(w, w') {
      var i;
      i, t' := GoesTo(w, m, w', t);
      if m.a.AgentEvent? || m.a.Heartbeat? {
        NotItsReport(w.sent, t, m.a.report);
      }
    } else {
      OtherStep(w, m, w');
      t' := t;
    }
  }

  lemma NotItsReport(sent: seq<Sent>, t: Target, r: Report)
    requires Heard(r, sent)
    requires forall s :: s in sent && s.command.targetId == t.id ==> s.command.commandId != t.commandId
    ensures !Matches(t, r)
  {
    var k :| 0 <= k < |sent| && sent[k].command.targetId == r.targetId && sent[k].command.commandId == r.commandId;
    assert sent[k] in sent;
  }

  /** In every run: scans, heartbeats, cancel and further retries never take it out of draining; only a failed report
      for another target of its batch does. */
  lemma {:induction false} RetriedTargetDrains(ws: seq<World>, moves: seq<Move>, i: nat, n: nat, t: Target) returns (t': Target)
    requires IsTrace(ws, moves) && i <= n <= |moves| && ws[i].versions != [] && t in Current(ws[i]).targets
    requires t.status == TargetDraining && t.batch < Current(ws[i]).currentBatch
    requires forall j :: i <= j < n ==> !RollsBack(ws[j], moves[j], ws[j + 1], t.batch)
    ensures ws[n].versions != [] && t' in Current(ws[n]).targets && t'.id == t.id && t'.batch == t.batch
    ensures t'.status == TargetDraining && t'.batch < Current(ws[n]).currentBatch
    decreases n
  {
    if n == i {
      t' := t;
    } else {
      var before := RetriedTargetDrains(ws, moves, i, n - 1, t);
      assert !RollsBack(ws[n - 1], moves[n - 1], ws[n - 1 + 1], t.batch);
      t' := DrainsNext(ws, moves, n - 1, before);
    }
  }

  lemma DrainsNext(ws: seq<World>, moves: seq<Move>, i: nat, t: Target) returns (t': Target)
    requires IsTrace(ws, moves) && i < |moves| && ws[i].versions != [] && t in Current(ws[i]).targets
    requires t.status == TargetDraining && t.batch < Current(ws[i]).currentBatch
    ensures ws[i + 1].versions != [] && t' in Current(ws[i + 1]).targets && t'.id == t.id && t'.batch == t.batch < Current(ws[i + 1]).currentBatch
    ensures t'.status == if RollsBack(ws[i], moves[i], ws[i + 1], t.batch) then TargetRolledBack else TargetDraining
  {
    StepOfTrace(ws, moves, i);
    TraceIsRun(ws, moves);
    forall s | s in ws[i].sent && s.command.targetId == t.id
      ensures s.command.commandId != t.commandId
    {
      UnstartedTargetsAreUnheard(ws, i, t, s);
    }
    t' := DrainsOn(ws[i], moves[i], ws[i + 1], t);
  }
}
