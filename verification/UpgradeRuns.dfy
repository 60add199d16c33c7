/** Whole runs of the upgrade protocol.

    Coordinators, agents and operators load the plan, work on the copy and save it by compare-and-swap on
    its revision. A load may return any version ever stored (another process can save before the loader
    acts), and its targets in any order (the query orders them by a column that changes). A scan that finds
    nothing to save sends its commands without a compare-and-swap, so commands built from a stale plan are
    part of the model. A send can fail, which ends the operation: a prefix of the commands goes out. */
module UpgradeRuns {
  import opened Common
  import opened UpgradeModel
  import opened UpgradeCoordinator
  import opened UpgradeService
  import opened UpgradeScan

  /** Every version of the plan ever stored, the identifier counter, every command handed to the transport. */
  datatype World = World(versions: seq<Plan>, nextId: Id, sent: seq<Sent>)

  function Current(w: World): Plan
    requires w.versions != []
  {
    w.versions[|w.versions| - 1]
  }

  datatype Action =
    | Scan(env: ScanEnv)
    | AgentEvent(report: Report, now: int)
    | Heartbeat(report: Report, now: int)
    | OperatorPause
    | OperatorResume(release: Option<ReleaseInfo>, servers: map<Id, ServerInfo>)
    | OperatorCancel(now: int)
    | OperatorRetry(targetId: Id, agentVersions: map<Id, string>, now: int)

  function Act(a: Action, p: Plan, n: Id): Effect {
    match a
    case Scan(env) =>
      (match ScanPlan(p, n, env)
       case None => Effect(None, [], n)
       case Some(s) => Effect(if s.changed then Some(s.plan) else None, s.commands, s.nextId))
    case AgentEvent(r, now) => ApplyEvent(p, r, now, n)
    case Heartbeat(r, now) => ObserveHeartbeat(p, r, now, n)
    case OperatorPause => Pause(p, n)
    case OperatorResume(release, servers) => Resume(p, release, servers, n)
    case OperatorCancel(now) => Cancel(p, now, n)
    case OperatorRetry(targetId, versions, now) => RetryTarget(p, targetId, versions, now, n)
  }

  /** The coordinator works on active plans; an agent reports only command identifiers it was sent. */
  ghost predicate Enabled(a: Action, p: Plan, w: World) {
    && (a.Scan? || a.AgentEvent? || a.Heartbeat? ==> Active(p))
    && (a.AgentEvent? || a.Heartbeat? ==> Heard(a.report, w.sent))
  }

  ghost predicate Heard(r: Report, sent: seq<Sent>) {
    exists k :: 0 <= k < |sent| && sent[k].command.targetId == r.targetId && sent[k].command.commandId == r.commandId
  }

  /** `p` is version `v` with its targets in the order given by `order`. */
  ghost predicate Loads(p: Plan, v: Plan, order: seq<nat>) {
    && |p.targets| == |v.targets| == |order|
    && p == v.(targets := p.targets)
    && (forall k :: 0 <= k < |order| ==> order[k] < |order| && p.targets[k] == v.targets[order[k]])
    && (forall k, l :: 0 <= k < l < |order| ==> order[k] != order[l])
    && (forall i :: 0 <= i < |order| ==> i in order)
  }

  function Attempt(targets: seq<Target>, targetId: Id): nat {
    match FindTarget(targets, targetId)
    case None => 0
    case Some(i) => targets[i].retries
  }

  function Stamp(commands: seq<Command>, targets: seq<Target>): (sent: seq<Sent>)
    ensures |sent| == |commands|
  {
    seq(|commands|, k requires 0 <= k < |commands| => Sent(Attempt(targets, commands[k].targetId), commands[k]))
  }

  /** Compare-and-swap: the save goes through only if the stored revision is still the loaded one. */
  ghost predicate StepWith(w: World, w': World, k: nat, p: Plan, order: seq<nat>, a: Action, delivered: nat) {
    && k < |w.versions|
    && Loads(p, w.versions[k], order)
    && Enabled(a, p, w)
    && var e := Act(a, p, w.nextId);
       if e.saved.None? then
         && delivered <= |e.commands|
         && w' == World(w.versions, e.nextId, w.sent + Stamp(e.commands[..delivered], p.targets))
       else if p.revision != Current(w).revision then
         w' == w.(nextId := e.nextId)
       else
         && delivered <= |e.commands|
         && w' == World(w.versions + [e.saved.value.(revision := p.revision + 1)], e.nextId,
                        w.sent + Stamp(e.commands[..delivered], e.saved.value.targets))
  }

  ghost predicate Step(w: World, w': World) {
    exists k, p, order, a, delivered :: StepWith(w, w', k, p, order, a, delivered)
  }

  /** What `createPlan` stores. */
  ghost predicate Fresh(p: Plan, n: Id) {
    && DistinctIds(p.targets)
    && p.status == PlanRunning && p.currentBatch == 1 && !p.cancelRequested && p.reconnectTimeoutSeconds > 0
    && (forall t :: t in p.targets ==> t.status == TargetWaiting && t.commandId == t.installCommandId < n && t.batch >= 1)
    && (forall t :: t in p.targets && t.batch > 1 ==> HasBatch(p.targets, t.batch - 1))
  }

  ghost predicate Init(w: World) {
    && |w.versions| == 1
    && Fresh(w.versions[0], w.nextId)
    && w.sent == []
  }

  ghost predicate IsRun(ws: seq<World>) {
    && |ws| > 0
    && Init(ws[0])
    && forall i :: 0 <= i < |ws| - 1 ==> Step(ws[i], ws[i + 1])
  }

  // ---------------------------------------------------------------------------------------------
  // Invariants of one version
  // ---------------------------------------------------------------------------------------------

  /** Batches after the current one have not been touched. */
  predicate Gated(t: Target, currentBatch: int) {
    t.batch > currentBatch ==> t.status in {TargetWaiting, TargetCancelled}
  }

  predicate TargetInv(t: Target, p: Plan, n: Id) {
    && Gated(t, p.currentBatch)
    && t.commandId < n && t.installCommandId < n
    && (BeforeRollback(t.status) ==> t.commandId == t.installCommandId)
    && (p.cancelRequested ==> t.status != TargetWaiting)
    && (p.status == PlanCancelled ==> Terminal(t.status))
  }

  ghost predicate PlanInv(p: Plan, n: Id) {
    && DistinctIds(p.targets)
    && p.reconnectTimeoutSeconds > 0
    && (p.cancelRequested ==> p.status in {PlanPaused, PlanCancelled})
    && (p.status == PlanCancelled ==> p.cancelRequested)
    && forall t :: t in p.targets ==> TargetInv(t, p, n)
  }

  lemma PlanInvLater(p: Plan, n: Id, n': Id)
    requires PlanInv(p, n) && n <= n'
    ensures PlanInv(p, n')
  {
    forall t | t in p.targets ensures TargetInv(t, p, n') {
      assert TargetInv(t, p, n);
    }
  }

  lemma LoadKeeps(p: Plan, v: Plan, order: seq<nat>, n: Id)
    requires Loads(p, v, order) && PlanInv(v, n)
    ensures PlanInv(p, n)
    ensures forall t :: t in p.targets <==> t in v.targets
  {
    forall t | t in p.targets ensures t in v.targets {
      var k :| 0 <= k < |p.targets| && p.targets[k] == t;
      assert t == v.targets[order[k]];
    }
    forall t | t in v.targets ensures t in p.targets {
      var i :| 0 <= i < |v.targets| && v.targets[i] == t;
      assert i in order;
      var k :| 0 <= k < |order| && order[k] == i;
      assert p.targets[k] == t;
    }
    forall i, j | 0 <= i < j < |p.targets| ensures p.targets[i].id != p.targets[j].id {
      assert order[i] != order[j];
      var x, y := order[i], order[j];
      assert if x < y then v.targets[x].id != v.targets[y].id else v.targets[y].id != v.targets[x].id;
    }
    forall t | t in p.targets ensures TargetInv(t, p, n) {
      assert TargetInv(t, v, n);
    }
  }

  // ---------------------------------------------------------------------------------------------
  // How versions follow each other
  // ---------------------------------------------------------------------------------------------

  predicate Unstarted(status: TargetStatus) {
    status in {TargetWaiting, TargetDraining}
  }

  /** From an earlier to a later version of a target: the attempt number decides the install identifier,
      identifiers only grow, and a command identifier under which the install may have been sent is never
      the identifier of a target that has not been started. */
  predicate TargetFollows(t: Target, t': Target) {
    && t'.serverId == t.serverId && t'.batch == t.batch
    && t.retries <= t'.retries && t.commandId <= t'.commandId
    && (if t.retries == t'.retries then t.installCommandId == t'.installCommandId else t.installCommandId < t'.installCommandId)
    && (t.commandId == t'.commandId && Unstarted(t'.status) ==> Unstarted(t.status))
    && (t'.status == TargetWaiting ==> t.status == TargetWaiting)
  }

  function Ids(ts: seq<Target>): set<Id> {
    set t | t in ts :: t.id
  }

  ghost predicate PlanFollows(p: Plan, p': Plan) {
    && Ids(p.targets) == Ids(p'.targets)
    && p.currentBatch <= p'.currentBatch
    && (p.cancelRequested ==> p'.cancelRequested)
    && forall t, t' :: t in p.targets && t' in p'.targets && t.id == t'.id ==> TargetFollows(t, t')
  }

  lemma PlanFollowsTransitive(p: Plan, p1: Plan, p2: Plan)
    requires PlanFollows(p, p1) && PlanFollows(p1, p2)
    ensures PlanFollows(p, p2)
  {
    forall t, t2 | t in p.targets && t2 in p2.targets && t.id == t2.id ensures TargetFollows(t, t2) {
      assert t2.id in Ids(p2.targets);
      var t1 :| t1 in p1.targets && t1.id == t2.id;
      assert TargetFollows(t, t1) && TargetFollows(t1, t2);
    }
  }

  /** One operation's effect on the target at one index. */
  predicate Advance(t: Target, t': Target, n: Id, n': Id) {
    && t'.id == t.id && t'.serverId == t.serverId && t'.batch == t.batch
    && (t'.status == TargetWaiting ==> t.status == TargetWaiting)
    && t'.commandId < n' && t'.installCommandId < n'
    && (BeforeRollback(t'.status) ==> t'.commandId == t'.installCommandId)
    && (t'.commandId == t.commandId || n <= t'.commandId)
    && (|| (t'.retries == t.retries && t'.installCommandId == t.installCommandId)
        || (t'.retries == t.retries + 1 && n <= t'.installCommandId))
    && (t'.commandId == t.commandId && Unstarted(t'.status) ==> Unstarted(t.status))
  }

  ghost predicate Advances(ts: seq<Target>, ts': seq<Target>, n: Id, n': Id) {
    && |ts'| == |ts|
    && n <= n'
    && forall i :: 0 <= i < |ts| ==> Advance(ts[i], ts'[i], n, n')
  }

  lemma AdvancesFollow(p: Plan, p': Plan, n: Id, n': Id)
    requires PlanInv(p, n) && Advances(p.targets, p'.targets, n, n')
    requires p.currentBatch <= p'.currentBatch && (p.cancelRequested ==> p'.cancelRequested)
    ensures PlanFollows(p, p') && DistinctIds(p'.targets)
  {
    var ts, ts' := p.targets, p'.targets;
    forall t, t' | t in ts && t' in ts' && t.id == t'.id ensures TargetFollows(t, t') {
      var i :| 0 <= i < |ts| && ts[i] == t;
      var j :| 0 <= j < |ts'| && ts'[j] == t';
      assert Advance(ts[i], ts'[i], n, n') && Advance(ts[j], ts'[j], n, n');
      assert i == j;
      assert TargetInv(t, p, n);
    }
    forall id | id in Ids(ts) ensures id in Ids(ts') {
      var t :| t in ts && t.id == id;
      var i :| 0 <= i < |ts| && ts[i] == t;
      assert Advance(ts[i], ts'[i], n, n') && ts'[i] in ts';
    }
    forall id | id in Ids(ts') ensures id in Ids(ts) {
      var t :| t in ts' && t.id == id;
      var i :| 0 <= i < |ts'| && ts'[i] == t;
      assert Advance(ts[i], ts'[i], n, n') && ts[i] in ts;
    }
    forall i, j | 0 <= i < j < |ts'| ensures ts'[i].id != ts'[j].id {
      assert Advance(ts[i], ts'[i], n, n') && Advance(ts[j], ts'[j], n, n');
    }
  }

  // ---------------------------------------------------------------------------------------------
  // Every operation is legal
  // ---------------------------------------------------------------------------------------------

  /** What saving `p'` over `p` may do. */
  ghost predicate Legal(p: Plan, p': Plan, n: Id, n': Id) {
    && Advances(p.targets, p'.targets, n, n')
    && PlanInv(p', n')
    && p'.revision == p.revision
    && p.status != PlanCancelled
    && (p.cancelRequested ==> p'.cancelRequested)
    && DrainsOnlyIf(p.targets, p'.targets, !p.cancelRequested)
    && (|| p'.currentBatch == p.currentBatch
        || (&& p'.currentBatch == p.currentBatch + 1
            && BatchSucceeded(p'.targets, p.currentBatch) && HasBatch(p'.targets, p'.currentBatch)))
    && (p'.status == PlanSucceeded ==>
          BatchSucceeded(p'.targets, p'.currentBatch) && !HasBatch(p'.targets, p'.currentBatch + 1))
  }

  /** An operation saves only what is legal, and its commands agree with the plan it saved (or, if it
      saved nothing, with the plan it loaded). */
  ghost predicate LegalEffect(p: Plan, e: Effect, n: Id) {
    && n <= e.nextId
    && (e.saved.Some? ==> Legal(p, e.saved.value, n, e.nextId))
    && AllCoherent(e.commands, if e.saved.Some? then e.saved.value.targets else p.targets)
  }

  lemma MovesAdvance(p: Plan, ts': seq<Target>, batch: int, n: Id, n': Id)
    requires PlanInv(p, n) && Moves(p.targets, ts', batch, n, n')
    ensures Advances(p.targets, ts', n, n')
  {
    forall i | 0 <= i < |ts'| ensures Advance(p.targets[i], ts'[i], n, n') {
      assert TargetInv(p.targets[i], p, n);
      assert TargetMove(p.targets[i], ts'[i], n, n');
    }
  }

  /** Moves inside one batch that is not gated keep the invariant of the plan. */
  lemma MovesKeepInv(p: Plan, p': Plan, batch: int, n: Id, n': Id)
    requires PlanInv(p, n) && batch <= p.currentBatch <= p'.currentBatch
    requires Moves(p.targets, p'.targets, batch, n, n')
    requires p'.reconnectTimeoutSeconds == p.reconnectTimeoutSeconds && p'.cancelRequested == p.cancelRequested
    requires p'.cancelRequested ==> p'.status in {PlanPaused, PlanCancelled}
    requires p'.status == PlanCancelled ==> p'.cancelRequested && AllTerminal(p'.targets)
    ensures PlanInv(p', n')
  {
    MovesAdvance(p, p'.targets, batch, n, n');
    AdvancesFollow(p, p', n, n');
    forall t | t in p'.targets ensures TargetInv(t, p', n') {
      var i :| 0 <= i < |p'.targets| && p'.targets[i] == t;
      assert TargetInv(p.targets[i], p, n);
      assert TargetMove(p.targets[i], t, n, n') && Advance(p.targets[i], t, n, n');
    }
  }

  lemma ScanLegal(p: Plan, n: Id, env: ScanEnv)
    requires PlanInv(p, n) && Active(p)
    ensures LegalEffect(p, Act(Scan(env), p, n), n)
  {
    if ScanPlan(p, n, env).Some? {
      ScanTheorem(p, n, env);
      var a := ScanPlan(p, n, env).value;
      MovesAdvance(p, a.plan.targets, p.currentBatch, n, a.nextId);
      MovesKeepInv(p, a.plan, p.currentBatch, n, a.nextId);
    }
  }

  /** Replacing one target of a batch that is not gated. */
  lemma SetLegal(p: Plan, i: nat, t: Target, status: PlanStatus, n: Id, n': Id)
    requires PlanInv(p, n) && i < |p.targets| && n <= n'
    requires Advance(p.targets[i], t, n, n') && t.batch <= p.currentBatch
    requires t.status == TargetDraining && p.targets[i].status != TargetDraining ==> !p.cancelRequested
    requires p.status != PlanCancelled && status !in {PlanCancelled, PlanSucceeded}
    requires p.cancelRequested ==> status == PlanPaused
    ensures Legal(p, SetTarget(p, i, t).(status := status), n, n')
  {
    var p' := SetTarget(p, i, t).(status := status);
    forall j | 0 <= j < |p.targets| ensures Advance(p.targets[j], p'.targets[j], n, n') {
      assert TargetInv(p.targets[j], p, n);
    }
    AdvancesFollow(p, p', n, n');
    forall u | u in p'.targets ensures TargetInv(u, p', n') {
      var j :| 0 <= j < |p'.targets| && p'.targets[j] == u;
      assert TargetInv(p.targets[j], p, n);
    }
  }

  lemma BatchRollbackLegal(p: Plan, f: Failure, n: Id)
    requires PlanInv(p, n) && Active(p) && f.batch <= p.currentBatch
    ensures var r := RollbackTargets(p.targets, f, n);
      LegalEffect(p, Effect(Some(p.(status := PlanPaused, targets := r.targets)), r.commands, r.nextId), n)
  {
    var r := RollbackTargets(p.targets, f, n);
    var p' := p.(status := PlanPaused, targets := r.targets);
    RollbackIsMoves(p.targets, f, n);
    RollbackMoves(p.targets, f, n);
    RollbackSendsExactly(p.targets, f, n);
    MovesAdvance(p, r.targets, f.batch, n, r.nextId);
    MovesKeepInv(p, p', f.batch, n, r.nextId);
    forall i | 0 <= i < |p.targets| && r.targets[i].status == TargetDraining ensures p.targets[i].status == TargetDraining {
      assert RolledMove(p.targets[i], r.targets[i], f, n, r.nextId);
    }
    forall k | 0 <= k < |r.commands| ensures CoherentWith(r.commands[k], r.targets) {
      assert r.commands[k] in r.commands && SentFor(r.commands[k], p.targets, r.targets, f);
      var i :| 0 <= i < |p.targets| && RollbackSends(p.targets[i], f) && r.commands[k] == RollbackCommand(r.targets[i]);
      assert RolledMove(p.targets[i], r.targets[i], f, n, r.nextId);
      assert Coherent(r.commands[k], r.targets[i]);
    }
  }

  /** The report concerns a target of a batch that has been opened. */
  ghost predicate Opened(p: Plan, r: Report) {
    forall t :: t in p.targets && t.id == r.targetId ==> t.batch <= p.currentBatch
  }

  lemma EventLegal(p: Plan, r: Report, now: int, n: Id)
    requires PlanInv(p, n) && Active(p) && Opened(p, r)
    ensures LegalEffect(p, ApplyEvent(p, r, now, n), n)
  {
    var e := ApplyEvent(p, r, now, n);
    if e.saved.Some? {
      var i := MatchTarget(p.targets, r).value;
      var t := p.targets[i];
      assert TargetInv(t, p, n);
      if r.stage == StageFailed && !(r.errorCode == "rollback_failed" || t.status == TargetRollingBack) {
        BatchRollbackLegal(p, Failure(t.batch, t.id, r.errorCode, now), n);
      } else {
        var t' := e.saved.value.targets[i];
        assert e.saved.value == SetTarget(p, i, t').(status := e.saved.value.status);
        SetLegal(p, i, t', e.saved.value.status, n, n);
      }
    }
  }

  lemma HeartbeatLegal(p: Plan, r: Report, now: int, n: Id)
    requires PlanInv(p, n) && Active(p) && Opened(p, r)
    ensures LegalEffect(p, ObserveHeartbeat(p, r, now, n), n)
  {
    var e := ObserveHeartbeat(p, r, now, n);
    if e.saved.Some? {
      var i := MatchTarget(p.targets, r).value;
      assert TargetInv(p.targets[i], p, n);
      var t' := e.saved.value.targets[i];
      assert e.saved.value == SetTarget(p, i, t').(status := e.saved.value.status);
      SetLegal(p, i, t', e.saved.value.status, n, e.nextId);
      if e.commands != [] {
        assert Coherent(e.commands[0], e.saved.value.targets[i]);
      }
    }
  }

  lemma UntouchedLegal(p: Plan, status: PlanStatus, n: Id)
    requires PlanInv(p, n) && p.status != PlanCancelled && status in {PlanRunning, PlanPaused}
    requires p.cancelRequested ==> status == PlanPaused
    ensures Legal(p, p.(status := status), n, n)
  {
    var p' := p.(status := status);
    forall j | 0 <= j < |p.targets| ensures Advance(p.targets[j], p'.targets[j], n, n) {
      assert TargetInv(p.targets[j], p, n);
    }
    forall u | u in p'.targets ensures TargetInv(u, p', n) {
      assert TargetInv(u, p, n);
    }
  }

  lemma CancelLegal(p: Plan, now: int, n: Id)
    requires PlanInv(p, n)
    ensures LegalEffect(p, Cancel(p, now, n), n)
  {
    var e := Cancel(p, now, n);
    if e.saved.Some? {
      var p' := e.saved.value;
      forall j | 0 <= j < |p.targets| ensures Advance(p.targets[j], p'.targets[j], n, n) {
        assert TargetInv(p.targets[j], p, n);
      }
      AdvancesFollow(p, p', n, n);
      forall u | u in p'.targets ensures TargetInv(u, p', n) {
        var j :| 0 <= j < |p'.targets| && p'.targets[j] == u;
        assert TargetInv(p.targets[j], p, n);
      }
    }
  }

  lemma RetryLegal(p: Plan, targetId: Id, versions: map<Id, string>, now: int, n: Id)
    requires PlanInv(p, n)
    ensures LegalEffect(p, RetryTarget(p, targetId, versions, now, n), n)
  {
    var e := RetryTarget(p, targetId, versions, now, n);
    if e.saved.Some? {
      var i := FindTarget(p.targets, targetId).value;
      assert TargetInv(p.targets[i], p, n);
      var t' := e.saved.value.targets[i];
      SetLegal(p, i, t', PlanRunning, n, e.nextId);
    }
  }

  lemma ActLegal(a: Action, p: Plan, n: Id)
    requires PlanInv(p, n)
    requires a.Scan? || a.AgentEvent? || a.Heartbeat? ==> Active(p)
    requires a.AgentEvent? || a.Heartbeat? ==> Opened(p, a.report)
    ensures LegalEffect(p, Act(a, p, n), n)
  {
    match a
    case Scan(env) => ScanLegal(p, n, env);
    case AgentEvent(r, now) => EventLegal(p, r, now, n);
    case Heartbeat(r, now) => HeartbeatLegal(p, r, now, n);
    case OperatorPause => if Pause(p, n).saved.Some? { UntouchedLegal(p, PlanPaused, n); }
    case OperatorResume(release, servers) => if Resume(p, release, servers, n).saved.Some? { UntouchedLegal(p, PlanRunning, n); }
    case OperatorCancel(now) => CancelLegal(p, now, n);
    case OperatorRetry(targetId, versions, now) => RetryLegal(p, targetId, versions, now, n);
  }

  // ---------------------------------------------------------------------------------------------
  // The invariant of the world
  // ---------------------------------------------------------------------------------------------

  /** The command was built from a stored version: it carries that version's identifiers and attempt. */
  ghost predicate BuiltFrom(s: Sent, v: Plan) {
    exists t :: t in v.targets && Coherent(s.command, t) && s.attempt == t.retries
  }

  /** From one stored version to the very next. */
  ghost predicate Successor(v: Plan, v': Plan) {
    && (|| v'.currentBatch == v.currentBatch
        || (v'.currentBatch == v.currentBatch + 1 && BatchSucceeded(v'.targets, v.currentBatch)))
    && v.status != PlanCancelled
    && forall t, t' :: t in v.targets && t' in v'.targets && t.id == t'.id && v.cancelRequested ==>
         t'.status == TargetDraining ==> t.status == TargetDraining
  }

  ghost predicate VersionsInv(vs: seq<Plan>, n: Id) {
    && vs != []
    && (forall k :: 0 <= k < |vs| ==> vs[k].revision == vs[0].revision + k)
    && (forall k :: 0 <= k < |vs| ==> PlanInv(vs[k], n))
    && (forall k, l :: 0 <= k < l < |vs| ==> PlanFollows(vs[k], vs[l]))
    && (forall k, l :: 0 <= k && l == k + 1 && l < |vs| ==> Successor(vs[k], vs[l]))
    && (forall k :: 0 <= k < |vs| && vs[k].status == PlanSucceeded ==>
          BatchSucceeded(vs[k].targets, vs[k].currentBatch) && !HasBatch(vs[k].targets, vs[k].currentBatch + 1))
    && vs[0].currentBatch == 1
    && (forall t :: t in vs[0].targets ==> t.batch >= 1)
    && (forall t :: t in vs[0].targets && t.batch > 1 ==> HasBatch(vs[0].targets, t.batch - 1))
  }

  ghost predicate SentInv(w: World) {
    forall s :: s in w.sent ==> exists k :: 0 <= k < |w.versions| && BuiltFrom(s, w.versions[k])
  }

  ghost predicate WorldInv(w: World) {
    VersionsInv(w.versions, w.nextId) && SentInv(w)
  }

  lemma FollowsLoaded(v: Plan, p: Plan, order: seq<nat>, p': Plan, n: Id)
    requires Loads(p, v, order) && PlanInv(v, n) && PlanFollows(p, p')
    ensures PlanFollows(v, p')
  {
    LoadKeeps(p, v, order, n);
    assert Ids(v.targets) == Ids(p.targets);
  }

  lemma AppendSuccessor(last: Plan, p: Plan, order: seq<nat>, p': Plan, n: Id, n': Id)
    requires PlanInv(last, n) && Loads(p, last, order) && Legal(p, p', n, n')
    ensures Successor(last, p'.(revision := p.revision + 1))
  {
    LoadKeeps(p, last, order, n);
    var q := p'.(revision := p.revision + 1);
    forall t, t' | t in last.targets && t' in q.targets && t.id == t'.id && last.cancelRequested && t'.status == TargetDraining
      ensures t.status == TargetDraining
    {
      var i :| 0 <= i < |p.targets| && p.targets[i] == t;
      var j :| 0 <= j < |q.targets| && q.targets[j] == t';
      assert Advance(p.targets[j], q.targets[j], n, n');
      assert i == j;
    }
  }

  /** A legal save over the current version keeps the invariant of the versions. */
  lemma AppendVersion(vs: seq<Plan>, n: Id, p: Plan, order: seq<nat>, p': Plan, n': Id)
    requires VersionsInv(vs, n)
    requires Loads(p, vs[|vs| - 1], order) && Legal(p, p', n, n')
    ensures VersionsInv(vs + [p'.(revision := p.revision + 1)], n')
  {
    AppendFacts(vs[|vs| - 1], p, order, p', n, n');
    AppendOne(vs, n, p'.(revision := p.revision + 1), n');
  }

  lemma AppendFacts(last: Plan, p: Plan, order: seq<nat>, p': Plan, n: Id, n': Id)
    requires PlanInv(last, n) && Loads(p, last, order) && Legal(p, p', n, n')
    ensures
      var q := p'.(revision := p.revision + 1);
      PlanInv(q, n') && PlanFollows(last, q) && Successor(last, q) && n <= n'
  {
    var q := p'.(revision := p.revision + 1);
    LoadKeeps(p, last, order, n);
    AdvancesFollow(p, q, n, n');
    FollowsLoaded(last, p, order, q, n);
    assert PlanInv(q, n') by {
      forall t | t in q.targets ensures TargetInv(t, q, n') { assert TargetInv(t, p', n'); }
    }
    AppendSuccessor(last, p, order, p', n, n');
  }

  lemma AppendOne(vs: seq<Plan>, n: Id, q: Plan, n': Id)
    requires VersionsInv(vs, n) && n <= n' && PlanInv(q, n') && PlanFollows(vs[|vs| - 1], q) && Successor(vs[|vs| - 1], q)
    requires q.revision == vs[|vs| - 1].revision + 1
    requires q.status == PlanSucceeded ==> BatchSucceeded(q.targets, q.currentBatch) && !HasBatch(q.targets, q.currentBatch + 1)
    ensures VersionsInv(vs + [q], n')
  {
    var last := vs[|vs| - 1];
    var vs' := vs + [q];
    forall k | 0 <= k < |vs'| ensures PlanInv(vs'[k], n') {
      if k < |vs| { PlanInvLater(vs[k], n, n'); }
    }
    forall k, l | 0 <= k < l < |vs'| ensures PlanFollows(vs'[k], vs'[l]) {
      if l == |vs| && k < |vs| - 1 {
        PlanFollowsTransitive(vs[k], last, q);
      }
    }
    forall k, l | 0 <= k && l == k + 1 && l < |vs'| ensures Successor(vs'[k], vs'[l]) {
      if l < |vs| { assert Successor(vs[k], vs[l]); }
    }
  }

  /** Stamping coherent commands with the attempts of the plan they were built from. */
  lemma StampBuilt(commands: seq<Command>, delivered: nat, v: Plan, n: Id)
    requires delivered <= |commands| && PlanInv(v, n) && AllCoherent(commands, v.targets)
    ensures forall s :: s in Stamp(commands[..delivered], v.targets) ==> BuiltFrom(s, v)
  {
    var stamped := Stamp(commands[..delivered], v.targets);
    forall s | s in stamped ensures BuiltFrom(s, v) {
      var k :| 0 <= k < |stamped| && stamped[k] == s;
      assert s.command == commands[k] && CoherentWith(commands[k], v.targets);
      var i :| 0 <= i < |v.targets| && Coherent(commands[k], v.targets[i]);
      FindUnique(v.targets, i);
      assert v.targets[i] in v.targets;
    }
  }

  lemma {:induction false} FindUnique(ts: seq<Target>, i: nat)
    requires i < |ts| && DistinctIds(ts)
    ensures FindTarget(ts, ts[i].id) == Some(i)
  {
    if i > 0 {
      FindUnique(ts[1..], i - 1);
    }
  }

  lemma SentAppend(w: World, more: seq<Sent>, k: nat)
    requires SentInv(w) && k < |w.versions|
    requires forall s :: s in more ==> BuiltFrom(s, w.versions[k])
    ensures SentInv(w.(sent := w.sent + more))
  {
  }

  /** The compare-and-swap goes through only for a copy of the current version. */
  lemma SwapOnlyCurrent(w: World, k: nat, p: Plan, order: seq<nat>)
    requires WorldInv(w) && k < |w.versions| && Loads(p, w.versions[k], order)
    ensures p.revision == Current(w).revision <==> k == |w.versions| - 1
  {
    assert w.versions[k].revision == w.versions[0].revision + k;
    assert w.versions[|w.versions| - 1].revision == w.versions[0].revision + (|w.versions| - 1);
  }

  /** An agent was only ever addressed about targets of batches that the current plan has opened. */
  lemma HeardOpened(w: World, p: Plan, order: seq<nat>, r: Report)
    requires WorldInv(w) && Loads(p, Current(w), order) && Heard(r, w.sent)
    ensures Opened(p, r)
  {
    var m :| 0 <= m < |w.sent| && w.sent[m].command.targetId == r.targetId && w.sent[m].command.commandId == r.commandId;
    var k, t := SentFrom(w, w.sent[m]);
    LoadKeeps(p, Current(w), order, w.nextId);
    forall u | u in p.targets && u.id == r.targetId ensures u.batch <= p.currentBatch {
      StartedOpened(w.versions, w.nextId, k, t, u);
    }
  }

  /** The version and the target a command was built from. */
  lemma SentFrom(w: World, s: Sent) returns (k: nat, t: Target)
    requires WorldInv(w) && s in w.sent
    ensures k < |w.versions| && t in w.versions[k].targets && Coherent(s.command, t) && s.attempt == t.retries
  {
    k :| 0 <= k < |w.versions| && BuiltFrom(s, w.versions[k]);
    t :| t in w.versions[k].targets && Coherent(s.command, t) && s.attempt == t.retries;
  }

  /** A target that was active in some version belongs to a batch the last version has opened. */
  lemma StartedOpened(vs: seq<Plan>, n: Id, k: nat, t: Target, u: Target)
    requires VersionsInv(vs, n) && k < |vs|
    requires t in vs[k].targets && t.status !in {TargetWaiting, TargetCancelled}
    requires u in vs[|vs| - 1].targets && u.id == t.id
    ensures u.batch <= vs[|vs| - 1].currentBatch
  {
    assert PlanInv(vs[k], n) && TargetInv(t, vs[k], n);
    if k < |vs| - 1 {
      assert PlanFollows(vs[k], vs[|vs| - 1]);
      assert TargetFollows(t, u);
    } else {
      SameTarget(vs[k].targets, t, u);
    }
  }

  lemma SameTarget(ts: seq<Target>, t: Target, u: Target)
    requires DistinctIds(ts) && t in ts && u in ts && t.id == u.id
    ensures t == u
  {
    var i :| 0 <= i < |ts| && ts[i] == t;
    var j :| 0 <= j < |ts| && ts[j] == u;
  }

  lemma NextIdGrows(a: Action, p: Plan, n: Id)
    requires PlanInv(p, n) && (a.Scan? ==> Active(p))
    ensures n <= Act(a, p, n).nextId
    ensures Act(a, p, n).saved.None? && !a.Scan? ==> Act(a, p, n).commands == []
  {
    if a.Scan? { ScanLegal(p, n, a.env); }
  }

  lemma StepKeepsInv(w: World, w': World, k: nat, p: Plan, order: seq<nat>, a: Action, delivered: nat)
    requires WorldInv(w) && StepWith(w, w', k, p, order, a, delivered)
    ensures WorldInv(w')
  {
    var n := w.nextId;
    var e := Act(a, p, n);
    LoadKeeps(p, w.versions[k], order, n);
    SwapOnlyCurrent(w, k, p, order);
    NextIdGrows(a, p, n);
    if e.saved.Some? && p.revision == Current(w).revision {
      if a.AgentEvent? || a.Heartbeat? { HeardOpened(w, p, order, a.report); }
      ActLegal(a, p, n);
      AppendVersion(w.versions, n, p, order, e.saved.value, e.nextId);
      StampBuilt(e.commands, delivered, e.saved.value, e.nextId);
      SavedStep(w, w', e.saved.value.(revision := p.revision + 1), Stamp(e.commands[..delivered], e.saved.value.targets));
    } else {
      LaterIds(w.versions, n, e.nextId);
      if e.saved.None? {
        if a.Scan? { ActLegal(a, p, n); }
        StampBuilt(e.commands, delivered, p, n);
        BuiltFromLoaded(Stamp(e.commands[..delivered], p.targets), p, w.versions[k], order, n);
        SentAppend(w, Stamp(e.commands[..delivered], p.targets), k);
      }
    }
  }

  lemma LaterIds(vs: seq<Plan>, n: Id, n': Id)
    requires VersionsInv(vs, n) && n <= n'
    ensures VersionsInv(vs, n')
  {
    forall k | 0 <= k < |vs| ensures PlanInv(vs[k], n') { PlanInvLater(vs[k], n, n'); }
  }

  lemma BuiltFromLoaded(sent: seq<Sent>, p: Plan, v: Plan, order: seq<nat>, n: Id)
    requires Loads(p, v, order) && PlanInv(v, n) && forall s :: s in sent ==> BuiltFrom(s, p)
    ensures forall s :: s in sent ==> BuiltFrom(s, v)
  {
    LoadKeeps(p, v, order, n);
  }

  lemma SavedStep(w: World, w': World, q: Plan, more: seq<Sent>)
    requires SentInv(w)
    requires w'.versions == w.versions + [q] && w'.sent == w.sent + more
    requires forall s :: s in more ==> BuiltFrom(s, q)
    ensures SentInv(w')
  {
    forall s | s in w'.sent ensures exists k :: 0 <= k < |w'.versions| && BuiltFrom(s, w'.versions[k]) {
      if s in w.sent {
        var k :| 0 <= k < |w.versions| && BuiltFrom(s, w.versions[k]);
        assert w'.versions[k] == w.versions[k];
      } else {
        assert s in more && w'.versions[|w.versions|] == q;
      }
    }
  }

  lemma InitInv(w: World)
    requires Init(w)
    ensures WorldInv(w)
  {
    var p := w.versions[0];
    forall t | t in p.targets ensures TargetInv(t, p, w.nextId) {}
  }

  lemma {:induction false} RunKeepsInv(ws: seq<World>, i: nat)
    requires IsRun(ws) && i < |ws|
    ensures WorldInv(ws[i])
  {
    if i == 0 {
      InitInv(ws[0]);
    } else {
      RunKeepsInv(ws, i - 1);
      assert Step(ws[i - 1], ws[i - 1 + 1]);
      var k, p, order, a, delivered :| StepWith(ws[i - 1], ws[i], k, p, order, a, delivered);
      StepKeepsInv(ws[i - 1], ws[i], k, p, order, a, delivered);
    }
  }

  // ---------------------------------------------------------------------------------------------
  // Theorems about every run
  // ---------------------------------------------------------------------------------------------

  /** Batch gating: in every version ever stored, a target of a batch after the current one is still
      waiting, or was cancelled while waiting; and the current batch only ever grows by one, onto a version
      in which the batch left behind has succeeded as a whole. */
  lemma BatchesAreGated(ws: seq<World>, i: nat, k: nat)
    requires IsRun(ws) && i < |ws| && k < |ws[i].versions|
    ensures forall t :: t in ws[i].versions[k].targets && t.batch > ws[i].versions[k].currentBatch
              ==> t.status in {TargetWaiting, TargetCancelled}
    ensures k > 0 ==> var v, v' := ws[i].versions[k - 1], ws[i].versions[k];
      v'.currentBatch == v.currentBatch || (v'.currentBatch == v.currentBatch + 1 && BatchSucceeded(v'.targets, v.currentBatch))
  {
    RunKeepsInv(ws, i);
    var v := ws[i].versions[k];
    assert PlanInv(v, ws[i].nextId);
    forall t | t in v.targets && t.batch > v.currentBatch ensures t.status in {TargetWaiting, TargetCancelled} {
      assert TargetInv(t, v, ws[i].nextId);
    }
    if k > 0 { assert Successor(ws[i].versions[k - 1], ws[i].versions[k]); }
  }

  /** Every batch before the current one was, at some version, a batch that had succeeded as a whole. */
  lemma {:induction false} PassedBatch(vs: seq<Plan>, n: Id, l: nat, b: int) returns (k: nat)
    requires VersionsInv(vs, n) && l < |vs| && 1 <= b < vs[l].currentBatch
    ensures k <= l && BatchSucceeded(vs[k].targets, b)
  {
    assert l > 0;
    assert Successor(vs[l - 1], vs[l]);
    if b < vs[l - 1].currentBatch {
      k := PassedBatch(vs, n, l - 1, b);
    } else {
      k := l;
    }
  }

  /** If some target has batch `b`, every batch from 1 to `b` has a target. */
  lemma {:induction false} BatchesContiguous(ts: seq<Target>, b: int, c: int)
    requires forall t :: t in ts && t.batch > 1 ==> HasBatch(ts, t.batch - 1)
    requires HasBatch(ts, b) && 1 <= c <= b
    ensures HasBatch(ts, c)
    decreases b - c
  {
    if c < b {
      BatchesContiguous(ts, b, c + 1);
      var i :| 0 <= i < |ts| && ts[i].batch == c + 1;
      assert ts[i] in ts;
    }
  }

  lemma SameBatches(p: Plan, p': Plan, b: int)
    requires PlanFollows(p, p')
    ensures HasBatch(p.targets, b) <==> HasBatch(p'.targets, b)
  {
    if HasBatch(p.targets, b) {
      var i :| 0 <= i < |p.targets| && p.targets[i].batch == b;
      assert p.targets[i].id in Ids(p.targets);
      var t' :| t' in p'.targets && t'.id == p.targets[i].id;
      assert TargetFollows(p.targets[i], t');
      var j :| 0 <= j < |p'.targets| && p'.targets[j] == t';
    }
    if HasBatch(p'.targets, b) {
      var i :| 0 <= i < |p'.targets| && p'.targets[i].batch == b;
      assert p'.targets[i].id in Ids(p'.targets);
      var t :| t in p.targets && t.id == p'.targets[i].id;
      assert TargetFollows(t, p'.targets[i]);
      var j :| 0 <= j < |p.targets| && p.targets[j] == t;
    }
  }

  /** A plan that has succeeded has passed every batch: each batch any target belongs to was, at this
      version or an earlier one, a batch in which every target had succeeded. */
  lemma SucceededPassedEveryBatch(ws: seq<World>, i: nat, l: nat, t: Target) returns (k: nat)
    requires IsRun(ws) && i < |ws| && l < |ws[i].versions|
    requires ws[i].versions[l].status == PlanSucceeded && t in ws[i].versions[l].targets
    ensures k <= l && BatchSucceeded(ws[i].versions[k].targets, t.batch)
  {
    RunKeepsInv(ws, i);
    var vs := ws[i].versions;
    SucceededOnLastBatch(vs, ws[i].nextId, l, t);
    if t.batch == vs[l].currentBatch {
      k := l;
    } else {
      k := PassedBatch(vs, ws[i].nextId, l, t.batch);
    }
  }

  /** No target of a succeeded plan belongs to a later batch than the current one. */
  lemma SucceededOnLastBatch(vs: seq<Plan>, n: Id, l: nat, t: Target)
    requires VersionsInv(vs, n) && l < |vs| && vs[l].status == PlanSucceeded && t in vs[l].targets
    ensures 1 <= t.batch <= vs[l].currentBatch
  {
    var c := vs[l].currentBatch;
    var x :| 0 <= x < |vs[l].targets| && vs[l].targets[x] == t;
    assert HasBatch(vs[l].targets, t.batch);
    if l > 0 {
      assert PlanFollows(vs[0], vs[l]);
      SameBatches(vs[0], vs[l], t.batch);
      SameBatches(vs[0], vs[l], c + 1);
    }
    assert PlanInv(vs[l], n);
    if t.batch > c {
      BatchesContiguous(vs[0].targets, t.batch, c + 1);
    }
    var y :| 0 <= y < |vs[0].targets| && vs[0].targets[y].batch == t.batch;
    assert vs[0].targets[y] in vs[0].targets;
  }

  /** Rollback undoes the right install: all commands ever sent for one attempt of a target speak about the
      same install command, and commands of different attempts about different ones. */
  lemma CommandsOfAnAttemptAgree(ws: seq<World>, i: nat, s: Sent, s': Sent)
    requires IsRun(ws) && i < |ws| && s in ws[i].sent && s' in ws[i].sent
    requires s.command.targetId == s'.command.targetId
    ensures s.attempt == s'.attempt <==> s.command.InstallId() == s'.command.InstallId()
  {
    RunKeepsInv(ws, i);
    var w := ws[i];
    var k, t := SentFrom(w, s);
    var l, t' := SentFrom(w, s');
    CoherentInstall(w.versions[k], w.nextId, t, s.command);
    CoherentInstall(w.versions[l], w.nextId, t', s'.command);
    VersionsAgree(w.versions, w.nextId, k, t, l, t');
  }

  lemma CoherentInstall(v: Plan, n: Id, t: Target, c: Command)
    requires PlanInv(v, n) && t in v.targets && Coherent(c, t)
    ensures c.InstallId() == t.installCommandId
  {
    assert TargetInv(t, v, n);
  }

  lemma VersionsAgree(vs: seq<Plan>, n: Id, k: nat, t: Target, l: nat, t': Target)
    requires VersionsInv(vs, n) && k < |vs| && l < |vs|
    requires t in vs[k].targets && t' in vs[l].targets && t.id == t'.id
    ensures t.retries == t'.retries <==> t.installCommandId == t'.installCommandId
  {
    if k < l {
      assert PlanFollows(vs[k], vs[l]);
      assert TargetFollows(t, t');
    } else if l < k {
      assert PlanFollows(vs[l], vs[k]);
      assert TargetFollows(t', t);
    } else {
      assert PlanInv(vs[k], n);
      SameTarget(vs[k].targets, t, t');
    }
  }

  /** No command carrying the current identifier of an unstarted target was ever sent, so no agent report
      can take a target past draining. */
  lemma UnstartedTargetsAreUnheard(ws: seq<World>, i: nat, t: Target, s: Sent)
    requires IsRun(ws) && i < |ws| && s in ws[i].sent
    requires ws[i].versions != [] && t in Current(ws[i]).targets
    requires Unstarted(t.status) && s.command.targetId == t.id
    ensures s.command.commandId != t.commandId
  {
    RunKeepsInv(ws, i);
    var k, u := SentFrom(ws[i], s);
    UnstartedIsNew(ws[i].versions, ws[i].nextId, k, u, t);
  }

  /** An unstarted target of the last version carries an identifier that no started target of its kind carried. */
  lemma UnstartedIsNew(vs: seq<Plan>, n: Id, k: nat, u: Target, t: Target)
    requires VersionsInv(vs, n) && k < |vs| && u in vs[k].targets && u.status !in {TargetWaiting, TargetDraining, TargetCancelled}
    requires t in vs[|vs| - 1].targets && t.id == u.id && Unstarted(t.status)
    ensures u.commandId != t.commandId
  {
    if k < |vs| - 1 {
      assert PlanFollows(vs[k], vs[|vs| - 1]);
      assert TargetFollows(u, t);
    } else {
      assert PlanInv(vs[k], n);
      SameTarget(vs[k].targets, u, t);
    }
  }

  /** Cancellation is stable: from the version that requested it on, no target waits, the plan is paused or
      cancelled, no target newly starts draining, and a cancelled plan has only terminal targets and no
      later version. */
  lemma CancellationIsStable(ws: seq<World>, i: nat, k: nat, l: nat)
    requires IsRun(ws) && i < |ws| && k <= l < |ws[i].versions|
    requires ws[i].versions[k].cancelRequested
    ensures var v := ws[i].versions[l];
      && v.cancelRequested && v.status in {PlanPaused, PlanCancelled}
      && (forall t :: t in v.targets ==> t.status != TargetWaiting)
      && (forall t :: t in v.targets && v.status == PlanCancelled ==> Terminal(t.status))
      && (v.status == PlanCancelled ==> l == |ws[i].versions| - 1)
      && (l < |ws[i].versions| - 1 ==>
            forall t, t' :: t in v.targets && t' in ws[i].versions[l + 1].targets && t.id == t'.id ==>
              (t'.status == TargetDraining ==> t.status == TargetDraining))
  {
    RunKeepsInv(ws, i);
    var vs := ws[i].versions;
    if k < l { assert PlanFollows(vs[k], vs[l]); }
    assert PlanInv(vs[l], ws[i].nextId);
    forall t | t in vs[l].targets ensures t.status != TargetWaiting && (vs[l].status == PlanCancelled ==> Terminal(t.status)) {
      assert TargetInv(t, vs[l], ws[i].nextId);
    }
    if l < |vs| - 1 { assert Successor(vs[l], vs[l + 1]); }
  }
}
