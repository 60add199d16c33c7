/** Creating a plan (internal/agentupgrade/service.go): validation and batch numbering. */
module UpgradePlanning {
  import opened Common
  import opened UpgradeModel
  import opened UpgradeService
  import UpgradeRuns
  import Version

  datatype Error =
    | ErrInvalidPlan | ErrActivePlanExists | ErrReleaseNotFound | ErrUpgradeUnsupported | ErrServerIneligible
    | ErrVersionNotComparable | ErrNoUpgradeNeeded | ErrDowngradeNotAllowed | ErrRollbackSourceChanged
    | ErrArtifactUnavailable | ErrInvalidTransition

  datatype Result<+T> = Ok(value: T) | Err(error: Error)

  datatype Input = Input(serverIds: seq<Id>, batchSize: int, drainTimeoutSeconds: int, reconnectTimeoutSeconds: int, verificationSeconds: int)

  function WithDefaults(input: Input): Input {
    input.(batchSize := if input.batchSize == 0 then 1 else input.batchSize,
           drainTimeoutSeconds := if input.drainTimeoutSeconds == 0 then 3600 else input.drainTimeoutSeconds,
           reconnectTimeoutSeconds := if input.reconnectTimeoutSeconds == 0 then 120 else input.reconnectTimeoutSeconds,
           verificationSeconds := if input.verificationSeconds == 0 then 30 else input.verificationSeconds)
  }

  predicate ValidInput(input: Input) {
    && input.serverIds != []
    && 1 <= input.batchSize <= 100
    && 60 <= input.drainTimeoutSeconds <= 86400
    && 30 <= input.reconnectTimeoutSeconds <= 3600
    && 10 <= input.verificationSeconds <= 600
    && forall i, j :: 0 <= i < j < |input.serverIds| ==> input.serverIds[i] != input.serverIds[j]
  }

  /** A value left out, which is zero, or one within the bounds. */
  predicate Within(value: int, low: int, high: int) {
    value == 0 || low <= value <= high
  }

  /** Which requests are valid: at least one server and none twice, batches of up to 100, a drain of a minute to a day, a
      reconnect of 30 seconds to an hour, a verification of 10 seconds to 10 minutes. Left out they are one server, an
      hour, two minutes and 30 seconds. */
  lemma InputIs(input: Input)
    ensures ValidInput(WithDefaults(input)) <==>
            && |input.serverIds| > 0 && (forall i, j :: 0 <= i < j < |input.serverIds| ==> input.serverIds[i] != input.serverIds[j])
            && Within(input.batchSize, 1, 100) && Within(input.drainTimeoutSeconds, 60, 24 * 60 * 60)
            && Within(input.reconnectTimeoutSeconds, 30, 60 * 60) && Within(input.verificationSeconds, 10, 10 * 60)
    ensures
      var full := WithDefaults(input);
      && full.serverIds == input.serverIds
      && full.batchSize == (if input.batchSize != 0 then input.batchSize else 1)
      && full.drainTimeoutSeconds == (if input.drainTimeoutSeconds != 0 then input.drainTimeoutSeconds else 60 * 60)
      && full.reconnectTimeoutSeconds == (if input.reconnectTimeoutSeconds != 0 then input.reconnectTimeoutSeconds else 2 * 60)
      && full.verificationSeconds == (if input.verificationSeconds != 0 then input.verificationSeconds else 30)
  {
  }

  /** The server runs a version strictly below the release's. */
  ghost predicate Upgrades(sourceVersion: string, targetVersion: string) {
    exists x, y :: Version.Reads(sourceVersion, x) && Version.Reads(targetVersion, y) && Version.Precedes(x, y)
  }

  /** An ordinary plan upgrades; a rollback plan returns the server of a succeeded target to where it came from. */
  ghost predicate Admissible(server: ServerInfo, release: ReleaseInfo, source: Option<Target>) {
    && Eligible(server)
    && SELF_UPGRADE in server.capabilities
    && HasArtifact(release, server.agentOs, server.agentArch)
    && (source.Some? ==> server.id == source.value.serverId && server.agentVersion == source.value.targetVersion
                         && server.agentVersion != release.version)
    && (source.None? ==> Upgrades(server.agentVersion, release.version))
  }

  /** Everything `createPlan` demands before it looks at the servers one by one. */
  predicate Acceptable(input: Input, source: Option<Target>, active: bool, release: Option<ReleaseInfo>, servers: seq<ServerInfo>) {
    && ValidInput(WithDefaults(input))
    && !active
    && release.Some? && Usable(release.value)
    && |servers| == |input.serverIds|
    && (source.Some? ==> source.value.status == TargetSucceeded && input.serverIds == [source.value.serverId]
                         && release.value.version == source.value.sourceVersion)
  }

  ghost function Members(targets: seq<Target>, batch: int): set<int> {
    set i | 0 <= i < |targets| && targets[i].batch == batch
  }

  method AdmitServer(server: ServerInfo, release: ReleaseInfo, source: Option<Target>) returns (refusal: Option<Error>)
    ensures refusal.None? <==> Admissible(server, release, source)
    ensures refusal == Some(ErrNoUpgradeNeeded) && source.None? ==>
      exists x :: Version.Reads(server.agentVersion, x) && Version.Reads(release.version, x)
    ensures refusal == Some(ErrDowngradeNotAllowed) ==> Upgrades(release.version, server.agentVersion)
  {
    if !server.enabled || (server.status != "online" && server.status != "draining") {
      return Some(ErrServerIneligible);
    }
    if SELF_UPGRADE !in server.capabilities {
      return Some(ErrUpgradeUnsupported);
    }
    if source.Some? {
      if server.id != source.value.serverId || server.agentVersion != source.value.targetVersion {
        return Some(ErrRollbackSourceChanged);
      }
      if server.agentVersion == release.version {
        return Some(ErrNoUpgradeNeeded);
      }
    } else {
      var comparison, comparable := Version.CompareStableVersions(server.agentVersion, release.version);
      if !comparable {
        return Some(ErrVersionNotComparable);
      }
      ghost var x :| Version.Reads(server.agentVersion, x);
      ghost var y :| Version.Reads(release.version, y);
      if comparison == 0 {
        return Some(ErrNoUpgradeNeeded);
      }
      if comparison > 0 {
        return Some(ErrDowngradeNotAllowed);
      }
    }
    if !HasArtifact(release, server.agentOs, server.agentArch) {
      return Some(ErrArtifactUnavailable);
    }
    refusal := None;
  }

  /** The batch number of the server at an index. */
  function BatchAt(index: nat, batchSize: int): int
    requires batchSize >= 1
  {
    if index > 0 then 2 + (index - 1) / batchSize else 1
  }

  function NewTarget(server: ServerInfo, release: ReleaseInfo, index: nat, batchSize: int, now: int, n: Id): Target
    requires batchSize >= 1
  {
    Target(n + 1, server.id, BatchAt(index, batchSize), server.agentVersion, release.version, server.draining,
           TargetWaiting, 0, n, n, "", None, now, None, 0)
  }

  /** A plan is created exactly when every demand is met. It starts in the initial state of a run, with one
      target per server in the given order; batch 1 has one member, every other batch at most `batchSize`,
      and an ordinary plan takes every server to a strictly higher version. */
  method CreatePlan(input: Input, source: Option<Target>, active: bool, release: Option<ReleaseInfo>, servers: seq<ServerInfo>, now: int, n: Id)
    returns (r: Result<Plan>, n': Id)
    ensures r.Ok? <==> Acceptable(input, source, active, release, servers)
                       && forall i :: 0 <= i < |servers| ==> Admissible(servers[i], release.value, source)
    ensures r.Ok? ==>
      && UpgradeRuns.Fresh(r.value, n')
      && |r.value.targets| == |servers|
      && (forall i :: 0 <= i < |servers| ==> r.value.targets[i].serverId == servers[i].id
                                             && r.value.targets[i].sourceVersion == servers[i].agentVersion
                                             && r.value.targets[i].targetVersion == release.value.version)
      && Members(r.value.targets, 1) == {0}
      && (forall b :: |Members(r.value.targets, b)| <= WithDefaults(input).batchSize)
      && (source.None? ==> forall i :: 0 <= i < |servers| ==> Upgrades(r.value.targets[i].sourceVersion, r.value.targets[i].targetVersion))
  {
    n' := n;
    var full := WithDefaults(input);
    if !ValidInput(full) {
      return Err(ErrInvalidPlan), n';
    }
    if source.Some? && (source.value.status != TargetSucceeded || |full.serverIds| != 1 || full.serverIds[0] != source.value.serverId) {
      return Err(ErrInvalidTransition), n';
    }
    if active {
      return Err(ErrActivePlanExists), n';
    }
    if release.None? {
      return Err(ErrReleaseNotFound), n';
    }
    if !Usable(release.value) {
      return Err(ErrUpgradeUnsupported), n';
    }
    if source.Some? && release.value.version != source.value.sourceVersion {
      return Err(ErrInvalidTransition), n';
    }
    if |servers| != |full.serverIds| {
      return Err(ErrServerIneligible), n';
    }
    var planId := n';
    var targets;
    targets, n' := BuildTargets(servers, release.value, source, full.batchSize, now, n' + 1);
    if targets.Err? {
      return Err(targets.error), n';
    }
    var plan := Plan(planId, release.value.id, PlanRunning, full.batchSize, full.drainTimeoutSeconds,
                     full.reconnectTimeoutSeconds, full.verificationSeconds, 1, 0, false, None, targets.value);
    BuiltIsFresh(plan, servers, release.value, now, n + 1, n');
    r := Ok(plan);
  }

  /** Builds one target for every server, in order, unless one of them is refused. */
  method BuildTargets(servers: seq<ServerInfo>, release: ReleaseInfo, source: Option<Target>, batchSize: int, now: int, n: Id)
    returns (r: Result<seq<Target>>, n': Id)
    requires batchSize >= 1
    ensures r.Ok? <==> forall i :: 0 <= i < |servers| ==> Admissible(servers[i], release, source)
    ensures r.Ok? ==> Built(r.value, servers, release, batchSize, now, n) && n' == n + 2 * |servers|
  {
    n' := n;
    var targets: seq<Target> := [];
    for index := 0 to |servers|
      invariant n' == n + 2 * index
      invariant forall i :: 0 <= i < index ==> Admissible(servers[i], release, source)
      invariant Built(targets, servers[..index], release, batchSize, now, n)
    {
      var refusal := AdmitServer(servers[index], release, source);
      if refusal.Some? {
        return Err(refusal.value), n';
      }
      targets := targets + [NewTarget(servers[index], release, index, batchSize, now, n')];
      n' := n' + 2;
    }
    assert servers[..|servers|] == servers;
    r := Ok(targets);
  }

  /** What the loop has built. */
  ghost predicate Built(targets: seq<Target>, servers: seq<ServerInfo>, release: ReleaseInfo, batchSize: int, now: int, n: Id)
    requires batchSize >= 1
  {
    && |targets| == |servers|
    && forall i :: 0 <= i < |targets| ==> targets[i] == NewTarget(servers[i], release, i, batchSize, now, n + 2 * i)
  }

  lemma BuiltIsFresh(p: Plan, servers: seq<ServerInfo>, release: ReleaseInfo, now: int, n: Id, n': Id)
    requires p.batchSize >= 1 && |p.targets| > 0 && p.reconnectTimeoutSeconds > 0
    requires p.status == PlanRunning && p.currentBatch == 1 && !p.cancelRequested
    requires Built(p.targets, servers, release, p.batchSize, now, n) && n' == n + 2 * |servers|
    ensures UpgradeRuns.Fresh(p, n')
    ensures Members(p.targets, 1) == {0}
    ensures forall b :: |Members(p.targets, b)| <= p.batchSize
  {
    BatchesOf(p.targets, p.batchSize);
  }

  ghost predicate Numbered(targets: seq<Target>, batchSize: int)
    requires batchSize >= 1
  {
    forall i :: 0 <= i < |targets| ==> targets[i].batch == BatchAt(i, batchSize)
  }

  /** The numbering is contiguous, puts exactly one target in batch 1 and at most `batchSize` elsewhere. */
  lemma BatchesOf(targets: seq<Target>, batchSize: int)
    requires batchSize >= 1 && |targets| > 0 && Numbered(targets, batchSize)
    ensures Members(targets, 1) == {0}
    ensures forall b :: |Members(targets, b)| <= batchSize
    ensures forall t :: t in targets ==> t.batch >= 1
    ensures forall t :: t in targets && t.batch > 1 ==> HasBatch(targets, t.batch - 1)
  {
    forall i | 0 < i < |targets| ensures targets[i].batch >= 2 {
      BatchRange(i, batchSize);
    }
    assert Members(targets, 1) == {0};
    forall b ensures |Members(targets, b)| <= batchSize {
      BatchSize(targets, batchSize, b);
    }
    forall t | t in targets && t.batch > 1 ensures HasBatch(targets, t.batch - 1) {
      var i :| 0 <= i < |targets| && targets[i] == t;
      PreviousBatch(targets, batchSize, i);
    }
  }

  /** Batch b > 1 holds the indices 1 + (b - 2) * size up to size of them. */
  lemma BatchRange(i: nat, batchSize: int)
    requires batchSize >= 1 && i > 0
    ensures var b := BatchAt(i, batchSize); b >= 2 && (b - 2) * batchSize <= i - 1 < (b - 2) * batchSize + batchSize
  {
    assert i - 1 == ((i - 1) / batchSize) * batchSize + (i - 1) % batchSize;
  }

  lemma RangeBatch(i: nat, batchSize: int, b: int)
    requires batchSize >= 1 && i > 0 && (b - 2) * batchSize <= i - 1 < (b - 2) * batchSize + batchSize
    ensures BatchAt(i, batchSize) == b
  {
    var c := BatchAt(i, batchSize);
    BatchRange(i, batchSize);
    Separate(c - 2, b - 2, batchSize, i - 1);
  }

  lemma Separate(q: int, q': int, d: int, x: int)
    requires d >= 1 && q * d <= x < q * d + d && q' * d <= x < q' * d + d
    ensures q == q'
  {
    if q + 1 <= q' {
      MulOrder(q + 1, q', d);
    } else if q' + 1 <= q {
      MulOrder(q' + 1, q, d);
    }
  }

  lemma MulOrder(a: int, b: int, d: int)
    requires a <= b && d >= 1
    ensures a * d <= b * d
  {
  }

  lemma BatchSize(targets: seq<Target>, batchSize: int, b: int)
    requires batchSize >= 1 && |targets| > 0 && Numbered(targets, batchSize) && Members(targets, 1) == {0}
    ensures |Members(targets, b)| <= batchSize
  {
    if b != 1 {
      var low := 1 + (b - 2) * batchSize;
      forall i | i in Members(targets, b) ensures low <= i < low + batchSize {
        BatchRange(i, batchSize);
      }
      IntervalSize(Members(targets, b), low, batchSize);
    }
  }

  lemma PreviousBatch(targets: seq<Target>, batchSize: int, i: nat)
    requires batchSize >= 1 && Numbered(targets, batchSize) && i < |targets| && targets[i].batch > 1
    ensures HasBatch(targets, targets[i].batch - 1)
  {
    var b := targets[i].batch;
    BatchRange(i, batchSize);
    if b == 2 {
      assert targets[0].batch == 1;
    } else {
      var j := i - batchSize;
      MulOrder(1, b - 2, batchSize);
      assert (b - 3) * batchSize == (b - 2) * batchSize - batchSize;
      RangeBatch(j, batchSize, b - 1);
      assert targets[j].batch == b - 1;
    }
  }

  lemma {:induction false} IntervalSize(s: set<int>, low: int, size: nat)
    requires forall i :: i in s ==> low <= i < low + size
    ensures |s| <= size
  {
    if size == 0 {
      assert forall i: int :: i !in s;
      assert |s| == 0;
    } else {
      IntervalSize(s - {low + size - 1}, low, size - 1);
      assert |s - {low + size - 1}| >= |s| - 1;
    }
  }
}
