/** The release state store (internal/release/state.go): a write-ahead transaction over the current and the
    previous release, beside immutable history and success records.

    The directory is a value that the methods thread through. Every atomic step asks the fault schedule first:
    it may go through, fail without effect, take effect and still report an error (a failed directory
    synchronisation), or never happen because the process dies. */
module ReleaseState {
  import opened Common
  import opened Faults

  type TargetId = nat

  datatype Origin = Bootstrap | Registry | Integration

  const BOOTSTRAP: TargetId := 0

  /** `content` stands for source, images and compatibility; `sound` says that they were validated; `at` is the
      success time, 0 for none. */
  datatype Release = Release(target: TargetId, origin: Origin, content: nat, sound: bool, at: nat)

  predicate Validated(r: Release, requireSuccess: bool) {
    r.sound && (requireSuccess ==> r.at != 0)
  }

  /** Equal up to the success time. */
  predicate SameIdentity(a: Release, b: Release) {
    a.(at := 0) == b.(at := 0)
  }

  datatype SuccessFile = Partial | Written(release: Release)

  datatype Transaction = Transaction(current: Release, previous: Option<Release>)

  datatype Store = Store(
    current: Option<Release>, previous: Option<Release>, transaction: Option<Transaction>,
    history: map<TargetId, Release>, success: map<TargetId, SuccessFile>, faults: seq<Fault>)

  /** What the next load sees: a recorded transaction counts as done. */
  datatype View = View(current: Option<Release>, previous: Option<Release>)

  function ViewOf(s: Store): View {
    match s.transaction
    case None => View(s.current, s.previous)
    case Some(t) => View(Some(t.current), t.previous)
  }

  /** The release has an immutable history record and a success record of the same identity. */
  predicate Backed(s: Store, r: Option<Release>) {
    r.Some? ==> BackedBy(s.history, s.success, r.value)
  }

  predicate BackedBy(history: map<TargetId, Release>, success: map<TargetId, SuccessFile>, r: Release) {
    && Validated(r, true)
    && r.target in history && SameIdentity(history[r.target], r)
    && r.target in success && success[r.target].Written? && SameIdentity(success[r.target].release, r)
  }

  predicate RecordsOk(history: map<TargetId, Release>, success: map<TargetId, SuccessFile>) {
    && (forall t :: t in history ==> history[t].sound && history[t].target == t)
    && (forall t :: t in success ==> t in history)
    && (forall t :: t in success && success[t].Written? ==>
          success[t].release.target == t && BackedBy(history, success, success[t].release))
  }

  predicate Inv(s: Store) {
    && Backed(s, s.current) && Backed(s, s.previous)
    && (s.transaction.Some? ==> Backed(s, Some(s.transaction.value.current)) && Backed(s, s.transaction.value.previous))
    && RecordsOk(s.history, s.success)
  }

  /** History and success records are never changed or removed. */
  predicate RecordsGrow(s: Store, s': Store) {
    && (forall t :: t in s.history ==> t in s'.history && s'.history[t] == s.history[t])
    && (forall t :: t in s.success ==> t in s'.success && s'.success[t] == s.success[t])
  }

  /** The success record was created and never completed. */
  predicate Torn(s: Store, target: TargetId) {
    target in s.success && s.success[target].Partial?
  }

  predicate Names(v: View, target: TargetId) {
    (v.current.Some? && v.current.value.target == target) || (v.previous.Some? && v.previous.value.target == target)
  }

  predicate Happens(fault: Fault) {
    fault == Fine || fault == LateError
  }

  /** The step number `k` is the first that does not go through, and has no effect. */
  predicate StopsAt(faults: seq<Fault>, k: nat) {
    Calm(faults, k) && !Happens(First(Drop(faults, k)))
  }

  /** The first `k` steps go through, and the next one has its effect. */
  predicate Gets(faults: seq<Fault>, k: nat) {
    Calm(faults, k) && Happens(First(Drop(faults, k)))
  }

  // ---------------------------------------------------------------------------------------------
  // Atomic steps
  // ---------------------------------------------------------------------------------------------

  method Tick(s: Store) returns (s': Store, fault: Fault)
    ensures s' == s.(faults := Drop(s.faults, 1)) && fault == First(s.faults)
  {
    if |s.faults| == 0 {
      return s, Fine;
    }
    s', fault := s.(faults := s.faults[1..]), s.faults[0];
  }

  // ---------------------------------------------------------------------------------------------
  // The transaction
  // ---------------------------------------------------------------------------------------------

  function RecoverySteps(s: Store): nat {
    if s.transaction.None? then 1 else 4
  }

  /** Carries a recorded transaction out. Wherever it stops, the next load sees the same pair. */
  method RecoverState(s: Store) returns (s': Store, outcome: Outcome)
    requires Inv(s)
    ensures Inv(s') && ViewOf(s') == ViewOf(s)
    ensures s'.history == s.history && s'.success == s.success
    ensures outcome == Done ==> s'.transaction.None? && s'.faults == Drop(s.faults, RecoverySteps(s))
    ensures outcome == Done <==> Calm(s.faults, RecoverySteps(s))
  {
    CalmNext(s.faults, 0);
    CalmNext(s.faults, 1);
    CalmNext(s.faults, 2);
    CalmNext(s.faults, 3);
    var fault;
    s', fault := Tick(s);
    if fault != Fine {
      return s', Ending(fault);
    }
    if s'.transaction.None? {
      return s', Done;
    }
    var t := s'.transaction.value;
    if !Validated(t.current, true) || (t.previous.Some? && !Validated(t.previous.value, true)) {
      return s', Failed;
    }
    s', fault := Tick(s');
    if Happens(fault) {
      s' := s'.(previous := t.previous);
    }
    if fault != Fine {
      return s', Ending(fault);
    }
    s', fault := Tick(s');
    if Happens(fault) {
      s' := s'.(current := Some(t.current));
    }
    if fault != Fine {
      return s', Ending(fault);
    }
    s', fault := Tick(s');
    if Happens(fault) {
      s' := s'.(transaction := None);
    }
    outcome := Ending(fault);
  }

  /** Makes a release current. Wherever it stops, the next load sees the old pair or the new release with the
      old current one as its predecessor. */
  method CommitState(s: Store, release: Release) returns (s': Store, outcome: Outcome)
    requires Inv(s) && Backed(s, Some(release))
    ensures Inv(s') && s'.history == s.history && s'.success == s.success
    ensures ViewOf(s') == if Gets(s.faults, RecoverySteps(s)) then View(Some(release), ViewOf(s).current) else ViewOf(s)
    ensures outcome == Done ==> s'.transaction.None?
    ensures outcome == Done <==> Calm(s.faults, RecoverySteps(s) + 5)
  {
    CalmNext(s.faults, RecoverySteps(s));
    CalmOn(s.faults, RecoverySteps(s) + 1, 4);
    s', outcome := RecoverState(s);
    if outcome != Done {
      return;
    }
    if s'.current.Some? && !Validated(s'.current.value, true) {
      return s', Failed;
    }
    var fault;
    var previous := s'.current;
    s', fault := Tick(s');
    if Happens(fault) {
      s' := s'.(transaction := Some(Transaction(release, previous)));
    }
    if fault != Fine {
      return s', Ending(fault);
    }
    s', outcome := RecoverState(s');
  }

  // ---------------------------------------------------------------------------------------------
  // Records
  // ---------------------------------------------------------------------------------------------

  /** Stores the history record by renaming a prepared directory; an existing record is left alone. */
  method SaveHistory(s: Store, release: Release) returns (s': Store, outcome: Outcome)
    requires Inv(s) && release.sound
    ensures Inv(s') && RecordsGrow(s, s') && ViewOf(s') == ViewOf(s) && s'.success == s.success
    ensures s'.history == if release.target !in s.history && Gets(s.faults, 1) then s.history[release.target := release] else s.history
    ensures s'.transaction == s.transaction && (outcome == Done ==> s'.faults == Drop(s.faults, 2))
    ensures outcome == Done <==> release.target !in s.history && Calm(s.faults, 2)
  {
    CalmNext(s.faults, 0);
    CalmNext(s.faults, 1);
    var fault;
    s', fault := Tick(s);
    if fault != Fine {
      return s', Ending(fault);
    }
    if release.target in s'.history {
      return s', Failed;
    }
    s', fault := Tick(s');
    if Happens(fault) {
      s' := s'.(history := s'.history[release.target := release]);
    }
    outcome := Ending(fault);
  }

  /** A missing success record may appear, whole or partial. */
  predicate SuccessStep(s: Store, s': Store, release: Release) {
    || s'.success == s.success
    || (release.target !in s.success
        && (s'.success == s.success[release.target := Partial] || s'.success == s.success[release.target := Written(release)]))
  }

  /** Creating a success record that is missing keeps the invariant. */
  lemma SuccessKeepsInv(s: Store, s': Store, release: Release, file: SuccessFile)
    requires Inv(s) && Validated(release, true)
    requires release.target in s.history && SameIdentity(s.history[release.target], release)
    requires release.target !in s.success
    requires file == Partial || file == Written(release)
    requires s' == s.(success := s.success[release.target := file], faults := s'.faults)
    ensures Inv(s') && RecordsGrow(s, s')
  {
    forall r | Backed(s, r)
      ensures Backed(s', r)
    {
    }
    forall t | t in s'.success && s'.success[t].Written?
      ensures s'.success[t].release.target == t && BackedBy(s'.history, s'.success, s'.success[t].release)
    {
      if t != release.target {
        assert BackedBy(s.history, s.success, s.success[t].release);
      }
    }
  }

  /** No success record, or one of the same identity. */
  predicate NotRefused(s: Store, release: Release) {
    release.target in s.success ==> s.success[release.target].Written? && SameIdentity(s.success[release.target].release, release)
  }

  function RecordSteps(s: Store, release: Release): nat {
    if release.target in s.success then 1 else 2
  }

  /** Creates the success record exclusively. A record of the same identity is accepted as it is; a partial
      one, or one of another identity, is refused. */
  method WriteSuccess(s: Store, release: Release) returns (s': Store, outcome: Outcome)
    requires Inv(s) && Validated(release, true)
    requires release.target in s.history && SameIdentity(s.history[release.target], release)
    ensures Inv(s') && RecordsGrow(s, s') && ViewOf(s') == ViewOf(s) && s'.history == s.history
    ensures SuccessStep(s, s', release)
    ensures Torn(s', release.target) <==> Torn(s, release.target) || (release.target !in s.success && StopsAt(s.faults, 1))
    ensures outcome == Done ==> release.target in s'.success && s'.success[release.target].Written?
                                && SameIdentity(s'.success[release.target].release, release)
    ensures s'.transaction == s.transaction && (outcome == Done ==> s'.faults == Drop(s.faults, RecordSteps(s, release)))
    ensures outcome == Done <==> NotRefused(s, release) && Calm(s.faults, RecordSteps(s, release))
  {
    CalmNext(s.faults, 0);
    CalmNext(s.faults, 1);
    var fault;
    s', fault := Tick(s);
    if fault != Fine {
      return s', Ending(fault);
    }
    if release.target in s'.success {
      var existing := s'.success[release.target];
      if existing.Written? && SameIdentity(existing.release, release) {
        return s', Done;
      }
      return s', Failed;
    }
    ghost var before := s';
    s' := s'.(success := s'.success[release.target := Partial]);
    s', fault := Tick(s');
    if Happens(fault) {
      s' := s'.(success := s'.success[release.target := Written(release)]);
      assert s'.success == before.success[release.target := Written(release)];
      SuccessKeepsInv(before, s', release, Written(release));
    } else {
      SuccessKeepsInv(before, s', release, Partial);
    }
    outcome := Ending(fault);
  }

  // ---------------------------------------------------------------------------------------------
  // Operations
  // ---------------------------------------------------------------------------------------------

  predicate Savable(s: Store, release: Release) {
    release.origin != Bootstrap && release.sound && release.target !in s.history
  }

  /** A candidate goes into the history without a success time. */
  method SaveValidated(s: Store, release: Release) returns (s': Store, outcome: Outcome)
    requires Inv(s)
    ensures Inv(s') && RecordsGrow(s, s') && ViewOf(s') == ViewOf(s)
    ensures outcome == Done <==> Savable(s, release) && Calm(s.faults, 2)
    ensures s'.history == if Savable(s, release) && Gets(s.faults, 1) then s.history[release.target := release.(at := 0)] else s.history
    ensures s'.success == s.success && s'.transaction == s.transaction
  {
    if release.origin == Bootstrap || !Validated(release, false) {
      return s, Failed;
    }
    s', outcome := SaveHistory(s, release.(at := 0));
  }

  lemma Undisturbed(n: nat)
    ensures Calm([], n) && Gets([], n) && !StopsAt([], n)
  {
    NoFaults(n);
  }

  /** The step of a commit that makes it count: all before are preparation, all after can be made up for. */
  function CommitStep(s: Store, release: Release): nat {
    1 + RecordSteps(s, release) + RecoverySteps(s)
  }

  /** What a commit does under its schedule. */
  predicate Commits(s: Store, release: Release, s': Store) {
    && ViewOf(s') == (if Committable(s, release) && Gets(s.faults, CommitStep(s, release))
                      then View(Some(release), ViewOf(s).current) else ViewOf(s))
    && (Torn(s', release.target) <==>
          Torn(s, release.target) || (Committable(s, release) && release.target !in s.success && StopsAt(s.faults, 2)))
  }

  /** Commits a release that was validated before, under the identity it was validated with. */
  method CommitSuccess(s: Store, release: Release) returns (s': Store, outcome: Outcome)
    requires Inv(s)
    ensures Inv(s') && RecordsGrow(s, s') && SuccessStep(s, s', release) && Commits(s, release, s')
    ensures outcome == Done ==> s'.transaction.None?
    ensures outcome == Done <==> Committable(s, release) && Calm(s.faults, CommitStep(s, release) + 5)
  {
    if !Validated(release, true) {
      return s, Failed;
    }
    AfterOne(s.faults, RecordSteps(s, release) + RecoverySteps(s));
    var fault;
    s', fault := Tick(s);
    if fault != Fine {
      return s', Ending(fault);
    }
    if release.target !in s'.history || !SameIdentity(s'.history[release.target], release) {
      return s', Failed;
    }
    s', outcome := CommitValidated(s', release);
  }

  /** The commit of a release whose history record was checked. */
  method CommitValidated(s: Store, release: Release) returns (s': Store, outcome: Outcome)
    requires Inv(s) && Validated(release, true)
    requires release.target in s.history && SameIdentity(s.history[release.target], release)
    ensures Inv(s') && RecordsGrow(s, s') && SuccessStep(s, s', release)
    ensures ViewOf(s') == if NotRefused(s, release) && Gets(s.faults, RecordSteps(s, release) + RecoverySteps(s))
                          then View(Some(release), ViewOf(s).current) else ViewOf(s)
    ensures Torn(s', release.target) <==> Torn(s, release.target) || (release.target !in s.success && StopsAt(s.faults, 1))
    ensures outcome == Done ==> s'.transaction.None?
    ensures outcome == Done <==> NotRefused(s, release) && Calm(s.faults, RecordSteps(s, release) + RecoverySteps(s) + 5)
  {
    AfterRecord(s.faults, RecordSteps(s, release), RecoverySteps(s));
    s', outcome := WriteSuccess(s, release);
    if outcome != Done {
      return;
    }
    s', outcome := CommitState(s', release);
  }

  /** How the schedule of a commit is shared out among its parts. */
  lemma AfterOne(faults: seq<Fault>, n: nat)
    ensures
      var f1 := Drop(faults, 1);
      && (StopsAt(faults, 2) <==> First(faults) == Fine && StopsAt(f1, 1))
      && (Gets(faults, 1 + n) <==> First(faults) == Fine && Gets(f1, n))
      && (Calm(faults, 1 + n + 5) <==> First(faults) == Fine && Calm(f1, n + 5))
  {
    CalmOn(faults, 1, 1);
    CalmOn(faults, 1, n);
    CalmOn(faults, 1, n + 5);
    CalmNext(faults, 0);
  }

  lemma AfterRecord(faults: seq<Fault>, records: nat, recovery: nat)
    ensures
      var f := Drop(faults, records);
      && (Gets(faults, records + recovery) <==> Calm(faults, records) && Gets(f, recovery))
      && (Calm(faults, records + recovery + 5) <==> Calm(faults, records) && Calm(f, recovery + 5))
  {
    CalmOn(faults, records, recovery);
    CalmOn(faults, records, recovery + 5);
  }

  /** The release is sound and has a success time, was saved under this identity, and has no other success record. */
  predicate Committable(s: Store, release: Release) {
    && release.sound && release.at != 0
    && release.target in s.history && SameIdentity(s.history[release.target], release)
    && NotRefused(s, release)
  }

  function BootstrapRelease(content: nat, sound: bool, at: nat): Release {
    Release(BOOTSTRAP, Bootstrap, content, sound, at)
  }

  /** What a bootstrap does under its schedule. It needs an empty history, so it counts only once. */
  predicate Bootstraps(s: Store, release: Release, s': Store) {
    && ViewOf(s') == (if Validated(release, true) && BOOTSTRAP !in s.history && Gets(s.faults, 4 + RecoverySteps(s))
                      then View(Some(release), ViewOf(s).current) else ViewOf(s))
    && (BOOTSTRAP in s'.history <==> BOOTSTRAP in s.history || (Validated(release, true) && Gets(s.faults, 1)))
  }

  /** The first release: history, success and state in one go. Once its history record is there it never
      succeeds again, also if the first attempt ended before the commit. */
  method CreateBootstrap(s: Store, content: nat, sound: bool, at: nat) returns (s': Store, outcome: Outcome)
    requires Inv(s)
    ensures Inv(s') && RecordsGrow(s, s') && Bootstraps(s, BootstrapRelease(content, sound, at), s')
    ensures outcome == Done ==> s'.transaction.None?
    ensures outcome == Done <==> sound && at != 0 && BOOTSTRAP !in s.history && Calm(s.faults, 4 + RecoverySteps(s) + 5)
  {
    var release := BootstrapRelease(content, sound, at);
    if !Validated(release, true) {
      return s, Failed;
    }
    BootstrapSchedule(s.faults, RecoverySteps(s));
    s', outcome := SaveHistory(s, release);
    if outcome != Done {
      return;
    }
    s', outcome := WriteSuccess(s', release);
    if outcome != Done {
      return;
    }
    s', outcome := CommitState(s', release);
  }

  lemma BootstrapSchedule(faults: seq<Fault>, recovery: nat)
    ensures
      var f2, f4 := Drop(faults, 2), Drop(Drop(faults, 2), 2);
      && (Calm(faults, 2) ==> Gets(faults, 1))
      && (Gets(faults, 4 + recovery) <==> Calm(faults, 2) && Calm(f2, 2) && Gets(f4, recovery))
      && (Calm(faults, 4 + recovery + 5) <==> Calm(faults, 2) && Calm(f2, 2) && Calm(f4, recovery + 5))
  {
    CalmNext(faults, 1);
    CalmOn(faults, 2, 2);
    CalmOn(faults, 4, recovery);
    CalmOn(faults, 4, recovery + 5);
  }

  datatype Lookup = Found(release: Release) | NotSuccessful | NotFound | Unreadable

  /** Looks a target up by its success record. */
  method LoadTarget(s: Store, target: TargetId) returns (s': Store, r: Lookup)
    requires Inv(s)
    ensures Inv(s') && RecordsGrow(s, s') && ViewOf(s') == ViewOf(s)
    ensures r.Found? ==> r.release.target == target && Backed(s, Some(r.release))
    ensures r ==
      if !Calm(s.faults, RecoverySteps(s) + 1) || Torn(s, target) then Unreadable
      else if target in s.success then Found(s.success[target].release)
      else if target in s.history then NotSuccessful
      else NotFound
    ensures s.faults == [] ==>
      forall release: Release :: (ViewOf(s).current == Some(release) || ViewOf(s).previous == Some(release)) && release.target == target ==>
        r.Found? && SameIdentity(r.release, release)
  {
    var outcome;
    Undisturbed(RecoverySteps(s) + 1);
    CalmNext(s.faults, RecoverySteps(s));
    s', outcome := RecoverState(s);
    if outcome != Done {
      return s', Unreadable;
    }
    var fault;
    s', fault := Tick(s');
    if fault != Fine {
      return s', Unreadable;
    }
    if target in s'.success {
      var file := s'.success[target];
      if file.Partial? || !Validated(file.release, true) {
        return s', Unreadable;
      }
      return s', Found(file.release);
    }
    r := if target in s'.history then NotSuccessful else NotFound;
  }

  /** Committing again, undisturbed, after an attempt of unknown outcome. A first attempt that stopped exactly at
      the write of the success record left it torn, and the release stays out (`AnyOperations`). Otherwise the
      commit succeeds, and the predecessor survives exactly if the first attempt had not got to the step that counts;
      if it had, the release becomes its own predecessor. */
  method CommitAgain(s: Store, release: Release) returns (s': Store, torn: bool, tookEffect: bool)
    requires Inv(s) && Committable(s, release) && ViewOf(s).current != Some(release)
    ensures Inv(s') && torn == Torn(s', release.target)
    ensures torn <==> release.target !in s.success && StopsAt(s.faults, 2)
    ensures tookEffect <==> Gets(s.faults, CommitStep(s, release))
    ensures torn ==> !tookEffect && ViewOf(s') == ViewOf(s)
    ensures !torn ==> ViewOf(s') == View(Some(release), if tookEffect then Some(release) else ViewOf(s).current)
  {
    var outcome;
    s', outcome := CommitSuccess(s, release);
    tookEffect := ViewOf(s').current == Some(release);
    s' := s'.(faults := []);
    Undisturbed(2);
    Undisturbed(CommitStep(s', release));
    Undisturbed(CommitStep(s', release) + 5);
    s', outcome := CommitSuccess(s', release);
    torn := outcome != Done;
  }

  /** What a load returns is the view, and it is backed by its records. */
  method Load(s: Store, wantPrevious: bool) returns (s': Store, r: Option<Release>, outcome: Outcome)
    requires Inv(s)
    ensures Inv(s') && RecordsGrow(s, s') && ViewOf(s') == ViewOf(s)
    ensures outcome == Done ==> r == (if wantPrevious then ViewOf(s).previous else ViewOf(s).current) && Backed(s', r)
    ensures outcome == Done <==> Calm(s.faults, RecoverySteps(s))
    ensures outcome != Done ==> r == None
  {
    s', outcome := RecoverState(s);
    if outcome != Done {
      return s', None, outcome;
    }
    r := if wantPrevious then s'.previous else s'.current;
    if r.Some? && !Validated(r.value, true) {
      return s', None, Failed;
    }
  }

  /** An operation and the faults it will meet. */
  datatype Job =
    | DoSave(release: Release, faults: seq<Fault>)
    | DoCommit(release: Release, faults: seq<Fault>)
    | DoBootstrap(content: nat, sound: bool, at: nat, faults: seq<Fault>)
    | DoLoad(wantPrevious: bool, faults: seq<Fault>)
    | DoLoadTarget(target: TargetId, faults: seq<Fault>)

  /** A whole commit, or nothing at all. */
  predicate Follows(v: View, job: Job, v': View) {
    || v' == v
    || (job.DoCommit? && v' == View(Some(job.release), v.current))
    || (job.DoBootstrap? && v' == View(Some(BootstrapRelease(job.content, job.sound, job.at)), v.current))
  }

  /** What one operation does under its schedule. */
  ghost predicate Operates(s: Store, job: Job, s': Store) {
    && Inv(s) && Inv(s') && RecordsGrow(s, s')
    && match job
       case DoCommit(release, faults) => Commits(s.(faults := faults), release, s')
       case DoBootstrap(content, sound, at, faults) => Bootstraps(s.(faults := faults), BootstrapRelease(content, sound, at), s')
       case _ => ViewOf(s') == ViewOf(s)
  }

  /** One operation, from a store in any reachable condition, stopped anywhere. */
  method AnyOperation(s: Store, job: Job) returns (s': Store)
    requires Inv(s)
    ensures Operates(s, job, s')
  {
    s' := s.(faults := job.faults);
    var outcome;
    match job {
      case DoSave(release, _) => s', outcome := SaveValidated(s', release);
      case DoCommit(release, _) => s', outcome := CommitSuccess(s', release);
      case DoBootstrap(content, sound, at, _) => s', outcome := CreateBootstrap(s', content, sound, at);
      case DoLoad(wantPrevious, _) =>
        var r;
        s', r, outcome := Load(s', wantPrevious);
      case DoLoadTarget(target, _) =>
        var r;
        s', r := LoadTarget(s', target);
    }
  }

  lemma WholeCommits(s: Store, job: Job, s': Store)
    requires Operates(s, job, s')
    ensures Follows(ViewOf(s), job, ViewOf(s'))
  {
  }

  /** The stores before, between and after the operations. */
  ghost predicate AllOperate(stores: seq<Store>, jobs: seq<Job>) {
    |stores| == |jobs| + 1 && forall i :: 0 <= i < |jobs| ==> Operates(stores[i], jobs[i], stores[i + 1])
  }

  lemma AllOperateOn(stores: seq<Store>, jobs: seq<Job>, job: Job, s': Store)
    requires AllOperate(stores, jobs) && Operates(stores[|jobs|], job, s')
    ensures AllOperate(stores + [s'], jobs + [job])
  {
    var stores', jobs' := stores + [s'], jobs + [job];
    forall i | 0 <= i < |jobs'|
      ensures Operates(stores'[i], jobs'[i], stores'[i + 1])
    {
      if i < |jobs| {
        assert stores'[i] == stores[i] && stores'[i + 1] == stores[i + 1] && jobs'[i] == jobs[i];
      }
    }
  }

  lemma {:induction false} RecordsStay(stores: seq<Store>, jobs: seq<Job>, i: nat, j: nat)
    requires AllOperate(stores, jobs) && i <= j <= |jobs|
    ensures RecordsGrow(stores[i], stores[j])
    decreases j - i
  {
    if i < j {
      RecordsStay(stores, jobs, i, j - 1);
      assert Operates(stores[j - 1], jobs[j - 1], stores[j - 1 + 1]);
    }
  }

  /** Any number of operations, each stopped anywhere: the pair a load sees moves only by whole commits, and
      current and previous are always backed by records that never change. A release whose success record is torn is
      never current or previous. */
  method AnyOperations(s: Store, jobs: seq<Job>) returns (s': Store, ghost stores: seq<Store>)
    requires Inv(s)
    ensures Inv(s') && RecordsGrow(s, s')
    ensures AllOperate(stores, jobs) && stores[0] == s && stores[|jobs|] == s'
    ensures Backed(s', ViewOf(s').current) && Backed(s', ViewOf(s').previous)
    ensures forall t, i :: Torn(s, t) && 0 <= i < |stores| ==> Torn(stores[i], t) && !Names(ViewOf(stores[i]), t)
  {
    s', stores := s, [s];
    for k := 0 to |jobs|
      invariant Inv(s') && RecordsGrow(s, s')
      invariant AllOperate(stores, jobs[..k]) && stores[0] == s && stores[k] == s'
    {
      s' := AnyOperation(s', jobs[k]);
      AllOperateOn(stores, jobs[..k], jobs[k], s');
      assert jobs[..k + 1] == jobs[..k] + [jobs[k]];
      stores := stores + [s'];
    }
    assert jobs[..|jobs|] == jobs;
    AllTornStayOut(stores, jobs);
  }

  lemma AllTornStayOut(stores: seq<Store>, jobs: seq<Job>)
    requires AllOperate(stores, jobs) && Inv(stores[0])
    ensures forall t, i :: Torn(stores[0], t) && 0 <= i < |stores| ==> Torn(stores[i], t) && !Names(ViewOf(stores[i]), t)
  {
    forall t, i | Torn(stores[0], t) && 0 <= i < |stores|
      ensures Torn(stores[i], t) && !Names(ViewOf(stores[i]), t)
    {
      if i > 0 {
        assert Operates(stores[i - 1], jobs[i - 1], stores[i - 1 + 1]);
      }
      TornStaysOut(stores, jobs, 0, i, t);
    }
  }

  /** A release whose success record is torn is never current or previous again. */
  lemma TornStaysOut(stores: seq<Store>, jobs: seq<Job>, i: nat, j: nat, target: TargetId)
    requires AllOperate(stores, jobs) && i <= j <= |jobs| && Inv(stores[j]) && Torn(stores[i], target)
    ensures Torn(stores[j], target) && !Names(ViewOf(stores[j]), target)
  {
    RecordsStay(stores, jobs, i, j);
  }

  /** Once its history record is there, no bootstrap ever counts again. */
  lemma BootstrapStaysOut(stores: seq<Store>, jobs: seq<Job>, i: nat, j: nat)
    requires AllOperate(stores, jobs) && i <= j < |jobs| && BOOTSTRAP in stores[i].history && jobs[j].DoBootstrap?
    ensures ViewOf(stores[j + 1]) == ViewOf(stores[j])
  {
    RecordsStay(stores, jobs, i, j);
    assert Operates(stores[j], jobs[j], stores[j + 1]);
  }

  // ---------------------------------------------------------------------------------------------
  // The schedules that break a promise
  // ---------------------------------------------------------------------------------------------

  const CANDIDATE := Release(7, Registry, 0, true, 1)

  /** A store in which the candidate was validated. */
  const READY := Store(None, None, None, map[7 := CANDIDATE.(at := 0)], map[], [])

  /** The process loses the write of the success file of a release that could be committed. Whatever follows, the
      release stays out. */
  method TornReleaseStaysOut(jobs: seq<Job>) returns (s': Store, ghost stores: seq<Store>)
    ensures Inv(READY) && Committable(READY, CANDIDATE)
    ensures AllOperate(stores, [DoCommit(CANDIDATE, Quiet(2) + [Error])] + jobs) && stores[0] == READY
    ensures forall i :: 1 <= i < |stores| ==> Torn(stores[i], CANDIDATE.target) && !Names(ViewOf(stores[i]), CANDIDATE.target)
    ensures s' == stores[|jobs| + 1] && !Committable(s', CANDIDATE)
  {
    var all := [DoCommit(CANDIDATE, Quiet(2) + [Error])] + jobs;
    s', stores := AnyOperations(READY, all);
    QuietAhead(2, [Error]);
    assert Operates(stores[0], all[0], stores[0 + 1]);
    forall i | 1 <= i < |stores|
      ensures Torn(stores[i], CANDIDATE.target) && !Names(ViewOf(stores[i]), CANDIDATE.target)
    {
      assert Operates(stores[i - 1], all[i - 1], stores[i - 1 + 1]);
      TornStaysOut(stores, all, 1, i, CANDIDATE.target);
    }
  }

  /** The directory synchronisation fails after the commit was recorded, and the caller commits again: the release is
      its own predecessor. */
  method CommitReportsErrorAndCounts() returns (s': Store, ghost stores: seq<Store>)
    ensures AllOperate(stores, [DoCommit(CANDIDATE, Quiet(4) + [LateError]), DoCommit(CANDIDATE, [])]) && stores[0] == READY
    ensures !Calm(Quiet(4) + [LateError], CommitStep(READY, CANDIDATE) + 5)
    ensures ViewOf(stores[1]) == View(Some(CANDIDATE), None)
    ensures s' == stores[2] && ViewOf(s') == View(Some(CANDIDATE), Some(CANDIDATE))
  {
    var faults := Quiet(4) + [LateError];
    var jobs := [DoCommit(CANDIDATE, faults), DoCommit(CANDIDATE, [])];
    s', stores := AnyOperations(READY, jobs);
    QuietAhead(4, [LateError]);
    Disturbed(faults, 4, CommitStep(READY, CANDIDATE) + 5);
    assert Operates(stores[0], jobs[0], stores[0 + 1]);
    assert Operates(stores[1], jobs[1], stores[1 + 1]);
    Undisturbed(CommitStep(stores[1].(faults := []), CANDIDATE));
    CurrentIsCommittable(stores[1], CANDIDATE);
  }

  lemma CurrentIsCommittable(s: Store, release: Release)
    requires Inv(s) && ViewOf(s).current == Some(release)
    ensures Committable(s, release)
  {
  }

  /** A bootstrap dies after its history record was written. No bootstrap counts after that, whatever comes between. */
  method BootstrapDiesHalfWay(release: Release, jobs: seq<Job>) returns (s': Store, ghost stores: seq<Store>)
    requires release.target == BOOTSTRAP && release.origin == Bootstrap && Validated(release, true)
    ensures AllOperate(stores, [DoBootstrap(release.content, true, release.at, Quiet(2) + [Crash])] + jobs)
    ensures stores[0] == Store(None, None, None, map[], map[], []) && ViewOf(stores[1]) == View(None, None)
    ensures forall j :: 1 <= j <= |jobs| && jobs[j - 1].DoBootstrap? ==> ViewOf(stores[j + 1]) == ViewOf(stores[j])
    ensures s' == stores[|jobs| + 1] && BOOTSTRAP in s'.history
  {
    var faults := Quiet(2) + [Crash];
    var all := [DoBootstrap(release.content, true, release.at, faults)] + jobs;
    s', stores := AnyOperations(Store(None, None, None, map[], map[], []), all);
    QuietAhead(2, [Crash]);
    CalmNext(faults, 1);
    Disturbed(faults, 2, 5);
    assert Operates(stores[0], all[0], stores[0 + 1]);
    forall j | 1 <= j <= |jobs| && jobs[j - 1].DoBootstrap?
      ensures ViewOf(stores[j + 1]) == ViewOf(stores[j])
    {
      assert all[j] == jobs[j - 1];
      BootstrapStaysOut(stores, all, 1, j);
    }
    RecordsStay(stores, all, 1, |all|);
  }
}
