/** Crash-safe replacement of the agent's managed files (internal/agentupdate).

    The file system is a value that the methods thread through. Every atomic step on it asks the machine's
    fault schedule first: the step may go through, fail without effect, or never happen because the process
    dies. Contracts that hold for every schedule therefore hold after a crash or an error at any step. Every
    write ends with its rename, so a late error is an error without effect here. */
module AgentApplier {
  import opened Common
  import opened Faults

  type Id = nat
  type Content = nat

  datatype Name = Agent | AgentService | RunService | UpgradeService | Rules

  const MANAGED: seq<Name> := [Agent, AgentService, RunService, UpgradeService, Rules]

  datatype Phase =
    | Staged | BackupComplete | Replacing | FilesReplaced | Restarted | Succeeded
    | RollbackReady | RollbackFailed | RollingBack | RolledBack

  datatype ActionKind = InstallAction | RollbackAction

  /** `backupOf` is the install command whose backup directory the specification names. */
  datatype Spec = Spec(action: ActionKind, phase: Phase, backupOf: Id)

  /** A directory of managed files: the files in it and the names with a `.missing` marker. */
  datatype Tree = Tree(files: map<Name, Content>, missing: set<Name>)

  /** `restored` is a history variable: how many of the managed files, in their order, restores have reached since
      the files were last replaced. No operation reads it. */
  datatype Machine = Machine(
    managed: map<Name, Content>, stages: map<Id, Tree>, backups: map<Id, Tree>, specs: map<Id, Spec>,
    faults: seq<Fault>, restored: nat)

  function Find(m: map<Name, Content>, name: Name): Option<Content> {
    if name in m then Some(m[name]) else None
  }

  // ---------------------------------------------------------------------------------------------
  // What the phases mean
  // ---------------------------------------------------------------------------------------------

  /** The content a name has once the staged files are in place; a name the stage lacks keeps its old content. */
  function NewVersion(stage: Tree, before: map<Name, Content>, name: Name): Option<Content> {
    if name in stage.files then Some(stage.files[name]) else Find(before, name)
  }

  predicate AllNew(managed: map<Name, Content>, stage: Tree, before: map<Name, Content>) {
    forall name: Name :: Find(managed, name) == NewVersion(stage, before, name)
  }

  /** The first `n` managed files are old again, the others new. */
  predicate Mixed(managed: map<Name, Content>, stage: Tree, before: map<Name, Content>, n: nat) {
    forall name: Name :: Find(managed, name) == if Round(name) < n then Find(before, name) else NewVersion(stage, before, name)
  }

  predicate OldOrNew(managed: map<Name, Content>, stage: Tree, before: map<Name, Content>) {
    forall name: Name :: Find(managed, name) == Find(before, name) || Find(managed, name) == NewVersion(stage, before, name)
  }

  /** The backup records the content or the absence of every managed file. */
  predicate BackupExact(backup: Tree, before: map<Name, Content>) {
    forall name: Name ::
      && (name in backup.missing <==> name !in before)
      && (name in before ==> name in backup.files && backup.files[name] == before[name])
  }

  /** What an unfinished backup holds is right as far as it goes. */
  predicate BackupPartial(backup: Tree, before: map<Name, Content>) {
    forall name: Name ::
      && (name in backup.missing ==> name !in before)
      && (name in backup.files ==> name in before && backup.files[name] == before[name])
  }

  predicate HasReplaced(phase: Phase) {
    phase in {FilesReplaced, Restarted, Succeeded}
  }

  predicate Untouched(phase: Phase) {
    phase in {Staged, BackupComplete}
  }

  function BackupOf(m: Machine, id: Id): Tree {
    if id in m.backups then m.backups[id] else Tree(map[], {})
  }

  /** The installation `id` of a machine whose managed files were `before` when it was staged. */
  ghost predicate Inv(m: Machine, id: Id, before: map<Name, Content>) {
    && id in m.specs && id in m.stages && m.stages[id].missing == {}
    && var phase := m.specs[id].phase;
       && m.specs[id] == Spec(InstallAction, phase, id)
       && phase != RollingBack
       && (phase == Staged ==> BackupPartial(BackupOf(m, id), before))
       && (phase != Staged ==> id in m.backups && BackupExact(m.backups[id], before))
       && OldOrNew(m.managed, m.stages[id], before)
       && (Untouched(phase) || phase in {RollbackReady, RolledBack} ==> m.managed == before)
       && (HasReplaced(phase) ==> Mixed(m.managed, m.stages[id], before, m.restored))
       && forall r :: r in m.specs && m.specs[r].action == RollbackAction && m.specs[r].backupOf == id ==>
            && !Untouched(phase)
            && (m.specs[r].phase == RolledBack ==> m.managed == before)
  }

  // ---------------------------------------------------------------------------------------------
  // Atomic steps
  // ---------------------------------------------------------------------------------------------

  method Tick(m: Machine) returns (m': Machine, fault: Fault)
    ensures m' == m.(faults := Drop(m.faults, 1)) && fault == First(m.faults)
  {
    if |m.faults| == 0 {
      return m, Fine;
    }
    m', fault := m.(faults := m.faults[1..]), m.faults[0];
  }

  /** Daemon reload, agent restart, waiting for the confirmation file, runtime-state writes. */
  method External(m: Machine) returns (m': Machine, outcome: Outcome)
    ensures m' == m.(faults := Drop(m.faults, 1)) && outcome == Ending(First(m.faults))
  {
    var fault;
    m', fault := Tick(m);
    outcome := Ending(fault);
  }

  /** The managed files after the first `k` rounds of copying a directory over them. */
  predicate Copied(managed: map<Name, Content>, managed': map<Name, Content>, source: Tree, k: nat) {
    forall name: Name :: Find(managed', name) == (if Round(name) < k then Wanted(source, managed, name) else Find(managed, name))
  }

  method SavePhase(m: Machine, id: Id, phase: Phase) returns (m': Machine, outcome: Outcome)
    requires id in m.specs
    ensures outcome == Ending(First(m.faults))
    ensures outcome != Done ==> m' == m.(faults := Drop(m.faults, 1))
    ensures outcome == Done ==> m' == m.(faults := Drop(m.faults, 1), specs := m.specs[id := m.specs[id].(phase := phase)])
  {
    var fault;
    m', fault := Tick(m);
    if fault == Fine {
      m' := m'.(specs := m'.specs[id := m'.specs[id].(phase := phase)]);
    }
    outcome := Ending(fault);
  }

  /** The round of a loop over the managed files that reaches a name. */
  function Round(name: Name): (r: nat)
    ensures r < 5
  {
    match name
    case Agent => 0
    case AgentService => 1
    case RunService => 2
    case UpgradeService => 3
    case Rules => 4
  }

  lemma RoundReaches(name: Name, index: nat)
    requires index < |MANAGED|
    ensures Round(name) == index <==> name == MANAGED[index]
  {
  }

  /** One managed file copied into a backup, or marked as missing there. */
  function BackedUp(backup: Tree, managed: map<Name, Content>, name: Name): Tree {
    if name !in managed then backup.(missing := backup.missing + {name})
    else backup.(files := backup.files[name := managed[name]])
  }

  /** The files of the first rounds are in the backup, or marked as missing there. */
  predicate Covers(backup: Tree, index: nat) {
    forall name: Name :: Round(name) < index ==> name in backup.files || name in backup.missing
  }

  lemma BackedUpFacts(backup: Tree, managed: map<Name, Content>, index: nat)
    requires BackupPartial(backup, managed) && index < |MANAGED| && Covers(backup, index)
    ensures
      var r := BackedUp(backup, managed, MANAGED[index]);
      BackupPartial(r, managed) && Covers(r, index + 1)
  {
    forall other: Name ensures Round(other) == index <==> other == MANAGED[index] { RoundReaches(other, index); }
  }

  /** Copies every managed file into the backup directory, or marks it missing. */
  method BackupManaged(m: Machine, id: Id) returns (m': Machine, outcome: Outcome)
    requires BackupPartial(BackupOf(m, id), m.managed)
    ensures m' == m.(faults := m'.faults, backups := m'.backups)
    ensures m'.backups == m.backups[id := BackupOf(m', id)] || m'.backups == m.backups
    ensures BackupPartial(BackupOf(m', id), m.managed)
    ensures outcome == Done ==> id in m'.backups && BackupExact(m'.backups[id], m.managed) && m'.faults == Drop(m.faults, |MANAGED| + 1)
    ensures outcome == Done <==> Calm(m.faults, |MANAGED| + 1)
  {
    var fault;
    m', fault := Tick(m);
    if fault != Fine {
      Disturbed(m.faults, 0, |MANAGED| + 1);
      return m', Ending(fault);
    }
    var backup, faults, index := BackupOf(m, id), m'.faults, 0;
    while index < |MANAGED|
      invariant 0 <= index <= |MANAGED|
      invariant Calm(m.faults, index + 1) && faults == Drop(m.faults, index + 1)
      invariant BackupPartial(backup, m.managed) && Covers(backup, index)
    {
      CalmNext(m.faults, index + 1);
      fault, faults := First(faults), Drop(faults, 1);
      if fault != Fine {
        Disturbed(m.faults, index + 1, |MANAGED| + 1);
        return m.(faults := faults, backups := m.backups[id := backup]), Ending(fault);
      }
      BackedUpFacts(backup, m.managed, index);
      backup := BackedUp(backup, m.managed, MANAGED[index]);
      index := index + 1;
    }
    CoversAll(backup, m.managed);
    return m.(faults := faults, backups := m.backups[id := backup]), Done;
  }

  lemma CoversAll(backup: Tree, managed: map<Name, Content>)
    requires BackupPartial(backup, managed) && Covers(backup, |MANAGED|)
    ensures BackupExact(backup, managed)
  {
  }

  /** What a directory asks a managed file to become. */
  function Wanted(source: Tree, managed: map<Name, Content>, name: Name): Option<Content> {
    if name in source.missing then None
    else if name in source.files then Some(source.files[name])
    else Find(managed, name)
  }

  predicate Complete(source: Tree) {
    Recorded(source, |MANAGED|)
  }

  function CopyFile(managed: map<Name, Content>, source: Tree, name: Name): (r: map<Name, Content>)
    ensures forall other: Name :: Find(r, other) == if other == name then Wanted(source, managed, name) else Find(managed, other)
  {
    if name in source.missing then managed - {name}
    else if name in source.files then managed[name := source.files[name]]
    else managed
  }

  lemma CopiedStep(managed: map<Name, Content>, now: map<Name, Content>, source: Tree, k: nat)
    requires k < |MANAGED| && Copied(managed, now, source, k)
    ensures Copied(managed, CopyFile(now, source, MANAGED[k]), source, k + 1)
  {
    var next := CopyFile(now, source, MANAGED[k]);
    forall name: Name
      ensures Find(next, name) == if Round(name) < k + 1 then Wanted(source, managed, name) else Find(managed, name)
    {
      RoundReaches(name, k);
    }
  }

  /** The directory has a record for the files of the first rounds. */
  predicate Recorded(source: Tree, index: nat) {
    forall name: Name :: Round(name) < index ==> name in source.files || name in source.missing
  }

  lemma RecordedNext(source: Tree, index: nat)
    requires Recorded(source, index) && index < |MANAGED| && (MANAGED[index] in source.files || MANAGED[index] in source.missing)
    ensures Recorded(source, index + 1)
  {
    forall name: Name | Round(name) < index + 1
      ensures name in source.files || name in source.missing
    {
      RoundReaches(name, index);
    }
  }

  lemma Unrecorded(source: Tree, index: nat)
    requires index < |MANAGED| && MANAGED[index] !in source.files && MANAGED[index] !in source.missing
    ensures !Complete(source)
  {
    RoundReaches(MANAGED[index], index);
  }

  /** Copies a directory over the managed files, one file after the other. A backup must have a record for
      every name; the stage may lack one. */
  method ReplaceManaged(m: Machine, source: Tree, isBackup: bool) returns (m': Machine, outcome: Outcome, rounds: nat)
    ensures m' == m.(faults := m'.faults, managed := m'.managed)
    ensures rounds <= |MANAGED| && Copied(m.managed, m'.managed, source, rounds)
    ensures outcome == Done <==> Calm(m.faults, |MANAGED|) && (isBackup ==> Complete(source))
    ensures outcome == Done ==> rounds == |MANAGED| && m'.faults == Drop(m.faults, |MANAGED|)
    ensures outcome != Done && (isBackup ==> Complete(source)) ==>
              && rounds == Luck(m.faults) < |MANAGED| && Calm(m.faults, rounds) && First(Drop(m.faults, rounds)) != Fine
              && outcome == Ending(First(Drop(m.faults, rounds))) && m'.faults == Drop(m.faults, rounds + 1)
  {
    var managed, faults := m.managed, m.faults;
    rounds := 0;
    while rounds < |MANAGED|
      invariant 0 <= rounds <= |MANAGED|
      invariant Calm(m.faults, rounds) && faults == Drop(m.faults, rounds)
      invariant Copied(m.managed, managed, source, rounds)
      invariant isBackup ==> Recorded(source, rounds)
    {
      var name, fault := MANAGED[rounds], First(faults);
      CalmNext(m.faults, rounds);
      faults := Drop(faults, 1);
      if fault != Fine {
        StoppedAt(m.faults, rounds, |MANAGED|);
        return m.(faults := faults, managed := managed), Ending(fault), rounds;
      }
      if isBackup {
        if name !in source.missing && name !in source.files {
          Unrecorded(source, rounds);
          return m.(faults := faults, managed := managed), Failed, rounds;
        }
        RecordedNext(source, rounds);
      }
      CopiedStep(m.managed, managed, source, rounds);
      managed := CopyFile(managed, source, name);
      rounds := rounds + 1;
    }
    m', outcome := m.(faults := faults, managed := managed), Done;
  }

  /** Restoring from an exact backup only ever takes files back to their old version. */
  lemma RestoreFacts(managed: map<Name, Content>, managed': map<Name, Content>, backup: Tree, stage: Tree, before: map<Name, Content>, k: nat)
    requires BackupExact(backup, before) && k <= |MANAGED| && Copied(managed, managed', backup, k)
    ensures OldOrNew(managed, stage, before) ==> OldOrNew(managed', stage, before)
    ensures managed == before ==> managed' == before
    ensures k == |MANAGED| ==> managed' == before
    ensures forall n: nat :: Mixed(managed, stage, before, n) ==> Mixed(managed', stage, before, Further(n, k))
  {
    forall name: Name ensures Wanted(backup, managed, name) == Find(before, name) {}
    if forall name: Name :: Find(managed', name) == Find(before, name) {
      SameFiles(managed', before);
    }
  }

  function Further(n: nat, k: nat): nat {
    if n < k then k else n
  }

  lemma SameFiles(a: map<Name, Content>, b: map<Name, Content>)
    requires forall name: Name :: Find(a, name) == Find(b, name)
    ensures a == b
  {
    assert forall name: Name :: name in a <==> Find(a, name).Some?;
    assert forall name: Name :: name in b <==> Find(b, name).Some?;
    assert forall name: Name :: name in a <==> name in b;
    assert forall name: Name :: name in a ==> Find(a, name).value == Find(b, name).value;
  }

  // ---------------------------------------------------------------------------------------------
  // Applying an installation
  // ---------------------------------------------------------------------------------------------

  /** How many files a run or a rollback command restored: none before the replacement; the history variable counts
      from the replacement on. */
  ghost predicate Reaches(m: Machine, id: Id, rounds: nat, m': Machine)
    requires id in m.specs && id in m'.specs
  {
    && (Untouched(m'.specs[id].phase) ==> Untouched(m.specs[id].phase) && rounds == 0)
    && (Untouched(m.specs[id].phase) && !Untouched(m'.specs[id].phase) ==> m'.restored == rounds)
    && (!Untouched(m.specs[id].phase) ==> Restores(m, id, rounds, m'))
  }

  /** The first files of the order are as the backup has them, the others unchanged. */
  ghost predicate Restores(m: Machine, id: Id, rounds: nat, m': Machine) {
    && id in m.backups && rounds <= |MANAGED|
    && Copied(m.managed, m'.managed, m.backups[id], rounds)
    && m'.restored == Further(m.restored, rounds)
  }

  // How a run ends, read off the fault schedule alone.

  /** The phase that a run leaves, and how many files it restored. */
  datatype End = End(phase: Phase, rounds: nat)

  /** A restore, or the reload after it, is disturbed in the first step: the process dies, or records the failure. */
  function BrokenOff(phase: Phase, faults: seq<Fault>): Phase {
    if First(faults) == Crash || First(Drop(faults, 1)) != Fine then phase else RollbackFailed
  }

  function FinishEnd(faults: seq<Fault>): Phase {
    if Calm(faults, 3) then RolledBack else RollbackReady
  }

  /** A rollback: one step a file, the reload, the record that all is restored, and three steps to the end. */
  function RollbackEnd(phase: Phase, faults: seq<Fault>): End {
    if !Calm(faults, |MANAGED| + 1) then End(BrokenOff(phase, Drop(faults, Luck(faults))), Luck(faults))
    else if !Calm(faults, |MANAGED| + 2) then End(phase, |MANAGED|)
    else End(FinishEnd(Drop(faults, |MANAGED| + 2)), |MANAGED|)
  }

  /** The first step kills the process, or fails and starts a rollback. */
  function StopEnd(phase: Phase, faults: seq<Fault>): End {
    if First(faults) == Crash then End(phase, 0) else RollbackEnd(phase, Drop(faults, 1))
  }

  /** The confirmation, and the record of success. */
  function RestartedEnd(faults: seq<Fault>): End {
    if !Calm(faults, 1) then StopEnd(Restarted, faults)
    else if !Calm(faults, 2) then End(Restarted, 0)
    else End(Succeeded, 0)
  }

  /** The reload, the restart, and the record of it. */
  function ReplacedEnd(faults: seq<Fault>): End {
    if !Calm(faults, 2) then StopEnd(FilesReplaced, Drop(faults, Luck(faults)))
    else if !Calm(faults, 3) then End(FilesReplaced, 0)
    else RestartedEnd(Drop(faults, 3))
  }

  /** The record that the replacement begins, one step a file, and the record that it has ended. */
  function BackupEnd(faults: seq<Fault>): End {
    if !Calm(faults, 1) then End(BackupComplete, 0)
    else if !Calm(faults, |MANAGED| + 2) then StopEnd(Replacing, Drop(faults, Luck(faults)))
    else ReplacedEnd(Drop(faults, |MANAGED| + 2))
  }

  function InstallEnd(phase: Phase, faults: seq<Fault>): End {
    match phase
    case Staged => if !Calm(faults, |MANAGED| + 3) then End(Staged, 0) else BackupEnd(Drop(faults, |MANAGED| + 3))
    case BackupComplete => BackupEnd(faults)
    case FilesReplaced => ReplacedEnd(faults)
    case Restarted => RestartedEnd(faults)
    case Replacing | RollbackFailed => RollbackEnd(phase, faults)
    case RollbackReady => End(FinishEnd(faults), 0)
    case _ => End(phase, 0)
  }

  /** Reports the failure, restarts the old agent and records the end of the rollback. */
  method FinishAutomaticRollback(m: Machine, id: Id, ghost before: map<Name, Content>) returns (m': Machine, outcome: Outcome)
    requires Inv(m, id, before) && m.specs[id].phase == RollbackReady
    ensures Inv(m', id, before) && m'.managed == before
    ensures m'.specs[id].phase == FinishEnd(m.faults) && outcome != Done
    ensures m'.stages == m.stages && m'.restored == m.restored
  {
    CalmNext(m.faults, 1);
    CalmNext(m.faults, 2);
    m', outcome := External(m);
    if outcome != Done { return; }
    m', outcome := External(m');
    if outcome != Done { return; }
    m', outcome := SavePhase(m', id, RolledBack);
    if outcome == Crashed { return; }
    outcome := Failed;
  }

  /** Copies the backup over the managed files. */
  method RestoreFiles(m: Machine, id: Id, ghost before: map<Name, Content>) returns (m': Machine, outcome: Outcome, rounds: nat)
    requires Inv(m, id, before) && !Untouched(m.specs[id].phase)
    ensures Inv(m', id, before) && Restores(m, id, rounds, m')
    ensures m' == m.(faults := m'.faults, managed := m'.managed, restored := m'.restored)
    ensures rounds == |MANAGED| ==> m'.managed == before
    ensures outcome == Done <==> Calm(m.faults, |MANAGED|)
    ensures outcome == Done ==> rounds == |MANAGED| && m'.faults == Drop(m.faults, |MANAGED|)
    ensures outcome != Done ==> rounds == Luck(m.faults) < |MANAGED| && First(Drop(m.faults, rounds)) != Fine
    ensures outcome != Done ==> outcome == Ending(First(Drop(m.faults, rounds))) && m'.faults == Drop(m.faults, rounds + 1)
  {
    m', outcome, rounds := ReplaceManaged(m, m.backups[id], true);
    RestoreFacts(m.managed, m'.managed, m.backups[id], m.stages[id], before, rounds);
    m' := m'.(restored := Further(m'.restored, rounds));
  }

  lemma RollbackSteps(faults: seq<Fault>, restored: bool)
    requires restored <==> Calm(faults, |MANAGED|)
    ensures Calm(faults, |MANAGED| + 1) <==> restored && First(Drop(faults, |MANAGED|)) == Fine
    ensures Calm(faults, |MANAGED| + 2) <==> Calm(faults, |MANAGED| + 1) && First(Drop(faults, |MANAGED| + 1)) == Fine
    ensures !restored ==> !Calm(faults, |MANAGED| + 1)
    ensures restored && First(Drop(faults, |MANAGED|)) != Fine ==> Luck(faults) == |MANAGED|
    ensures Drop(Drop(faults, |MANAGED|), 1) == Drop(faults, |MANAGED| + 1)
    ensures Drop(Drop(faults, |MANAGED| + 1), 1) == Drop(faults, |MANAGED| + 2)
    ensures Drop(Drop(faults, Luck(faults)), 1) == Drop(faults, Luck(faults) + 1)
  {
    CalmNext(faults, |MANAGED|);
    CalmNext(faults, |MANAGED| + 1);
    if restored && First(Drop(faults, |MANAGED|)) != Fine {
      StopsAt(faults, |MANAGED|);
    }
  }

  method RollbackAfterFailure(m: Machine, id: Id, ghost before: map<Name, Content>)
    returns (m': Machine, outcome: Outcome, rounds: nat)
    requires Inv(m, id, before) && !Untouched(m.specs[id].phase) && m.specs[id].phase !in {RollbackReady, RolledBack}
    ensures Inv(m', id, before) && outcome != Done && m'.stages == m.stages && Restores(m, id, rounds, m')
    ensures End(m'.specs[id].phase, rounds) == RollbackEnd(m.specs[id].phase, m.faults)
  {
    var restore;
    m', restore, rounds := RestoreFiles(m, id, before);
    RollbackSteps(m.faults, restore == Done);
    if restore == Crashed {
      return m', Crashed, rounds;
    }
    if restore == Done {
      m', restore := External(m');
      if restore == Crashed {
        return m', Crashed, rounds;
      }
    }
    if restore != Done {
      m', outcome := SavePhase(m', id, RollbackFailed);
      if outcome == Done {
        outcome := Failed;
      }
      return;
    }
    m', outcome := SavePhase(m', id, RollbackReady);
    if outcome != Done {
      return;
    }
    ghost var restored := m';
    m', outcome := FinishAutomaticRollback(m', id, before);
    assert m'.managed == restored.managed;
  }

  /** From `Staged` to `BackupComplete`. */
  method BackUp(m: Machine, id: Id, ghost before: map<Name, Content>) returns (m': Machine, outcome: Outcome)
    requires Inv(m, id, before) && m.specs[id].phase == Staged
    ensures Inv(m', id, before) && m'.stages == m.stages && m'.restored == m.restored
    ensures m'.specs[id].phase == if outcome == Done then BackupComplete else Staged
    ensures outcome == Done ==> m'.faults == Drop(m.faults, |MANAGED| + 3)
    ensures outcome == Done <==> Calm(m.faults, |MANAGED| + 3)
  {
    CalmOn(m.faults, 1, |MANAGED| + 1);
    CalmNext(m.faults, |MANAGED| + 2);
    m', outcome := External(m);
    if outcome != Done { return; }
    m', outcome := BackupManaged(m', id);
    if outcome != Done { return; }
    m', outcome := SavePhase(m', id, BackupComplete);
  }

  /** Copies the stage over the managed files, and records that all are replaced, or takes that back. */
  method ReplaceFiles(m: Machine, id: Id, ghost before: map<Name, Content>) returns (m': Machine, outcome: Outcome, rounds: nat)
    requires Inv(m, id, before) && m.specs[id].phase == Replacing && m.managed == before && m.restored == 0
    requires forall r :: r in m.specs && m.specs[r].action == RollbackAction ==> m.specs[r].backupOf != id
    ensures Inv(m', id, before) && m'.stages == m.stages && m'.restored == rounds
    ensures outcome == Done ==> m'.specs[id].phase == FilesReplaced && AllNew(m'.managed, m.stages[id], before)
    ensures outcome == Done ==> rounds == 0 && m'.faults == Drop(m.faults, |MANAGED| + 1)
    ensures outcome == Done <==> Calm(m.faults, |MANAGED| + 1)
    ensures outcome != Done ==> End(m'.specs[id].phase, rounds) == StopEnd(Replacing, Drop(m.faults, Luck(m.faults)))
  {
    var copied;
    rounds := 0;
    m', outcome, copied := ReplaceManaged(m, m.stages[id], false);
    StageFacts(before, m'.managed, m.stages[id], copied);
    RollbackSteps(m.faults, outcome == Done);
    if outcome == Crashed { return; }
    if outcome == Done {
      m', outcome := SavePhase(m', id, FilesReplaced);
      if outcome != Failed { return; }
    }
    m', outcome, rounds := RollbackAfterFailure(m', id, before);
  }

  /** From `BackupComplete` to `FilesReplaced`, or back. */
  method Replace(m: Machine, id: Id, ghost before: map<Name, Content>) returns (m': Machine, outcome: Outcome, rounds: nat)
    requires Inv(m, id, before) && m.specs[id].phase == BackupComplete
    ensures Inv(m', id, before) && m'.stages == m.stages && Reaches(m, id, rounds, m')
    ensures outcome == Done ==> m'.specs[id].phase == FilesReplaced && AllNew(m'.managed, m.stages[id], before)
    ensures outcome == Done ==> rounds == 0 && m'.faults == Drop(m.faults, |MANAGED| + 2)
    ensures outcome == Done <==> Calm(m.faults, |MANAGED| + 2)
    ensures outcome != Done ==> End(m'.specs[id].phase, rounds) == BackupEnd(m.faults)
  {
    rounds := 0;
    CalmOn(m.faults, 1, |MANAGED| + 1);
    m', outcome := SavePhase(m, id, Replacing);
    if outcome != Done { return; }
    m' := m'.(restored := 0);
    m', outcome, rounds := ReplaceFiles(m', id, before);
    if outcome != Done {
      LuckAfter(m.faults, 1, |MANAGED| + 1);
      DropDrop(m.faults, 1, Luck(Drop(m.faults, 1)));
      StopLeaves(Replacing, Drop(m.faults, Luck(m.faults)));
    }
  }

  lemma StopLeaves(phase: Phase, faults: seq<Fault>)
    ensures StopEnd(phase, faults).phase in {phase, RollbackFailed, RollbackReady, RolledBack}
  {
  }

  lemma RestartStops(faults: seq<Fault>)
    ensures Calm(faults, 2) <==> First(faults) == Fine && First(Drop(faults, 1)) == Fine
    ensures Calm(faults, 3) <==> Calm(faults, 2) && First(Drop(faults, 2)) == Fine
    ensures !Calm(faults, 2) ==> Luck(faults) == if First(faults) != Fine then 0 else 1
    ensures Drop(faults, 0) == faults && Drop(Drop(faults, 1), 1) == Drop(faults, 2) && Drop(Drop(faults, 2), 1) == Drop(faults, 3)
  {
    CalmNext(faults, 1);
    CalmNext(faults, 2);
    if First(faults) != Fine {
      StopsAt(faults, 0);
    } else if First(Drop(faults, 1)) != Fine {
      StopsAt(faults, 1);
    }
  }

  /** From `FilesReplaced` to `Restarted`, or back. */
  method Restart(m: Machine, id: Id, ghost before: map<Name, Content>) returns (m': Machine, outcome: Outcome, rounds: nat)
    requires Inv(m, id, before) && m.specs[id].phase == FilesReplaced
    ensures Inv(m', id, before) && m'.stages == m.stages && Restores(m, id, rounds, m')
    ensures outcome == Done ==> m'.specs[id].phase == Restarted && m'.managed == m.managed && m'.faults == Drop(m.faults, 3)
    ensures outcome != Done ==> !Untouched(m'.specs[id].phase) && m'.specs[id].phase != Succeeded
    ensures outcome == Done ==> rounds == 0 && m'.backups == m.backups
    ensures outcome == Done <==> Calm(m.faults, 3)
    ensures outcome != Done ==> End(m'.specs[id].phase, rounds) == ReplacedEnd(m.faults)
  {
    rounds := 0;
    RestartStops(m.faults);
    m', outcome := External(m);
    if outcome == Done {
      m', outcome := External(m');
    }
    if outcome == Crashed { return; }
    if outcome == Failed {
      m', outcome, rounds := RollbackAfterFailure(m', id, before);
      return;
    }
    m', outcome := SavePhase(m', id, Restarted);
  }

  /** From `Restarted` to `Succeeded`, or back. */
  method Confirm(m: Machine, id: Id, ghost before: map<Name, Content>) returns (m': Machine, outcome: Outcome, rounds: nat)
    requires Inv(m, id, before) && m.specs[id].phase == Restarted
    ensures Inv(m', id, before) && m'.stages == m.stages && Restores(m, id, rounds, m')
    ensures outcome == Done ==> m'.specs[id].phase == Succeeded && m'.managed == m.managed && rounds == 0
    ensures outcome != Done ==> !Untouched(m'.specs[id].phase) && m'.specs[id].phase != Succeeded
    ensures outcome == Done <==> Calm(m.faults, 2)
    ensures End(m'.specs[id].phase, rounds) == RestartedEnd(m.faults)
  {
    rounds := 0;
    CalmNext(m.faults, 1);
    m', outcome := External(m);
    if outcome == Crashed { return; }
    if outcome == Failed {
      m', outcome, rounds := RollbackAfterFailure(m', id, before);
      return;
    }
    m', outcome := SavePhase(m', id, Succeeded);
  }

  /** What one run of the upgrade unit may do. How it ends is read off the schedule. A run that ends in `Succeeded` has
      put the new files in place exactly when it replaced them itself or found them all new. */
  ghost predicate Installs(m: Machine, id: Id, before: map<Name, Content>, rounds: nat, m': Machine)
    requires id in m.specs && id in m'.specs && id in m.stages
  {
    var phase, phase' := m.specs[id].phase, m'.specs[id].phase;
    && m'.stages == m.stages && Reaches(m, id, rounds, m')
    && End(phase', rounds) == InstallEnd(phase, m.faults)
    && (phase' == Succeeded ==>
          (AllNew(m'.managed, m.stages[id], before) <==> Untouched(phase) || AllNew(m.managed, m.stages[id], before)))
  }

  /** A run up to `m1` and on to `m'` is one run. */
  lemma AfterBackUp(m: Machine, m1: Machine, id: Id, before: map<Name, Content>, rounds: nat, m': Machine)
    requires Inv(m, id, before) && Inv(m1, id, before) && Inv(m', id, before) && m1.stages == m.stages
    requires m.specs[id].phase == Staged && m1.specs[id].phase == BackupComplete && m1.faults == Drop(m.faults, |MANAGED| + 3)
    requires Calm(m.faults, |MANAGED| + 3) && Installs(m1, id, before, rounds, m')
    ensures Installs(m, id, before, rounds, m')
  {
  }

  lemma AfterReplace(m: Machine, m1: Machine, id: Id, before: map<Name, Content>, rounds: nat, m': Machine)
    requires Inv(m, id, before) && Inv(m1, id, before) && Inv(m', id, before) && m1.stages == m.stages
    requires m.specs[id].phase == BackupComplete && m1.specs[id].phase == FilesReplaced && m1.faults == Drop(m.faults, |MANAGED| + 2)
    requires m1.restored == 0 && AllNew(m1.managed, m.stages[id], before)
    requires Calm(m.faults, |MANAGED| + 2) && Installs(m1, id, before, rounds, m')
    ensures Installs(m, id, before, rounds, m')
  {
  }

  lemma AfterRestart(m: Machine, m1: Machine, id: Id, before: map<Name, Content>, rounds: nat, m': Machine)
    requires Inv(m, id, before) && Inv(m1, id, before) && Inv(m', id, before) && m1.stages == m.stages && m1.backups == m.backups
    requires m.specs[id].phase == FilesReplaced && m1.specs[id].phase == Restarted && m1.faults == Drop(m.faults, 3)
    requires m1.managed == m.managed && m1.restored == m.restored
    requires Calm(m.faults, 3) && Installs(m1, id, before, rounds, m')
    ensures Installs(m, id, before, rounds, m')
  {
  }

  /** A run that finds the agent restarted. */
  method FromRestarted(m: Machine, id: Id, ghost before: map<Name, Content>) returns (m': Machine, outcome: Outcome, rounds: nat)
    requires Inv(m, id, before) && m.specs[id].phase == Restarted
    ensures Inv(m', id, before) && Installs(m, id, before, rounds, m')
  {
    m', outcome, rounds := Confirm(m, id, before);
  }

  /** A run that finds the files replaced. */
  method FromReplaced(m: Machine, id: Id, ghost before: map<Name, Content>) returns (m': Machine, outcome: Outcome, rounds: nat)
    requires Inv(m, id, before) && m.specs[id].phase == FilesReplaced
    ensures Inv(m', id, before) && Installs(m, id, before, rounds, m')
  {
    m', outcome, rounds := Restart(m, id, before);
    if outcome != Done {
      return;
    }
    ghost var m1 := m';
    m', outcome, rounds := FromRestarted(m', id, before);
    AfterRestart(m, m1, id, before, rounds, m');
  }

  /** A run that finds the backup complete. */
  method FromBackup(m: Machine, id: Id, ghost before: map<Name, Content>) returns (m': Machine, outcome: Outcome, rounds: nat)
    requires Inv(m, id, before) && m.specs[id].phase == BackupComplete
    ensures Inv(m', id, before) && Installs(m, id, before, rounds, m')
  {
    m', outcome, rounds := Replace(m, id, before);
    if outcome != Done {
      return;
    }
    ghost var m1 := m';
    m', outcome, rounds := FromReplaced(m', id, before);
    AfterReplace(m, m1, id, before, rounds, m');
  }

  /** A run that finds the archive staged. */
  method FromStaged(m: Machine, id: Id, ghost before: map<Name, Content>) returns (m': Machine, outcome: Outcome, rounds: nat)
    requires Inv(m, id, before) && m.specs[id].phase == Staged
    ensures Inv(m', id, before) && Installs(m, id, before, rounds, m')
  {
    m', outcome := BackUp(m, id, before);
    if outcome != Done {
      return m', outcome, 0;
    }
    ghost var m1 := m';
    m', outcome, rounds := FromBackup(m', id, before);
    AfterBackUp(m, m1, id, before, rounds, m');
  }

  /** One run of the upgrade unit for an installation, cut short anywhere by the fault schedule. Whatever happens,
      the invariant of the phases holds. */
  method ApplyInstall(m: Machine, id: Id, ghost before: map<Name, Content>) returns (m': Machine, outcome: Outcome, rounds: nat)
    requires Inv(m, id, before)
    ensures Inv(m', id, before) && Installs(m, id, before, rounds, m')
  {
    m', outcome, rounds := m, Done, 0;
    match m.specs[id].phase
    case RollbackReady =>
      m', outcome := FinishAutomaticRollback(m, id, before);
    case Replacing =>
      m', outcome, rounds := RollbackAfterFailure(m, id, before);
    case RollbackFailed =>
      m', outcome, rounds := RollbackAfterFailure(m, id, before);
    case Staged =>
      m', outcome, rounds := FromStaged(m, id, before);
    case BackupComplete =>
      m', outcome, rounds := FromBackup(m, id, before);
    case FilesReplaced =>
      m', outcome, rounds := FromReplaced(m, id, before);
    case Restarted =>
      m', outcome, rounds := FromRestarted(m, id, before);
    case _ =>
  }

  lemma StageFacts(before: map<Name, Content>, managed: map<Name, Content>, stage: Tree, k: nat)
    requires stage.missing == {} && k <= |MANAGED| && Copied(before, managed, stage, k)
    ensures OldOrNew(managed, stage, before)
    ensures k == |MANAGED| ==> AllNew(managed, stage, before) && Mixed(managed, stage, before, 0)
  {
  }

  // ---------------------------------------------------------------------------------------------
  // Staging, and rolling back by command
  // ---------------------------------------------------------------------------------------------

  /** The archive is staged as a new installation, and nothing else has changed. */
  ghost predicate Stages(m: Machine, id: Id, archive: map<Name, Content>, m': Machine) {
    m' == m.(stages := m.stages[id := Tree(archive, {})], specs := m.specs[id := Spec(InstallAction, Staged, id)], faults := m'.faults)
  }

  /** Unpacks the verified archive and records the specification last, so a specification always has its
      stage. A command already staged is left as it is. */
  method Stage(m: Machine, id: Id, archive: map<Name, Content>) returns (m': Machine, outcome: Outcome)
    requires id !in m.specs ==> id !in m.backups
    requires id !in m.specs ==> forall r :: r in m.specs ==> m.specs[r].backupOf != id
    ensures id in m.specs ==> m' == m.(faults := m'.faults)
    ensures m'.managed == m.managed && m'.backups == m.backups && m'.restored == m.restored
    ensures id !in m.specs && outcome == Done ==> Inv(m', id, m.managed) && Stages(m, id, archive, m')
    ensures id !in m.specs && outcome != Done ==> m'.specs == m.specs
    ensures outcome == Done <==> Calm(m.faults, if id in m.specs then 1 else 2)
  {
    CalmNext(m.faults, 1);
    m', outcome := External(m);
    if outcome != Done || id in m.specs { return; }
    m' := m'.(stages := m'.stages[id := Tree(archive, {})]);
    m', outcome := External(m');
    if outcome != Done { return; }
    m' := m'.(specs := m'.specs[id := Spec(InstallAction, Staged, id)]);
  }

  /** The record that the command runs, one step a file, the reload, the restart, and the record of the end. */
  function RollbackPhase(phase: Phase, faults: seq<Fault>): Phase {
    if !Calm(faults, 1) then phase else if Calm(faults, |MANAGED| + 4) then RolledBack else RollingBack
  }

  function RollbackRounds(faults: seq<Fault>): nat {
    if !Calm(faults, 1) then 0 else if Calm(faults, |MANAGED| + 1) then |MANAGED| else Luck(Drop(faults, 1))
  }

  lemma RollbackCommandSteps(faults: seq<Fault>)
    ensures Calm(faults, |MANAGED| + 1) <==> First(faults) == Fine && Calm(Drop(faults, 1), |MANAGED|)
    ensures Calm(faults, |MANAGED| + 2) <==> Calm(faults, |MANAGED| + 1) && First(Drop(faults, |MANAGED| + 1)) == Fine
    ensures Calm(faults, |MANAGED| + 3) <==> Calm(faults, |MANAGED| + 2) && First(Drop(faults, |MANAGED| + 2)) == Fine
    ensures Calm(faults, |MANAGED| + 4) <==> Calm(faults, |MANAGED| + 3) && First(Drop(faults, |MANAGED| + 3)) == Fine
    ensures Drop(Drop(faults, 1), |MANAGED|) == Drop(faults, |MANAGED| + 1)
    ensures Drop(Drop(faults, |MANAGED| + 1), 1) == Drop(faults, |MANAGED| + 2)
    ensures Drop(Drop(faults, |MANAGED| + 2), 1) == Drop(faults, |MANAGED| + 3)
  {
    CalmNext(faults, |MANAGED| + 1);
    CalmNext(faults, |MANAGED| + 2);
    CalmNext(faults, |MANAGED| + 3);
  }

  /** Restores the backup the specification names. */
  method ApplyRollback(m: Machine, r: Id, ghost id: Id, ghost before: map<Name, Content>)
    returns (m': Machine, outcome: Outcome, rounds: nat)
    requires Inv(m, id, before)
    requires r in m.specs && m.specs[r].action == RollbackAction && m.specs[r].backupOf == id
    ensures Inv(m', id, before) && m'.stages == m.stages && Restores(m, id, rounds, m')
    ensures m'.specs == m.specs[r := m.specs[r].(phase := RollbackPhase(m.specs[r].phase, m.faults))] && rounds == RollbackRounds(m.faults)
    ensures outcome == Done <==> Calm(m.faults, |MANAGED| + 4)
    ensures outcome == Done ==> m'.managed == before
  {
    rounds := 0;
    RollbackCommandSteps(m.faults);
    m', outcome := SavePhase(m, r, RollingBack);
    if outcome != Done { return; }
    assert Inv(m', id, before);
    m', outcome, rounds := RestoreFiles(m', m'.specs[r].backupOf, before);
    if outcome != Done { return; }
    m', outcome := External(m');
    if outcome != Done { return; }
    m', outcome := External(m');
    if outcome != Done { return; }
    m', outcome := SavePhase(m', r, RolledBack);
  }

  /** The installation has touched the managed files, and has not taken that back itself. */
  predicate NeedsRollback(m: Machine, id: Id) {
    id in m.specs && m.specs[id].phase !in {Staged, BackupComplete, RolledBack}
  }

  /** How many files a rollback command restores: none if it is no rollback or none is needed; otherwise as the schedule
      says, after the lookup and, for a new command, the record of it. */
  function CommandRounds(m: Machine, r: Id, id: Id): nat {
    if !Calm(m.faults, 1) then 0
    else if r in m.specs then if m.specs[r].action == RollbackAction then RollbackRounds(Drop(m.faults, 1)) else 0
    else if NeedsRollback(m, id) && Calm(m.faults, 2) then RollbackRounds(Drop(m.faults, 2))
    else 0
  }

  datatype RollbackResult = NoRollbackNeeded | ArtifactMismatch | Ran(outcome: Outcome)

  /** `Manager.Rollback` for the install command `id`: it answers that no rollback is needed only when the
      managed files hold their old content, and when it runs to the end it has restored that very
      installation's backup. */
  method Rollback(m: Machine, r: Id, id: Id, ghost before: map<Name, Content>)
    returns (m': Machine, result: RollbackResult, rounds: nat)
    requires id in m.specs ==> Inv(m, id, before)
    requires id !in m.specs ==> r !in m.specs
    requires r in m.specs && m.specs[r].action == RollbackAction ==> m.specs[r].backupOf == id
    requires r != id
    ensures id in m.specs ==> Inv(m', id, before) && Reaches(m, id, rounds, m') && m'.stages == m.stages && m'.specs[id] == m.specs[id]
    ensures result == NoRollbackNeeded <==> First(m.faults) == Fine && r !in m.specs && !NeedsRollback(m, id)
    ensures result == NoRollbackNeeded ==> m'.managed == m.managed && (id in m.specs ==> m'.managed == before)
    ensures result == ArtifactMismatch <==> First(m.faults) == Fine && r in m.specs && m.specs[r].action != RollbackAction
    ensures result == ArtifactMismatch ==> m' == m.(faults := m'.faults)
    ensures result == Ran(Done) <==>
            if r in m.specs then m.specs[r].action == RollbackAction && Calm(m.faults, |MANAGED| + 5)
            else NeedsRollback(m, id) && Calm(m.faults, |MANAGED| + 6)
    ensures result == Ran(Done) ==> id in m.specs && m'.managed == before && r in m'.specs && m'.specs[r].phase == RolledBack
    ensures rounds == CommandRounds(m, r, id)
  {
    rounds := 0;
    CalmOn(m.faults, 1, |MANAGED| + 4);
    CalmOn(m.faults, 2, |MANAGED| + 4);
    CalmOn(m.faults, 1, 1);
    var outcome;
    m', outcome := External(m);
    if outcome != Done {
      return m', Ran(outcome), 0;
    }
    if r in m'.specs {
      if m'.specs[r].action != RollbackAction {
        return m', ArtifactMismatch, 0;
      }
      m', outcome, rounds := ApplyRollback(m', r, id, before);
      return m', Ran(outcome), rounds;
    }
    if id !in m'.specs {
      return m', NoRollbackNeeded, 0;
    }
    var phase := m'.specs[id].phase;
    if phase == Staged || phase == BackupComplete || phase == RolledBack {
      return m', NoRollbackNeeded, 0;
    }
    m', outcome := External(m');
    if outcome != Done {
      return m', Ran(outcome), 0;
    }
    m' := m'.(specs := m'.specs[r := Spec(RollbackAction, Staged, id)]);
    m', outcome, rounds := ApplyRollback(m', r, id, before);
    result := Ran(outcome);
  }

  /** A unit started by the service manager, with the faults it will meet. */
  datatype Job = RunInstall(faults: seq<Fault>) | RunRollback(r: Id, faults: seq<Fault>)

  /** The installation leaves the first `n` managed files as they were. */
  predicate Unchanged(stage: Tree, before: map<Name, Content>, n: nat) {
    forall name: Name :: Round(name) < n ==> NewVersion(stage, before, name) == Find(before, name)
  }

  lemma UnchangedFurther(stage: Tree, before: map<Name, Content>, n: nat, k: nat)
    ensures Unchanged(stage, before, Further(n, k)) <==> Unchanged(stage, before, n) && Unchanged(stage, before, k)
  {
  }

  lemma AllNewIff(managed: map<Name, Content>, stage: Tree, before: map<Name, Content>, n: nat)
    requires Mixed(managed, stage, before, n)
    ensures AllNew(managed, stage, before) <==> Unchanged(stage, before, n)
  {
  }

  /** The rollback command is for this installation. */
  predicate Names(m: Machine, r: Id, id: Id) {
    r != id && (r in m.specs && m.specs[r].action == RollbackAction ==> m.specs[r].backupOf == id)
  }

  /** What one job did: a run of the upgrade unit, or a rollback command; `rounds` files were restored. */
  ghost predicate JobRuns(m: Machine, id: Id, before: map<Name, Content>, job: Job, rounds: nat, m': Machine) {
    && Inv(m, id, before) && Inv(m', id, before) && m'.stages == m.stages
    && Reaches(m, id, rounds, m')
    && (job.RunInstall? ==> Installs(m.(faults := job.faults), id, before, rounds, m'))
    && (job.RunRollback? ==> m'.specs[id] == m.specs[id])
    && (job.RunRollback? && Names(m, job.r, id) ==> rounds == CommandRounds(m.(faults := job.faults), job.r, id))
  }

  /** The machines before, between and after the jobs. */
  ghost predicate JobsRun(ms: seq<Machine>, id: Id, before: map<Name, Content>, jobs: seq<Job>, rounds: seq<nat>) {
    && |ms| == |jobs| + 1 && |rounds| == |jobs|
    && forall k :: 0 <= k < |jobs| ==> JobRuns(ms[k], id, before, jobs[k], rounds[k], ms[k + 1])
  }

  lemma JobsRunOn(ms: seq<Machine>, id: Id, before: map<Name, Content>, jobs: seq<Job>, rounds: seq<nat>, job: Job, k: nat, m': Machine)
    requires JobsRun(ms, id, before, jobs, rounds) && JobRuns(ms[|jobs|], id, before, job, k, m')
    ensures JobsRun(ms + [m'], id, before, jobs + [job], rounds + [k])
  {
    var ms', jobs', rounds' := ms + [m'], jobs + [job], rounds + [k];
    forall i | 0 <= i < |jobs'|
      ensures JobRuns(ms'[i], id, before, jobs'[i], rounds'[i], ms'[i + 1])
    {
      if i < |jobs| {
        assert ms'[i] == ms[i] && ms'[i + 1] == ms[i + 1] && jobs'[i] == jobs[i] && rounds'[i] == rounds[i];
      }
    }
  }

  /** No restore since the replacement has reached a file that the installation changes. */
  ghost predicate NoneUndone(m: Machine, id: Id, before: map<Name, Content>, rounds: seq<nat>)
    requires id in m.specs && id in m.stages
  {
    && (Untouched(m.specs[id].phase) || Unchanged(m.stages[id], before, m.restored))
    && forall k :: 0 <= k < |rounds| ==> Unchanged(m.stages[id], before, rounds[k])
  }

  /** Over all jobs, the history variable says how far the restores since the replacement have got. */
  lemma {:induction false} RestoredIff(ms: seq<Machine>, id: Id, before: map<Name, Content>, jobs: seq<Job>, rounds: seq<nat>, n: nat)
    requires JobsRun(ms, id, before, jobs, rounds) && n <= |jobs| && Inv(ms[0], id, before)
    ensures Inv(ms[n], id, before) && ms[n].stages == ms[0].stages
    ensures
      if Untouched(ms[n].specs[id].phase) then Untouched(ms[0].specs[id].phase) && forall k :: 0 <= k < n ==> rounds[k] == 0
      else Unchanged(ms[0].stages[id], before, ms[n].restored) <==> NoneUndone(ms[0], id, before, rounds[..n])
    decreases n
  {
    if n > 0 {
      RestoredIff(ms, id, before, jobs, rounds, n - 1);
      assert JobRuns(ms[n - 1], id, before, jobs[n - 1], rounds[n - 1], ms[n - 1 + 1]);
      if !Untouched(ms[n].specs[id].phase) {
        RestoredNext(ms[0], ms[n - 1], ms[n], id, before, rounds, n - 1);
      }
    }
  }

  lemma RestoredNext(m0: Machine, m: Machine, m': Machine, id: Id, before: map<Name, Content>, rounds: seq<nat>, n: nat)
    requires n < |rounds| && id in m0.specs && id in m0.stages && id in m.specs && id in m'.specs && Reaches(m, id, rounds[n], m')
    requires Untouched(m.specs[id].phase) ==> Untouched(m0.specs[id].phase) && forall k :: 0 <= k < n ==> rounds[k] == 0
    requires !Untouched(m.specs[id].phase) ==>
               (Unchanged(m0.stages[id], before, m.restored) <==> NoneUndone(m0, id, before, rounds[..n]))
    requires !Untouched(m'.specs[id].phase)
    ensures Unchanged(m0.stages[id], before, m'.restored) <==> NoneUndone(m0, id, before, rounds[..n + 1])
  {
    NoneUndoneNext(m0, id, before, rounds, n);
    UnchangedFurther(m0.stages[id], before, m.restored, rounds[n]);
  }

  lemma NoneUndoneNext(m: Machine, id: Id, before: map<Name, Content>, rounds: seq<nat>, n: nat)
    requires n < |rounds| && id in m.specs && id in m.stages
    ensures NoneUndone(m, id, before, rounds[..n + 1]) <==> NoneUndone(m, id, before, rounds[..n]) && Unchanged(m.stages[id], before, rounds[n])
  {
    assert forall k :: 0 <= k < n ==> rounds[..n][k] == rounds[k] && rounds[..n + 1][k] == rounds[k];
    assert rounds[..n + 1][n] == rounds[n];
  }

  /** Any number of runs of the installation and of rollback commands for it, each cut short anywhere: the
      backup stays exact, every managed file is its old or its staged version, `RollbackReady` and
      `RolledBack` mean all old, and `Succeeded` means all new exactly if no restore, finished or interrupted, has
      reached a changed file since the replacement. */
  method AnyRuns(m: Machine, id: Id, ghost before: map<Name, Content>, jobs: seq<Job>)
    returns (m': Machine, ghost ms: seq<Machine>, ghost rounds: seq<nat>)
    requires Inv(m, id, before)
    ensures Inv(m', id, before) && JobsRun(ms, id, before, jobs, rounds) && ms[0] == m && ms[|jobs|] == m' && m'.stages == m.stages
    ensures m'.specs[id].phase != Staged ==> BackupExact(m'.backups[id], before)
    ensures OldOrNew(m'.managed, m'.stages[id], before)
    ensures m'.specs[id].phase in {RollbackReady, RolledBack} ==> m'.managed == before
    ensures m'.specs[id].phase == Succeeded ==> Mixed(m'.managed, m'.stages[id], before, m'.restored)
    ensures m'.specs[id].phase == Succeeded ==> (AllNew(m'.managed, m'.stages[id], before) <==> NoneUndone(m, id, before, rounds))
  {
    m', ms, rounds := m, [m], [];
    for k := 0 to |jobs|
      invariant Inv(m', id, before) && JobsRun(ms, id, before, jobs[..k], rounds) && ms[0] == m && ms[k] == m'
    {
      var reached;
      m', reached := RunJob(m', id, before, jobs[k]);
      JobsRunOn(ms, id, before, jobs[..k], rounds, jobs[k], reached, m');
      assert jobs[..k + 1] == jobs[..k] + [jobs[k]];
      ms, rounds := ms + [m'], rounds + [reached];
    }
    assert jobs[..|jobs|] == jobs;
    SuccessAfter(ms, id, before, jobs, rounds);
  }

  /** What success means after all jobs. */
  lemma SuccessAfter(ms: seq<Machine>, id: Id, before: map<Name, Content>, jobs: seq<Job>, rounds: seq<nat>)
    requires JobsRun(ms, id, before, jobs, rounds) && Inv(ms[0], id, before)
    ensures
      var m, m' := ms[0], ms[|jobs|];
      && Inv(m', id, before) && m'.stages == m.stages
      && (m'.specs[id].phase == Succeeded ==> (AllNew(m'.managed, m'.stages[id], before) <==> NoneUndone(m, id, before, rounds)))
  {
    var m' := ms[|jobs|];
    RestoredIff(ms, id, before, jobs, rounds, |jobs|);
    assert rounds[..|jobs|] == rounds;
    if m'.specs[id].phase == Succeeded {
      AllNewIff(m'.managed, m'.stages[id], before, m'.restored);
    }
  }

  method RunJob(m: Machine, id: Id, ghost before: map<Name, Content>, job: Job) returns (m': Machine, rounds: nat)
    requires Inv(m, id, before)
    ensures JobRuns(m, id, before, job, rounds, m')
  {
    m', rounds := m.(faults := job.faults), 0;
    match job
    case RunInstall(_) =>
      var outcome;
      m', outcome, rounds := ApplyInstall(m', id, before);
    case RunRollback(r, _) =>
      if Names(m', r, id) {
        var result;
        m', result, rounds := Rollback(m', r, id, before);
      }
  }

  /** All goes well from staging up to the reload after the replacement, which fails; the process dies when it has
      restored `k` files, and is started again. */
  function ReloadFails(k: nat): seq<Job> {
    [RunInstall(Quiet(2 * |MANAGED| + 5) + ([Error] + (Quiet(k) + [Crash]))), RunInstall([])]
  }

  /** So success does not mean all files new. On a machine without installations, an archive is staged over any files;
      the two runs end in `Succeeded` with `k` files old and the others new. */
  method InterruptedRestoreSucceedsWithMix(id: Id, before: map<Name, Content>, archive: map<Name, Content>, k: nat)
    returns (start: Machine, last: Machine, ghost ms: seq<Machine>, ghost rounds: seq<nat>)
    requires k < |MANAGED|
    ensures start == Machine(before, map[], map[], map[], [], 0)
    ensures |ms| == 3 && Stages(start, id, archive, ms[0]) && JobsRun(ms, id, before, ReloadFails(k), rounds)
    ensures last == ms[2] && id in last.specs && last.specs[id].phase == Succeeded && Mixed(last.managed, Tree(archive, {}), before, k)
  {
    start := Machine(before, map[], map[], map[], [], 0);
    NoFaults(1);
    NoFaults(2);
    var m, outcome := Stage(start, id, archive);
    last, ms, rounds := AnyRuns(m, id, before, ReloadFails(k));
    MixRemains(ms, id, before, k, rounds);
  }

  lemma MixRemains(ms: seq<Machine>, id: Id, before: map<Name, Content>, k: nat, rounds: seq<nat>)
    requires k < |MANAGED| && JobsRun(ms, id, before, ReloadFails(k), rounds)
    requires id in ms[0].specs && ms[0].specs[id].phase == Staged
    ensures id in ms[2].specs && ms[2].specs[id].phase == Succeeded
    ensures id in ms[0].stages && Mixed(ms[2].managed, ms[0].stages[id], before, k)
  {
    assert JobRuns(ms[0], id, before, ReloadFails(k)[0], rounds[0], ms[0 + 1]);
    DiesInRestore(ms[0], id, before, ReloadFails(k)[0], k, rounds[0], ms[1]);
    assert JobRuns(ms[1], id, before, ReloadFails(k)[1], rounds[1], ms[1 + 1]);
    SucceedsAgain(ms[1], id, before, ReloadFails(k)[1], rounds[1], ms[2]);
  }

  lemma DiesInRestore(m: Machine, id: Id, before: map<Name, Content>, job: Job, k: nat, rounds: nat, m': Machine)
    requires JobRuns(m, id, before, job, rounds, m') && m.specs[id].phase == Staged && k < |MANAGED|
    requires job == RunInstall(Quiet(2 * |MANAGED| + 5) + ([Error] + (Quiet(k) + [Crash])))
    ensures m'.specs[id].phase == FilesReplaced && m'.restored == k && m'.stages == m.stages
  {
    var rest := [Error] + (Quiet(k) + [Crash]);
    QuietAhead(2 * |MANAGED| + 5, rest);
    CalmOn(job.faults, |MANAGED| + 3, |MANAGED| + 2);
    ReloadEnds(rest, k);
    CalmOn(Drop(job.faults, |MANAGED| + 3), 1, |MANAGED| + 1);
  }

  lemma ReloadEnds(rest: seq<Fault>, k: nat)
    requires rest == [Error] + (Quiet(k) + [Crash]) && k < |MANAGED|
    ensures ReplacedEnd(rest) == End(FilesReplaced, k)
  {
    StopsAt(rest, 0);
    assert Drop(rest, 0) == rest && Drop(rest, 1) == Quiet(k) + [Crash];
    QuietAhead(k, [Crash]);
    StoppedAt(Drop(rest, 1), k, |MANAGED| + 1);
  }

  lemma SucceedsAgain(m: Machine, id: Id, before: map<Name, Content>, job: Job, rounds: nat, m': Machine)
    requires JobRuns(m, id, before, job, rounds, m') && m.specs[id].phase == FilesReplaced && job == RunInstall([])
    ensures m'.specs[id].phase == Succeeded && Mixed(m'.managed, m.stages[id], before, m.restored)
  {
    NoFaults(2);
    NoFaults(3);
  }

  // ---------------------------------------------------------------------------------------------
  // Which runs succeed, and which roll back
  // ---------------------------------------------------------------------------------------------

  /** How many steps an undisturbed run takes from a phase to success. */
  function StepsLeft(phase: Phase): nat {
    match phase case Staged => 2 * |MANAGED| + 10 case BackupComplete => |MANAGED| + 7 case FilesReplaced => 5 case Restarted => 2 case _ => 0
  }

  /** The phases from which a run moves on towards success. */
  predicate Forward(phase: Phase) {
    phase in {Staged, BackupComplete, FilesReplaced, Restarted}
  }

  /** With `left` steps to go, a run copies a file, records that all are replaced, reloads, restarts or awaits the
      confirmation: the steps whose failure starts a rollback. */
  predicate RollbackStep(left: int) {
    left == 2 || 4 <= left <= |MANAGED| + 6
  }

  /** The first step that is disturbed is one of those, it fails without killing the process, and the rollback after
      it is not disturbed. */
  predicate FailsAndRollsBack(phase: Phase, faults: seq<Fault>) {
    FailsWithin(StepsLeft(phase), faults)
  }

  predicate FailsWithin(steps: nat, faults: seq<Fault>) {
    var n := Luck(faults);
    && !Calm(faults, steps) && RollbackStep(steps - n)
    && First(Drop(faults, n)) != Crash && Calm(Drop(faults, n + 1), |MANAGED| + 5)
  }

  lemma RollbackEnds(phase: Phase, faults: seq<Fault>)
    requires phase !in {RolledBack, Succeeded}
    ensures RollbackEnd(phase, faults).phase == RolledBack <==> Calm(faults, |MANAGED| + 5)
    ensures RollbackEnd(phase, faults).phase == RolledBack ==> RollbackEnd(phase, faults).rounds == |MANAGED|
    ensures RollbackEnd(phase, faults).phase != Succeeded
  {
    CalmOn(faults, |MANAGED| + 1, 4);
    CalmOn(faults, |MANAGED| + 2, 3);
  }

  /** What the schedule says of a run, it says of the rest of the run after `n` steps. */
  lemma Later(phase: Phase, phase': Phase, faults: seq<Fault>, n: nat)
    requires Calm(faults, n) && StepsLeft(phase) == n + StepsLeft(phase')
    ensures Calm(faults, StepsLeft(phase)) <==> Calm(Drop(faults, n), StepsLeft(phase'))
    ensures FailsAndRollsBack(phase, faults) <==> FailsAndRollsBack(phase', Drop(faults, n))
  {
    LaterWithin(StepsLeft(phase'), faults, n);
  }

  lemma LaterWithin(steps: nat, faults: seq<Fault>, n: nat)
    requires Calm(faults, n)
    ensures Calm(faults, n + steps) <==> Calm(Drop(faults, n), steps)
    ensures FailsWithin(n + steps, faults) <==> FailsWithin(steps, Drop(faults, n))
  {
    CalmOn(faults, n, steps);
    if !Calm(Drop(faults, n), steps) {
      var k := Luck(Drop(faults, n));
      LuckAfter(faults, n, steps);
      DropDrop(faults, n, k);
      DropDrop(faults, n, k + 1);
    }
  }

  /** A run succeeds exactly if no step of it is disturbed, and rolls back completely exactly if the first
      disturbed step is one whose failure starts a rollback, the step fails without killing the process, and no step
      of the rollback is disturbed. */
  ghost predicate EndsAsTold(phase: Phase, faults: seq<Fault>, end: End) {
    && (end.phase == Succeeded <==> Calm(faults, StepsLeft(phase)))
    && (end.phase == RolledBack <==> FailsAndRollsBack(phase, faults))
    && (end.phase == Succeeded ==> end.rounds == 0)
    && (end.phase == RolledBack ==> end.rounds == |MANAGED|)
  }

  lemma StoppedEnds(phase: Phase, stopped: Phase, faults: seq<Fault>)
    requires !Calm(faults, StepsLeft(phase)) && RollbackStep(StepsLeft(phase) - Luck(faults)) && stopped !in {RolledBack, Succeeded}
    ensures EndsAsTold(phase, faults, StopEnd(stopped, Drop(faults, Luck(faults))))
  {
    var n := Luck(faults);
    CalmOn(faults, n, 1);
    if First(Drop(faults, n)) != Crash {
      RollbackEnds(stopped, Drop(faults, n + 1));
    }
  }

  lemma RestartedEnds(faults: seq<Fault>)
    ensures EndsAsTold(Restarted, faults, RestartedEnd(faults))
  {
    CalmNext(faults, 1);
    if !Calm(faults, 1) {
      StoppedAt(faults, 0, 2);
      assert Drop(faults, 0) == faults;
      StoppedEnds(Restarted, Restarted, faults);
    } else if !Calm(faults, 2) {
      StopsAt(faults, 1);
    }
  }

  lemma ReplacedEnds(faults: seq<Fault>)
    ensures EndsAsTold(FilesReplaced, faults, ReplacedEnd(faults))
  {
    CalmOn(faults, 3, 2);
    RestartStops(faults);
    if !Calm(faults, 2) {
      StoppedEnds(FilesReplaced, FilesReplaced, faults);
    } else if !Calm(faults, 3) {
      StopsAt(faults, 2);
    } else {
      RestartedEnds(Drop(faults, 3));
      Later(FilesReplaced, Restarted, faults, 3);
    }
  }

  lemma BackupEnds(faults: seq<Fault>)
    ensures EndsAsTold(BackupComplete, faults, BackupEnd(faults))
  {
    CalmOn(faults, 1, |MANAGED| + 6);
    CalmOn(faults, |MANAGED| + 2, 5);
    if !Calm(faults, 1) {
      StopsAt(faults, 0);
    } else if !Calm(faults, |MANAGED| + 2) {
      Stops(faults, |MANAGED| + 2);
      StoppedEnds(BackupComplete, Replacing, faults);
    } else {
      ReplacedEnds(Drop(faults, |MANAGED| + 2));
      Later(BackupComplete, FilesReplaced, faults, |MANAGED| + 2);
    }
  }

  lemma InstallEnds(phase: Phase, faults: seq<Fault>)
    requires Forward(phase)
    ensures EndsAsTold(phase, faults, InstallEnd(phase, faults))
  {
    match phase
    case Staged =>
      CalmOn(faults, |MANAGED| + 3, |MANAGED| + 7);
      if !Calm(faults, |MANAGED| + 3) {
        Stops(faults, |MANAGED| + 3);
      } else {
        BackupEnds(Drop(faults, |MANAGED| + 3));
        Later(Staged, BackupComplete, faults, |MANAGED| + 3);
      }
    case BackupComplete => BackupEnds(faults);
    case FilesReplaced => ReplacedEnds(faults);
    case Restarted => RestartedEnds(faults);
  }

  /** Over any jobs: a run succeeds exactly if nothing disturbs it. It takes the installation back, with every managed
      file restored, exactly if a step fails that calls for it, without killing the process, and the rollback is not
      disturbed. */
  lemma RunEnds(ms: seq<Machine>, id: Id, before: map<Name, Content>, jobs: seq<Job>, rounds: seq<nat>, k: nat)
    requires JobsRun(ms, id, before, jobs, rounds) && k < |jobs| && jobs[k].RunInstall?
    requires id in ms[k].specs && Forward(ms[k].specs[id].phase)
    ensures id in ms[k + 1].specs && EndsAsTold(ms[k].specs[id].phase, jobs[k].faults, End(ms[k + 1].specs[id].phase, rounds[k]))
    ensures FailsAndRollsBack(ms[k].specs[id].phase, jobs[k].faults) ==> ms[k + 1].managed == before
  {
    assert JobRuns(ms[k], id, before, jobs[k], rounds[k], ms[k + 1]);
    InstallEnds(ms[k].specs[id].phase, jobs[k].faults);
  }

  /** A run that finds a rollback begun ends with the old files and agent exactly if nothing disturbs it. */
  lemma RollbackResumes(ms: seq<Machine>, id: Id, before: map<Name, Content>, jobs: seq<Job>, rounds: seq<nat>, k: nat)
    requires JobsRun(ms, id, before, jobs, rounds) && k < |jobs| && jobs[k].RunInstall?
    requires id in ms[k].specs && ms[k].specs[id].phase in {Replacing, RollbackFailed, RollbackReady}
    ensures
      var steps := if ms[k].specs[id].phase == RollbackReady then 3 else |MANAGED| + 5;
      id in ms[k + 1].specs && (ms[k + 1].specs[id].phase == RolledBack <==> Calm(jobs[k].faults, steps))
    ensures ms[k + 1].specs[id].phase == RolledBack ==> ms[k + 1].managed == before
  {
    assert JobRuns(ms[k], id, before, jobs[k], rounds[k], ms[k + 1]);
    if ms[k].specs[id].phase != RollbackReady {
      RollbackEnds(ms[k].specs[id].phase, jobs[k].faults);
    }
  }
}
