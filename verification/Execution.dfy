/** At-most-once execution (internal/executor): exclusive claim records arbitrate between redelivered
    assignments, agent restarts and several runners on one work root.

    Every call of `Start` and the supervision that follows it is a process; its steps interleave with those of
    every other process, of its own runner or another. The runner's mutex only removes interleavings and is
    left out. A crash kills all processes of a runner and leaves the records as they are, torn ones included. */
module Execution {
  import opened Common

  type RunId = nat
  type Token = nat
  type RunnerId = nat
  type Pid = nat

  // ---------------------------------------------------------------------------------------------
  // Records
  // ---------------------------------------------------------------------------------------------

  datatype EventKind = Started | Succeeded | Failed | TimedOut | Cancelled

  /** `at` is 0 for the zero time. */
  datatype Event = Event(sequence: nat, kind: EventKind, at: nat, exitCode: int)

  /** A record file: created but not (completely) written, or complete. */
  datatype Record = Torn | Complete(run: RunId, tokenHash: nat, events: seq<Event>)

  datatype Answer =
    | AlreadyActive | TokenMismatch | Uncertain | NotAllowed
    | Replayed(events: seq<Event>)
    | Launched

  predicate Terminal(kind: EventKind) {
    kind != Started
  }

  /** What a result record must look like to be replayed. */
  predicate Replayable(events: seq<Event>) {
    && 1 <= |events| <= 2
    && (forall i :: 0 <= i < |events| ==> events[i].sequence == i + 1 && events[i].at != 0)
    && (|events| == 2 ==> events[0].kind == Started)
    && Terminal(events[|events| - 1].kind)
  }

  /** What `replay` makes of the records of a run; `None` if nobody has claimed it. */
  function Decision(claim: Option<Record>, result: Option<Record>, run: RunId, hash: nat): Option<Answer> {
    if claim.None? then None
    else if claim.value.Torn? || claim.value.run != run then Some(Uncertain)
    else if claim.value.tokenHash != hash then Some(TokenMismatch)
    else if result.None? || result.value.Torn? || result.value.run != run || result.value.tokenHash != hash
         || !Replayable(result.value.events) then Some(Uncertain)
    else Some(Replayed(result.value.events))
  }

  /** The events of a result record that may be replayed: a failed launch, or a start and an end. */
  ghost predicate OneLaunch(events: seq<Event>) {
    || (exists kind, at, code :: events == [Event(1, kind, at, code)] && kind != Started && at != 0)
    || (exists at, code, kind, at', code' ::
          events == [Event(1, Started, at, code), Event(2, kind, at', code')] && kind != Started && at != 0 && at' != 0)
  }

  lemma ReplayableIff(events: seq<Event>)
    ensures Replayable(events) <==> OneLaunch(events)
  {
    if Replayable(events) {
      var last := events[|events| - 1];
      if |events| == 1 {
        assert events == [Event(1, last.kind, last.at, last.exitCode)];
      } else {
        assert events == [Event(1, Started, events[0].at, events[0].exitCode), Event(2, last.kind, last.at, last.exitCode)];
      }
    }
  }

  /** Whatever the record files hold: events are replayed exactly if a complete claim and a complete result name the run
      and the token, and the events are those of one launch. Another token is refused by a complete claim of the run
      alone. Everything else that was claimed is uncertain. */
  lemma DecidesExactly(claim: Option<Record>, result: Option<Record>, run: RunId, hash: nat)
    ensures claim == None <==> Decision(claim, result, run, hash) == None
    ensures forall events ::
              Decision(claim, result, run, hash) == Some(Replayed(events)) <==>
              && claim.Some? && claim.value.Complete? && claim.value.run == run && claim.value.tokenHash == hash
              && result == Some(Complete(run, hash, events)) && OneLaunch(events)
    ensures Decision(claim, result, run, hash) == Some(TokenMismatch) <==>
            claim.Some? && claim.value.Complete? && claim.value.run == run && claim.value.tokenHash != hash
    ensures Decision(claim, result, run, hash) in {None, Some(TokenMismatch), Some(Uncertain)} || Decision(claim, result, run, hash).value.Replayed?
  {
    if result.Some? && result.value.Complete? {
      ReplayableIff(result.value.events);
      assert result == Some(Complete(result.value.run, result.value.tokenHash, result.value.events));
    }
  }

  method Replay(claim: Option<Record>, result: Option<Record>, run: RunId, hash: nat) returns (answer: Option<Answer>)
    ensures answer == Decision(claim, result, run, hash)
  {
    if claim.None? {
      return None;
    }
    if claim.value.Torn? || claim.value.run != run {
      return Some(Uncertain);
    }
    if claim.value.tokenHash != hash {
      return Some(TokenMismatch);
    }
    if result.None? || result.value.Torn? || result.value.run != claim.value.run || result.value.tokenHash != claim.value.tokenHash
       || |result.value.events| < 1 || |result.value.events| > 2 {
      return Some(Uncertain);
    }
    var events := result.value.events;
    var i := 0;
    while i < |events|
      invariant 0 <= i <= |events|
      invariant forall j :: 0 <= j < i ==> events[j].sequence == j + 1 && events[j].at != 0
    {
      if events[i].sequence != i + 1 || events[i].at == 0 {
        return Some(Uncertain);
      }
      i := i + 1;
    }
    if |events| == 2 && events[0].kind != Started {
      return Some(Uncertain);
    }
    match events[|events| - 1].kind
    case Succeeded => return Some(Replayed(events));
    case Failed => return Some(Replayed(events));
    case TimedOut => return Some(Replayed(events));
    case Cancelled => return Some(Replayed(events));
    case Started => return Some(Uncertain);
  }

  // ---------------------------------------------------------------------------------------------
  // Processes
  // ---------------------------------------------------------------------------------------------

  datatype Pc =
    | Entered                        // before the first check
    | Checked                        // nothing found; resolving the script, preparing the directory
    | Rechecked                      // still nothing found
    | Created                        // has exclusively created the claim file
    | Claimed                        // has written and synchronised it
    | Running                        // the launcher has been called and the process runs
    | Finished(events: seq<Event>)   // events to be saved
    | Saving(events: seq<Event>)     // has exclusively created the result file
    | Ended(answer: Answer)
    | Dead

  datatype Process = Process(runner: RunnerId, run: RunId, token: Token, pc: Pc)

  /** What is known about a claimed run: its record files, and as history who created the claim, under which
      token, and the events the launch ended with. */
  datatype Entry = Entry(claim: Record, result: Option<Record>, owner: Pid, token: Token, outcome: Option<seq<Event>>)

  /** `launches` counts the calls of the launcher for every run. */
  datatype State = State(
    entries: map<RunId, Entry>, processes: map<Pid, Process>, active: map<(RunnerId, RunId), Pid>, launches: multiset<RunId>)

  function EntryOf(s: State, run: RunId): Option<Entry> {
    if run in s.entries then Some(s.entries[run]) else None
  }

  /** The check at the head of both critical sections of `Start`. */
  function Check(s: State, p: Process, hash: Token -> nat): Option<Answer> {
    if (p.runner, p.run) in s.active then
      var other := s.active[(p.runner, p.run)];
      if other in s.processes && s.processes[other].token == p.token then Some(AlreadyActive) else Some(TokenMismatch)
    else if p.run !in s.entries then Decision(None, None, p.run, hash(p.token))
    else Decision(Some(s.entries[p.run].claim), s.entries[p.run].result, p.run, hash(p.token))
  }

  function Move(s: State, pid: Pid, pc: Pc): State
    requires pid in s.processes
  {
    s.(processes := s.processes[pid := s.processes[pid].(pc := pc)])
  }

  function AfterCheck(s: State, pid: Pid, next: Pc, hash: Token -> nat): State
    requires pid in s.processes
  {
    match Check(s, s.processes[pid], hash)
    case Some(answer) => Move(s, pid, Ended(answer))
    case None => Move(s, pid, next)
  }

  /** The supervised process is done with: it leaves the active map of its runner. */
  function Retire(s: State, pid: Pid): State
    requires pid in s.processes
  {
    var p := s.processes[pid];
    var key := (p.runner, p.run);
    var active := if key in s.active && s.active[key] == pid then s.active - {key} else s.active;
    Move(s, pid, Ended(Launched)).(active := active)
  }

  /** A write may complete the file and still report an error, from the synchronisation that follows it; for a
      result that makes no difference, since the error is only logged. */
  datatype Action =
    | Call(pid: Pid, runner: RunnerId, run: RunId, token: Token)
    | FirstCheck(pid: Pid)
    | PrepareFails(pid: Pid)
    | SecondCheck(pid: Pid)
    | CreateClaim(pid: Pid, ok: bool)
    | WriteClaim(pid: Pid, written: bool, ok: bool)
    | Launch(pid: Pid, ok: bool, at: nat)
    | Finish(pid: Pid, startedAt: nat, last: Event)
    | CreateResult(pid: Pid, ok: bool)
    | WriteResult(pid: Pid, written: bool)
    | CrashRunner(runner: RunnerId)

  predicate Enabled(s: State, a: Action) {
    match a
    case Call(pid, _, _, _) => pid !in s.processes
    case CrashRunner(_) => true
    case _ =>
      a.pid in s.processes &&
      var pc := s.processes[a.pid].pc;
      match a
      case FirstCheck(_) => pc == Entered
      case PrepareFails(_) => pc == Checked
      case SecondCheck(_) => pc == Checked
      case CreateClaim(_, _) => pc == Rechecked
      case WriteClaim(_, written, ok) => pc == Created && s.processes[a.pid].run in s.entries && (ok ==> written)
      case Launch(_, _, at) => pc == Claimed && at != 0
      case Finish(_, startedAt, last) =>
        pc == Running && startedAt != 0 && last.at != 0 && last.sequence == 2 && Terminal(last.kind)
      case CreateResult(_, _) => pc.Finished?
      case WriteResult(_, _) => pc.Saving?
      case _ => false
  }

  /** Records the events the launch ended with. */
  function SetOutcome(s: State, run: RunId, events: seq<Event>): State {
    if run in s.entries then s.(entries := s.entries[run := s.entries[run].(outcome := Some(events))]) else s
  }

  /** Creates or completes the result file. */
  function SetResult(s: State, run: RunId, result: Record): State {
    if run in s.entries then s.(entries := s.entries[run := s.entries[run].(result := Some(result))]) else s
  }

  function Next(s: State, a: Action, hash: Token -> nat): State
    requires Enabled(s, a)
  {
    match a
    case Call(pid, runner, run, token) => s.(processes := s.processes[pid := Process(runner, run, token, Entered)])
    case FirstCheck(pid) => AfterCheck(s, pid, Checked, hash)
    case PrepareFails(pid) => Move(s, pid, Ended(NotAllowed))
    case SecondCheck(pid) => AfterCheck(s, pid, Rechecked, hash)
    case CreateClaim(pid, ok) =>
      var p := s.processes[pid];
      if !ok || p.run in s.entries then Move(s, pid, Ended(Uncertain))
      else Move(s, pid, Created).(entries := s.entries[p.run := Entry(Torn, None, pid, p.token, None)])
    case WriteClaim(pid, written, ok) =>
      var p := s.processes[pid];
      var moved := Move(s, pid, if ok then Claimed else Ended(Uncertain));
      if !written then moved
      else moved.(entries := s.entries[p.run := s.entries[p.run].(claim := Complete(p.run, hash(p.token), []))])
    case Launch(pid, ok, at) =>
      var p := s.processes[pid];
      var called := s.(launches := s.launches + multiset{p.run});
      if ok then Move(called, pid, Running).(active := s.active[(p.runner, p.run) := pid])
      else
        var failed := [Event(1, Failed, at, -1)];
        SetOutcome(Move(called, pid, Finished(failed)), p.run, failed)
    case Finish(pid, startedAt, last) =>
      var events := [Event(1, Started, startedAt, 0), last];
      SetOutcome(Move(s, pid, Finished(events)), s.processes[pid].run, events)
    case CreateResult(pid, ok) =>
      var p := s.processes[pid];
      if !ok || (p.run in s.entries && s.entries[p.run].result.Some?) then Retire(s, pid)
      else SetResult(Move(s, pid, Saving(p.pc.events)), p.run, Torn)
    case WriteResult(pid, written) =>
      var p := s.processes[pid];
      if !written then Retire(s, pid)
      else SetResult(Retire(s, pid), p.run, Complete(p.run, hash(p.token), p.pc.events))
    case CrashRunner(runner) =>
      s.(processes := map pid | pid in s.processes :: Killed(s.processes[pid], runner),
         active := map key | key in s.active && key.0 != runner :: s.active[key])
  }

  function Killed(p: Process, runner: RunnerId): Process {
    if p.runner == runner && !p.pc.Ended? then p.(pc := Dead) else p
  }

  ghost predicate Step(s: State, s': State, hash: Token -> nat) {
    exists a :: Enabled(s, a) && s' == Next(s, a, hash)
  }

  ghost predicate Init(s: State) {
    s == State(map[], map[], map[], multiset{})
  }

  ghost predicate IsRun(ss: seq<State>, hash: Token -> nat) {
    && |ss| > 0
    && Init(ss[0])
    && forall i :: 0 <= i < |ss| - 1 ==> Step(ss[i], ss[i + 1], hash)
  }

  // ---------------------------------------------------------------------------------------------
  // The invariant
  // ---------------------------------------------------------------------------------------------

  /** The process has created the claim of its run. */
  predicate HoldsClaim(pc: Pc) {
    pc in {Created, Claimed, Running} || pc.Finished? || pc.Saving? || pc == Ended(Launched)
  }

  predicate HasLaunched(pc: Pc) {
    HoldsClaim(pc) && pc !in {Created, Claimed}
  }

  /** What holds of the records of a run after `n` launches. */
  predicate EntryOk(run: RunId, e: Option<Entry>, n: nat, hash: Token -> nat) {
    if e.None? then n == 0
    else
      && n <= 1
      && (e.value.claim.Complete? ==> e.value.claim == Complete(run, hash(e.value.token), []))
      && (e.value.outcome.Some? ==> n == 1 && Replayable(e.value.outcome.value))
      && (e.value.result.Some? ==> e.value.outcome.Some?)
      && (e.value.result.Some? && e.value.result.value.Complete? ==>
            e.value.result.value == Complete(run, hash(e.value.token), e.value.outcome.value))
  }

  /** What holds of a process, given the records of its run and the number of its launches. */
  predicate ProcessOk(pid: Pid, p: Process, e: Option<Entry>, n: nat, hash: Token -> nat) {
    && (HoldsClaim(p.pc) ==> e.Some? && e.value.owner == pid && e.value.token == p.token)
    && (p.pc in {Created, Claimed} ==> n == 0)
    && (p.pc == Claimed || HasLaunched(p.pc) ==> e.value.claim.Complete?)
    && (HasLaunched(p.pc) ==> n == 1)
    && (p.pc in {Created, Claimed, Running} ==> e.value.result.None? && e.value.outcome.None?)
    && (p.pc.Finished? ==> e.value.result.None? && e.value.outcome == Some(p.pc.events))
    && (p.pc.Saving? ==> e.value.result.Some? && e.value.outcome == Some(p.pc.events))
    && (p.pc.Ended? && p.pc.answer.Replayed? ==>
          e.Some? && n == 1 && hash(p.token) == hash(e.value.token) && e.value.outcome == Some(p.pc.answer.events))
  }

  ghost predicate Inv(s: State, hash: Token -> nat) {
    && (forall run :: EntryOk(run, EntryOf(s, run), s.launches[run], hash))
    && (forall pid :: pid in s.processes ==>
          ProcessOk(pid, s.processes[pid], EntryOf(s, s.processes[pid].run), s.launches[s.processes[pid].run], hash))
  }

  /** A step changes one process and the records of its run. The other processes of the run do not hold the
      claim, so they only depend on the outcome, which is never revised. */
  lemma StepFrame(s: State, s': State, pid: Pid, hash: Token -> nat)
    requires Inv(s, hash) && pid in s'.processes
    requires forall q :: q in s'.processes && q != pid ==> q in s.processes && s'.processes[q] == s.processes[q]
    requires var run := s'.processes[pid].run;
      && (forall r :: r != run ==> EntryOf(s', r) == EntryOf(s, r) && s'.launches[r] == s.launches[r])
      && EntryOk(run, EntryOf(s', run), s'.launches[run], hash)
      && ProcessOk(pid, s'.processes[pid], EntryOf(s', run), s'.launches[run], hash)
      && (|| (EntryOf(s', run) == EntryOf(s, run) && s'.launches[run] == s.launches[run])
          || Owns(EntryOf(s, run), EntryOf(s', run), s.launches[run], s'.launches[run], pid))
    ensures Inv(s', hash)
  {
    var run := s'.processes[pid].run;
    forall q | q in s'.processes
      ensures ProcessOk(q, s'.processes[q], EntryOf(s', s'.processes[q].run), s'.launches[s'.processes[q].run], hash)
    {
      if q != pid {
        assert ProcessOk(q, s.processes[q], EntryOf(s, s.processes[q].run), s.launches[s.processes[q].run], hash);
      }
    }
  }

  /** The records change in the hands of their owner, or are created by it. */
  predicate Owns(e: Option<Entry>, e': Option<Entry>, n: nat, n': nat, pid: Pid) {
    && e'.Some? && e'.value.owner == pid
    && n <= n'
    && (e.Some? ==> e.value.owner == pid && e'.value.token == e.value.token && (e.value.outcome.Some? ==> e'.value.outcome == e.value.outcome && n' == n))
  }

  /** A replay decided on the records of a run is one of its launch. */
  lemma CheckIsExact(s: State, p: Process, hash: Token -> nat)
    requires Inv(s, hash)
    ensures var e, n := EntryOf(s, p.run), s.launches[p.run];
      match Check(s, p, hash)
      case Some(Replayed(events)) => e.Some? && n == 1 && hash(p.token) == hash(e.value.token) && e.value.outcome == Some(events)
      case Some(answer) => answer != Launched
      case None => true
  {
    assert EntryOk(p.run, EntryOf(s, p.run), s.launches[p.run], hash);
  }

  lemma MoveKeepsInv(s: State, hash: Token -> nat, pid: Pid, pc: Pc)
    requires Inv(s, hash) && pid in s.processes
    requires ProcessOk(pid, s.processes[pid].(pc := pc), EntryOf(s, s.processes[pid].run), s.launches[s.processes[pid].run], hash)
    ensures Inv(Move(s, pid, pc), hash)
  {
    var run := s.processes[pid].run;
    assert EntryOk(run, EntryOf(s, run), s.launches[run], hash);
    StepFrame(s, Move(s, pid, pc), pid, hash);
  }

  lemma ChecksKeepInv(s: State, hash: Token -> nat, a: Action)
    requires Inv(s, hash) && Enabled(s, a) && (a.FirstCheck? || a.SecondCheck? || a.PrepareFails?)
    ensures Inv(Next(s, a, hash), hash)
  {
    CheckIsExact(s, s.processes[a.pid], hash);
    MoveKeepsInv(s, hash, a.pid, Next(s, a, hash).processes[a.pid].pc);
  }

  lemma CreateClaimKeepsInv(s: State, hash: Token -> nat, a: Action)
    requires Inv(s, hash) && Enabled(s, a) && a.CreateClaim?
    ensures Inv(Next(s, a, hash), hash)
  {
    var run := s.processes[a.pid].run;
    assert ProcessOk(a.pid, s.processes[a.pid], EntryOf(s, run), s.launches[run], hash);
    assert EntryOk(run, EntryOf(s, run), s.launches[run], hash);
    StepFrame(s, Next(s, a, hash), a.pid, hash);
  }

  lemma WriteClaimKeepsInv(s: State, hash: Token -> nat, a: Action)
    requires Inv(s, hash) && Enabled(s, a) && a.WriteClaim?
    ensures Inv(Next(s, a, hash), hash)
  {
    var run := s.processes[a.pid].run;
    assert ProcessOk(a.pid, s.processes[a.pid], EntryOf(s, run), s.launches[run], hash);
    assert EntryOk(run, EntryOf(s, run), s.launches[run], hash);
    StepFrame(s, Next(s, a, hash), a.pid, hash);
  }

  lemma LaunchKeepsInv(s: State, hash: Token -> nat, a: Action)
    requires Inv(s, hash) && Enabled(s, a) && (a.Launch?)
    ensures Inv(Next(s, a, hash), hash)
  {
    var run := s.processes[a.pid].run;
    assert ProcessOk(a.pid, s.processes[a.pid], EntryOf(s, run), s.launches[run], hash);
    assert EntryOk(run, EntryOf(s, run), s.launches[run], hash);
    StepFrame(s, Next(s, a, hash), a.pid, hash);
  }

  lemma FinishKeepsInv(s: State, hash: Token -> nat, a: Action)
    requires Inv(s, hash) && Enabled(s, a) && (a.Finish?)
    ensures Inv(Next(s, a, hash), hash)
  {
    var run := s.processes[a.pid].run;
    assert ProcessOk(a.pid, s.processes[a.pid], EntryOf(s, run), s.launches[run], hash);
    assert EntryOk(run, EntryOf(s, run), s.launches[run], hash);
    StepFrame(s, Next(s, a, hash), a.pid, hash);
  }

  lemma CreateResultKeepsInv(s: State, hash: Token -> nat, a: Action)
    requires Inv(s, hash) && Enabled(s, a) && a.CreateResult?
    ensures Inv(Next(s, a, hash), hash)
  {
    var run := s.processes[a.pid].run;
    assert ProcessOk(a.pid, s.processes[a.pid], EntryOf(s, run), s.launches[run], hash);
    assert EntryOk(run, EntryOf(s, run), s.launches[run], hash);
    StepFrame(s, Next(s, a, hash), a.pid, hash);
  }

  lemma WriteResultKeepsInv(s: State, hash: Token -> nat, a: Action)
    requires Inv(s, hash) && Enabled(s, a) && a.WriteResult?
    ensures Inv(Next(s, a, hash), hash)
  {
    var run := s.processes[a.pid].run;
    assert ProcessOk(a.pid, s.processes[a.pid], EntryOf(s, run), s.launches[run], hash);
    assert EntryOk(run, EntryOf(s, run), s.launches[run], hash);
    StepFrame(s, Next(s, a, hash), a.pid, hash);
  }

  lemma CrashKeepsInv(s: State, hash: Token -> nat, a: Action)
    requires Inv(s, hash) && Enabled(s, a) && a.CrashRunner?
    ensures Inv(Next(s, a, hash), hash)
  {
    var s' := Next(s, a, hash);
    forall q | q in s'.processes
      ensures ProcessOk(q, s'.processes[q], EntryOf(s', s'.processes[q].run), s'.launches[s'.processes[q].run], hash)
    {
      assert ProcessOk(q, s.processes[q], EntryOf(s, s.processes[q].run), s.launches[s.processes[q].run], hash);
    }
  }

  lemma StepKeepsInv(s: State, hash: Token -> nat, a: Action)
    requires Inv(s, hash) && Enabled(s, a)
    ensures Inv(Next(s, a, hash), hash)
  {
    match a
    case Call(pid, _, run, _) =>
      assert EntryOk(run, EntryOf(s, run), s.launches[run], hash);
      StepFrame(s, Next(s, a, hash), pid, hash);
    case FirstCheck(_) => ChecksKeepInv(s, hash, a);
    case PrepareFails(_) => ChecksKeepInv(s, hash, a);
    case SecondCheck(_) => ChecksKeepInv(s, hash, a);
    case CreateClaim(_, _) => CreateClaimKeepsInv(s, hash, a);
    case WriteClaim(_, _, _) => WriteClaimKeepsInv(s, hash, a);
    case Launch(_, _, _) => LaunchKeepsInv(s, hash, a);
    case Finish(_, _, _) => FinishKeepsInv(s, hash, a);
    case CreateResult(_, _) => CreateResultKeepsInv(s, hash, a);
    case WriteResult(_, _) => WriteResultKeepsInv(s, hash, a);
    case CrashRunner(_) => CrashKeepsInv(s, hash, a);
  }

  lemma {:induction false} RunKeepsInv(ss: seq<State>, hash: Token -> nat, i: nat)
    requires IsRun(ss, hash) && i < |ss|
    ensures Inv(ss[i], hash)
  {
    if i > 0 {
      RunKeepsInv(ss, hash, i - 1);
      assert Step(ss[i - 1], ss[i - 1 + 1], hash);
      var a :| Enabled(ss[i - 1], a) && ss[i] == Next(ss[i - 1], a, hash);
      StepKeepsInv(ss[i - 1], hash, a);
    }
  }

  // ---------------------------------------------------------------------------------------------
  // Theorems about every run
  // ---------------------------------------------------------------------------------------------

  /** The launcher is called at most once for a run identifier, over all runners, crashes and restarts. */
  lemma AtMostOnce(ss: seq<State>, hash: Token -> nat, i: nat, run: RunId)
    requires IsRun(ss, hash) && i < |ss|
    ensures ss[i].launches[run] <= 1
  {
    RunKeepsInv(ss, hash, i);
    assert EntryOk(run, EntryOf(ss[i], run), ss[i].launches[run], hash);
  }

  /** Every finished call of `Start` refused, launched the run itself, or replayed exactly the events the one
      launch ended with, under the same token if the token hash has no collisions. */
  lemma AnswersAreExact(ss: seq<State>, hash: Token -> nat, i: nat, pid: Pid)
    requires IsRun(ss, hash) && i < |ss| && pid in ss[i].processes && ss[i].processes[pid].pc.Ended?
    requires forall t, u :: hash(t) == hash(u) ==> t == u
    ensures var s, p := ss[i], ss[i].processes[pid];
      (p.pc.answer == Launched || p.pc.answer.Replayed?) ==>
        && p.run in s.entries && s.launches[p.run] == 1 && s.entries[p.run].token == p.token
        && (p.pc.answer == Launched ==> s.entries[p.run].owner == pid)
        && (p.pc.answer.Replayed? ==> s.entries[p.run].outcome == Some(p.pc.answer.events))
  {
    RunKeepsInv(ss, hash, i);
    var s, p := ss[i], ss[i].processes[pid];
    assert ProcessOk(pid, p, EntryOf(s, p.run), s.launches[p.run], hash);
  }

  /** Owner, token and outcome of a run are never revised. */
  lemma {:induction false} OutcomeIsStable(ss: seq<State>, hash: Token -> nat, i: nat, j: nat, run: RunId)
    requires IsRun(ss, hash) && i <= j < |ss| && run in ss[i].entries
    ensures run in ss[j].entries && ss[j].entries[run].owner == ss[i].entries[run].owner && ss[j].entries[run].token == ss[i].entries[run].token
    ensures ss[i].entries[run].outcome.Some? ==> ss[j].entries[run].outcome == ss[i].entries[run].outcome
    decreases j - i
  {
    if i < j {
      RunKeepsInv(ss, hash, i);
      assert Step(ss[i], ss[i + 1], hash);
      var a :| Enabled(ss[i], a) && ss[i + 1] == Next(ss[i], a, hash);
      StepIsStable(ss[i], hash, a, run);
      OutcomeIsStable(ss, hash, i + 1, j, run);
    }
  }

  lemma StepIsStable(s: State, hash: Token -> nat, a: Action, run: RunId)
    requires Inv(s, hash) && Enabled(s, a) && run in s.entries
    ensures var s' := Next(s, a, hash);
      && run in s'.entries && s'.entries[run].owner == s.entries[run].owner && s'.entries[run].token == s.entries[run].token
      && (s.entries[run].outcome.Some? ==> s'.entries[run].outcome == s.entries[run].outcome)
  {
    if !a.Call? && !a.CrashRunner? {
      var p := s.processes[a.pid];
      assert ProcessOk(a.pid, p, EntryOf(s, p.run), s.launches[p.run], hash);
    }
  }

  // ---------------------------------------------------------------------------------------------
  // What a call is answered
  // ---------------------------------------------------------------------------------------------

  predicate Supervised(pc: Pc) {
    pc == Running || pc.Finished? || pc.Saving?
  }

  /** The active map of a runner names processes of that runner that have launched the run and not yet been done with;
      every process that runs is in it. The owner of a claim is a process of that run, under the token of the claim. */
  ghost predicate Tracked(s: State) {
    && (forall key :: key in s.active ==> Supervises(s, key))
    && (forall pid :: pid in s.processes && s.processes[pid].pc == Running ==> IsActive(s, pid))
    && (forall run :: run in s.entries ==> IsOwned(s, run))
  }

  predicate Supervises(s: State, key: (RunnerId, RunId))
    requires key in s.active
  {
    var pid := s.active[key];
    pid in s.processes && (s.processes[pid].runner, s.processes[pid].run) == key && Supervised(s.processes[pid].pc)
  }

  predicate IsActive(s: State, pid: Pid)
    requires pid in s.processes
  {
    var key := (s.processes[pid].runner, s.processes[pid].run);
    key in s.active && s.active[key] == pid
  }

  predicate IsOwned(s: State, run: RunId)
    requires run in s.entries
  {
    var pid := s.entries[run].owner;
    pid in s.processes && s.processes[pid].run == run && s.processes[pid].token == s.entries[run].token
  }

  /** Two processes that have launched a run are one. */
  lemma OneLauncher(s: State, hash: Token -> nat, pid: Pid, other: Pid)
    requires Inv(s, hash) && pid in s.processes && other in s.processes && s.processes[pid].run == s.processes[other].run
    requires HoldsClaim(s.processes[pid].pc) && HoldsClaim(s.processes[other].pc)
    ensures pid == other
  {
    assert ProcessOk(pid, s.processes[pid], EntryOf(s, s.processes[pid].run), s.launches[s.processes[pid].run], hash);
    assert ProcessOk(other, s.processes[other], EntryOf(s, s.processes[other].run), s.launches[s.processes[other].run], hash);
  }

  /** A step changes one process, and in the active map at most its place. */
  lemma TrackedFrame(s: State, s': State, pid: Pid)
    requires Tracked(s) && pid in s'.processes
    requires forall q :: q in s.processes ==> q in s'.processes && s'.processes[q].(pc := Dead) == s.processes[q].(pc := Dead)
    requires forall q :: q in s'.processes && q != pid ==> q in s.processes && s'.processes[q] == s.processes[q]
    requires forall key :: key in s'.active && s'.active[key] != pid ==> key in s.active && s.active[key] == s'.active[key]
    requires forall key :: key in s.active && s.active[key] != pid ==> key in s'.active && s'.active[key] == s.active[key]
    requires forall key :: key in s'.active && s'.active[key] == pid ==> Supervises(s', key)
    requires s'.processes[pid].pc == Running ==> IsActive(s', pid)
    requires forall run :: run in s'.entries ==>
               (run in s.entries && s'.entries[run].owner == s.entries[run].owner && s'.entries[run].token == s.entries[run].token) || IsOwned(s', run)
    ensures Tracked(s')
  {
    forall key | key in s'.active && s'.active[key] != pid ensures Supervises(s', key) { assert Supervises(s, key); }
    forall q | q in s'.processes && s'.processes[q].pc == Running && q != pid ensures IsActive(s', q) { assert IsActive(s, q); }
    forall run | run in s'.entries ensures IsOwned(s', run) {
      if run in s.entries {
        assert IsOwned(s, run);
      }
    }
  }

  /** A process that is not supervised is not in the active map. */
  lemma NotActive(s: State, pid: Pid)
    requires Tracked(s) && (pid in s.processes ==> !Supervised(s.processes[pid].pc))
    ensures forall key :: key in s.active ==> s.active[key] != pid
  {
    forall key | key in s.active
      ensures s.active[key] != pid
    {
      assert Supervises(s, key);
    }
  }

  lemma EarlyKeepsTracked(s: State, hash: Token -> nat, a: Action)
    requires Tracked(s) && Enabled(s, a) && (a.Call? || a.FirstCheck? || a.PrepareFails? || a.SecondCheck?)
    ensures Tracked(Next(s, a, hash))
  {
    NotActive(s, a.pid);
    TrackedFrame(s, Next(s, a, hash), a.pid);
  }

  lemma ClaimKeepsTracked(s: State, hash: Token -> nat, a: Action)
    requires Tracked(s) && Enabled(s, a) && (a.CreateClaim? || a.WriteClaim?)
    ensures Tracked(Next(s, a, hash))
  {
    NotActive(s, a.pid);
    TrackedFrame(s, Next(s, a, hash), a.pid);
  }

  lemma LaunchKeepsTracked(s: State, hash: Token -> nat, a: Action)
    requires Inv(s, hash) && Tracked(s) && Enabled(s, a) && a.Launch?
    ensures Tracked(Next(s, a, hash))
  {
    NotActive(s, a.pid);
    if a.ok {
      FreeKey(s, hash, a.pid);
      LaunchedKeepsTracked(s, hash, a);
    } else {
      FailedLaunchKeepsTracked(s, hash, a);
    }
  }

  lemma FailedLaunchKeepsTracked(s: State, hash: Token -> nat, a: Action)
    requires Tracked(s) && Enabled(s, a) && a.Launch? && !a.ok
    requires forall key :: key in s.active ==> s.active[key] != a.pid
    ensures Tracked(Next(s, a, hash))
  {
    TrackedFrame(s, Next(s, a, hash), a.pid);
  }

  /** Nobody is active for a run that is about to be launched. */
  lemma FreeKey(s: State, hash: Token -> nat, pid: Pid)
    requires Inv(s, hash) && Tracked(s) && pid in s.processes && s.processes[pid].pc == Claimed
    ensures (s.processes[pid].runner, s.processes[pid].run) !in s.active
  {
    var key := (s.processes[pid].runner, s.processes[pid].run);
    if key in s.active {
      assert Supervises(s, key);
      OneLauncher(s, hash, pid, s.active[key]);
    }
  }

  lemma LaunchedKeepsTracked(s: State, hash: Token -> nat, a: Action)
    requires Tracked(s) && Enabled(s, a) && a.Launch? && a.ok
    requires (s.processes[a.pid].runner, s.processes[a.pid].run) !in s.active
    requires forall key :: key in s.active ==> s.active[key] != a.pid
    ensures Tracked(Next(s, a, hash))
  {
    TrackedFrame(s, Next(s, a, hash), a.pid);
  }

  /** The key under which a process is active is its own. */
  lemma OwnKey(s: State, pid: Pid, key: (RunnerId, RunId))
    requires Tracked(s) && key in s.active && s.active[key] == pid
    ensures pid in s.processes && key == (s.processes[pid].runner, s.processes[pid].run)
  {
    assert Supervises(s, key);
  }

  lemma OwnKeys(s: State, pid: Pid)
    requires Tracked(s) && pid in s.processes
    ensures forall key :: key in s.active && s.active[key] == pid ==> key == (s.processes[pid].runner, s.processes[pid].run)
  {
    forall key | key in s.active && s.active[key] == pid
      ensures key == (s.processes[pid].runner, s.processes[pid].run)
    {
      OwnKey(s, pid, key);
    }
  }

  lemma FinishKeepsTracked(s: State, hash: Token -> nat, a: Action)
    requires Tracked(s) && Enabled(s, a) && a.Finish?
    ensures Tracked(Next(s, a, hash))
  {
    OwnKeys(s, a.pid);
    TrackedFrame(s, Next(s, a, hash), a.pid);
  }

  lemma CreateResultKeepsTracked(s: State, hash: Token -> nat, a: Action)
    requires Tracked(s) && Enabled(s, a) && a.CreateResult?
    ensures Tracked(Next(s, a, hash))
  {
    OwnKeys(s, a.pid);
    TrackedFrame(s, Next(s, a, hash), a.pid);
  }

  lemma WriteResultKeepsTracked(s: State, hash: Token -> nat, a: Action)
    requires Tracked(s) && Enabled(s, a) && a.WriteResult?
    ensures Tracked(Next(s, a, hash))
  {
    OwnKeys(s, a.pid);
    TrackedFrame(s, Next(s, a, hash), a.pid);
  }

  lemma CrashKeepsTracked(s: State, hash: Token -> nat, a: Action)
    requires Tracked(s) && Enabled(s, a) && a.CrashRunner?
    ensures Tracked(Next(s, a, hash))
  {
    var s' := Next(s, a, hash);
    forall key | key in s'.active ensures Supervises(s', key) { assert Supervises(s, key); }
    forall q | q in s'.processes && s'.processes[q].pc == Running ensures IsActive(s', q) { assert IsActive(s, q); }
    forall run | run in s'.entries ensures IsOwned(s', run) { assert IsOwned(s, run); }
  }

  lemma StepKeepsTracked(s: State, hash: Token -> nat, a: Action)
    requires Inv(s, hash) && Tracked(s) && Enabled(s, a)
    ensures Tracked(Next(s, a, hash))
  {
    match a
    case Call(_, _, _, _) => EarlyKeepsTracked(s, hash, a);
    case FirstCheck(_) => EarlyKeepsTracked(s, hash, a);
    case PrepareFails(_) => EarlyKeepsTracked(s, hash, a);
    case SecondCheck(_) => EarlyKeepsTracked(s, hash, a);
    case CreateClaim(_, _) => ClaimKeepsTracked(s, hash, a);
    case WriteClaim(_, _, _) => ClaimKeepsTracked(s, hash, a);
    case Launch(_, _, _) => LaunchKeepsTracked(s, hash, a);
    case Finish(_, _, _) => FinishKeepsTracked(s, hash, a);
    case CreateResult(_, _) => CreateResultKeepsTracked(s, hash, a);
    case WriteResult(_, _) => WriteResultKeepsTracked(s, hash, a);
    case CrashRunner(_) => CrashKeepsTracked(s, hash, a);
  }

  lemma {:induction false} RunKeepsTracked(ss: seq<State>, hash: Token -> nat, i: nat)
    requires IsRun(ss, hash) && i < |ss|
    ensures Inv(ss[i], hash) && Tracked(ss[i])
  {
    RunKeepsInv(ss, hash, i);
    if i > 0 {
      RunKeepsTracked(ss, hash, i - 1);
      assert Step(ss[i - 1], ss[i - 1 + 1], hash);
      var a :| Enabled(ss[i - 1], a) && ss[i] == Next(ss[i - 1], a, hash);
      StepKeepsTracked(ss[i - 1], hash, a);
    }
  }

  /** What the check at the head of a critical section of `Start` makes of a call in any reachable state. If its
      runner has the run in hand, the token decides between two refusals. If not, and the run is claimed, the call
      replays the recorded outcome exactly if the claim and the result are complete and the token is the claim's; it
      is refused exactly if the claim is complete and under another token; it is uncertain exactly if the claim is
      torn, or the token is right and the result is missing or torn. If the run is not claimed, the call goes on. */
  lemma ChecksAnswer(ss: seq<State>, hash: Token -> nat, i: nat, a: Action)
    requires IsRun(ss, hash) && i < |ss| && Enabled(ss[i], a) && (a.FirstCheck? || a.SecondCheck?)
    ensures var s, s' := ss[i], Next(ss[i], a, hash);
      var p, pc := s.processes[a.pid], s'.processes[a.pid].pc;
      && s' == Move(s, a.pid, pc)
      && Answers(s, p, hash, pc)
      && ((p.runner, p.run) !in s.active && p.run !in s.entries ==> pc == if a.FirstCheck? then Checked else Rechecked)
  {
    RunKeepsTracked(ss, hash, i);
    CheckAnswers(ss[i], ss[i].processes[a.pid], hash, if a.FirstCheck? then Checked else Rechecked);
  }

  lemma CheckAnswers(s: State, p: Process, hash: Token -> nat, next: Pc)
    requires Inv(s, hash) && Tracked(s) && (next == Checked || next == Rechecked)
    ensures Answers(s, p, hash, match Check(s, p, hash) case Some(answer) => Ended(answer) case None => next)
    ensures (p.runner, p.run) !in s.active && p.run !in s.entries <==> Check(s, p, hash).None?
  {
    assert EntryOk(p.run, EntryOf(s, p.run), s.launches[p.run], hash);
    if (p.runner, p.run) in s.active {
      assert Supervises(s, (p.runner, p.run));
    }
  }

  predicate Answers(s: State, p: Process, hash: Token -> nat, pc: Pc) {
    var key := (p.runner, p.run);
    if key in s.active then
      && s.active[key] in s.processes && Supervised(s.processes[s.active[key]].pc)
      && (pc == Ended(AlreadyActive) <==> s.processes[s.active[key]].token == p.token)
      && (pc == Ended(TokenMismatch) <==> s.processes[s.active[key]].token != p.token)
    else if p.run in s.entries then
      var e := s.entries[p.run];
      var same := hash(e.token) == hash(p.token);
      var complete := e.result.Some? && e.result.value.Complete?;
      && (pc.Ended? && pc.answer.Replayed? <==> e.claim.Complete? && same && complete)
      && (pc.Ended? && pc.answer.Replayed? ==> e.outcome == Some(pc.answer.events))
      && (pc == Ended(TokenMismatch) <==> e.claim.Complete? && !same)
      && (pc == Ended(Uncertain) <==> e.claim.Torn? || (same && !complete))
    else true
  }

  /** Complete records are never revised, and a call that has ended has ended. */
  lemma StepKeepsRecords(s: State, hash: Token -> nat, a: Action, run: RunId)
    requires Inv(s, hash) && Enabled(s, a) && run in s.entries
    ensures var e, s' := s.entries[run], Next(s, a, hash);
      && run in s'.entries
      && (e.claim.Complete? ==> s'.entries[run].claim == e.claim)
      && (e.result.Some? && e.result.value.Complete? ==> s'.entries[run].result == e.result)
  {
    assert EntryOk(run, EntryOf(s, run), s.launches[run], hash);
    if !a.Call? && !a.CrashRunner? {
      var p := s.processes[a.pid];
      assert ProcessOk(a.pid, p, EntryOf(s, p.run), s.launches[p.run], hash);
    }
  }

  lemma StepKeepsEnded(s: State, hash: Token -> nat, a: Action, pid: Pid)
    requires Enabled(s, a) && pid in s.processes && s.processes[pid].pc.Ended?
    ensures pid in Next(s, a, hash).processes && Next(s, a, hash).processes[pid] == s.processes[pid]
  {
  }

  lemma {:induction false} RecordsStay(ss: seq<State>, hash: Token -> nat, i: nat, j: nat, run: RunId, pid: Pid)
    requires IsRun(ss, hash) && i <= j < |ss| && run in ss[i].entries && pid in ss[i].processes && ss[i].processes[pid].pc.Ended?
    ensures var e := ss[i].entries[run];
      && run in ss[j].entries && pid in ss[j].processes && ss[j].processes[pid] == ss[i].processes[pid]
      && (e.claim.Complete? ==> ss[j].entries[run].claim == e.claim)
      && (e.result.Some? && e.result.value.Complete? ==> ss[j].entries[run].result == e.result)
    decreases j - i
  {
    if i < j {
      RunKeepsInv(ss, hash, i);
      assert Step(ss[i], ss[i + 1], hash);
      var a :| Enabled(ss[i], a) && ss[i + 1] == Next(ss[i], a, hash);
      StepKeepsRecords(ss[i], hash, a, run);
      StepKeepsEnded(ss[i], hash, a, pid);
      RecordsStay(ss, hash, i + 1, j, run, pid);
    }
  }

  /** Once a launch has its result saved, nobody has the run in hand. */
  lemma NobodyActive(ss: seq<State>, hash: Token -> nat, j: nat, pid: Pid, runner: RunnerId)
    requires IsRun(ss, hash) && j < |ss| && pid in ss[j].processes && ss[j].processes[pid].pc == Ended(Launched)
    ensures (runner, ss[j].processes[pid].run) !in ss[j].active
  {
    var key := (runner, ss[j].processes[pid].run);
    RunKeepsTracked(ss, hash, j);
    if key in ss[j].active {
      assert Supervises(ss[j], key);
      OneLauncher(ss[j], hash, pid, ss[j].active[key]);
    }
  }

  /** Once a launch has saved its result, every later call for the run, from whichever runner, after whatever crashes,
      is told the very events that were saved if it comes with the same token, and is refused otherwise. */
  lemma SavedIsReplayed(ss: seq<State>, hash: Token -> nat, i: nat, save: Action, j: nat, a: Action)
    requires IsRun(ss, hash) && i < j < |ss| && SavesAt(ss, hash, i, save)
    requires Enabled(ss[j], a) && (a.FirstCheck? || a.SecondCheck?) && ss[j].processes[a.pid].run == ss[i].processes[save.pid].run
    ensures
      var saved, asks := ss[i].processes[save.pid], ss[j].processes[a.pid];
      Next(ss[j], a, hash).processes[a.pid].pc ==
      Ended(if hash(asks.token) == hash(saved.token) then Replayed(saved.pc.events) else TokenMismatch)
  {
    var saved, asks := ss[i].processes[save.pid], ss[j].processes[a.pid];
    var next := i + 1;
    AfterSave(ss, hash, i, save, next);
    StaysSaved(ss, hash, next, j, save.pid, saved.token, saved.pc.events);
    SavedIsTold(ss, hash, j, a, save.pid, saved.token, saved.pc.events);
  }

  lemma StaysSaved(ss: seq<State>, hash: Token -> nat, i: nat, j: nat, pid: Pid, token: Token, events: seq<Event>)
    requires IsRun(ss, hash) && i <= j < |ss| && IsSaved(ss[i], pid, token, events)
    ensures IsSaved(ss[j], pid, token, events) && ss[j].processes[pid].run == ss[i].processes[pid].run
  {
    RecordsStay(ss, hash, i, j, ss[i].processes[pid].run, pid);
    OutcomeIsStable(ss, hash, i, j, ss[i].processes[pid].run);
  }

  lemma SavedIsTold(ss: seq<State>, hash: Token -> nat, j: nat, a: Action, pid: Pid, token: Token, events: seq<Event>)
    requires IsRun(ss, hash) && j < |ss| && IsSaved(ss[j], pid, token, events)
    requires Enabled(ss[j], a) && (a.FirstCheck? || a.SecondCheck?) && ss[j].processes[a.pid].run == ss[j].processes[pid].run
    ensures
      var asks := ss[j].processes[a.pid];
      Next(ss[j], a, hash).processes[a.pid].pc == Ended(if hash(asks.token) == hash(token) then Replayed(events) else TokenMismatch)
  {
    var asks := ss[j].processes[a.pid];
    NobodyActive(ss, hash, j, pid, asks.runner);
    ChecksAnswer(ss, hash, j, a);
    SavedAnswers(ss[j], asks, hash, Next(ss[j], a, hash).processes[a.pid].pc, token, events);
  }

  /** The process has launched its run, saved its result, and ended. */
  predicate IsSaved(s: State, pid: Pid, token: Token, events: seq<Event>) {
    && pid in s.processes && s.processes[pid].pc == Ended(Launched)
    && s.processes[pid].run in s.entries && Saved(s.entries[s.processes[pid].run], token, events)
  }

  /** The `i`th step saves the result of a launch. */
  predicate SavesAt(ss: seq<State>, hash: Token -> nat, i: nat, save: Action)
    requires i < |ss| - 1
  {
    Enabled(ss[i], save) && save.WriteResult? && save.written && ss[i + 1] == Next(ss[i], save, hash)
  }

  lemma AfterSave(ss: seq<State>, hash: Token -> nat, i: nat, save: Action, next: nat)
    requires IsRun(ss, hash) && next == i + 1 < |ss| && SavesAt(ss, hash, i, save)
    ensures
      var p := ss[i].processes[save.pid];
      IsSaved(ss[next], save.pid, p.token, p.pc.events) && ss[next].processes[save.pid].run == p.run
  {
    RunKeepsInv(ss, hash, i);
    SavesResult(ss[i], hash, save);
  }

  lemma SavesResult(s: State, hash: Token -> nat, save: Action)
    requires Inv(s, hash) && Enabled(s, save) && save.WriteResult? && save.written
    ensures var p, s' := s.processes[save.pid], Next(s, save, hash);
      IsSaved(s', save.pid, p.token, p.pc.events) && s'.processes[save.pid].run == p.run
  {
    var p := s.processes[save.pid];
    assert ProcessOk(save.pid, p, EntryOf(s, p.run), s.launches[p.run], hash);
  }

  predicate Saved(e: Entry, token: Token, events: seq<Event>) {
    e.claim.Complete? && e.result.Some? && e.result.value.Complete? && e.token == token && e.outcome == Some(events)
  }

  lemma SavedAnswers(s: State, p: Process, hash: Token -> nat, pc: Pc, token: Token, events: seq<Event>)
    requires Answers(s, p, hash, pc) && (p.runner, p.run) !in s.active && p.run in s.entries && Saved(s.entries[p.run], token, events)
    ensures pc == Ended(if hash(p.token) == hash(token) then Replayed(events) else TokenMismatch)
  {
  }

  /** No two steps of a run call the launcher for the same run identifier. */
  lemma NoSecondLaunch(ss: seq<State>, hash: Token -> nat, i: nat, a: Action, j: nat, b: Action)
    requires IsRun(ss, hash) && i < j < |ss| && Enabled(ss[i], a) && a.Launch? && ss[i + 1] == Next(ss[i], a, hash)
    requires Enabled(ss[j], b) && b.Launch?
    ensures ss[i].processes[a.pid].run != ss[j].processes[b.pid].run
  {
    var p, q := ss[i].processes[a.pid], ss[j].processes[b.pid];
    LaunchesGrow(ss, hash, i + 1, j, p.run);
    RunKeepsInv(ss, hash, j);
    assert ProcessOk(b.pid, q, EntryOf(ss[j], q.run), ss[j].launches[q.run], hash);
  }

  lemma {:induction false} LaunchesGrow(ss: seq<State>, hash: Token -> nat, i: nat, j: nat, run: RunId)
    requires IsRun(ss, hash) && i <= j < |ss|
    ensures ss[i].launches[run] <= ss[j].launches[run]
    decreases j - i
  {
    if i < j {
      assert Step(ss[i], ss[i + 1], hash);
      LaunchesGrow(ss, hash, i + 1, j, run);
    }
  }

  /** Once a run is claimed, no later check finds it free, whichever runner makes it. */
  lemma ClaimedIsNeverFree(ss: seq<State>, hash: Token -> nat, i: nat, j: nat, p: Process)
    requires IsRun(ss, hash) && i <= j < |ss| && p.run in ss[i].entries
    ensures Check(ss[j], p, hash).Some?
  {
    OutcomeIsStable(ss, hash, i, j, p.run);
  }

  // ---------------------------------------------------------------------------------------------
  // What one call comes to
  // ---------------------------------------------------------------------------------------------

  /** The steps of one call and its supervision that nothing disturbs: the launch fails at `at`, or succeeds and ends with
      `last`. */
  function Course(pid: Pid, ok: bool, at: nat, last: Event): seq<Action> {
    [FirstCheck(pid), SecondCheck(pid), CreateClaim(pid, true), WriteClaim(pid, true, true), Launch(pid, ok, at)]
    + (if ok then [Finish(pid, at, last)] else [])
    + [CreateResult(pid, true), WriteResult(pid, true)]
  }

  /** The state after a sequence of actions, if each is enabled in its turn. */
  function After(s: State, actions: seq<Action>, hash: Token -> nat): Option<State>
    decreases |actions|
  {
    if actions == [] then Some(s)
    else if !Enabled(s, actions[0]) then None
    else After(Next(s, actions[0], hash), actions[1..], hash)
  }

  lemma {:induction false} AfterBoth(s: State, first: seq<Action>, more: seq<Action>, hash: Token -> nat)
    requires After(s, first, hash).Some?
    ensures After(s, first + more, hash) == After(After(s, first, hash).value, more, hash)
    decreases |first|
  {
    if first == [] {
      assert first + more == more;
    } else {
      AfterBoth(Next(s, first[0], hash), first[1..], more, hash);
      assert (first + more)[1..] == first[1..] + more;
    }
  }

  /** A process that has claimed a run that nobody else has claimed or has in hand. */
  predicate IsClaimed(s: State, s': State, pid: Pid, hash: Token -> nat)
    requires pid in s.processes
  {
    var p := s.processes[pid];
    s' == s.(processes := s.processes[pid := p.(pc := Claimed)],
             entries := s.entries[p.run := Entry(Complete(p.run, hash(p.token), []), None, pid, p.token, None)])
  }

  lemma Claims(s: State, pid: Pid, hash: Token -> nat)
    requires pid in s.processes && s.processes[pid].pc == Entered
    requires s.processes[pid].run !in s.entries && (s.processes[pid].runner, s.processes[pid].run) !in s.active
    ensures
      var first := [FirstCheck(pid), SecondCheck(pid), CreateClaim(pid, true), WriteClaim(pid, true, true)];
      After(s, first, hash).Some? && IsClaimed(s, After(s, first, hash).value, pid, hash)
  {
    var p := s.processes[pid];
    var s1 := Next(s, FirstCheck(pid), hash);
    assert s1 == Move(s, pid, Checked);
    var s2 := Next(s1, SecondCheck(pid), hash);
    assert s2 == Move(s1, pid, Rechecked);
    var s3 := Next(s2, CreateClaim(pid, true), hash);
    var s4 := Next(s3, WriteClaim(pid, true, true), hash);
    AfterFour(s, s1, s2, s3, s4, FirstCheck(pid), SecondCheck(pid), CreateClaim(pid, true), WriteClaim(pid, true, true), hash);
  }

  lemma AfterFour(s: State, s1: State, s2: State, s3: State, s4: State, a: Action, b: Action, c: Action, d: Action, hash: Token -> nat)
    requires Enabled(s, a) && s1 == Next(s, a, hash) && Enabled(s1, b) && s2 == Next(s1, b, hash)
    requires Enabled(s2, c) && s3 == Next(s2, c, hash) && Enabled(s3, d) && s4 == Next(s3, d, hash)
    ensures After(s, [a, b, c, d], hash) == Some(s4)
  {
    AfterOne(s3, d, [], hash);
    AfterOne(s2, c, [d], hash);
    AfterOne(s1, b, [c, d], hash);
    AfterOne(s, a, [b, c, d], hash);
  }

  lemma AfterOne(s: State, a: Action, rest: seq<Action>, hash: Token -> nat)
    requires Enabled(s, a)
    ensures After(s, [a] + rest, hash) == After(Next(s, a, hash), rest, hash)
  {
    assert ([a] + rest)[1..] == rest;
  }

  /** The records and the state after a launch that has ended with these events. */
  predicate IsDone(s: State, s': State, pid: Pid, events: seq<Event>, hash: Token -> nat)
    requires pid in s.processes
  {
    var p := s.processes[pid];
    s' == State(
      s.entries[p.run := Entry(Complete(p.run, hash(p.token), []), Some(Complete(p.run, hash(p.token), events)), pid, p.token, Some(events))],
      s.processes[pid := p.(pc := Ended(Launched))], s.active, s.launches + multiset{p.run})
  }

  /** The launch has ended with these events, and they are still to be saved. */
  predicate IsFinished(s: State, s': State, pid: Pid, events: seq<Event>, inHand: bool, hash: Token -> nat)
    requires pid in s.processes
  {
    var p := s.processes[pid];
    s' == State(
      s.entries[p.run := Entry(Complete(p.run, hash(p.token), []), None, pid, p.token, Some(events))],
      s.processes[pid := p.(pc := Finished(events))],
      if inHand then s.active[(p.runner, p.run) := pid] else s.active, s.launches + multiset{p.run})
  }

  lemma Saves(s: State, s': State, pid: Pid, events: seq<Event>, inHand: bool, hash: Token -> nat)
    requires pid in s.processes && (s.processes[pid].runner, s.processes[pid].run) !in s.active
    requires IsFinished(s, s', pid, events, inHand, hash)
    ensures
      var more := [CreateResult(pid, true), WriteResult(pid, true)];
      After(s', more, hash).Some? && IsDone(s, After(s', more, hash).value, pid, events, hash)
  {
    var key := (s.processes[pid].runner, s.processes[pid].run);
    var s1 := Next(s', CreateResult(pid, true), hash);
    var s2 := Next(s1, WriteResult(pid, true), hash);
    assert s.active[key := pid] - {key} == s.active;
    AfterOne(s1, WriteResult(pid, true), [], hash);
    AfterOne(s', CreateResult(pid, true), [WriteResult(pid, true)], hash);
  }

  lemma LaunchFails(s: State, s': State, pid: Pid, at: nat, hash: Token -> nat)
    requires pid in s.processes && (s.processes[pid].runner, s.processes[pid].run) !in s.active && IsClaimed(s, s', pid, hash) && at != 0
    ensures
      var more := [Launch(pid, false, at), CreateResult(pid, true), WriteResult(pid, true)];
      After(s', more, hash).Some? && IsDone(s, After(s', more, hash).value, pid, [Event(1, Failed, at, -1)], hash)
  {
    var s1 := Next(s', Launch(pid, false, at), hash);
    Saves(s, s1, pid, [Event(1, Failed, at, -1)], false, hash);
    AfterOne(s', Launch(pid, false, at), [CreateResult(pid, true), WriteResult(pid, true)], hash);
  }

  lemma LaunchEnds(s: State, s': State, pid: Pid, at: nat, last: Event, hash: Token -> nat)
    requires pid in s.processes && (s.processes[pid].runner, s.processes[pid].run) !in s.active && IsClaimed(s, s', pid, hash)
    requires at != 0 && last.at != 0 && last.sequence == 2 && Terminal(last.kind)
    ensures
      var more := [Launch(pid, true, at), Finish(pid, at, last), CreateResult(pid, true), WriteResult(pid, true)];
      After(s', more, hash).Some? && IsDone(s, After(s', more, hash).value, pid, [Event(1, Started, at, 0), last], hash)
  {
    var s1 := Next(s', Launch(pid, true, at), hash);
    var s2 := Next(s1, Finish(pid, at, last), hash);
    Saves(s, s2, pid, [Event(1, Started, at, 0), last], true, hash);
    AfterOne(s1, Finish(pid, at, last), [CreateResult(pid, true), WriteResult(pid, true)], hash);
    AfterOne(s', Launch(pid, true, at), [Finish(pid, at, last), CreateResult(pid, true), WriteResult(pid, true)], hash);
  }

  /** A call for a run that nobody has claimed or has in hand, disturbed by nothing, launches it once and leaves complete
      records: the claim under the token of the call, and as the result exactly the events of the launch, whether it
      failed or ended. Nothing else changes. */
  lemma UndisturbedCall(s: State, pid: Pid, ok: bool, at: nat, last: Event, hash: Token -> nat)
    requires pid in s.processes && s.processes[pid].pc == Entered
    requires s.processes[pid].run !in s.entries && (s.processes[pid].runner, s.processes[pid].run) !in s.active
    requires at != 0 && last.at != 0 && last.sequence == 2 && Terminal(last.kind)
    ensures After(s, Course(pid, ok, at, last), hash).Some?
    ensures
      var events := if ok then [Event(1, Started, at, 0), last] else [Event(1, Failed, at, -1)];
      IsDone(s, After(s, Course(pid, ok, at, last), hash).value, pid, events, hash)
  {
    var first := [FirstCheck(pid), SecondCheck(pid), CreateClaim(pid, true), WriteClaim(pid, true, true)];
    Claims(s, pid, hash);
    var claimed := After(s, first, hash).value;
    if ok {
      var more := [Launch(pid, true, at), Finish(pid, at, last), CreateResult(pid, true), WriteResult(pid, true)];
      LaunchEnds(s, claimed, pid, at, last, hash);
      AfterBoth(s, first, more, hash);
      assert first + more == Course(pid, ok, at, last);
    } else {
      var more := [Launch(pid, false, at), CreateResult(pid, true), WriteResult(pid, true)];
      LaunchFails(s, claimed, pid, at, hash);
      AfterBoth(s, first, more, hash);
      assert first + more == Course(pid, ok, at, last);
    }
  }

  /** What a write that goes wrong leaves. A claim file that cannot be created, because of an error or because another
      process was first, ends the call as uncertain and changes nothing else. An error in writing the claim ends it too,
      whether or not the file is complete. A result that cannot be created or written ends the supervision, and leaves
      what there was. */
  lemma WritesThatFail(s: State, hash: Token -> nat, a: Action)
    requires Enabled(s, a)
    ensures a.CreateClaim? && (!a.ok || s.processes[a.pid].run in s.entries) ==> Next(s, a, hash) == Move(s, a.pid, Ended(Uncertain))
    ensures a.WriteClaim? && !a.ok && !a.written ==> Next(s, a, hash) == Move(s, a.pid, Ended(Uncertain))
    ensures a.WriteClaim? && !a.ok && a.written ==> Next(s, a, hash).processes == Move(s, a.pid, Ended(Uncertain)).processes
    ensures a.WriteClaim? ==>
              var run := s.processes[a.pid].run;
              Next(s, a, hash).entries == if a.written then s.entries[run := s.entries[run].(claim := Complete(run, hash(s.processes[a.pid].token), []))] else s.entries
    ensures (a.CreateResult? && !a.ok) || (a.WriteResult? && !a.written) ==>
              && Next(s, a, hash).entries == s.entries && Next(s, a, hash).launches == s.launches
              && Next(s, a, hash).processes == Move(s, a.pid, Ended(Launched)).processes
  {
  }
}
