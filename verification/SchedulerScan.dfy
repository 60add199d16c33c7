/** One scheduling attempt and the scan (internal/scheduler/service.go). What the stores and the servers answer is
    given with each attempt. */
module SchedulerScan {
  import opened Common
  import opened Scheduler

  datatype Lease = Lease(run: Id, server: Server)

  /** What happens to one ranked candidate: no reservation; an error; or a reservation, and then the assignment
      fails, is lost to somebody else, or succeeds. After the first two the lease is released, which may fail
      unnoticed. */
  datatype Try =
    | NotReserved(server: Server) | ReserveError(server: Server)
    | AssignError(server: Server, released: bool) | AssignLost(server: Server, released: bool) | AssignDone(server: Server)
  {
    /** The reservation is still there afterwards. */
    predicate Holds() {
      AssignDone? || ((AssignError? || AssignLost?) && !released)
    }
  }

  datatype Answer = Yes | No | Error

  /** The answers that one attempt gets. `withdrawn` are runs that others take out of the queued state before it. */
  datatype Attempt = Attempt(
    now: Time, withdrawn: set<Id>, getFails: bool, expire: Answer, alertFails: bool,
    active: Option<nat>, snapshotsFail: bool, tries: seq<Try>, reasonFails: bool)

  datatype Outcome = OutcomeAssigned | OutcomeQueued | OutcomeExpired

  /** What an attempt comes to. `leaked` is a server whose reservation could not be released. */
  datatype Decision =
    | Stop(outcome: Outcome, failed: bool, leaked: Option<Server>)
    | ExpireIt(failed: bool) | PushBack(failed: bool) | AssignTo(server: Server)
  {
    predicate Fails() {
      !AssignTo? && failed
    }

    /** The server on which a reservation remains. */
    function Held(): Option<Server> {
      match this
      case Stop(_, _, leaked) => leaked
      case AssignTo(server) => Some(server)
      case _ => None
    }
  }

  /** The first candidate that is not simply passed over settles the matter. */
  function Settle(tries: seq<Try>): Option<Try> {
    if tries == [] then None
    else if tries[0].NotReserved? then Settle(tries[1..])
    else Some(tries[0])
  }

  predicate Overdue(run: Run, now: Time) {
    run.maxWait > 0 && now >= run.queuedAt + run.maxWait
  }

  predicate AtCapacity(run: Run, active: nat) {
    run.maxConcurrency > 0 && active >= run.maxConcurrency
  }

  function Decide(run: Option<Run>, a: Attempt): Decision {
    if a.getFails || run.None? then Stop(OutcomeQueued, true, None)
    else if run.value.state != Queued then Stop(if run.value.state == Expired then OutcomeExpired else OutcomeQueued, false, None)
    else if a.now < run.value.queuedAt then Stop(OutcomeQueued, false, None)
    else if Overdue(run.value, a.now) && a.expire == Error then Stop(OutcomeQueued, true, None)
    else if Overdue(run.value, a.now) && a.expire == Yes then ExpireIt(a.alertFails)
    else DecidePlace(run.value, a)
  }

  /** The decision on a run that is due and not expired. */
  function DecidePlace(run: Run, a: Attempt): Decision {
    if a.active.None? then Stop(OutcomeQueued, true, None)
    else if AtCapacity(run, a.active.value) then PushBack(a.reasonFails)
    else if a.snapshotsFail then Stop(OutcomeQueued, true, None)
    else
      match Settle(a.tries)
      case None => PushBack(a.reasonFails)
      case Some(AssignDone(server)) => AssignTo(server)
      case Some(t) => Stop(OutcomeQueued, !t.AssignLost?, if t.Holds() then Some(t.server) else None)
  }

  /** The run waits its turn: it is queued, and due. */
  predicate Due(run: Run, a: Attempt) {
    run.state == Queued && run.queuedAt <= a.now
  }

  /** What is decided when every lookup goes through. A run is expired exactly if it is due, has waited as long as it may,
      and nobody else has taken it. If it is due and not expired, it is pushed back exactly if its task is at its limit
      or no server has room; and it goes to the first server that has room, exactly if it can be assigned there. */
  lemma DecidesIff(run: Run, a: Attempt)
    requires !a.getFails && a.active.Some? && !a.snapshotsFail && a.expire != Error
    ensures
      var d := Decide(Some(run), a);
      var expired := run.maxWait > 0 && a.now - run.queuedAt >= run.maxWait && a.expire == Yes;
      var full := run.maxConcurrency > 0 && a.active.value >= run.maxConcurrency;
      && (d.ExpireIt? <==> Due(run, a) && expired)
      && (d.PushBack? <==> Due(run, a) && !expired && (full || forall t :: t in a.tries ==> t.NotReserved?))
      && (forall server :: d == AssignTo(server) <==> Due(run, a) && !expired && !full && FirstRoom(a.tries, AssignDone(server)))
  {
    SettleIff(a.tries);
    forall t
      ensures Settle(a.tries) == Some(t) <==> FirstRoom(a.tries, t)
    {
      SettleFirst(a.tries, t);
    }
  }

  /** Every other course of an attempt. It reports an error exactly if a lookup that it needs, the expiry, the reservation
      or the assignment fails; a run that others have expired counts as expired; and a server stays reserved exactly if a
      reservation was not used and could not be released. */
  lemma StopsIff(run: Option<Run>, a: Attempt)
    ensures
      var d := Decide(run, a);
      && (a.getFails || run.None? ==> d == Stop(OutcomeQueued, true, None))
      && (!a.getFails && run.Some? && !Due(run.value, a) ==>
            d == Stop(if run.value.state == Expired then OutcomeExpired else OutcomeQueued, false, None))
    ensures !a.getFails && run.Some? && Due(run.value, a) ==>
            PlaceStops(run.value, a, run.value.maxWait > 0 && a.now - run.value.queuedAt >= run.value.maxWait, Decide(run, a))
  {
    forall t
      ensures Settle(a.tries) == Some(t) <==> FirstRoom(a.tries, t)
    {
      SettleFirst(a.tries, t);
    }
  }

  ghost predicate PlaceStops(run: Run, a: Attempt, overdue: bool, d: Decision) {
    var full := a.active.Some? && run.maxConcurrency > 0 && a.active.value >= run.maxConcurrency;
    && (overdue && a.expire == Error ==> d == Stop(OutcomeQueued, true, None))
    && (!(overdue && a.expire != No) && a.active.None? ==> d == Stop(OutcomeQueued, true, None))
    && (!(overdue && a.expire != No) && a.active.Some? && !full && a.snapshotsFail ==> d == Stop(OutcomeQueued, true, None))
    && (!(overdue && a.expire != No) && a.active.Some? && !full && !a.snapshotsFail ==>
          && (forall server :: FirstRoom(a.tries, ReserveError(server)) ==> d == Stop(OutcomeQueued, true, None))
          && (forall server, released :: FirstRoom(a.tries, AssignError(server, released)) ==>
                d == Stop(OutcomeQueued, true, if released then None else Some(server)))
          && (forall server, released :: FirstRoom(a.tries, AssignLost(server, released)) ==>
                d == Stop(OutcomeQueued, false, if released then None else Some(server))))
  }

  /** Runs that others withdraw are no longer queued; nothing else changes. */
  lemma WithdrawIs(store: map<Id, Run>, ids: set<Id>, id: Id)
    requires id in store
    ensures Withdraw(store, ids).Keys == store.Keys
    ensures
      var run' := Withdraw(store, ids)[id];
      if id in ids && store[id].state == Queued then run'.state == Other && run' == store[id].(state := Other) else run' == store[id]
  {
  }

  /** The first try that was not simply passed over. */
  ghost predicate FirstRoom(tries: seq<Try>, t: Try) {
    exists k :: 0 <= k < |tries| && tries[k] == t && !t.NotReserved? && forall l :: 0 <= l < k ==> tries[l].NotReserved?
  }

  lemma {:induction false} SettleFirst(tries: seq<Try>, t: Try)
    ensures Settle(tries) == Some(t) <==> FirstRoom(tries, t)
    decreases |tries|
  {
    if tries != [] {
      var rest := tries[1..];
      SettleFirst(rest, t);
      if FirstRoom(rest, t) && tries[0].NotReserved? {
        var k :| 0 <= k < |rest| && rest[k] == t && !t.NotReserved? && forall l :: 0 <= l < k ==> rest[l].NotReserved?;
        assert tries[k + 1] == t;
        assert forall l :: 0 <= l < k + 1 ==> tries[l] == if l == 0 then tries[0] else rest[l - 1];
      }
      if FirstRoom(tries, t) && tries[0].NotReserved? {
        var k :| 0 <= k < |tries| && tries[k] == t && !t.NotReserved? && forall l :: 0 <= l < k ==> tries[l].NotReserved?;
        assert rest[k - 1] == t;
        assert forall l :: 0 <= l < k - 1 ==> rest[l] == tries[l + 1];
      }
    }
  }

  lemma {:induction false} SettleIff(tries: seq<Try>)
    ensures Settle(tries).None? <==> forall t :: t in tries ==> t.NotReserved?
    ensures Settle(tries).Some? ==> !Settle(tries).value.NotReserved?
    decreases |tries|
  {
    if tries != [] {
      SettleIff(tries[1..]);
      assert tries == [tries[0]] + tries[1..];
    }
  }

  function OutcomeOf(d: Decision): Outcome {
    match d
    case Stop(outcome, _, _) => outcome
    case ExpireIt(_) => OutcomeExpired
    case PushBack(_) => OutcomeQueued
    case AssignTo(_) => OutcomeAssigned
  }

  function Lookup(store: map<Id, Run>, id: Id): Option<Run> {
    if id in store then Some(store[id]) else None
  }

  /** The store after an attempt. */
  function Settled(store: map<Id, Run>, id: Id, d: Decision): map<Id, Run> {
    if id !in store then store
    else if d.AssignTo? then store[id := store[id].(state := Assigned)]
    else if d.ExpireIt? then store[id := store[id].(state := Expired)]
    else store
  }

  /** The runs `ids` leave the queued state by other hands. */
  function Withdraw(store: map<Id, Run>, ids: set<Id>): map<Id, Run> {
    map id | id in store :: if id in ids && store[id].state == Queued then store[id].(state := Other) else store[id]
  }

  /** For runs still queued, queue and store agree. */
  predicate Synced(items: map<Id, Run>, store: map<Id, Run>) {
    forall id :: id in items && id in store && store[id].state == Queued ==> items[id] == store[id]
  }

  class Service {
    const queue: Queue
    var store: map<Id, Run>
    var leases: multiset<Lease>

    ghost predicate Valid()
      reads this, queue
    {
      queue.Valid() && Keyed(store)
    }

    constructor (store: map<Id, Run>)
      requires Keyed(store)
      ensures Valid() && fresh(queue) && queue.items == map[] && this.store == store && leases == multiset{}
    {
      queue := new Queue();
      this.store := store;
      leases := multiset{};
    }

    /** Reserves candidate after candidate until one settles the matter. A reservation outlives the call exactly
        with an assignment or a failed release. */
    method TryCandidates(id: Id, tries: seq<Try>) returns (settled: Option<Try>)
      modifies this`leases
      ensures settled == Settle(tries)
      ensures leases == if settled.Some? && settled.value.Holds() then old(leases) + multiset{Lease(id, settled.value.server)} else old(leases)
    {
      for k := 0 to |tries|
        invariant leases == old(leases) && Settle(tries) == Settle(tries[k..])
      {
        var t := tries[k];
        assert tries[k..][1..] == tries[k + 1..];
        if t.NotReserved? {
          continue;
        }
        if t.ReserveError? {
          return Some(t);
        }
        var lease := Lease(id, t.server);
        leases := leases + multiset{lease};
        if !t.AssignDone? && t.released {
          leases := leases - multiset{lease};
        }
        return Some(t);
      }
      return None;
    }

    /** What an attempt leaves behind, given the decision it comes to. */
    twostate predicate CarriesOut(id: Id, d: Decision)
      reads this, queue
    {
      && leases == (if d.Held().Some? then old(leases) + multiset{Lease(id, d.Held().value)} else old(leases))
      && store == Settled(old(store), id, d)
      && queue.items == (if d.PushBack? then (if id in old(store) then old(queue.items)[id := old(store)[id]] else old(queue.items))
                         else if d.AssignTo? || d.ExpireIt? then old(queue.items) - {id}
                         else old(queue.items))
    }

    /** Finds a place for a run that is due and not expired. */
    method Place(id: Id, a: Attempt) returns (outcome: Outcome, failed: bool, pushed: bool)
      requires Valid() && id != NO_ID && id in store && store[id].state == Queued
      modifies this, queue
      ensures Valid()
      ensures
        var d := DecidePlace(old(store)[id], a);
        && failed == d.Fails() && pushed == d.PushBack? && outcome == OutcomeOf(d) && CarriesOut(id, d)
    {
      var run := store[id];
      if a.active.None? {
        return OutcomeQueued, true, false;
      }
      if run.maxConcurrency > 0 && a.active.value >= run.maxConcurrency {
        queue.Push(run);
        return OutcomeQueued, a.reasonFails, true;
      }
      if a.snapshotsFail {
        return OutcomeQueued, true, false;
      }
      var settled := TryCandidates(id, a.tries);
      SettleIff(a.tries);
      if settled.None? {
        queue.Push(run);
        return OutcomeQueued, a.reasonFails, true;
      }
      if settled.value.AssignDone? {
        store := store[id := run.(state := Assigned)];
        queue.Remove(id);
        return OutcomeAssigned, false, false;
      }
      return OutcomeQueued, !settled.value.AssignLost?, false;
    }

    /** One attempt. The queue changes only by pushing the run back or removing it; a lease is held exactly with
        an assignment or a failed release. */
    method ScheduleOne(id: Id, a: Attempt) returns (outcome: Outcome, failed: bool, pushed: bool)
      requires Valid() && id != NO_ID
      modifies this, queue
      ensures Valid()
      ensures
        var d := Decide(Lookup(old(store), id), a);
        && failed == d.Fails() && pushed == d.PushBack? && outcome == OutcomeOf(d) && CarriesOut(id, d)
    {
      if a.getFails || id !in store {
        return OutcomeQueued, true, false;
      }
      var run := store[id];
      if run.state != Queued {
        if run.state == Expired {
          return OutcomeExpired, false, false;
        }
        return OutcomeQueued, false, false;
      }
      if a.now < run.queuedAt {
        return OutcomeQueued, false, false;
      }
      if run.maxWait > 0 && a.now >= run.queuedAt + run.maxWait {
        if a.expire == Error {
          return OutcomeQueued, true, false;
        }
        if a.expire == Yes {
          store := store[id := run.(state := Expired)];
          queue.Remove(id);
          return OutcomeExpired, a.alertFails, false;
        }
      }
      outcome, failed, pushed := Place(id, a);
    }

    /** Queues the runs that the store lists, over any older copies. */
    method PushAll(runs: seq<Run>)
      requires Valid()
      modifies queue
      ensures Valid() && queue.items == Pushed(old(queue.items), runs)
    {
      for k := 0 to |runs|
        invariant Valid() && queue.items == Pushed(old(queue.items), runs[..k])
      {
        assert runs[..k + 1][..k] == runs[..k];
        queue.Push(runs[k]);
      }
      assert runs[..|runs|] == runs;
    }

    /** Takes the first run and attempts it. The queue is then as it was, or without that run. */
    method AttemptNext(a: Attempt) returns (run: Option<Run>, failed: bool, pushed: bool)
      requires Valid() && Synced(queue.items, store)
      modifies this, queue
      ensures Valid() && Synced(queue.items, store)
      ensures run.None? <==> old(queue.items) == map[]
      ensures run.None? ==> queue.items == map[]
      ensures run.Some? ==> IsFirst(old(queue.items), run.value)
      ensures run.Some? ==> queue.items == if pushed then old(queue.items) else old(queue.items) - {run.value.id}
      ensures run.Some? ==>
        var d := DecisionOn(old(store), run.value, a);
        pushed == d.PushBack? && failed == d.Fails() && store == After(old(store), run.value, a)
      ensures run.None? ==> !failed && store == old(store)
    {
      ghost var before := queue.items;
      run := queue.Pop();
      if run.None? {
        return None, false, false;
      }
      var id := run.value.id;
      ghost var popped := queue.items;
      assert IsFirst(before, run.value) by {
        assert forall other :: other in before && other != id ==> other in popped && popped[other] == before[other];
      }
      store := Withdraw(store, a.withdrawn);
      ghost var middle := store;
      WithdrawKeeps(before, old(store), a.withdrawn);
      var outcome;
      outcome, failed, pushed := ScheduleOne(id, a);
      if pushed {
        assert middle[id] == run.value;
        assert popped[id := run.value] == before;
      }
    }

    /** Attempts as many runs as the queue holds at the start, in order, unless an attempt fails. A run is pushed
        back as its decision says, and is then attempted again at once; any other attempt is followed by a later
        run. Every run of the queue is attempted exactly if no attempt before the last is pushed back. */
    method Scan(queued: seq<Run>, answers: nat -> Attempt)
      returns (attempts: seq<Run>, pushed: seq<bool>, failed: bool, ghost stores: seq<map<Id, Run>>)
      requires Valid() && Lists(store, queued)
      modifies this, queue
      ensures Valid() && Traced(old(store), answers, attempts, pushed, failed, stores) && store == stores[|attempts|]
      ensures Scans(Pushed(old(queue.items), queued), attempts, pushed, failed, queue.items)
    {
      ListedIsSynced(queue.items, store, queued);
      PushAll(queued);
      ghost var start := queue.items;
      var count := |queue.items|;
      attempts, pushed, failed, stores := [], [], false, [store];
      for k := 0 to count
        invariant Valid() && Synced(queue.items, store) && |attempts| == |pushed| == k && !failed
        invariant Progress(start, queue.items, attempts, pushed)
        invariant Traced(old(store), answers, attempts, pushed, false, stores) && store == stores[k]
      {
        ghost var before := queue.items;
        var run, bad, back := AttemptNext(answers(k));
        NotYetEmpty(start, before, attempts, pushed);
        ProgressOn(start, before, queue.items, run.value, attempts, pushed, back);
        TracedOn(old(store), answers, attempts, pushed, stores, run.value, back, bad);
        attempts, pushed, stores := attempts + [run.value], pushed + [back], stores + [store];
        if bad {
          failed := true;
          return;
        }
      }
      AllAttemptedIff(start, queue.items, attempts, pushed);
    }
  }

  /** The decision on a run, given the store before the attempt. */
  function DecisionOn(store: map<Id, Run>, run: Run, a: Attempt): Decision {
    Decide(Lookup(Withdraw(store, a.withdrawn), run.id), a)
  }

  function After(store: map<Id, Run>, run: Run, a: Attempt): map<Id, Run> {
    Settled(Withdraw(store, a.withdrawn), run.id, DecisionOn(store, run, a))
  }

  /** `stores[k]` is the store before attempt `k`: each attempt is decided on it and the answers it gets, and only
      the last one may fail. */
  /** What a scan does to the runs it starts with. */
  ghost predicate Scans(start: map<Id, Run>, attempts: seq<Run>, pushed: seq<bool>, failed: bool, items: map<Id, Run>) {
    && |pushed| == |attempts| && InOrder(attempts, pushed)
    && Kept(start, items, attempts) && FromStart(start, attempts)
    && (if failed then |attempts| <= |start| else |attempts| == |start|)
    && (!failed ==> ((forall id :: id in start ==> Attempted(attempts, id)) <==> NoneBack(pushed, |pushed| - 1)))
  }

  ghost predicate Traced(
    store: map<Id, Run>, answers: nat -> Attempt, attempts: seq<Run>, pushed: seq<bool>, failed: bool, stores: seq<map<Id, Run>>)
  {
    && |pushed| == |attempts| && |stores| == |attempts| + 1 && stores[0] == store
    && (failed ==> attempts != [])
    && forall k :: 0 <= k < |attempts| ==>
         TracedAt(stores[k], stores[k + 1], answers(k), attempts[k], pushed[k], failed && k == |attempts| - 1)
  }

  predicate TracedAt(store: map<Id, Run>, store': map<Id, Run>, a: Attempt, run: Run, pushed: bool, failed: bool) {
    var d := DecisionOn(store, run, a);
    pushed == d.PushBack? && failed == d.Fails() && store' == After(store, run, a)
  }

  lemma TracedOn(
    store: map<Id, Run>, answers: nat -> Attempt, attempts: seq<Run>, pushed: seq<bool>, stores: seq<map<Id, Run>>,
    run: Run, back: bool, bad: bool)
    requires Traced(store, answers, attempts, pushed, false, stores)
    requires
      var d := DecisionOn(stores[|attempts|], run, answers(|attempts|));
      back == d.PushBack? && bad == d.Fails()
    ensures Traced(store, answers, attempts + [run], pushed + [back], bad, stores + [After(stores[|attempts|], run, answers(|attempts|))])
  {
    var n := |attempts|;
    var attempts', pushed', stores' := attempts + [run], pushed + [back], stores + [After(stores[n], run, answers(n))];
    forall k | 0 <= k < n + 1
      ensures TracedAt(stores'[k], stores'[k + 1], answers(k), attempts'[k], pushed'[k], bad && k == n)
    {
      if k < n {
        assert TracedAt(stores[k], stores[k + 1], answers(k), attempts[k], pushed[k], false && k == n - 1);
      }
    }
  }

  /** None of the first `n` attempts is pushed back. */
  predicate NoneBack(pushed: seq<bool>, n: int)
    requires n <= |pushed|
  {
    forall k :: 0 <= k < n ==> !pushed[k]
  }

  function Backs(pushed: seq<bool>): nat {
    if pushed == [] then 0 else Backs(pushed[..|pushed| - 1]) + if pushed[|pushed| - 1] then 1 else 0
  }

  lemma {:induction false} BacksIff(pushed: seq<bool>)
    ensures Backs(pushed) == 0 <==> NoneBack(pushed, |pushed|)
    decreases |pushed|
  {
    if pushed != [] {
      BacksIff(pushed[..|pushed| - 1]);
    }
  }

  /** Attempts that are not pushed back take a run out of the queue; of the runs still queued only the one attempted
      last can have been attempted. */
  ghost predicate Left(start: map<Id, Run>, items: map<Id, Run>, attempts: seq<Run>, pushed: seq<bool>)
    requires |attempts| == |pushed|
  {
    && |items| == |start| - |attempts| + Backs(pushed)
    && forall id :: id in items && Attempted(attempts, id) ==>
         attempts != [] && pushed[|pushed| - 1] && id == attempts[|attempts| - 1].id
  }

  /** Where a scan stands between two attempts. */
  ghost predicate Progress(start: map<Id, Run>, items: map<Id, Run>, attempts: seq<Run>, pushed: seq<bool>) {
    && |attempts| == |pushed|
    && InOrder(attempts, pushed) && Frontier(items, attempts, pushed)
    && Kept(start, items, attempts) && FromStart(start, attempts) && Left(start, items, attempts, pushed)
  }

  lemma ProgressOn(
    start: map<Id, Run>, before: map<Id, Run>, items: map<Id, Run>, run: Run, attempts: seq<Run>, pushed: seq<bool>, back: bool)
    requires Progress(start, before, attempts, pushed) && IsFirst(before, run)
    requires items == if back then before else before - {run.id}
    ensures Progress(start, items, attempts + [run], pushed + [back])
  {
    AfterAttempt(before, items, run, attempts, pushed, back);
    KeptOn(start, before, items, run, attempts);
    LeftOn(start, before, items, run, attempts, pushed, back);
  }

  lemma NotYetEmpty(start: map<Id, Run>, items: map<Id, Run>, attempts: seq<Run>, pushed: seq<bool>)
    requires Progress(start, items, attempts, pushed) && |attempts| < |start|
    ensures items != map[]
  {
  }

  lemma LeftOn(
    start: map<Id, Run>, before: map<Id, Run>, items: map<Id, Run>, run: Run, attempts: seq<Run>, pushed: seq<bool>, back: bool)
    requires |attempts| == |pushed| && Left(start, before, attempts, pushed) && Frontier(before, attempts, pushed)
    requires IsFirst(before, run) && items == if back then before else before - {run.id}
    ensures Left(start, items, attempts + [run], pushed + [back])
  {
    BacksSnoc(pushed, back);
    RemoveOne(before, run.id);
    forall id | id in items && Attempted(attempts + [run], id)
      ensures back && id == run.id
    {
      SeenBefore(before, run, attempts, pushed, id);
    }
  }

  lemma BacksSnoc(pushed: seq<bool>, back: bool)
    ensures Backs(pushed + [back]) == Backs(pushed) + if back then 1 else 0
  {
    assert (pushed + [back])[..|pushed|] == pushed;
  }

  /** A run still queued that has been attempted is the one that comes first. */
  lemma SeenBefore(before: map<Id, Run>, run: Run, attempts: seq<Run>, pushed: seq<bool>, id: Id)
    requires |attempts| == |pushed| && Frontier(before, attempts, pushed) && IsFirst(before, run)
    requires forall other :: other in before && Attempted(attempts, other) ==>
               attempts != [] && pushed[|pushed| - 1] && other == attempts[|attempts| - 1].id
    requires id in before && Attempted(attempts + [run], id)
    ensures id == run.id
  {
    var i :| 0 <= i < |attempts + [run]| && (attempts + [run])[i].id == id;
    if i < |attempts| {
      assert attempts[i].id == id;
      assert Attempted(attempts, id);
      NextInOrder(before, run, attempts, pushed);
    }
  }

  lemma RemoveOne(items: map<Id, Run>, id: Id)
    requires id in items
    ensures |items - {id}| == |items| - 1
  {
    assert items.Keys == (items - {id}).Keys + {id};
    assert |(items - {id}).Keys + {id}| == |(items - {id}).Keys| + 1;
  }

  /** After as many attempts as there were runs, all were attempted exactly if none was pushed back before the last. */
  lemma AllAttemptedIff(start: map<Id, Run>, items: map<Id, Run>, attempts: seq<Run>, pushed: seq<bool>)
    requires |attempts| == |pushed| == |start| && Kept(start, items, attempts)
    requires Left(start, items, attempts, pushed) && Frontier(items, attempts, pushed)
    ensures (forall id :: id in start ==> Attempted(attempts, id)) <==> NoneBack(pushed, |pushed| - 1)
  {
    if attempts != [] {
      var n := |attempts| - 1;
      BacksIff(pushed[..n]);
      LastAttempted(attempts);
      var waiting := if pushed[n] then items - {attempts[n].id} else items;
      WaitingLeft(start, items, attempts, pushed, waiting);
      AttemptedIff(start, items, attempts, pushed, waiting);
    }
  }

  lemma LastAttempted(attempts: seq<Run>)
    requires attempts != []
    ensures Attempted(attempts, attempts[|attempts| - 1].id)
  {
  }

  /** After as many attempts as there were runs, the runs still without one are as many as were pushed back before
      the last. */
  lemma WaitingLeft(start: map<Id, Run>, items: map<Id, Run>, attempts: seq<Run>, pushed: seq<bool>, waiting: map<Id, Run>)
    requires |attempts| == |pushed| == |start| && attempts != []
    requires Left(start, items, attempts, pushed) && Frontier(items, attempts, pushed)
    requires waiting == if pushed[|pushed| - 1] then items - {attempts[|attempts| - 1].id} else items
    ensures |waiting| == Backs(pushed[..|pushed| - 1])
  {
    if pushed[|pushed| - 1] {
      RemoveOne(items, attempts[|attempts| - 1].id);
    }
  }

  lemma AttemptedIff(start: map<Id, Run>, items: map<Id, Run>, attempts: seq<Run>, pushed: seq<bool>, waiting: map<Id, Run>)
    requires |attempts| == |pushed| && attempts != [] && Kept(start, items, attempts)
    requires Left(start, items, attempts, pushed) && Attempted(attempts, attempts[|attempts| - 1].id)
    requires waiting == if pushed[|pushed| - 1] then items - {attempts[|attempts| - 1].id} else items
    ensures (forall id :: id in start ==> Attempted(attempts, id)) <==> |waiting| == 0
  {
    if |waiting| > 0 {
      var id := SomeKey(waiting);
      assert id in start && !Attempted(attempts, id);
    } else {
      NoKey(waiting);
    }
  }

  lemma SomeKey(items: map<Id, Run>) returns (id: Id)
    requires |items| > 0
    ensures id in items
  {
    assert items.Keys != {};
    id :| id in items.Keys;
  }

  lemma NoKey(items: map<Id, Run>)
    requires |items| == 0
    ensures forall id :: id !in items
  {
    assert |items.Keys| == 0;
    assert items.Keys == {};
  }

  /** What is attempted was queued at the start. */
  predicate FromStart(start: map<Id, Run>, attempts: seq<Run>) {
    forall i :: 0 <= i < |attempts| ==> attempts[i].id in start && start[attempts[i].id] == attempts[i]
  }

  /** The store lists exactly its queued runs. */
  predicate Lists(store: map<Id, Run>, queued: seq<Run>) {
    && (forall run :: run in queued ==> run.id in store && store[run.id] == run && run.state == Queued)
    && (forall id :: id in store && store[id].state == Queued ==> store[id] in queued)
  }

  function Pushed(items: map<Id, Run>, runs: seq<Run>): map<Id, Run> {
    if runs == [] then items
    else
      var init, run := Pushed(items, runs[..|runs| - 1]), runs[|runs| - 1];
      if run.id == NO_ID then init else init[run.id := run]
  }

  lemma {:induction false} PushedFacts(items: map<Id, Run>, runs: seq<Run>, id: Id)
    requires forall i, j :: 0 <= i < j < |runs| && runs[i].id == runs[j].id ==> runs[i] == runs[j]
    ensures forall run :: run in runs && run.id == id && id != NO_ID ==> id in Pushed(items, runs) && Pushed(items, runs)[id] == run
    decreases |runs|
  {
    if runs != [] {
      PushedFacts(items, runs[..|runs| - 1], id);
    }
  }

  lemma {:induction false} NoEmptyId(items: map<Id, Run>, runs: seq<Run>)
    requires NO_ID !in items
    ensures NO_ID !in Pushed(items, runs)
    decreases |runs|
  {
    if runs != [] {
      NoEmptyId(items, runs[..|runs| - 1]);
    }
  }

  lemma ListedIsSynced(items: map<Id, Run>, store: map<Id, Run>, queued: seq<Run>)
    requires Keyed(store) && NO_ID !in items && Lists(store, queued)
    ensures Synced(Pushed(items, queued), store)
  {
    NoEmptyId(items, queued);
    forall id | id in Pushed(items, queued) && id in store && store[id].state == Queued
      ensures Pushed(items, queued)[id] == store[id]
    {
      PushedFacts(items, queued, id);
    }
  }

  lemma WithdrawKeeps(items: map<Id, Run>, store: map<Id, Run>, ids: set<Id>)
    requires Synced(items, store)
    ensures Synced(items, Withdraw(store, ids))
  {
  }

  predicate IsFirst(items: map<Id, Run>, run: Run) {
    run.id in items && items[run.id] == run && forall id :: id in items && id != run.id ==> Before(run, items[id])
  }

  /** Every run is still queued as it was or was attempted, and no other is there. */
  predicate Kept(start: map<Id, Run>, items: map<Id, Run>, attempts: seq<Run>) {
    && (forall id :: id in items ==> id in start && items[id] == start[id])
    && forall id :: id in start ==> id in items || Attempted(attempts, id)
  }

  lemma KeptOn(start: map<Id, Run>, before: map<Id, Run>, items: map<Id, Run>, run: Run, attempts: seq<Run>)
    requires Kept(start, before, attempts) && (items == before || items == before - {run.id})
    requires FromStart(start, attempts) && run.id in before && before[run.id] == run
    ensures Kept(start, items, attempts + [run]) && FromStart(start, attempts + [run])
  {
    MoreAttempted(attempts, run);
  }

  predicate Attempted(attempts: seq<Run>, id: Id) {
    exists i :: 0 <= i < |attempts| && attempts[i].id == id
  }

  /** What follows an attempt: the same run if it was pushed back, else one that comes later. */
  predicate InOrder(attempts: seq<Run>, pushed: seq<bool>)
    requires |attempts| == |pushed|
  {
    forall i :: 0 <= i < |attempts| - 1 ==> ComesNext(attempts[i], pushed[i], attempts[i + 1])
  }

  predicate ComesNext(run: Run, pushed: bool, next: Run) {
    if pushed then next == run else Before(run, next)
  }

  /** Nothing in the queue comes before the last attempt, and the run attempted last is there if it was pushed back. */
  predicate Frontier(items: map<Id, Run>, attempts: seq<Run>, pushed: seq<bool>)
    requires |attempts| == |pushed|
  {
    attempts != [] ==>
      var last, back := attempts[|attempts| - 1], pushed[|attempts| - 1];
      && (forall id :: id in items && !(back && id == last.id) ==> Before(last, items[id]))
      && (back ==> last.id in items && items[last.id] == last)
  }

  lemma NextInOrder(items: map<Id, Run>, run: Run, attempts: seq<Run>, pushed: seq<bool>)
    requires |attempts| == |pushed| && attempts != [] && Frontier(items, attempts, pushed) && IsFirst(items, run)
    ensures ComesNext(attempts[|attempts| - 1], pushed[|pushed| - 1], run)
  {
  }

  lemma AfterAttempt(
    before: map<Id, Run>, items: map<Id, Run>, run: Run, attempts: seq<Run>, pushed: seq<bool>, back: bool)
    requires |attempts| == |pushed| && InOrder(attempts, pushed) && Frontier(before, attempts, pushed)
    requires IsFirst(before, run) && items == if back then before else before - {run.id}
    ensures InOrder(attempts + [run], pushed + [back]) && Frontier(items, attempts + [run], pushed + [back])
  {
    if attempts != [] {
      NextInOrder(before, run, attempts, pushed);
    }
  }

  lemma MoreAttempted(attempts: seq<Run>, run: Run)
    ensures Attempted(attempts + [run], run.id)
    ensures forall id :: Attempted(attempts, id) ==> Attempted(attempts + [run], id)
  {
    var more := attempts + [run];
    assert more[|attempts|].id == run.id;
    forall id | Attempted(attempts, id)
      ensures Attempted(more, id)
    {
      var i :| 0 <= i < |attempts| && attempts[i].id == id;
      assert more[i].id == id;
    }
  }

  /** The attempts of a scan never go back in the order of the queue. */
  lemma {:induction false} NeverGoesBack(attempts: seq<Run>, pushed: seq<bool>, i: nat, j: nat)
    requires |attempts| == |pushed| && InOrder(attempts, pushed) && i <= j < |attempts|
    ensures attempts[i] == attempts[j] || Before(attempts[i], attempts[j])
    decreases j - i
  {
    if i < j {
      NeverGoesBack(attempts, pushed, i, j - 1);
      assert ComesNext(attempts[j - 1], pushed[j - 1], attempts[j - 1 + 1]);
    }
  }

  /** A run that nobody withdraws and that every answer from some attempt on would push back takes all the attempts
      that are left, whatever room the runs behind it have. */
  lemma {:induction false} BlockedRunTakesTheRest(
    store: map<Id, Run>, answers: nat -> Attempt, attempts: seq<Run>, pushed: seq<bool>, failed: bool, stores: seq<map<Id, Run>>,
    i: nat, j: nat)
    requires Traced(store, answers, attempts, pushed, failed, stores) && InOrder(attempts, pushed) && i <= j < |attempts|
    requires Lookup(stores[i], attempts[i].id) == Some(attempts[i])
    requires forall k :: i <= k < j ==> attempts[i].id !in answers(k).withdrawn && Decide(Some(attempts[i]), answers(k)).PushBack?
    ensures attempts[j] == attempts[i] && Lookup(stores[j], attempts[i].id) == Some(attempts[i])
    decreases j - i
  {
    if i < j {
      BlockedRunTakesTheRest(store, answers, attempts, pushed, failed, stores, i, j - 1);
      var k := j - 1;
      assert TracedAt(stores[k], stores[k + 1], answers(k), attempts[k], pushed[k], failed && k == |attempts| - 1);
      assert pushed[k] && ComesNext(attempts[k], pushed[k], attempts[k + 1]);
    }
  }

  /** At the limit of its task. */
  const BLOCKED := Run(1, 5, 0, 0, 1, Queued)

  /** Behind it, with no limit and a server that has room. */
  const FREE := Run(2, 1, 0, 0, 0, Queued)

  const ROOM := Attempt(10, {}, false, No, false, Some(1), false, [AssignDone("server")], false)

  /** Two queued runs and the same answer to every attempt, with room for the second run: the scan makes two attempts,
      both on the first. */
  method RunWithRoomIsNeverAttempted()
    returns (attempts: seq<Run>, pushed: seq<bool>, failed: bool, ghost stores: seq<map<Id, Run>>, ghost items: map<Id, Run>)
    ensures
      var store := map[1 := BLOCKED, 2 := FREE];
      && Lists(store, [BLOCKED, FREE]) && Scans(store, attempts, pushed, failed, items)
      && Traced(store, _ => ROOM, attempts, pushed, failed, stores)
    ensures attempts == [BLOCKED, BLOCKED] && Decide(Some(FREE), ROOM) == AssignTo("server")
  {
    var store := map[1 := BLOCKED, 2 := FREE];
    var service := new Service(store);
    TwoQueued(store, BLOCKED, FREE);
    attempts, pushed, failed, stores := service.Scan([BLOCKED, FREE], _ => ROOM);
    items := service.queue.items;
    BlockedTwice(store, ROOM, store, attempts, pushed, failed, stores, BLOCKED, FREE);
  }

  lemma TwoQueued(store: map<Id, Run>, a: Run, b: Run)
    requires a.id == 1 && b.id == 2 && a.state == Queued && b.state == Queued && store == map[1 := a, 2 := b]
    ensures Lists(store, [a, b]) && Pushed(map[], [a, b]) == store
  {
    var none: seq<Run> := [];
    assert [a, b][..1] == [a] && [a][..0] == none;
    assert Pushed(map[], [a]) == map[1 := a];
  }

  lemma BlockedTwice(
    store: map<Id, Run>, answer: Attempt, start: map<Id, Run>, attempts: seq<Run>, pushed: seq<bool>, failed: bool,
    stores: seq<map<Id, Run>>, blocked: Run, free: Run)
    requires blocked.id == 1 && free.id == 2 && store == start == map[1 := blocked, 2 := free] && Before(blocked, free)
    requires blocked.state == Queued && free.state == Queued && answer.withdrawn == {}
    requires Decide(Some(blocked), answer) == PushBack(false) && Decide(Some(free), answer) == AssignTo("server")
    requires Traced(store, _ => answer, attempts, pushed, failed, stores) && InOrder(attempts, pushed) && FromStart(start, attempts)
    requires if failed then |attempts| <= |start| else |attempts| == |start|
    ensures attempts == [blocked, blocked]
  {
    assert |start| == 2;
    assert Withdraw(store, {}) == store;
    if |attempts| > 0 {
      assert TracedAt(stores[0], stores[1], answer, attempts[0], pushed[0], failed && 0 == |attempts| - 1);
      assert start[attempts[0].id] == attempts[0];
      assert !DecisionOn(store, attempts[0], answer).Fails();
    }
    assert |attempts| == 2;
    assert start[attempts[1].id] == attempts[1];
    assert ComesNext(attempts[0], pushed[0], attempts[0 + 1]);
  }
}
