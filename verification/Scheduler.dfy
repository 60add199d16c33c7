/** The scheduler (internal/scheduler/queue.go, internal/scheduler/service.go): a priority queue of runs, one
    scheduling attempt with its reservations, and the scan that attempts as many runs as the queue holds. */
module Scheduler {
  import opened Common

  type Time = int

  type Server = string

  /** Run IDs are compared as strings; a number stands for the rank of an ID, 0 for the empty one. */
  type Id = nat

  const NO_ID: Id := 0

  datatype RunState = Queued | Expired | Assigned | Other

  datatype Run = Run(id: Id, priority: int, queuedAt: Time, maxWait: int, maxConcurrency: int, state: RunState)

  predicate Before(a: Run, b: Run) {
    || a.priority > b.priority
    || (a.priority == b.priority && (a.queuedAt < b.queuedAt || (a.queuedAt == b.queuedAt && a.id < b.id)))
  }

  /** The higher priority comes first, then the earlier time, then the lower ID; of two runs with different IDs exactly one
      comes before the other. */
  lemma BeforeIs(a: Run, b: Run)
    ensures a.priority > b.priority ==> Before(a, b)
    ensures a.priority == b.priority && a.queuedAt < b.queuedAt ==> Before(a, b)
    ensures a.priority == b.priority && a.queuedAt == b.queuedAt && a.id < b.id ==> Before(a, b)
    ensures Before(a, b) ==> !Before(b, a) && a != b
    ensures a.id != b.id ==> Before(a, b) || Before(b, a)
  {
  }

  predicate Keyed(m: map<Id, Run>) {
    forall id :: id in m ==> m[id].id == id
  }

  // ---------------------------------------------------------------------------------------------
  // The queue
  // ---------------------------------------------------------------------------------------------

  predicate Sorted(runs: seq<Run>) {
    forall i, j :: 0 <= i < j < |runs| ==> !Before(runs[j], runs[i])
  }

  lemma InsertKeepsSorted(runs: seq<Run>, k: nat, run: Run)
    requires Sorted(runs) && k <= |runs|
    requires forall i :: k <= i < |runs| ==> Before(run, runs[i])
    requires k > 0 ==> !Before(run, runs[k - 1])
    ensures Sorted(runs[..k] + [run] + runs[k..])
  {
    var longer := runs[..k] + [run] + runs[k..];
    forall i, j | 0 <= i < j < |longer|
      ensures !Before(longer[j], longer[i])
    {
      assert longer[i] == if i < k then runs[i] else if i == k then run else runs[i - 1];
      assert longer[j] == if j < k then runs[j] else if j == k then run else runs[j - 1];
      if i < k && j == k {
        assert i == k - 1 || !Before(runs[k - 1], runs[i]);
      }
    }
  }

  /** Adds a run to a sorted list, behind its equals. */
  method InsertRun(runs: seq<Run>, run: Run) returns (longer: seq<Run>)
    requires Sorted(runs)
    ensures Sorted(longer) && |longer| == |runs| + 1
    ensures forall r :: r in longer <==> r in runs || r == run
  {
    var k := |runs|;
    while k > 0 && Before(run, runs[k - 1])
      invariant 0 <= k <= |runs|
      invariant forall i :: k <= i < |runs| ==> Before(run, runs[i])
    {
      k := k - 1;
    }
    longer := runs[..k] + [run] + runs[k..];
    InsertKeepsSorted(runs, k, run);
    assert runs == runs[..k] + runs[k..];
  }

  class Queue {
    var items: map<Id, Run>

    ghost predicate Valid()
      reads this
    {
      Keyed(items) && NO_ID !in items
    }

    constructor ()
      ensures Valid() && items == map[]
    {
      items := map[];
    }

    method Push(run: Run)
      requires Valid()
      modifies this
      ensures Valid() && items == if run.id == NO_ID then old(items) else old(items)[run.id := run]
    {
      if run.id == NO_ID {
        return;
      }
      items := items[run.id := run];
    }

    method Remove(id: Id)
      requires Valid()
      modifies this
      ensures Valid() && items == old(items) - {id}
    {
      items := items - {id};
    }

    /** Takes the run that comes before all others. */
    method Pop() returns (selected: Option<Run>)
      requires Valid()
      modifies this
      ensures Valid()
      ensures selected.None? <==> old(items) == map[]
      ensures selected.None? ==> items == map[]
      ensures selected.Some? ==>
                && selected.value.id in old(items) && old(items)[selected.value.id] == selected.value
                && items == old(items) - {selected.value.id}
                && forall id :: id in items ==> Before(selected.value, items[id])
    {
      if |items| == 0 {
        return None;
      }
      var runs := SortedItems();
      assert items.Keys != {};
      selected := Some(runs[0]);
      items := items - {runs[0].id};
      forall id | id in items
        ensures Before(runs[0], items[id])
      {
        var i :| 0 <= i < |runs| && runs[i] == items[id];
        assert i == 0 || !Before(runs[i], runs[0]);
      }
    }

    method SortedItems() returns (runs: seq<Run>)
      requires Valid()
      ensures Sorted(runs)
      ensures forall r :: r in runs <==> r.id in items && items[r.id] == r
      ensures items.Keys != {} ==> runs != []
    {
      runs := [];
      var keys := items.Keys;
      while keys != {}
        invariant Sorted(runs) && keys <= items.Keys
        invariant forall r :: r in runs <==> r.id in items && items[r.id] == r && r.id !in keys
        decreases |keys|
      {
        var key :| key in keys;
        keys := keys - {key};
        runs := InsertRun(runs, items[key]);
      }
      if items.Keys != {} {
        var key :| key in items;
        assert items[key] in runs;
      }
    }
  }
}
