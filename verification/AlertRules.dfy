/** Alert rules (internal/ops/rules.go, internal/ops/postgres.go): per rule key, consecutive bad and good
    evaluations are counted across scans that read overlapping sample windows; a rule whose desired state differs
    from the applied one yields a transition, which is delivered to the alert sink and then marked as applied. */
module AlertRules {

  datatype Code = AgentOffline | MemoryLow | DiskLow | QueueTimeout | TaskFailed

  /** The code decides whether the source is a server or a run. */
  datatype Key = Key(code: Code, source: string)

  type Time = int

  const EPOCH: Time := 0

  /** `event` stands for the value and the alert text. */
  datatype Evaluation = Evaluation(
    key: Key, bad: bool, good: bool, at: Time, required: nat, sampled: bool, event: nat)

  datatype Verdict = Bad | Good | Unclear

  function Judge(ev: Evaluation): Verdict {
    if ev.bad then Bad else if ev.good then Good else Unclear
  }

  datatype Core = Core(desired: bool, bad: nat, good: nat, last: Time)

  datatype Row = Row(active: bool, core: Core)

  const START := Core(false, 0, 0, EPOCH)

  /** A sample that is not newer than the last evaluation was seen before. */
  predicate Stale(ev: Evaluation, last: Time) {
    ev.sampled && ev.at <= last
  }

  function Advance(c: Core, ev: Evaluation): Core {
    if Stale(ev, c.last) then c
    else
      match Judge(ev)
      case Bad => Core(c.desired || c.bad + 1 >= ev.required, c.bad + 1, 0, ev.at)
      case Good => Core(c.desired && c.good + 1 < ev.required, 0, c.good + 1, ev.at)
      case Unclear => Core(c.desired, 0, 0, ev.at)
  }

  function AdvanceAll(c: Core, evs: seq<Evaluation>): Core {
    if evs == [] then c else Advance(AdvanceAll(c, evs[..|evs| - 1]), evs[|evs| - 1])
  }

  // ---------------------------------------------------------------------------------------------
  // The counters are the trailing runs of the samples taken
  // ---------------------------------------------------------------------------------------------

  /** The evaluations that count: all but the samples seen before. */
  function Taken(evs: seq<Evaluation>): seq<Evaluation> {
    if evs == [] then []
    else
      var taken, ev := Taken(evs[..|evs| - 1]), evs[|evs| - 1];
      if Stale(ev, LastOf(taken)) then taken else taken + [ev]
  }

  function LastOf(h: seq<Evaluation>): Time {
    if h == [] then EPOCH else h[|h| - 1].at
  }

  /** How many evaluations at the end of a history agree on a verdict. */
  function Trailing(h: seq<Evaluation>, v: Verdict): nat {
    if h == [] || Judge(h[|h| - 1]) != v then 0 else 1 + Trailing(h[..|h| - 1], v)
  }

  lemma {:induction false} TrailingIff(h: seq<Evaluation>, v: Verdict, n: nat)
    ensures Trailing(h, v) >= n <==> n <= |h| && forall i :: |h| - n <= i < |h| ==> Judge(h[i]) == v
    decreases |h|
  {
    if h != [] && n > 0 {
      var init := h[..|h| - 1];
      TrailingIff(init, v, n - 1);
      if Judge(h[|h| - 1]) == v && n <= |h| {
        assert (forall i :: |init| - (n - 1) <= i < |init| ==> Judge(init[i]) == v) <==>
               (forall i :: |h| - n <= i < |h| ==> Judge(h[i]) == v) by {
          assert forall i :: 0 <= i < |init| ==> init[i] == h[i];
        }
      }
    }
  }

  /** The last `required` evaluations agree, as the last one demands. */
  predicate Agree(h: seq<Evaluation>, v: Verdict) {
    h != [] && Judge(h[|h| - 1]) == v && Trailing(h, v) >= h[|h| - 1].required
  }

  /** The desired state follows the latest agreement. */
  predicate DesiredOf(h: seq<Evaluation>) {
    h != [] && (Agree(h, Bad) || (!Agree(h, Good) && DesiredOf(h[..|h| - 1])))
  }

  /** For every series of evaluations, whatever overlaps: the stored counters are the trailing runs. */
  lemma {:induction false} CountersAreTrailingRuns(evs: seq<Evaluation>)
    ensures
      var c, h := AdvanceAll(START, evs), Taken(evs);
      c == Core(DesiredOf(h), Trailing(h, Bad), Trailing(h, Good), LastOf(h))
    decreases |evs|
  {
    if evs != [] {
      var init, ev := evs[..|evs| - 1], evs[|evs| - 1];
      CountersAreTrailingRuns(init);
      var h := Taken(init);
      if !Stale(ev, LastOf(h)) {
        var h' := h + [ev];
        assert h'[..|h'| - 1] == h;
      }
    }
  }

  /** The desired state flips on a new evaluation exactly when the last required number agree against it. */
  lemma FlipsExactlyOnAgreement(h: seq<Evaluation>)
    requires h != []
    ensures DesiredOf(h) != DesiredOf(h[..|h| - 1]) <==> Agree(h, if DesiredOf(h[..|h| - 1]) then Good else Bad)
  {
    assert !(Agree(h, Bad) && Agree(h, Good));
  }

  /** The samples taken are distinct and in time order. */
  lemma {:induction false} TakenAscends(evs: seq<Evaluation>)
    requires forall i :: 0 <= i < |evs| ==> evs[i].sampled
    ensures Ascending(Taken(evs))
    ensures forall ev :: ev in Taken(evs) ==> EPOCH < ev.at && ev in evs
    decreases |evs|
  {
    if evs != [] {
      TakenAscends(evs[..|evs| - 1]);
    }
  }

  predicate Ascending(h: seq<Evaluation>) {
    forall i, j :: 0 <= i < j < |h| ==> h[i].at < h[j].at
  }

  // ---------------------------------------------------------------------------------------------
  // Overlapping windows
  // ---------------------------------------------------------------------------------------------

  /** Samples of one rule, oldest first. */
  predicate Samples(h: seq<Evaluation>) {
    Ascending(h) && forall i :: 0 <= i < |h| ==> h[i].sampled && EPOCH < h[i].at
  }

  lemma {:induction false} LastIsNewest(h: seq<Evaluation>)
    requires Samples(h)
    ensures AdvanceAll(START, h).last == LastOf(h)
    decreases |h|
  {
    if h != [] {
      var init := h[..|h| - 1];
      LastIsNewest(init);
      assert LastOf(init) < h[|h| - 1].at;
    }
  }

  /** A window that starts inside what was read before has the effect of its unread part only. */
  lemma WindowReadsOn(h: seq<Evaluation>, lo: nat, seen: nat, hi: nat)
    requires Samples(h) && lo <= seen <= |h| && lo <= hi <= |h|
    ensures AdvanceAll(AdvanceAll(START, h[..seen]), h[lo..hi]) == AdvanceAll(START, h[..if hi < seen then seen else hi])
  {
    var middle := if hi < seen then hi else seen;
    StaleWindow(h, lo, middle, seen);
    ReadOn(h[..seen], h[lo..middle], h[middle..hi]);
    Joined(h, lo, middle, seen, hi);
  }

  lemma Joined(h: seq<Evaluation>, lo: nat, middle: nat, seen: nat, hi: nat)
    requires lo <= middle <= hi <= |h| && seen <= |h| && middle == if hi < seen then hi else seen
    ensures h[lo..hi] == h[lo..middle] + h[middle..hi]
    ensures h[..seen] + h[middle..hi] == h[..if hi < seen then seen else hi]
  {
  }

  lemma StaleWindow(h: seq<Evaluation>, lo: nat, middle: nat, seen: nat)
    requires Samples(h) && lo <= middle <= seen <= |h|
    ensures forall ev :: ev in h[lo..middle] ==> Stale(ev, AdvanceAll(START, h[..seen]).last)
  {
    LastIsNewest(h[..seen]);
    forall ev | ev in h[lo..middle]
      ensures Stale(ev, LastOf(h[..seen]))
    {
      var i :| lo <= i < middle && h[i] == ev;
      assert h[i].at <= h[seen - 1].at;
    }
  }

  lemma ReadOn(x: seq<Evaluation>, y: seq<Evaluation>, z: seq<Evaluation>)
    requires forall ev :: ev in y ==> Stale(ev, AdvanceAll(START, x).last)
    ensures AdvanceAll(AdvanceAll(START, x), y + z) == AdvanceAll(START, x + z)
  {
    AllStale(AdvanceAll(START, x), y);
    AdvanceAllJoins(AdvanceAll(START, x), y, z);
    AdvanceAllJoins(START, x, z);
  }

  lemma {:induction false} AllStale(c: Core, evs: seq<Evaluation>)
    requires forall ev :: ev in evs ==> Stale(ev, c.last)
    ensures AdvanceAll(c, evs) == c
    decreases |evs|
  {
    if evs != [] {
      AllStale(c, evs[..|evs| - 1]);
      assert evs[|evs| - 1] in evs;
    }
  }

  lemma {:induction false} AdvanceAllJoins(c: Core, a: seq<Evaluation>, b: seq<Evaluation>)
    ensures AdvanceAll(c, a + b) == AdvanceAll(AdvanceAll(c, a), b)
    decreases |b|
  {
    if b == [] {
      assert a + b == a;
    } else {
      AdvanceAllJoins(c, a, b[..|b| - 1]);
      assert (a + b)[..|a + b| - 1] == a + b[..|b| - 1];
    }
  }
}
