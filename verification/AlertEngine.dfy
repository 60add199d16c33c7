/** The rule table and the rule engine (internal/ops/postgres.go, internal/ops/rules.go): one scan applies its
    evaluations in a transaction, delivers the transitions to the alert sink and marks them as applied. */
module AlertEngine {
  import opened AlertRules
  import opened Common

  datatype Transition = Transition(evaluation: Evaluation, desired: bool)

  type Rows = map<Key, Row>

  function RowOf(rows: Rows, key: Key): Row {
    if key in rows then rows[key] else Row(false, START)
  }

  // ---------------------------------------------------------------------------------------------
  // Applying evaluations
  // ---------------------------------------------------------------------------------------------

  function ApplyOne(rows: Rows, ev: Evaluation): Rows {
    var row := RowOf(rows, ev.key);
    rows[ev.key := row.(core := Advance(row.core, ev))]
  }

  function ApplyAll(rows: Rows, evs: seq<Evaluation>): Rows {
    if evs == [] then rows else ApplyOne(ApplyAll(rows, evs[..|evs| - 1]), evs[|evs| - 1])
  }

  /** The evaluations of one rule. */
  function Only(evs: seq<Evaluation>, key: Key): seq<Evaluation> {
    if evs == [] then []
    else
      var init, ev := Only(evs[..|evs| - 1], key), evs[|evs| - 1];
      if ev.key == key then init + [ev] else init
  }

  /** The rules of a batch, in the order in which they are first met. */
  function Keys(evs: seq<Evaluation>): seq<Key> {
    if evs == [] then []
    else
      var init, key := Keys(evs[..|evs| - 1]), evs[|evs| - 1].key;
      if key in init then init else init + [key]
  }

  predicate Distinct(keys: seq<Key>) {
    forall i, j :: 0 <= i < j < |keys| ==> keys[i] != keys[j]
  }

  lemma {:induction false} KeysDistinct(evs: seq<Evaluation>)
    ensures Distinct(Keys(evs))
    decreases |evs|
  {
    if evs != [] {
      KeysDistinct(evs[..|evs| - 1]);
    }
  }

  lemma {:induction false} KeysIff(evs: seq<Evaluation>, key: Key)
    ensures key in Keys(evs) <==> Only(evs, key) != []
    decreases |evs|
  {
    if evs != [] {
      KeysIff(evs[..|evs| - 1], key);
    }
  }

  /** A batch treats every rule on its own and touches no other. */
  lemma {:induction false} ApplyIsPerRule(rows: Rows, evs: seq<Evaluation>, key: Key)
    ensures
      var row, row' := RowOf(rows, key), RowOf(ApplyAll(rows, evs), key);
      row' == row.(core := AdvanceAll(row.core, Only(evs, key)))
    decreases |evs|
  {
    if evs != [] {
      var init, ev := evs[..|evs| - 1], evs[|evs| - 1];
      ApplyIsPerRule(rows, init, key);
      if ev.key == key {
        var only := Only(evs, key);
        assert only[..|only| - 1] == Only(init, key);
      }
    }
  }

  predicate Differs(rows: Rows, key: Key) {
    RowOf(rows, key).core.desired != RowOf(rows, key).active
  }

  /** The keys among `keys` whose desired state differs from the applied one. */
  function Open(rows: Rows, keys: seq<Key>): seq<Key> {
    if keys == [] then []
    else
      var init, key := Open(rows, keys[..|keys| - 1]), keys[|keys| - 1];
      if Differs(rows, key) then init + [key] else init
  }

  lemma {:induction false} OpenFacts(rows: Rows, keys: seq<Key>)
    requires Distinct(keys)
    ensures Distinct(Open(rows, keys))
    ensures forall key :: key in Open(rows, keys) <==> key in keys && Differs(rows, key)
    decreases |keys|
  {
    if keys != [] {
      OpenFacts(rows, keys[..|keys| - 1]);
    }
  }

  /** A transition for every such rule of the batch, in order, with the latest evaluation of the rule. */
  predicate AreTransitions(rows: Rows, evs: seq<Evaluation>, ts: seq<Transition>) {
    var open := Open(rows, Keys(evs));
    && |ts| == |open|
    && forall i :: 0 <= i < |ts| ==>
         && ts[i].evaluation.key == open[i]
         && ts[i].desired == RowOf(rows, open[i]).core.desired
         && IsLatest(evs, open[i], ts[i].evaluation)
  }

  // ---------------------------------------------------------------------------------------------
  // Delivering transitions
  // ---------------------------------------------------------------------------------------------

  /** The rule table and the alerts that the sink holds open. */
  datatype World = World(rows: Rows, alerts: set<Key>)

  /** A scan's evaluations, and the rules for which the sink or the mark fails. */
  datatype Scan = Scan(evs: seq<Evaluation>, unsent: set<Key>, unmarked: set<Key>)

  function Mark(rows: Rows, key: Key, desired: bool): Rows {
    if key in rows && rows[key].core.desired == desired then rows[key := rows[key].(active := desired)] else rows
  }

  function Deliver(w: World, key: Key, desired: bool, scan: Scan): World {
    if key in scan.unsent then w
    else
      World(
        if key in scan.unmarked then w.rows else Mark(w.rows, key, desired),
        if desired then w.alerts + {key} else w.alerts - {key})
  }

  /** What a scan does to one rule. */
  predicate ScansTo(w: World, scan: Scan, w': World, key: Key) {
    var row, row' := RowOf(w.rows, key), RowOf(w'.rows, key);
    var core := AdvanceAll(row.core, Only(scan.evs, key));
    var due := Only(scan.evs, key) != [] && core.desired != row.active && key !in scan.unsent;
    && row'.core == core
    && row'.active == (if due && key !in scan.unmarked then core.desired else row.active)
    && (key in w'.alerts <==> if due then core.desired else key in w.alerts)
  }

  /** The alert is open exactly if the rule is marked as active. */
  predicate InStep(w: World, key: Key) {
    key in w.alerts <==> RowOf(w.rows, key).active
  }

  /** The scan delivers a transition of the rule. */
  predicate Delivers(w: World, scan: Scan, key: Key) {
    && Only(scan.evs, key) != [] && key !in scan.unsent
    && AdvanceAll(RowOf(w.rows, key).core, Only(scan.evs, key)).desired != RowOf(w.rows, key).active
  }

  /** Whatever was before, a scan that delivers a transition leaves rule and alert in step exactly if the mark goes
      through; any other scan leaves them as they were. */
  lemma InStepIff(w: World, scan: Scan, w': World, key: Key)
    requires ScansTo(w, scan, w', key)
    ensures InStep(w', key) <==> if Delivers(w, scan, key) then key !in scan.unmarked else InStep(w, key)
  {
  }

  /** Re-reading samples that were counted changes no counter; without failures it changes nothing at all once
      the rule is settled. */
  lemma RescanChangesNothing(w: World, scan: Scan, w': World, key: Key)
    requires ScansTo(w, scan, w', key)
    requires forall ev :: ev in Only(scan.evs, key) ==> Stale(ev, RowOf(w.rows, key).core.last)
    ensures RowOf(w'.rows, key).core == RowOf(w.rows, key).core
    ensures RowOf(w.rows, key).core.desired == RowOf(w.rows, key).active ==>
              RowOf(w'.rows, key) == RowOf(w.rows, key) && (key in w'.alerts <==> key in w.alerts)
  {
    AllStale(RowOf(w.rows, key).core, Only(scan.evs, key));
  }

  // ---------------------------------------------------------------------------------------------
  // Whole runs
  // ---------------------------------------------------------------------------------------------

  ghost predicate ScanStep(w: World, scan: Scan, w': World) {
    forall key :: ScansTo(w, scan, w', key)
  }

  ghost predicate IsRun(worlds: seq<World>, scans: seq<Scan>) {
    && |worlds| == |scans| + 1
    && worlds[0] == World(map[], {})
    && forall i :: 0 <= i < |scans| ==> ScanStep(worlds[i], scans[i], worlds[i + 1])
  }

  /** All evaluations of one rule, over all scans. */
  function History(scans: seq<Scan>, key: Key): seq<Evaluation> {
    if scans == [] then [] else History(scans[..|scans| - 1], key) + Only(scans[|scans| - 1].evs, key)
  }

  /** In every run, whatever fails: the stored counters of every rule are the trailing runs of the evaluations
      taken in all scans together. */
  lemma {:induction false} RunCounts(worlds: seq<World>, scans: seq<Scan>, key: Key)
    requires IsRun(worlds, scans)
    ensures
      var core, h := RowOf(worlds[|scans|].rows, key).core, Taken(History(scans, key));
      core == Core(DesiredOf(h), Trailing(h, Bad), Trailing(h, Good), LastOf(h))
  {
    RunAdvances(worlds, scans, key);
    CountersAreTrailingRuns(History(scans, key));
  }

  lemma {:induction false} RunAdvances(worlds: seq<World>, scans: seq<Scan>, key: Key)
    requires IsRun(worlds, scans)
    ensures RowOf(worlds[|scans|].rows, key).core == AdvanceAll(START, History(scans, key))
    decreases |scans|
  {
    if scans != [] {
      var n := |scans| - 1;
      RunAdvances(worlds[..n + 1], scans[..n], key);
      assert ScanStep(worlds[n], scans[n], worlds[n + 1]);
      assert ScansTo(worlds[n], scans[n], worlds[n + 1], key);
      AdvanceAllJoins(START, History(scans[..n], key), Only(scans[n].evs, key));
    }
  }

  /** The last scan of a run that delivered a transition of the rule. */
  function LastDelivery(worlds: seq<World>, scans: seq<Scan>, key: Key): (r: Option<nat>)
    requires |worlds| == |scans| + 1
    ensures r.Some? ==> r.value < |scans|
  {
    if scans == [] then None
    else
      var n := |scans| - 1;
      if Delivers(worlds[n], scans[n], key) then Some(n) else LastDelivery(worlds[..n + 1], scans[..n], key)
  }

  /** In every run: an alert is in step with its rule exactly if the last transition delivered was also marked. One
      that has fallen behind comes back with the next transition that is delivered and marked, and not before. */
  lemma {:induction false} RunInStepIff(worlds: seq<World>, scans: seq<Scan>, key: Key)
    requires IsRun(worlds, scans)
    ensures
      var last := LastDelivery(worlds, scans, key);
      InStep(worlds[|scans|], key) <==> last.None? || key !in scans[last.value].unmarked
    decreases |scans|
  {
    if scans != [] {
      var n := |scans| - 1;
      RunInStepIff(worlds[..n + 1], scans[..n], key);
      assert ScanStep(worlds[n], scans[n], worlds[n + 1]);
      assert ScansTo(worlds[n], scans[n], worlds[n + 1], key);
      InStepIff(worlds[n], scans[n], worlds[n + 1], key);
    }
  }

  /** In a run without failed marks, every alert stays in step with its rule. */
  lemma {:induction false} RunStaysInStep(worlds: seq<World>, scans: seq<Scan>, key: Key)
    requires IsRun(worlds, scans)
    requires forall i :: 0 <= i < |scans| ==> key !in scans[i].unmarked
    ensures InStep(worlds[|scans|], key)
    decreases |scans|
  {
    if scans != [] {
      var n := |scans| - 1;
      RunStaysInStep(worlds[..n + 1], scans[..n], key);
      assert ScanStep(worlds[n], scans[n], worlds[n + 1]);
      assert ScansTo(worlds[n], scans[n], worlds[n + 1], key);
    }
  }

  function Once(key: Key, bad: bool, at: Time): Evaluation {
    Evaluation(key, bad, !bad, at, 1, false, 0)
  }

  /** With a failed mark an alert outlives its reason: it is raised, the mark fails, and the rule turns good before
      the next scan, so that no transition is due. It is closed by the next bad spell that ends. */
  lemma FailedMarkStrandsAlert(key: Key)
    ensures
      var fine := (bad: bool, at: Time) => Scan([Once(key, bad, at)], {}, {});
      var w0 := World(map[], {});
      var w1 := World(map[key := Row(false, Core(true, 1, 0, 1))], {key});
      var w2 := World(map[key := Row(false, Core(false, 0, 1, 2))], {key});
      var w3 := World(map[key := Row(true, Core(true, 1, 0, 3))], {key});
      var w4 := World(map[key := Row(false, Core(false, 0, 1, 4))], {});
      && IsRun([w0, w1, w2, w3, w4], [Scan([Once(key, true, 1)], {}, {key}), fine(false, 2), fine(true, 3), fine(false, 4)])
      && !InStep(w2, key) && RowOf(w2.rows, key).core.desired == RowOf(w2.rows, key).active
      && InStep(w4, key)
  {
    var fine := (bad: bool, at: Time) => Scan([Once(key, bad, at)], {}, {});
    var w0 := World(map[], {});
    var w1 := World(map[key := Row(false, Core(true, 1, 0, 1))], {key});
    var w2 := World(map[key := Row(false, Core(false, 0, 1, 2))], {key});
    var w3 := World(map[key := Row(true, Core(true, 1, 0, 3))], {key});
    var w4 := World(map[key := Row(false, Core(false, 0, 1, 4))], {});
    OnceStep(key, true, 1, w0, w1, {key});
    OnceStep(key, false, 2, w1, w2, {});
    OnceStep(key, true, 3, w2, w3, {});
    OnceStep(key, false, 4, w3, w4, {});
  }

  /** A scan with one evaluation, on a table with one rule. */
  lemma OnceStep(key: Key, bad: bool, at: Time, w: World, w': World, unmarked: set<Key>)
    requires w.rows.Keys <= {key} && w'.rows.Keys <= {key} && w.alerts <= {key} && w'.alerts <= {key}
    requires
      var row := RowOf(w.rows, key);
      var core := Advance(row.core, Once(key, bad, at));
      && RowOf(w'.rows, key) == Row(if core.desired != row.active && key !in unmarked then core.desired else row.active, core)
      && (key in w'.alerts <==> if core.desired != row.active then core.desired else key in w.alerts)
    ensures ScanStep(w, Scan([Once(key, bad, at)], {}, unmarked), w')
  {
    var ev := Once(key, bad, at);
    OneEvaluation(ev);
    forall other
      ensures ScansTo(w, Scan([ev], {}, unmarked), w', other)
    {
      if other != key {
        assert Only([ev], other) == [];
      }
    }
  }

  lemma OneEvaluation(ev: Evaluation)
    ensures forall key :: Only([ev], key) == if key == ev.key then [ev] else []
    ensures forall c :: AdvanceAll(c, [ev]) == Advance(c, ev)
  {
    assert [ev][..0] == [];
  }

  // ---------------------------------------------------------------------------------------------
  // The engine
  // ---------------------------------------------------------------------------------------------

  function TransitionKeys(ts: seq<Transition>): seq<Key> {
    if ts == [] then []
    else
      var init, key := TransitionKeys(ts[..|ts| - 1]), ts[|ts| - 1].evaluation.key;
      if key in init then init else init + [key]
  }

  function Latest(ts: seq<Transition>, key: Key): Transition
    requires key in TransitionKeys(ts)
  {
    if ts[|ts| - 1].evaluation.key == key then ts[|ts| - 1] else Latest(ts[..|ts| - 1], key)
  }

  predicate DistinctRules(ts: seq<Transition>) {
    forall i, j :: 0 <= i < j < |ts| ==> ts[i].evaluation.key != ts[j].evaluation.key
  }

  /** Transitions of distinct rules need no deduplication. */
  lemma {:induction false} NothingToDeduplicate(ts: seq<Transition>)
    requires DistinctRules(ts)
    ensures |TransitionKeys(ts)| == |ts|
    ensures forall i :: 0 <= i < |ts| ==>
              TransitionKeys(ts)[i] == ts[i].evaluation.key && ts[i].evaluation.key in TransitionKeys(ts)
              && Latest(ts, ts[i].evaluation.key) == ts[i]
    decreases |ts|
  {
    if ts != [] {
      NothingToDeduplicate(ts[..|ts| - 1]);
    }
  }

  /** Keeps the latest transition of every rule, in the order in which the rules are first met. */
  method Deduplicate(values: seq<Transition>) returns (result: seq<Transition>)
    ensures |result| == |TransitionKeys(values)|
    ensures forall i :: 0 <= i < |result| ==> result[i] == Latest(values, TransitionKeys(values)[i])
    ensures DistinctRules(values) ==> result == values
  {
    var latest: map<Key, Transition> := map[];
    var order: seq<Key> := [];
    for k := 0 to |values|
      invariant order == TransitionKeys(values[..k])
      invariant forall key :: key in latest <==> key in order
      invariant forall key :: key in order ==> latest[key] == Latest(values[..k], key)
    {
      assert values[..k + 1][..k] == values[..k];
      var key := values[k].evaluation.key;
      if key !in latest {
        order := order + [key];
      }
      latest := latest[key := values[k]];
    }
    assert values[..|values|] == values;
    result := [];
    for k := 0 to |order|
      invariant |result| == k
      invariant forall i :: 0 <= i < k ==> result[i] == latest[order[i]]
    {
      result := result + [latest[order[k]]];
    }
    if DistinctRules(values) {
      NothingToDeduplicate(values);
    }
  }

  class RuleEngine {
    var rows: Rows
    var alerts: set<Key>

    function Contents(): World
      reads this
    {
      World(rows, alerts)
    }

    constructor ()
      ensures Contents() == World(map[], {})
    {
      rows, alerts := map[], {};
    }

    /** Counts a batch in one transaction. */
    method CountBatch(evs: seq<Evaluation>)
      returns (states: Rows, latest: map<Key, Evaluation>, order: seq<Key>)
      modifies this`rows
      ensures rows == ApplyAll(old(rows), evs)
      ensures order == Keys(evs)
      ensures forall key :: key in order ==> key in states && states[key] == RowOf(rows, key)
      ensures forall key :: key in order ==> key in latest && IsLatest(evs, key, latest[key])
    {
      states, latest, order := map[], map[], [];
      for k := 0 to |evs|
        invariant rows == ApplyAll(old(rows), evs[..k])
        invariant order == Keys(evs[..k])
        invariant forall key :: key in states <==> key in order
        invariant forall key :: key in latest <==> key in order
        invariant forall key :: key in order ==> key in rows && states[key] == rows[key]
        invariant forall key :: key in order ==> IsLatest(evs[..k], key, latest[key])
      {
        assert evs[..k + 1][..k] == evs[..k];
        var ev := evs[k];
        LatestSnoc(evs[..k + 1]);
        if ev.key !in latest {
          order := order + [ev.key];
        }
        var state := if ev.key in states then states[ev.key] else RowOf(rows, ev.key);
        if !Stale(ev, state.core.last) {
          state := state.(core := Count(state.core, ev));
        }
        rows := rows[ev.key := state];
        states := states[ev.key := state];
        latest := latest[ev.key := ev];
      }
      assert evs[..|evs|] == evs;
    }

    /** Counts a batch and reports the rules whose desired state is not the applied one. */
    method Apply(evs: seq<Evaluation>) returns (ts: seq<Transition>)
      modifies this`rows
      ensures rows == ApplyAll(old(rows), evs)
      ensures AreTransitions(rows, evs, ts) && DistinctRules(ts)
    {
      var states, latest, order := CountBatch(evs);
      KeysDistinct(evs);
      ts := CollectTransitions(states, latest, order, rows, evs);
    }

    method MarkApplied(key: Key, desired: bool)
      modifies this`rows
      ensures rows == Mark(old(rows), key, desired)
    {
      if key in rows && rows[key].core.desired == desired {
        rows := rows[key := rows[key].(active := desired)];
      }
    }

    /** One scan: count, deliver every transition, mark the delivered ones. */
    method ScanOnce(scan: Scan)
      modifies this
      ensures ScanStep(old(Contents()), scan, Contents())
    {
      var ts := Apply(scan.evs);
      ts := Deduplicate(ts);
      ghost var middle := Contents();
      ghost var done: set<Key> := {};
      KeysDistinct(scan.evs);
      OpenFacts(rows, Keys(scan.evs));
      for k := 0 to |ts|
        invariant forall key :: key in done <==> exists i :: 0 <= i < k && ts[i].evaluation.key == key
        invariant Progress(middle, Contents(), done, scan)
      {
        var key, desired := ts[k].evaluation.key, ts[k].desired;
        assert key in Open(middle.rows, Keys(scan.evs)) && key !in done;
        ghost var before := Contents();
        if key !in scan.unsent {
          alerts := if desired then alerts + {key} else alerts - {key};
          if key !in scan.unmarked {
            MarkApplied(key, desired);
          }
        }
        DeliverStep(middle, before, Contents(), done, key, scan);
        done := done + {key};
      }
      forall key
        ensures ScansTo(old(Contents()), scan, Contents(), key)
      {
        assert DeliveredTo(middle, Contents(), key, key in done, scan);
        ApplyIsPerRule(old(rows), scan.evs, key);
        KeysIff(scan.evs, key);
        assert key in done <==> key in Open(middle.rows, Keys(scan.evs));
      }
    }
  }

  /** Where a rule stands while the transitions are being delivered, `middle` being the world after counting. */
  predicate DeliveredTo(middle: World, w: World, key: Key, done: bool, scan: Scan) {
    var row0, row := RowOf(middle.rows, key), RowOf(w.rows, key);
    var due := done && Differs(middle.rows, key) && key !in scan.unsent;
    && row.core == row0.core
    && row.active == (if due && key !in scan.unmarked then row0.core.desired else row0.active)
    && (key in w.alerts <==> if due then row0.core.desired else key in middle.alerts)
  }

  ghost predicate Progress(middle: World, w: World, done: set<Key>, scan: Scan) {
    forall key :: DeliveredTo(middle, w, key, key in done, scan)
  }

  lemma DeliverStep(middle: World, w: World, w': World, done: set<Key>, key: Key, scan: Scan)
    requires Progress(middle, w, done, scan) && key !in done && Differs(middle.rows, key)
    requires w' == Deliver(w, key, RowOf(middle.rows, key).core.desired, scan)
    ensures Progress(middle, w', done + {key}, scan)
  {
    forall other
      ensures DeliveredTo(middle, w', other, other in done + {key}, scan)
    {
      assert DeliveredTo(middle, w, other, other in done, scan);
    }
  }

  method CollectTransitions(
    states: Rows, latest: map<Key, Evaluation>, order: seq<Key>, ghost rows: Rows, ghost evs: seq<Evaluation>)
    returns (ts: seq<Transition>)
    requires order == Keys(evs) && Distinct(order)
    requires forall key :: key in order ==> key in states && states[key] == RowOf(rows, key)
    requires forall key :: key in order ==> key in latest && IsLatest(evs, key, latest[key])
    ensures AreTransitions(rows, evs, ts) && DistinctRules(ts)
  {
    ts := [];
    ghost var open: seq<Key> := [];
    for k := 0 to |order|
      invariant open == Open(rows, order[..k]) && |ts| == |open|
      invariant forall i :: 0 <= i < |ts| ==>
        ts[i].evaluation.key == open[i] && ts[i].desired == RowOf(rows, open[i]).core.desired && IsLatest(evs, open[i], ts[i].evaluation)
    {
      assert order[..k + 1][..k] == order[..k];
      var key := order[k];
      LatestKey(evs, key);
      if states[key].core.desired != states[key].active {
        ts := ts + [Transition(latest[key], states[key].core.desired)];
        open := open + [key];
      }
    }
    assert order[..|order|] == order;
    OpenFacts(rows, order);
  }

  lemma LatestSnoc(evs: seq<Evaluation>)
    requires evs != []
    ensures IsLatest(evs, evs[|evs| - 1].key, evs[|evs| - 1])
    ensures forall key, ev :: key != evs[|evs| - 1].key && IsLatest(evs[..|evs| - 1], key, ev) ==> IsLatest(evs, key, ev)
  {
  }

  lemma {:induction false} LatestKey(evs: seq<Evaluation>, key: Key)
    ensures forall ev :: IsLatest(evs, key, ev) ==> ev.key == key
    decreases |evs|
  {
    if evs != [] {
      LatestKey(evs[..|evs| - 1], key);
    }
  }

  predicate IsLatest(evs: seq<Evaluation>, key: Key, ev: Evaluation) {
    Only(evs, key) != [] && Only(evs, key)[|Only(evs, key)| - 1] == ev
  }

  /** The counting of one evaluation, branch by branch. */
  function Count(c: Core, ev: Evaluation): (r: Core)
    requires !Stale(ev, c.last)
    ensures r == Advance(c, ev)
  {
    var counted := c.(last := ev.at);
    if ev.bad then
      var more := counted.(bad := c.bad + 1, good := 0);
      if more.bad >= ev.required then more.(desired := true) else more
    else if ev.good then
      var more := counted.(good := c.good + 1, bad := 0);
      if more.good >= ev.required then more.(desired := false) else more
    else counted.(bad := 0, good := 0)
  }
}
