/** Evaluating a snapshot of the servers (internal/ops/rules.go): availability, and the memory and disk rules over
    the recent resource samples in time order. */
module AlertSnapshot {
  import opened AlertRules
  import opened Common
  import opened AlertEngine

  const OFFLINE_THRESHOLD := 120
  const SAMPLE_MAX_AGE := 120

  datatype Sample = Sample(memoryTotal: int, memoryFree: int, diskTotal: int, diskFree: int, at: Time)

  datatype Server = Server(id: string, enabled: bool, lastSeen: Option<Time>, samples: seq<Sample>)

  predicate Recent(s: Sample, now: Time) {
    s.at <= now && now - s.at <= SAMPLE_MAX_AGE
  }

  function Total(code: Code, s: Sample): int {
    if code == MemoryLow then s.memoryTotal else s.diskTotal
  }

  function Free(code: Code, s: Sample): int {
    if code == MemoryLow then s.memoryFree else s.diskFree
  }

  function Low(code: Code): int { if code == MemoryLow then 10 else 15 }

  function High(code: Code): int { if code == MemoryLow then 15 else 20 }

  predicate Scarce(code: Code, s: Sample) {
    100 * Free(code, s) < Low(code) * Total(code, s)
  }

  predicate Ample(code: Code, s: Sample) {
    100 * Free(code, s) > High(code) * Total(code, s)
  }

  function Percent(code: Code, s: Sample): real
    requires Total(code, s) > 0
  {
    Free(code, s) as real / Total(code, s) as real * 100.0
  }

  /** A reading of memory is bad below ten percent free and good above fifteen, one of disk space bad below fifteen and
      good above twenty. It takes two that agree to open or close an alert. */
  lemma PercentIff(code: Code, id: string, s: Sample)
    requires code in {MemoryLow, DiskLow} && Total(code, s) > 0
    ensures
      var free, total := if code == MemoryLow then s.memoryFree else s.diskFree, if code == MemoryLow then s.memoryTotal else s.diskTotal;
      var percent, reading := free as real / total as real * 100.0, Reading(code, id, s);
      && (reading.bad <==> percent < if code == MemoryLow then 10.0 else 15.0)
      && (reading.good <==> percent > if code == MemoryLow then 15.0 else 20.0)
      && reading.key == Key(code, id) && reading.at == s.at && reading.required == 2
  {
    PercentBelow(Free(code, s), Total(code, s), Low(code));
    PercentAbove(Free(code, s), Total(code, s), High(code));
  }

  lemma PercentBelow(free: int, total: int, bound: int)
    requires total > 0 && bound in {10, 15, 20}
    ensures 100 * free < bound * total <==> free as real / total as real * 100.0 < bound as real
  {
    Products(free, total, bound);
    Compare(100 * free, bound * total, free as real / total as real * 100.0, bound as real, total as real);
  }

  lemma PercentAbove(free: int, total: int, bound: int)
    requires total > 0 && bound in {10, 15, 20}
    ensures 100 * free > bound * total <==> free as real / total as real * 100.0 > bound as real
  {
    Products(free, total, bound);
    Compare(bound * total, 100 * free, bound as real, free as real / total as real * 100.0, total as real);
  }

  /** Both sides of the comparison, multiplied by the total. */
  lemma Products(free: int, total: int, bound: int)
    requires total > 0 && bound in {10, 15, 20}
    ensures (100 * free) as real == free as real / total as real * 100.0 * total as real
    ensures (bound * total) as real == bound as real * total as real
  {
    Scaled(free as real, total as real);
  }

  lemma Scaled(f: real, t: real)
    requires t > 0.0
    ensures f / t * 100.0 * t == 100.0 * f
  {
    var p := f / t;
    assert p * t == f;
    assert p * 100.0 * t == 100.0 * (p * t);
  }

  lemma Compare(a: int, b: int, p: real, q: real, t: real)
    requires t > 0.0 && a as real == p * t && b as real == q * t
    ensures a < b <==> p < q
  {
    Below(p, q, t);
  }

  lemma Below(p: real, q: real, t: real)
    requires t > 0.0
    ensures p < q <==> p * t < q * t
  {
    if p < q {
      assert (q - p) * t > 0.0;
    } else {
      assert (p - q) * t >= 0.0;
    }
  }

  function Reading(code: Code, id: string, s: Sample): Evaluation
    requires Total(code, s) > 0
  {
    Evaluation(Key(code, id), Scarce(code, s), Ample(code, s), s.at, 2, true, 0)
  }

  /** The readings of one resource: one for every recent sample that measured it, in order. */
  function Readings(code: Code, id: string, now: Time, samples: seq<Sample>): seq<Evaluation> {
    if samples == [] then []
    else
      var init, s := Readings(code, id, now, samples[..|samples| - 1]), samples[|samples| - 1];
      if Recent(s, now) && Total(code, s) > 0 then init + [Reading(code, id, s)] else init
  }

  predicate InTimeOrder(samples: seq<Sample>) {
    forall i, j :: 0 <= i < j < |samples| ==> samples[i].at <= samples[j].at
  }

  function InsertAt(sorted: seq<Sample>, k: nat, s: Sample): seq<Sample>
    requires k <= |sorted|
  {
    sorted[..k] + [s] + sorted[k..]
  }

  lemma InsertAtFacts(sorted: seq<Sample>, k: nat, s: Sample)
    requires k <= |sorted|
    ensures multiset(InsertAt(sorted, k, s)) == multiset(sorted) + multiset{s}
  {
    assert sorted == sorted[..k] + sorted[k..];
  }

  lemma InsertInOrder(sorted: seq<Sample>, k: nat, s: Sample)
    requires k <= |sorted| && InTimeOrder(sorted)
    requires forall i :: k <= i < |sorted| ==> sorted[i].at > s.at
    requires k > 0 ==> sorted[k - 1].at <= s.at
    ensures InTimeOrder(InsertAt(sorted, k, s))
  {
    var longer := InsertAt(sorted, k, s);
    forall i, j | 0 <= i < j < |longer|
      ensures longer[i].at <= longer[j].at
    {
      assert longer[i] == if i < k then sorted[i] else if i == k then s else sorted[i - 1];
      assert longer[j] == if j < k then sorted[j] else if j == k then s else sorted[j - 1];
    }
  }

  method InsertByTime(sorted: seq<Sample>, s: Sample) returns (longer: seq<Sample>)
    requires InTimeOrder(sorted)
    ensures InTimeOrder(longer) && multiset(longer) == multiset(sorted) + multiset{s}
    ensures InTimeOrder(sorted + [s]) ==> longer == sorted + [s]
  {
    var k := |sorted|;
    ghost var appended := sorted + [s];
    while k > 0 && sorted[k - 1].at > s.at
      invariant 0 <= k <= |sorted|
      invariant forall i :: k <= i < |sorted| ==> sorted[i].at > s.at
      invariant InTimeOrder(appended) ==> k == |sorted|
    {
      assert appended[k - 1] == sorted[k - 1] && appended[|sorted|] == s;
      k := k - 1;
    }
    longer := InsertAt(sorted, k, s);
    InsertInOrder(sorted, k, s);
    InsertAtFacts(sorted, k, s);
  }

  method SortByTime(samples: seq<Sample>) returns (sorted: seq<Sample>)
    ensures InTimeOrder(sorted) && multiset(sorted) == multiset(samples)
    ensures InTimeOrder(samples) ==> sorted == samples
  {
    sorted := [];
    for k := 0 to |samples|
      invariant InTimeOrder(sorted) && multiset(sorted) == multiset(samples[..k])
      invariant InTimeOrder(samples) ==> sorted == samples[..k]
    {
      assert samples[..k + 1] == samples[..k] + [samples[k]];
      sorted := InsertByTime(sorted, samples[k]);
    }
    assert samples[..|samples|] == samples;
  }

  function Availability(server: Server, now: Time): Evaluation {
    var bad := server.enabled && (server.lastSeen.None? || server.lastSeen.value <= now - OFFLINE_THRESHOLD);
    Evaluation(Key(AgentOffline, server.id), bad, !bad, now, 1, false, 0)
  }

  /** A server is offline exactly if it is enabled and was never seen, or not for two minutes; one finding is enough. */
  lemma OfflineIff(server: Server, now: Time)
    ensures
      var ev := Availability(server, now);
      && (ev.bad <==> server.enabled && (server.lastSeen == None || server.lastSeen.value + 120 <= now))
      && (ev.good <==> !ev.bad) && ev.key == Key(AgentOffline, server.id) && ev.at == now && ev.required == 1
  {
  }

  /** A disabled server counts as good at once. */
  function Disabled(code: Code, id: string, now: Time): Evaluation {
    Evaluation(Key(code, id), false, true, now, 1, false, 0)
  }

  /** The rules of a disabled server are all good, and it takes one finding to close their alerts. */
  lemma DisabledIsGood(server: Server, now: Time, sorted: seq<Sample>)
    requires !server.enabled
    ensures
      var evs := OfServer(server, now, sorted);
      && |evs| == 3 && evs[0].key.code == AgentOffline && evs[1].key.code == MemoryLow && evs[2].key.code == DiskLow
      && forall k :: 0 <= k < 3 ==> !evs[k].bad && evs[k].good && evs[k].required == 1 && evs[k].at == now && evs[k].key == Key(evs[k].key.code, server.id)
  {
  }

  function OfSample(id: string, now: Time, s: Sample): seq<Evaluation> {
    if s.at > now || now - s.at > SAMPLE_MAX_AGE then []
    else
      (if s.memoryTotal > 0 then [Reading(MemoryLow, id, s)] else [])
      + (if s.diskTotal > 0 then [Reading(DiskLow, id, s)] else [])
  }

  function OfSamples(id: string, now: Time, samples: seq<Sample>): seq<Evaluation> {
    if samples == [] then []
    else OfSamples(id, now, samples[..|samples| - 1]) + OfSample(id, now, samples[|samples| - 1])
  }

  function OfServer(server: Server, now: Time, sorted: seq<Sample>): seq<Evaluation> {
    [Availability(server, now)]
    + if server.enabled then OfSamples(server.id, now, sorted)
      else [Disabled(MemoryLow, server.id, now), Disabled(DiskLow, server.id, now)]
  }

  method EvaluateServer(server: Server, now: Time) returns (evs: seq<Evaluation>, sorted: seq<Sample>)
    ensures InTimeOrder(sorted) && multiset(sorted) == multiset(server.samples)
    ensures InTimeOrder(server.samples) ==> sorted == server.samples
    ensures evs == OfServer(server, now, sorted)
  {
    evs := [Availability(server, now)];
    sorted := SortByTime(server.samples);
    if !server.enabled {
      evs := evs + [Disabled(MemoryLow, server.id, now), Disabled(DiskLow, server.id, now)];
      return;
    }
    var readings: seq<Evaluation> := [];
    for k := 0 to |sorted|
      invariant readings == OfSamples(server.id, now, sorted[..k])
    {
      OfSamplesNext(server.id, now, sorted, k);
      var more := EvaluateSample(server.id, now, sorted[k]);
      readings := readings + more;
    }
    assert sorted[..|sorted|] == sorted;
    evs := evs + readings;
  }

  lemma OfSamplesNext(id: string, now: Time, samples: seq<Sample>, k: nat)
    requires k < |samples|
    ensures OfSamples(id, now, samples[..k + 1]) == OfSamples(id, now, samples[..k]) + OfSample(id, now, samples[k])
  {
    assert samples[..k + 1][..k] == samples[..k];
  }

  method EvaluateSample(id: string, now: Time, sample: Sample) returns (evs: seq<Evaluation>)
    ensures evs == OfSample(id, now, sample)
  {
    evs := [];
    if sample.at > now || now - sample.at > SAMPLE_MAX_AGE {
      return;
    }
    if sample.memoryTotal > 0 {
      evs := evs + [Reading(MemoryLow, id, sample)];
    }
    if sample.diskTotal > 0 {
      evs := evs + [Reading(DiskLow, id, sample)];
    }
  }

  lemma {:induction false} OnlyJoins(a: seq<Evaluation>, b: seq<Evaluation>, key: Key)
    ensures Only(a + b, key) == Only(a, key) + Only(b, key)
    decreases |b|
  {
    if b == [] {
      assert a + b == a;
    } else {
      OnlyJoins(a, b[..|b| - 1], key);
      assert (a + b)[..|a + b| - 1] == a + b[..|b| - 1];
    }
  }

  lemma OnlyOne(ev: Evaluation, key: Key)
    ensures Only([ev], key) == if key == ev.key then [ev] else []
  {
    assert [ev][..0] == [];
  }

  lemma OnlyOfSample(id: string, now: Time, s: Sample, key: Key)
    ensures Only(OfSample(id, now, s), key) ==
            if (key.code == MemoryLow || key.code == DiskLow) && key.source == id && Recent(s, now) && Total(key.code, s) > 0
            then [Reading(key.code, id, s)] else []
  {
    if Recent(s, now) {
      var memory := if s.memoryTotal > 0 then [Reading(MemoryLow, id, s)] else [];
      var disk := if s.diskTotal > 0 then [Reading(DiskLow, id, s)] else [];
      OnlyJoins(memory, disk, key);
      if s.memoryTotal > 0 {
        OnlyOne(Reading(MemoryLow, id, s), key);
      }
      if s.diskTotal > 0 {
        OnlyOne(Reading(DiskLow, id, s), key);
      }
    }
  }

  lemma {:induction false} OnlyOfSamples(id: string, now: Time, samples: seq<Sample>, key: Key)
    ensures Only(OfSamples(id, now, samples), key) ==
            if (key.code == MemoryLow || key.code == DiskLow) && key.source == id then Readings(key.code, id, now, samples) else []
    decreases |samples|
  {
    if samples != [] {
      var n := |samples| - 1;
      OnlyOfSamples(id, now, samples[..n], key);
      OnlyJoins(OfSamples(id, now, samples[..n]), OfSample(id, now, samples[n]), key);
      OnlyOfSample(id, now, samples[n], key);
    }
  }

  /** What each rule of a server gets: its own readings in time order, whatever the other resource measured. */
  lemma RulesAreSeparate(server: Server, now: Time, sorted: seq<Sample>, key: Key)
    ensures Only(OfServer(server, now, sorted), key) ==
            if key.source != server.id then []
            else match key.code
                 case AgentOffline => [Availability(server, now)]
                 case MemoryLow => if server.enabled then Readings(MemoryLow, server.id, now, sorted) else [Disabled(MemoryLow, server.id, now)]
                 case DiskLow => if server.enabled then Readings(DiskLow, server.id, now, sorted) else [Disabled(DiskLow, server.id, now)]
                 case _ => []
  {
    var first := Availability(server, now);
    OnlyOne(first, key);
    if server.enabled {
      OnlyJoins([first], OfSamples(server.id, now, sorted), key);
      OnlyOfSamples(server.id, now, sorted, key);
    } else {
      var memory, disk := Disabled(MemoryLow, server.id, now), Disabled(DiskLow, server.id, now);
      assert [memory, disk] == [memory] + [disk];
      OnlyJoins([first], [memory] + [disk], key);
      OnlyJoins([memory], [disk], key);
      OnlyOne(memory, key);
      OnlyOne(disk, key);
    }
  }

  predicate DistinctTimes(samples: seq<Sample>) {
    forall i, j :: 0 <= i < j < |samples| ==> samples[i].at != samples[j].at
  }

  /** Every reading is of a recent sample, and never good and bad at once. */
  lemma {:induction false} ReadingsFromSamples(code: Code, id: string, now: Time, samples: seq<Sample>, ev: Evaluation)
    requires ev in Readings(code, id, now, samples)
    ensures ev.sampled && ev.at <= now <= ev.at + SAMPLE_MAX_AGE && !(ev.bad && ev.good)
    ensures exists i :: 0 <= i < |samples| && samples[i].at == ev.at
    decreases |samples|
  {
    var n := |samples| - 1;
    var init := samples[..n];
    if ev in Readings(code, id, now, init) {
      ReadingsFromSamples(code, id, now, init, ev);
      var i :| 0 <= i < n && init[i].at == ev.at;
      assert samples[i].at == ev.at;
    } else {
      assert ev == Reading(code, id, samples[n]) && samples[n].at == ev.at;
    }
  }

  predicate Nondecreasing(h: seq<Evaluation>) {
    forall i, j :: 0 <= i < j < |h| ==> h[i].at <= h[j].at
  }

  /** The readings come in the order of time, and strictly so if the samples have distinct times. */
  lemma {:induction false} ReadingsAscend(code: Code, id: string, now: Time, samples: seq<Sample>)
    requires InTimeOrder(samples)
    ensures Nondecreasing(Readings(code, id, now, samples))
    ensures DistinctTimes(samples) ==> Ascending(Readings(code, id, now, samples))
    decreases |samples|
  {
    if samples != [] {
      var n := |samples| - 1;
      ReadingsAscend(code, id, now, samples[..n]);
      assert samples == samples[..n] + [samples[n]];
      ReadingsSnoc(code, id, now, samples[..n], samples[n]);
      var init := Readings(code, id, now, samples[..n]);
      forall ev | ev in init
        ensures ev.at <= samples[n].at && (DistinctTimes(samples) ==> ev.at < samples[n].at)
      {
        ReadingsFromSamples(code, id, now, samples[..n], ev);
        var i :| 0 <= i < n && samples[..n][i].at == ev.at;
        assert samples[i].at == ev.at <= samples[n].at;
      }
      if DistinctTimes(samples) {
        assert DistinctTimes(samples[..n]);
      }
      AscendSnoc(init, if Total(code, samples[n]) > 0 then Reading(code, id, samples[n]) else Disabled(code, id, samples[n].at));
    }
  }

  lemma AscendSnoc(h: seq<Evaluation>, ev: Evaluation)
    ensures Nondecreasing(h) && (forall x :: x in h ==> x.at <= ev.at) ==> Nondecreasing(h + [ev])
    ensures Ascending(h) && (forall x :: x in h ==> x.at < ev.at) ==> Ascending(h + [ev])
  {
    assert forall k :: 0 <= k < |h| ==> h[k] in h;
  }

  lemma ReadingsSnoc(code: Code, id: string, now: Time, samples: seq<Sample>, s: Sample)
    ensures Readings(code, id, now, samples + [s]) ==
            Readings(code, id, now, samples) + if Recent(s, now) && Total(code, s) > 0 then [Reading(code, id, s)] else []
  {
    assert (samples + [s])[..|samples|] == samples;
  }
}
