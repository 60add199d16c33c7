/** Which samples the counters of a rule get to see (internal/ops/postgres.go, internal/ops/rules.go): a scan reads
    the last two samples of a server, and leaves out those that are too old or did not measure the resource. */
module AlertSampling {
  import opened AlertRules
  import AlertEngine
  import opened AlertSnapshot
  import opened Common

  /** A scan at `now`, when the first `end` samples were there. */
  datatype ScanAt = ScanAt(now: Time, end: nat)

  /** The samples of a server as the query orders them. */
  predicate Table(h: seq<Sample>) {
    InTimeOrder(h) && forall i :: 0 <= i < |h| ==> EPOCH < h[i].at
  }

  /** Clock and table only grow. */
  predicate Growing(scans: seq<ScanAt>, n: nat) {
    && (forall k :: 0 <= k < |scans| ==> scans[k].end <= n)
    && (forall k, l :: 0 <= k < l < |scans| ==> scans[k].now <= scans[l].now && scans[k].end <= scans[l].end)
  }

  function First(end: nat): nat {
    if end < 2 then 0 else end - 2
  }

  /** The sample is among the last two at the scan, is recent then, and measured the resource. */
  predicate Readable(h: seq<Sample>, i: nat, s: ScanAt, code: Code) {
    i < s.end <= i + 2 && i < |h| && Recent(h[i], s.now) && Total(code, h[i]) > 0
  }

  predicate WasRead(h: seq<Sample>, i: nat, scans: seq<ScanAt>, code: Code) {
    exists k :: 0 <= k < |scans| && Readable(h, i, scans[k], code)
  }

  // ---------------------------------------------------------------------------------------------
  // The samples read, in the order in which they are read
  // ---------------------------------------------------------------------------------------------

  function ReadsBetween(h: seq<Sample>, lo: nat, hi: nat, now: Time, code: Code): seq<nat>
    requires hi <= |h|
  {
    if hi <= lo then []
    else
      var init := ReadsBetween(h, lo, hi - 1, now, code);
      if Recent(h[hi - 1], now) && Total(code, h[hi - 1]) > 0 then init + [hi - 1] else init
  }

  function Reads(h: seq<Sample>, s: ScanAt, code: Code): seq<nat>
    requires s.end <= |h|
  {
    ReadsBetween(h, First(s.end), s.end, s.now, code)
  }

  function AllReads(h: seq<Sample>, scans: seq<ScanAt>, code: Code): seq<nat>
    requires Growing(scans, |h|)
  {
    if scans == [] then []
    else
      var n := |scans| - 1;
      AllReads(h, scans[..n], code) + Reads(h, scans[n], code)
  }

  predicate Rising(idx: seq<nat>) {
    forall s, t :: 0 <= s < t < |idx| ==> idx[s] < idx[t]
  }

  lemma {:induction false} ReadsBetweenFacts(h: seq<Sample>, lo: nat, hi: nat, now: Time, code: Code)
    requires hi <= |h|
    ensures Rising(ReadsBetween(h, lo, hi, now, code))
    ensures forall i: nat :: i in ReadsBetween(h, lo, hi, now, code) <==> lo <= i < hi && Recent(h[i], now) && Total(code, h[i]) > 0
    decreases hi
  {
    if hi > lo {
      ReadsBetweenFacts(h, lo, hi - 1, now, code);
      RisingSnoc(ReadsBetween(h, lo, hi - 1, now, code), hi - 1);
    }
  }

  lemma RisingSnoc(idx: seq<nat>, i: nat)
    requires Rising(idx) && forall j: nat :: j in idx ==> j < i
    ensures Rising(idx + [i]) && forall j: nat :: j in idx + [i] <==> j in idx || j == i
  {
    assert forall t :: 0 <= t < |idx| ==> idx[t] in idx;
  }

  lemma {:induction false} AllReadsIff(h: seq<Sample>, scans: seq<ScanAt>, code: Code, i: nat)
    requires Growing(scans, |h|)
    ensures i in AllReads(h, scans, code) <==> WasRead(h, i, scans, code)
    decreases |scans|
  {
    if scans != [] {
      var n := |scans| - 1;
      AllReadsIff(h, scans[..n], code, i);
      ReadsBetweenFacts(h, First(scans[n].end), scans[n].end, scans[n].now, code);
      assert forall k :: 0 <= k < n ==> scans[..n][k] == scans[k];
    }
  }

  /** Whenever a sample is read, it was read before, or all read before it are older. */
  predicate NewOrKnown(idx: seq<nat>) {
    forall t :: 0 <= t < |idx| ==> idx[t] in idx[..t] || Above(idx[..t], idx[t])
  }

  predicate Above(idx: seq<nat>, i: nat) {
    forall s :: 0 <= s < |idx| ==> idx[s] < i
  }

  lemma AppendReads(a: seq<nat>, r: seq<nat>)
    requires NewOrKnown(a) && Rising(r)
    requires forall t :: 0 <= t < |r| ==> r[t] in a || Above(a, r[t])
    ensures NewOrKnown(a + r)
  {
    var idx := a + r;
    forall t | 0 <= t < |idx|
      ensures idx[t] in idx[..t] || Above(idx[..t], idx[t])
    {
      if t < |a| {
        assert idx[..t] == a[..t];
      } else {
        assert idx[..t] == a + r[..t - |a|];
      }
    }
  }

  /** A sample that can be read at a scan could be read at every earlier scan that read a later one. */
  lemma EarlierScanReadsToo(h: seq<Sample>, i: nat, j: nat, earlier: ScanAt, later: ScanAt, code: Code)
    requires Table(h) && i < j && earlier.now <= later.now && earlier.end <= later.end
    requires Readable(h, i, later, code) && Readable(h, j, earlier, code)
    ensures Readable(h, i, earlier, code)
  {
  }

  lemma {:induction false} ReadsAreNewOrKnown(h: seq<Sample>, scans: seq<ScanAt>, code: Code)
    requires Table(h) && Growing(scans, |h|)
    ensures NewOrKnown(AllReads(h, scans, code))
    decreases |scans|
  {
    if scans != [] {
      var n := |scans| - 1;
      var a, r := AllReads(h, scans[..n], code), Reads(h, scans[n], code);
      ReadsAreNewOrKnown(h, scans[..n], code);
      ReadsBetweenFacts(h, First(scans[n].end), scans[n].end, scans[n].now, code);
      forall t | 0 <= t < |r|
        ensures r[t] in a || Above(a, r[t])
      {
        if !Above(a, r[t]) {
          var s :| 0 <= s < |a| && a[s] >= r[t];
          OlderWasRead(h, scans, code, r[t], a[s]);
        }
      }
      AppendReads(a, r);
    }
  }

  lemma OlderWasRead(h: seq<Sample>, scans: seq<ScanAt>, code: Code, i: nat, j: nat)
    requires Table(h) && scans != [] && Growing(scans, |h|)
    requires i in Reads(h, scans[|scans| - 1], code) && j in AllReads(h, scans[..|scans| - 1], code) && i <= j
    ensures i in AllReads(h, scans[..|scans| - 1], code)
  {
    var n := |scans| - 1;
    var init, last := scans[..n], scans[n];
    ReadsBetweenFacts(h, First(last.end), last.end, last.now, code);
    AllReadsIff(h, init, code, i);
    AllReadsIff(h, init, code, j);
    var k :| 0 <= k < n && Readable(h, j, init[k], code);
    if i < j {
      EarlierScanReadsToo(h, i, j, init[k], last, code);
    }
    assert Readable(h, i, init[k], code);
  }

  // ---------------------------------------------------------------------------------------------
  // The samples counted
  // ---------------------------------------------------------------------------------------------

  /** Evaluations of a rule in the order of time. */
  predicate Line(e: seq<Evaluation>) {
    && (forall i :: 0 <= i < |e| ==> e[i].sampled && EPOCH < e[i].at)
    && (forall i, j :: 0 <= i < j < |e| ==> e[i].at <= e[j].at)
  }

  predicate Within(e: seq<Evaluation>, idx: seq<nat>) {
    forall t :: 0 <= t < |idx| ==> idx[t] < |e|
  }

  function Pick(e: seq<Evaluation>, idx: seq<nat>): seq<Evaluation>
    requires Within(e, idx)
  {
    if idx == [] then [] else Pick(e, idx[..|idx| - 1]) + [e[idx[|idx| - 1]]]
  }

  function Elements(idx: seq<nat>): (r: set<nat>)
    ensures forall i: nat :: i in r <==> i in idx
  {
    set i | i in idx
  }

  /** Of the evaluations in `chosen`, one for every time, in the order of time. */
  function Kept(e: seq<Evaluation>, chosen: set<nat>, n: nat): seq<Evaluation>
    requires n <= |e|
  {
    if n == 0 then []
    else
      var init := Kept(e, chosen, n - 1);
      if n - 1 in chosen && e[n - 1].at > LastOf(init) then init + [e[n - 1]] else init
  }

  lemma {:induction false} KeptSame(e: seq<Evaluation>, a: set<nat>, b: set<nat>, n: nat)
    requires n <= |e| && forall i: nat :: i < n ==> (i in a <==> i in b)
    ensures Kept(e, a, n) == Kept(e, b, n)
    decreases n
  {
    if n > 0 {
      KeptSame(e, a, b, n - 1);
    }
  }

  lemma {:induction false} KeptBeyond(e: seq<Evaluation>, chosen: set<nat>, m: nat, n: nat)
    requires m <= n <= |e| && forall i :: i in chosen ==> i < m
    ensures Kept(e, chosen, n) == Kept(e, chosen, m)
    decreases n
  {
    if n > m {
      KeptBeyond(e, chosen, m, n - 1);
    }
  }

  lemma {:induction false} LastCovers(e: seq<Evaluation>, chosen: set<nat>, i: nat, n: nat)
    requires i < n <= |e| && i in chosen
    ensures e[i].at <= LastOf(Kept(e, chosen, n))
    decreases n
  {
    if i < n - 1 {
      LastCovers(e, chosen, i, n - 1);
    }
  }

  /** Choosing one that was chosen before changes nothing; choosing a later one than all appends it, unless its
      time is taken. */
  lemma KeptAdd(e: seq<Evaluation>, chosen: set<nat>, i: nat)
    requires i < |e| && e[i].sampled && (i in chosen || forall j :: j in chosen ==> j < i)
    ensures
      var kept := Kept(e, chosen, |e|);
      Kept(e, chosen + {i}, |e|) == if Stale(e[i], LastOf(kept)) then kept else kept + [e[i]]
  {
    if i in chosen {
      LastCovers(e, chosen, i, |e|);
      assert chosen + {i} == chosen;
    } else {
      KeptBeyond(e, chosen, i, |e|);
      KeptSame(e, chosen, chosen + {i}, i);
      KeptBeyond(e, chosen + {i}, i + 1, |e|);
    }
  }

  /** Of samples read in this way, the counters take exactly one for every time. */
  lemma {:induction false} TakenAreKept(e: seq<Evaluation>, idx: seq<nat>, n: nat)
    requires Line(e) && Within(e, idx) && NewOrKnown(idx) && n <= |idx|
    ensures Taken(Pick(e, idx[..n])) == Kept(e, Elements(idx[..n]), |e|)
    decreases n
  {
    if n == 0 {
      assert idx[..n] == [] && Pick(e, []) == [] && Elements([]) == {};
      KeptBeyond(e, {}, 0, |e|);
    } else {
      TakenAreKept(e, idx, n - 1);
      assert idx[n - 1] in idx[..n - 1] || Above(idx[..n - 1], idx[n - 1]);
      TakenStep(e, idx[..n - 1], idx[n - 1]);
      PrefixSnoc(idx, n);
    }
  }

  lemma PrefixSnoc(idx: seq<nat>, n: nat)
    requires 0 < n <= |idx|
    ensures idx[..n] == idx[..n - 1] + [idx[n - 1]]
  {
  }

  lemma TakenStep(e: seq<Evaluation>, idx: seq<nat>, i: nat)
    requires Within(e, idx) && i < |e| && e[i].sampled && (i in idx || Above(idx, i))
    requires Taken(Pick(e, idx)) == Kept(e, Elements(idx), |e|)
    ensures Within(e, idx + [i]) && Taken(Pick(e, idx + [i])) == Kept(e, Elements(idx + [i]), |e|)
  {
    PickSnoc(e, idx, i);
    ElementsSnoc(idx, i);
    TakenSnoc(Pick(e, idx), e[i]);
    KeptAdd(e, Elements(idx), i);
  }

  lemma ElementsSnoc(idx: seq<nat>, i: nat)
    ensures Elements(idx + [i]) == Elements(idx) + {i}
  {
  }

  lemma TakenSnoc(evs: seq<Evaluation>, ev: Evaluation)
    ensures Taken(evs + [ev]) == if Stale(ev, LastOf(Taken(evs))) then Taken(evs) else Taken(evs) + [ev]
  {
    assert (evs + [ev])[..|evs|] == evs;
  }

  predicate Distinct(e: seq<Evaluation>, n: nat)
    requires n <= |e|
  {
    forall i, j :: 0 <= i < j < n ==> e[i].at != e[j].at
  }

  lemma DistinctSnoc(e: seq<Evaluation>, n: nat)
    requires Line(e) && 0 < n <= |e|
    ensures Distinct(e, n) <==> Distinct(e, n - 1) && (n > 1 ==> e[n - 2].at < e[n - 1].at)
  {
    if Distinct(e, n - 1) && (n > 1 ==> e[n - 2].at < e[n - 1].at) {
      forall i, j | 0 <= i < j < n
        ensures e[i].at != e[j].at
      {
        if j == n - 1 && i < n - 2 {
          assert e[i].at <= e[n - 2].at;
        }
      }
    }
  }

  /** Kept is everything exactly if everything was read and no two times are equal. */
  lemma {:induction false} KeptAllIff(e: seq<Evaluation>, chosen: set<nat>, n: nat)
    requires Line(e) && n <= |e|
    ensures |Kept(e, chosen, n)| <= n
    ensures |Kept(e, chosen, n)| == n <==> (forall i: nat :: i < n ==> i in chosen) && Distinct(e, n)
    ensures |Kept(e, chosen, n)| == n ==> LastOf(Kept(e, chosen, n)) == if n == 0 then EPOCH else e[n - 1].at
    decreases n
  {
    if n > 0 {
      KeptAllIff(e, chosen, n - 1);
      DistinctSnoc(e, n);
    }
  }

  /** The readings of the samples of a table; a sample that did not measure the resource has none that is used. */
  function LineOf(h: seq<Sample>, code: Code, id: string): (e: seq<Evaluation>)
    ensures |e| == |h|
    ensures forall i :: 0 <= i < |h| ==> e[i].at == h[i].at && e[i].sampled
    ensures forall i :: 0 <= i < |h| && Total(code, h[i]) > 0 ==> e[i] == Reading(code, id, h[i])
  {
    seq(|h|, i requires 0 <= i < |h| =>
      if Total(code, h[i]) > 0 then Reading(code, id, h[i]) else Evaluation(Key(code, id), false, false, h[i].at, 2, true, 0))
  }

  lemma AllReadsWithin(h: seq<Sample>, scans: seq<ScanAt>, code: Code, id: string)
    requires Growing(scans, |h|)
    ensures Within(LineOf(h, code, id), AllReads(h, scans, code))
  {
    var idx := AllReads(h, scans, code);
    forall t | 0 <= t < |idx|
      ensures idx[t] < |h|
    {
      AllReadsIff(h, scans, code, idx[t]);
    }
  }

  /** Which samples count: exactly those that some scan could read, one for every time. Hence all of them count
      exactly if each was among the last two, recent and measured at some scan, and all times are distinct. */
  lemma EverySampleCountsIff(h: seq<Sample>, scans: seq<ScanAt>, code: Code, id: string)
    requires Table(h) && Growing(scans, |h|)
    ensures
      var e, idx := LineOf(h, code, id), AllReads(h, scans, code);
      && Within(e, idx)
      && (forall i: nat :: i in idx <==> WasRead(h, i, scans, code))
      && Taken(Pick(e, idx)) == Kept(e, Elements(idx), |h|)
      && (|Taken(Pick(e, idx))| == |h| <==> Distinct(e, |h|) && forall i: nat :: i < |h| ==> WasRead(h, i, scans, code))
  {
    var e, idx := LineOf(h, code, id), AllReads(h, scans, code);
    AllReadsWithin(h, scans, code, id);
    ReadsAreNewOrKnown(h, scans, code);
    TakenAreKept(e, idx, |idx|);
    assert idx[..|idx|] == idx;
    KeptAllIff(e, Elements(idx), |h|);
    forall i: nat
      ensures i in idx <==> WasRead(h, i, scans, code)
    {
      AllReadsIff(h, scans, code, i);
    }
  }

  // ---------------------------------------------------------------------------------------------
  // The scans themselves
  // ---------------------------------------------------------------------------------------------

  /** What a scan evaluates for the rule are the readings of the samples it can read. */
  lemma {:induction false} ReadingsAreReads(h: seq<Sample>, lo: nat, hi: nat, now: Time, code: Code, id: string)
    requires lo <= hi <= |h|
    ensures Within(LineOf(h, code, id), ReadsBetween(h, lo, hi, now, code))
    ensures Readings(code, id, now, h[lo..hi]) == Pick(LineOf(h, code, id), ReadsBetween(h, lo, hi, now, code))
    decreases hi
  {
    if lo < hi {
      ReadingsAreReads(h, lo, hi - 1, now, code, id);
      ReadsNext(h, lo, hi - 1, now, code, id);
    } else {
      assert h[lo..hi] == [];
    }
  }

  lemma ReadsNext(h: seq<Sample>, lo: nat, hi: nat, now: Time, code: Code, id: string)
    requires lo <= hi < |h|
    requires Within(LineOf(h, code, id), ReadsBetween(h, lo, hi, now, code))
    requires Readings(code, id, now, h[lo..hi]) == Pick(LineOf(h, code, id), ReadsBetween(h, lo, hi, now, code))
    ensures Within(LineOf(h, code, id), ReadsBetween(h, lo, hi + 1, now, code))
    ensures Readings(code, id, now, h[lo..hi + 1]) == Pick(LineOf(h, code, id), ReadsBetween(h, lo, hi + 1, now, code))
  {
    ReadingsStep(LineOf(h, code, id), ReadsBetween(h, lo, hi, now, code), h[lo..hi], h[hi], hi, now, code, id);
    WindowSnoc(h, lo, hi + 1);
  }

  lemma WindowSnoc(h: seq<Sample>, lo: nat, hi: nat)
    requires lo < hi <= |h|
    ensures h[lo..hi] == h[lo..hi - 1] + [h[hi - 1]]
  {
  }

  lemma ReadingsStep(
    e: seq<Evaluation>, idx: seq<nat>, window: seq<Sample>, s: Sample, i: nat, now: Time, code: Code, id: string)
    requires Within(e, idx) && i < |e| && (Total(code, s) > 0 ==> e[i] == Reading(code, id, s))
    requires Readings(code, id, now, window) == Pick(e, idx)
    ensures
      var more := if Recent(s, now) && Total(code, s) > 0 then idx + [i] else idx;
      Within(e, more) && Readings(code, id, now, window + [s]) == Pick(e, more)
  {
    ReadingsSnoc(code, id, now, window, s);
    PickSnoc(e, idx, i);
  }

  lemma PickSnoc(e: seq<Evaluation>, idx: seq<nat>, i: nat)
    requires Within(e, idx) && i < |e|
    ensures Within(e, idx + [i]) && Pick(e, idx + [i]) == Pick(e, idx) + [e[i]]
  {
    assert (idx + [i])[..|idx|] == idx;
  }

  lemma {:induction false} PickJoins(e: seq<Evaluation>, a: seq<nat>, b: seq<nat>)
    requires Within(e, a) && Within(e, b)
    ensures Within(e, a + b) && Pick(e, a + b) == Pick(e, a) + Pick(e, b)
    decreases |b|
  {
    if b == [] {
      assert a + b == a;
    } else {
      PickJoins(e, a, b[..|b| - 1]);
      assert (a + b)[..|a + b| - 1] == a + b[..|b| - 1];
    }
  }

  /** What one scan evaluates for the rule. */
  method ScanWindow(id: string, window: seq<Sample>, now: Time, code: Code) returns (evs: seq<Evaluation>)
    requires InTimeOrder(window) && (code == MemoryLow || code == DiskLow)
    ensures evs == Readings(code, id, now, window)
  {
    var all, sorted := EvaluateServer(Server(id, true, None, window), now);
    RulesAreSeparate(Server(id, true, None, window), now, sorted, Key(code, id));
    evs := AlertEngine.Only(all, Key(code, id));
  }

  /** Scans one server at the given times. The counters of a rule end as the trailing runs of the samples that
      some scan could read, one for every time. */
  method ScanServer(id: string, h: seq<Sample>, scans: seq<ScanAt>, code: Code) returns (core: Core)
    requires Table(h) && Growing(scans, |h|) && (code == MemoryLow || code == DiskLow)
    ensures
      var kept := Kept(LineOf(h, code, id), Elements(AllReads(h, scans, code)), |h|);
      core == Core(DesiredOf(kept), Trailing(kept, Bad), Trailing(kept, Good), LastOf(kept))
  {
    core := START;
    ghost var e := LineOf(h, code, id);
    ghost var idx: seq<nat> := [];
    for k := 0 to |scans|
      invariant Growing(scans[..k], |h|) && idx == AllReads(h, scans[..k], code) && Within(e, idx)
      invariant core == AdvanceAll(START, Pick(e, idx))
    {
      var s := scans[k];
      var evs := ScanWindow(id, h[First(s.end)..s.end], s.now, code);
      ReadingsAreReads(h, First(s.end), s.end, s.now, code, id);
      core := AdvanceAll(core, evs);
      OneMoreScan(h, scans, k, code);
      PickJoins(e, idx, Reads(h, s, code));
      AdvanceAllJoins(START, Pick(e, idx), evs);
      idx := idx + Reads(h, s, code);
    }
    assert scans[..|scans|] == scans;
    EverySampleCountsIff(h, scans, code, id);
    CountersAreTrailingRuns(Pick(e, idx));
  }

  lemma OneMoreScan(h: seq<Sample>, scans: seq<ScanAt>, k: nat, code: Code)
    requires Growing(scans, |h|) && k < |scans|
    ensures Growing(scans[..k], |h|) && Growing(scans[..k + 1], |h|)
    ensures AllReads(h, scans[..k + 1], code) == AllReads(h, scans[..k], code) + Reads(h, scans[k], code)
  {
    assert scans[..k + 1][..k] == scans[..k];
  }

  // ---------------------------------------------------------------------------------------------
  // Samples that are lost
  // ---------------------------------------------------------------------------------------------

  function Memory(free: int, at: Time): Sample {
    Sample(100, free, 0, 0, at)
  }

  /** Three samples before the only scan: the first is never read, and the alert that two bad ones raise is missed. */
  lemma FasterSamplesAreLost(id: string)
    ensures
      var h, scans := [Memory(5, 1), Memory(5, 2), Memory(50, 3)], [ScanAt(3, 3)];
      && Table(h) && Growing(scans, |h|) && AllReads(h, scans, MemoryLow) == [1, 2]
      && AdvanceAll(START, LineOf(h, MemoryLow, id)).desired
      && !AdvanceAll(START, Pick(LineOf(h, MemoryLow, id), [1, 2])).desired
  {
    var h := [Memory(5, 1), Memory(5, 2), Memory(50, 3)];
    var none: seq<ScanAt> := [];
    assert [ScanAt(3, 3)][..0] == none;
    assert ReadsBetween(h, 1, 1, 3, MemoryLow) == [] && ReadsBetween(h, 1, 2, 3, MemoryLow) == [1];
    assert AllReads(h, [ScanAt(3, 3)], MemoryLow) == [1, 2];
    LostSample(LineOf(h, MemoryLow, id));
  }

  lemma LostSample(e: seq<Evaluation>)
    requires |e| == 3 && Line(e) && e[0].at < e[1].at < e[2].at
    requires e[0].bad && e[1].bad && !e[2].bad && e[2].good && forall i :: 0 <= i < 3 ==> e[i].required == 2
    ensures AdvanceAll(START, e).desired && !AdvanceAll(START, Pick(e, [1, 2])).desired
  {
    var noIndex: seq<nat> := [];
    PickSnoc(e, noIndex, 1);
    assert noIndex + [1] == [1] && [1] + [2] == [1, 2];
    PickSnoc(e, [1], 2);
    assert Pick(e, [1, 2]) == [e[1], e[2]];
    assert e[..2] == [e[0], e[1]];
    TwoSteps(e[1], e[2]);
    TwoSteps(e[0], e[1]);
  }

  /** One sample and one scan, which comes too late for it. */
  lemma SlowScanLosesSample(id: string)
    ensures
      var h, scans := [Memory(5, 1)], [ScanAt(200, 1)];
      Table(h) && Growing(scans, |h|) && AllReads(h, scans, MemoryLow) == [] && LineOf(h, MemoryLow, id)[0].bad
  {
    var none: seq<ScanAt> := [];
    assert [ScanAt(200, 1)][..0] == none;
  }

  lemma TwoSteps(a: Evaluation, b: Evaluation)
    ensures AdvanceAll(START, [a, b]) == Advance(Advance(START, a), b)
  {
    var none: seq<Evaluation> := [];
    assert [a, b][..1] == [a] && [a][..0] == none;
    assert AdvanceAll(START, [a]) == Advance(START, a);
  }
}
