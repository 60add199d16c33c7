/** Script synchronisation (internal/script/sync_service.go): the row that tracks one script version on one server,
    with its retry budget. */
module ScriptSync {
  import opened Common

  type Time = int

  type Sha = string

  const FAILURE_LIMIT := 3
  const TRANSFER_TIMEOUT := 120

  datatype Status = Pending | Downloading | Ready | Failed | Drifted

  /** `artifact` is the checksum stored with a verified result. `failedAt` is the time of the last counted failure
      and `resets` how often the budget was renewed: both are history, read by no operation. */
  datatype Row = Row(
    status: Status, failures: nat, nextRetry: Option<Time>, updatedAt: Time, createdAt: Time,
    artifact: Option<Sha>, failedAt: Option<Time>, resets: nat)

  function LowerChar(c: char): char {
    if 'A' <= c <= 'Z' then c - 'A' + 'a' else c
  }

  /** Letters in lower case: checksums are compared and stored so. */
  function Lower(sha: Sha): Sha {
    seq(|sha|, i requires 0 <= i < |sha| => LowerChar(sha[i]))
  }

  predicate SameSha(a: Sha, b: Sha) {
    Lower(a) == Lower(b)
  }

  function Pow2(n: nat): nat {
    if n == 0 then 1 else 2 * Pow2(n - 1)
  }

  // ---------------------------------------------------------------------------------------------
  // The operations on one row
  // ---------------------------------------------------------------------------------------------

  function NewRow(now: Time): Row {
    Row(Pending, 0, None, now, now, None, None, 0)
  }

  predicate Claimable(r: Row, now: Time) {
    || r.status == Pending
    || r.status == Drifted
    || (r.status == Failed && r.failures < FAILURE_LIMIT && r.nextRetry.Some? && r.nextRetry.value <= now)
  }

  function Claim(r: Row, now: Time): Row {
    r.(status := Downloading, nextRetry := None, updatedAt := now)
  }

  predicate TimedOut(r: Row, now: Time) {
    r.status == Downloading && r.updatedAt < now - TRANSFER_TIMEOUT
  }

  function Expire(r: Row, now: Time): Row {
    if !TimedOut(r, now) then r
    else
      r.(status := Failed, artifact := None,
         failures := if r.failures + 1 < FAILURE_LIMIT then r.failures + 1 else FAILURE_LIMIT,
         nextRetry := if r.failures + 1 < FAILURE_LIMIT then Some(now + 30 * Pow2(r.failures)) else None,
         updatedAt := now, failedAt := Some(now))
  }

  /** The states an agent reports. */
  datatype Report = ReportReady(sha: Sha) | ReportFailed | ReportDrifted

  function Fail(r: Row, now: Time): Row {
    if r.status == Failed then r.(artifact := None, updatedAt := now)
    else
      var count := r.failures + 1;
      r.(status := Failed, artifact := None, failures := count,
         nextRetry := if count < FAILURE_LIMIT then Some(now + 30 * Pow2(count - 1)) else None,
         updatedAt := now, failedAt := Some(now))
  }

  function Record(r: Row, report: Report, expected: Sha, now: Time): Row {
    match report
    case ReportReady(sha) =>
      if SameSha(sha, expected)
      then r.(status := Ready, failures := 0, nextRetry := None, updatedAt := now, artifact := Some(Lower(expected)), resets := r.resets + 1)
      else Fail(r, now)
    case ReportFailed => Fail(r, now)
    case ReportDrifted => if r.status == Failed then r else r.(status := Drifted, artifact := None, updatedAt := now)
  }

  predicate Retryable(r: Row) {
    r.status == Failed || r.status == Drifted
  }

  function Retry(r: Row, now: Time): Row {
    r.(status := Pending, failures := 0, nextRetry := None, updatedAt := now, resets := r.resets + 1)
  }

  // ---------------------------------------------------------------------------------------------
  // Every history of one row
  // ---------------------------------------------------------------------------------------------

  datatype Event = DoClaim(now: Time) | DoExpire(now: Time) | DoRecord(report: Report, now: Time) | DoRetry(now: Time)

  /** An operation that does not apply leaves the row alone. */
  function Step(r: Row, e: Event, expected: Sha): Row {
    match e
    case DoClaim(now) => if Claimable(r, now) then Claim(r, now) else r
    case DoExpire(now) => Expire(r, now)
    case DoRecord(report, now) => Record(r, report, expected, now)
    case DoRetry(now) => if Retryable(r) then Retry(r, now) else r
  }

  function Run(created: Time, events: seq<Event>, expected: Sha): Row {
    if events == [] then NewRow(created)
    else Step(Run(created, events[..|events| - 1], expected), events[|events| - 1], expected)
  }

  /** The retry budget: the count stays within the limit and reaches it only in `Failed`; a retry time is set
      exactly in a failed row below the limit, and doubles with every failure; a checksum is stored exactly in a
      ready row, and it is the expected one in lower case. */
  predicate Budget(r: Row, expected: Sha) {
    && r.failures <= FAILURE_LIMIT
    && (r.failures == FAILURE_LIMIT ==> r.status == Failed)
    && (r.status == Failed ==> 1 <= r.failures && r.failedAt.Some?)
    && (r.nextRetry.Some? <==> r.status == Failed && r.failures < FAILURE_LIMIT)
    && (r.nextRetry.Some? ==> r.nextRetry.value == r.failedAt.value + 30 * Pow2(r.failures - 1))
    && (r.artifact.Some? <==> r.status == Ready)
    && (r.artifact.Some? ==> r.artifact.value == Lower(expected))
  }

  lemma StepKeepsBudget(r: Row, e: Event, expected: Sha)
    requires Budget(r, expected)
    ensures Budget(Step(r, e, expected), expected)
  {
  }

  lemma {:induction false} RunKeepsBudget(created: Time, events: seq<Event>, expected: Sha)
    ensures Budget(Run(created, events, expected), expected)
    decreases |events|
  {
    if events != [] {
      RunKeepsBudget(created, events[..|events| - 1], expected);
    }
  }

  /** How often the row entered `Failed` since its budget was last renewed. */
  function FailuresSpent(created: Time, events: seq<Event>, expected: Sha): nat {
    if events == [] then 0
    else
      var init := events[..|events| - 1];
      var r, r' := Run(created, init, expected), Run(created, events, expected);
      if r'.resets != r.resets then 0
      else FailuresSpent(created, init, expected) + if r.status != Failed && r'.status == Failed then 1 else 0
  }

  /** The stored count is exact: replayed failures and drift reports cost nothing, lost results cost one each. */
  lemma {:induction false} CountIsExact(created: Time, events: seq<Event>, expected: Sha)
    ensures Run(created, events, expected).failures == FailuresSpent(created, events, expected)
    decreases |events|
  {
    if events != [] {
      var init := events[..|events| - 1];
      CountIsExact(created, init, expected);
      RunKeepsBudget(created, init, expected);
    }
  }

  /** A verified result, or an operator's retry. */
  predicate Renews(e: Event, expected: Sha) {
    (e.DoRecord? && e.report.ReportReady? && SameSha(e.report.sha, expected)) || e.DoRetry?
  }

  /** A row at the limit is left by nothing else: it stays failed, and is never handed out again. */
  lemma {:induction false} LimitHolds(created: Time, before: seq<Event>, after: seq<Event>, expected: Sha)
    requires Run(created, before, expected).failures == FAILURE_LIMIT
    requires forall e :: e in after ==> !Renews(e, expected)
    ensures
      var r := Run(created, before + after, expected);
      r.status == Failed && r.failures == FAILURE_LIMIT && forall now :: !Claimable(r, now)
    decreases |after|
  {
    RunKeepsBudget(created, before, expected);
    if after == [] {
      assert before + after == before;
    } else {
      var init := after[..|after| - 1];
      LimitHolds(created, before, init, expected);
      assert (before + after)[..|before + after| - 1] == before + init;
      assert after[|after| - 1] in after;
    }
  }

  /** And both ways out work. */
  lemma LimitIsLeft(created: Time, events: seq<Event>, e: Event, expected: Sha)
    requires Run(created, events, expected).failures == FAILURE_LIMIT && Renews(e, expected)
    ensures
      var r := Run(created, events + [e], expected);
      r.failures == 0 && r.status == (if e.DoRetry? then Pending else Ready)
  {
    RunKeepsBudget(created, events, expected);
    assert (events + [e])[..|events|] == events;
  }

  /** A failed row is handed out again no sooner than its backoff after the failure. */
  lemma BackoffIsKept(created: Time, events: seq<Event>, now: Time, expected: Sha)
    ensures
      var r := Run(created, events, expected);
      r.status == Failed && Claimable(r, now) ==>
        1 <= r.failures <= 2 && r.failedAt.Some? && now >= r.failedAt.value + if r.failures == 1 then 30 else 60
  {
    RunKeepsBudget(created, events, expected);
  }

  /** A row that is due: pending, drifted, or failed fewer than three times with its retry time come. */
  predicate Waits(r: Row, now: Time) {
    match r.status
    case Pending | Drifted => true
    case Failed => r.failures < 3 && r.nextRetry.Some? && now >= r.nextRetry.value
    case _ => false
  }

  /** An upper-case letter and its lower-case form. */
  predicate CasePair(upper: char, lower: char) {
    'A' <= upper <= 'Z' && lower as int == upper as int + 32
  }

  /** The same text, but for the case of letters. */
  predicate SameLetters(a: Sha, b: Sha) {
    |a| == |b| && forall i :: 0 <= i < |a| ==> a[i] == b[i] || CasePair(a[i], b[i]) || CasePair(b[i], a[i])
  }

  lemma SameShaIff(a: Sha, b: Sha)
    ensures SameSha(a, b) <==> SameLetters(a, b)
    ensures SameLetters(Lower(a), a) && forall i :: 0 <= i < |a| ==> !('A' <= Lower(a)[i] <= 'Z')
  {
    assert forall i :: 0 <= i < |a| ==> Lower(a)[i] == LowerChar(a[i]);
    assert forall i :: 0 <= i < |b| ==> Lower(b)[i] == LowerChar(b[i]);
    if SameSha(a, b) {
      assert |Lower(a)| == |Lower(b)|;
    }
  }

  /** One more failure: the first two set the time of a retry, 30 and 60 seconds later, the third none. */
  predicate FailsOnce(r: Row, now: Time, r': Row) {
    r' == r.(status := Failed, artifact := None, failures := r.failures + 1, updatedAt := now, failedAt := Some(now),
             nextRetry := if r.failures == 0 then Some(now + 30) else if r.failures == 1 then Some(now + 60) else None)
  }

  /** What an event makes of a row, by its status. */
  predicate Becomes(r: Row, e: Event, expected: Sha, r': Row) {
    match e
    case DoClaim(now) =>
      if Waits(r, now) then r' == r.(status := Downloading, nextRetry := None, updatedAt := now) else r' == r
    case DoExpire(now) =>
      if r.status == Downloading && r.updatedAt + 120 < now then FailsOnce(r, now, r') else r' == r
    case DoRetry(now) =>
      if r.status in {Failed, Drifted} then r' == r.(status := Pending, failures := 0, nextRetry := None, updatedAt := now, resets := r'.resets)
      else r' == r
    case DoRecord(ReportReady(sha), now) =>
      if SameLetters(sha, expected) then
        && r' == r.(status := Ready, failures := 0, nextRetry := None, updatedAt := now, artifact := r'.artifact, resets := r'.resets)
        && r'.artifact.Some? && SameLetters(r'.artifact.value, expected)
      else Refused(r, now, r')
    case DoRecord(ReportFailed, now) => Refused(r, now, r')
    case DoRecord(ReportDrifted, now) =>
      if r.status == Failed then r' == r else r' == r.(status := Drifted, artifact := None, updatedAt := now)
  }

  /** A failure that is reported again is not counted again. */
  predicate Refused(r: Row, now: Time, r': Row) {
    if r.status == Failed then r' == r.(updatedAt := now) else FailsOnce(r, now, r')
  }

  /** Every event on every reachable row. A new row is pending, with nothing spent and nothing stored. */
  lemma EventsByStatus(created: Time, events: seq<Event>, e: Event, expected: Sha)
    ensures
      var first := Run(created, [], expected);
      first.status == Pending && first.failures == 0 && first.nextRetry == None && first.artifact == None && first.updatedAt == first.createdAt == created
    ensures Becomes(Run(created, events, expected), e, expected, Run(created, events + [e], expected))
  {
    var r := Run(created, events, expected);
    RunKeepsBudget(created, events, expected);
    assert (events + [e])[..|events|] == events;
    Backoffs();
    SameShaIff(expected, expected);
    if e.DoRecord? && e.report.ReportReady? {
      SameShaIff(e.report.sha, expected);
    }
  }

  lemma Backoffs()
    ensures Pow2(0) == 1 && Pow2(1) == 2
  {
  }

  // ---------------------------------------------------------------------------------------------
  // The table of one server
  // ---------------------------------------------------------------------------------------------

  type Version = string

  /** Drifted rows first, then pending ones, then retries. */
  function Urgency(s: Status): nat {
    match s case Drifted => 0 case Pending => 1 case _ => 2
  }

  predicate NotAfter(a: Row, b: Row) {
    || Urgency(a.status) < Urgency(b.status)
    || (Urgency(a.status) == Urgency(b.status)
        && (a.updatedAt < b.updatedAt || (a.updatedAt == b.updatedAt && a.createdAt <= b.createdAt)))
  }

  function Expired(v: Version, r: Row, now: Time, busy: set<Version>): Row {
    if v in busy then r else Expire(r, now)
  }

  /** A transfer under way for more than two minutes is lost, and costs a failure, unless somebody else holds the row. */
  predicate LostOrKept(v: Version, r: Row, now: Time, busy: set<Version>, r': Row) {
    if v !in busy && r.status == Downloading && r.updatedAt + 120 < now then FailsOnce(r, now, r') else r' == r
  }

  lemma ExpiredIsLost(v: Version, r: Row, now: Time, busy: set<Version>, expected: Sha)
    requires Budget(r, expected)
    ensures LostOrKept(v, r, now, busy, Expired(v, r, now, busy))
  {
    Backoffs();
  }

  /** Of two rows that are due, a drifted one never comes after another, and a failed one never before another; among
      equals the one that has waited longer comes first. */
  predicate Comes(first: Row, second: Row) {
    && (second.status == Drifted ==> first.status == Drifted)
    && (first.status == Failed ==> second.status == Failed)
    && (first.status == second.status ==>
          first.updatedAt < second.updatedAt || (first.updatedAt == second.updatedAt && first.createdAt <= second.createdAt))
  }

  /** A transfer that expires is not due at once. */
  lemma ExpiredWaits(v: Version, r: Row, now: Time, busy: set<Version>)
    ensures Claimable(Expired(v, r, now, busy), now) <==> Waits(r, now)
    ensures Waits(r, now) ==> Expired(v, r, now, busy) == r
  {
    Pow2Positive(r.failures);
  }

  /** What is handed out: a row that is due and not held, and of these one that comes first; nothing only if there is none. */
  predicate FirstDue(rows: map<Version, Row>, now: Time, held: set<Version>, command: Option<Version>) {
    match command
    case None => forall v :: v in rows && v !in held ==> !Waits(rows[v], now)
    case Some(best) =>
      && best in rows && best !in held && Waits(rows[best], now)
      && forall v :: v in rows && v !in held && Waits(rows[v], now) ==> Comes(rows[best], rows[v])
  }

  lemma FirstIsTaken(rows: map<Version, Row>, expired: map<Version, Row>, now: Time, busy: set<Version>, held: set<Version>, command: Option<Version>)
    requires expired.Keys == rows.Keys && forall v :: v in rows ==> expired[v] == Expired(v, rows[v], now, busy)
    requires command.None? ==> forall v :: v in expired && v !in held ==> !Claimable(expired[v], now)
    requires command.Some? ==>
               && command.value in expired && command.value !in held && Claimable(expired[command.value], now)
               && forall v :: v in expired && v !in held && Claimable(expired[v], now) ==> NotAfter(expired[command.value], expired[v])
    ensures FirstDue(rows, now, held, command)
  {
    forall v | v in rows
      ensures Claimable(expired[v], now) <==> Waits(rows[v], now)
      ensures Waits(rows[v], now) ==> expired[v] == rows[v]
    {
      ExpiredWaits(v, rows[v], now, busy);
    }
  }

  lemma {:induction false} Pow2Positive(n: nat)
    ensures Pow2(n) > 0
  {
    if n > 0 {
      Pow2Positive(n - 1);
    }
  }

  class SyncService {
    const expected: map<Version, Sha>
    var rows: map<Version, Row>

    constructor (expected: map<Version, Sha>)
      ensures this.expected == expected && rows == map[]
    {
      this.expected := expected;
      rows := map[];
    }

    ghost predicate Valid()
      reads this
    {
      forall v :: v in rows ==> v in expected && Budget(rows[v], expected[v])
    }

    /** Inserts a row for a version that has none. */
    method Prepare(version: Version, now: Time)
      requires Valid() && version in expected
      modifies this
      ensures Valid()
      ensures rows == if version in old(rows) then old(rows) else old(rows)[version := NewRow(now)]
    {
      if version !in rows {
        rows := rows[version := NewRow(now)];
      }
    }

    /** Fails every transfer that has run for too long. The rows in `busy` are locked by other transactions and
        skipped. */
    method ExpireTransfers(now: Time, busy: set<Version>)
      requires Valid()
      modifies this
      ensures Valid() && rows.Keys == old(rows).Keys
      ensures forall v :: v in rows ==> rows[v] == Expired(v, old(rows)[v], now, busy)
      ensures forall v :: v in rows ==> LostOrKept(v, old(rows)[v], now, busy, rows[v])
    {
      var keys := rows.Keys;
      while keys != {}
        invariant rows.Keys == old(rows).Keys && keys <= rows.Keys
        invariant forall v :: v in rows ==> rows[v] == if v in keys then old(rows)[v] else Expired(v, old(rows)[v], now, busy)
        decreases |keys|
      {
        var key :| key in keys;
        keys := keys - {key};
        if key !in busy && TimedOut(rows[key], now) {
          rows := rows[key := Expire(rows[key], now)];
        }
      }
      forall v | v in rows
        ensures Budget(rows[v], expected[v]) && LostOrKept(v, old(rows)[v], now, busy, rows[v])
      {
        StepKeepsBudget(old(rows)[v], DoExpire(now), expected[v]);
        ExpiredIsLost(v, old(rows)[v], now, busy, expected[v]);
      }
    }

    /** A row a claim may take: due, and locked by no other transaction. */
    ghost predicate Free(v: Version, now: Time, busy: set<Version>)
      reads this
    {
      v in rows && v !in busy && Claimable(rows[v], now)
    }

    /** The most urgent row that may be handed out, if any. */
    method Select(now: Time, busy: set<Version>) returns (best: Option<Version>)
      ensures best.None? <==> forall v :: !Free(v, now, busy)
      ensures best.Some? ==> Free(best.value, now, busy)
      ensures best.Some? ==> forall v :: Free(v, now, busy) ==> NotAfter(rows[best.value], rows[v])
    {
      best := None;
      var keys := rows.Keys;
      while keys != {}
        invariant keys <= rows.Keys
        invariant best.None? <==> forall v :: v !in keys ==> !Free(v, now, busy)
        invariant best.Some? ==> best.value !in keys && Free(best.value, now, busy)
        invariant best.Some? ==> forall v :: v !in keys && Free(v, now, busy) ==> NotAfter(rows[best.value], rows[v])
        decreases |keys|
      {
        var key :| key in keys;
        keys := keys - {key};
        if key !in busy && Claimable(rows[key], now) && (best.None? || !NotAfter(rows[best.value], rows[key])) {
          best := Some(key);
        }
      }
    }

    /** Expires lost transfers, then hands the most urgent claimable row out. The rows other transactions hold are
        skipped: `busy` while transfers expire, `held` while a row is claimed. */
    method NextCommand(now: Time, busy: set<Version>, held: set<Version>) returns (command: Option<Version>)
      requires Valid()
      modifies this
      ensures Valid() && rows.Keys == old(rows).Keys
      ensures forall v :: v in rows ==>
        var r := Expired(v, old(rows)[v], now, busy);
        rows[v] == if command == Some(v) then Claim(r, now) else r
      ensures command.None? ==> forall v :: !Free(v, now, held)
      ensures command.Some? ==> command.value in rows && command.value !in held
      ensures command.Some? ==> Claimable(Expired(command.value, old(rows)[command.value], now, busy), now)
      ensures command.Some? ==> forall v :: v in rows && v !in held && Claimable(Expired(v, old(rows)[v], now, busy), now) ==>
        NotAfter(Expired(command.value, old(rows)[command.value], now, busy), Expired(v, old(rows)[v], now, busy))
      ensures FirstDue(old(rows), now, held, command)
      ensures forall v :: v in rows && command != Some(v) ==> LostOrKept(v, old(rows)[v], now, busy, rows[v])
      ensures command.Some? ==> rows[command.value] == old(rows)[command.value].(status := Downloading, nextRetry := None, updatedAt := now)
    {
      ExpireTransfers(now, busy);
      ghost var expired := rows;
      command := Select(now, held);
      forall v | v in rows && v !in held && Claimable(rows[v], now) ensures Free(v, now, held) {}
      FirstIsTaken(old(rows), expired, now, busy, held, command);
      if command.Some? {
        rows := rows[command.value := Claim(rows[command.value], now)];
      }
    }

    /** Records an agent's report; false if there is no such row. */
    method RecordResult(version: Version, report: Report, now: Time) returns (found: bool)
      requires Valid()
      modifies this
      ensures Valid() && found == (version in old(rows))
      ensures rows == if found then old(rows)[version := Record(old(rows)[version], report, expected[version], now)] else old(rows)
    {
      if version !in rows {
        return false;
      }
      var row := rows[version];
      var failed := report.ReportFailed?;
      if report.ReportReady? {
        if !SameSha(report.sha, expected[version]) {
          failed := true;
        } else {
          row := row.(status := Ready, failures := 0, nextRetry := None, artifact := Some(Lower(expected[version])), resets := row.resets + 1);
        }
      }
      if report.ReportDrifted? && row.status == Failed {
        return true;
      }
      if report.ReportDrifted? {
        row := row.(status := Drifted, artifact := None);
      }
      if failed {
        if row.status != Failed {
          row := row.(failures := row.failures + 1, nextRetry := None, failedAt := Some(now));
          if row.failures < FAILURE_LIMIT {
            row := row.(nextRetry := Some(now + 30 * Pow2(row.failures - 1)));
          }
        }
        row := row.(status := Failed, artifact := None);
      }
      rows := rows[version := row.(updatedAt := now)];
      return true;
    }

    /** Restarts a failed or drifted row with a new budget; false if it is in no such state. */
    method RetryScript(version: Version, now: Time) returns (found: bool)
      requires Valid()
      modifies this
      ensures Valid() && found == (version in old(rows) && Retryable(old(rows)[version]))
      ensures rows == if found then old(rows)[version := Retry(old(rows)[version], now)] else old(rows)
    {
      if version !in rows || !Retryable(rows[version]) {
        return false;
      }
      rows := rows[version := Retry(rows[version], now)];
      return true;
    }
  }
}
