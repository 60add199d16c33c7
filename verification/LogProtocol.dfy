/** Exactly-once delivery of one log stream, for every interleaving of appends, sends, lost, repeated and
    late messages, and agent restarts (internal/logstream, internal/agent/log_client.go).

    Sequence numbers are unbounded. Chunk contents are byte strings; the server stores each one redacted. */
module LogProtocol {
  import opened Common
  import opened LogSplit

  type Content = seq<Byte>

  const MAX_CONTENT: nat := 65536

  // ---------------------------------------------------------------------------------------------
  // The agent's and the server's decisions
  // ---------------------------------------------------------------------------------------------

  predicate IsLast(pending: map<nat, Content>, last: nat) {
    if pending == map[] then last == 0
    else last in pending && forall k :: k in pending ==> k <= last
  }

  /** The sequence number an append starts at, given the last pending one and the cursor file. */
  function NextSequence(pendingLast: nat, cursor: Option<nat>): nat {
    match cursor
    case None => pendingLast + 1
    case Some(c) => if pendingLast > 0 && c <= pendingLast then pendingLast + 1 else c
  }

  datatype Reply = Next(next: nat) | Gap | Conflict | Invalid | StoreFailed

  datatype Accepted = Accepted(stored: seq<Content>, reply: Reply)

  /** `Service.Accept` on a stream holding `stored`. */
  function Accept(stored: seq<Content>, sequence: nat, content: Content, mask: Content -> Content): Accepted {
    var next := |stored| + 1;
    if sequence == 0 || |content| > MAX_CONTENT then Accepted(stored, Invalid)
    else if sequence > next then Accepted(stored, Gap)
    else if sequence < next then
      Accepted(stored, if stored[sequence - 1] == mask(content) then Next(next) else Conflict)
    else Accepted(stored + [mask(content)], Next(next + 1))
  }

  function Unacknowledged(pending: map<nat, Content>, next: nat): map<nat, Content> {
    map k | k in pending && k >= next :: pending[k]
  }

  function Redacted(mask: Content -> Content, contents: seq<Content>): seq<Content> {
    seq(|contents|, i requires 0 <= i < |contents| => mask(contents[i]))
  }

  /** Spool and server hold the stream together: the pending chunks and the cursor are those of the appended
      ones, the server's chunks are a gap-free prefix of them, and what is no longer pending is stored. */
  ghost predicate Coupled(appended: seq<Content>, pending: map<nat, Content>, cursor: Option<nat>, stored: seq<Content>, mask: Content -> Content) {
    && (forall k :: k in pending ==> 1 <= k <= |appended| && pending[k] == appended[k - 1])
    && cursor == (if appended == [] then None else Some(|appended| + 1))
    && |stored| <= |appended|
    && stored == Redacted(mask, appended[..|stored|])
    && forall k :: |stored| < k <= |appended| ==> k in pending
  }

  lemma NextIsFresh(appended: seq<Content>, pending: map<nat, Content>, cursor: Option<nat>, stored: seq<Content>, mask: Content -> Content, last: nat)
    requires Coupled(appended, pending, cursor, stored, mask) && IsLast(pending, last)
    ensures NextSequence(last, cursor) == |appended| + 1
  {
  }

  /** `extended` is `pending` with the chunks added under the numbers from `next` on. */
  ghost predicate Extends(pending: map<nat, Content>, next: nat, chunks: seq<Content>, extended: map<nat, Content>) {
    && (forall k :: k in extended <==> k in pending || next <= k < next + |chunks|)
    && (forall k :: next <= k < next + |chunks| ==> extended[k] == chunks[k - next])
    && (forall k :: k in pending && !(next <= k < next + |chunks|) ==> extended[k] == pending[k])
  }

  lemma AppendKeeps(appended: seq<Content>, pending: map<nat, Content>, cursor: Option<nat>, stored: seq<Content>, mask: Content -> Content,
                    chunks: seq<Content>, extended: map<nat, Content>)
    requires Coupled(appended, pending, cursor, stored, mask) && chunks != []
    requires Extends(pending, |appended| + 1, chunks, extended)
    ensures Coupled(appended + chunks, extended, Some(|appended| + |chunks| + 1), stored, mask)
  {
    assert (appended + chunks)[..|stored|] == appended[..|stored|];
  }

  /** A chunk of the stream, delivered any number of times and in any order, never conflicts, and is stored
      exactly when it is the next one and not too large. */
  lemma AcceptKeeps(appended: seq<Content>, pending: map<nat, Content>, cursor: Option<nat>, stored: seq<Content>, mask: Content -> Content, k: nat)
    requires Coupled(appended, pending, cursor, stored, mask) && 1 <= k <= |appended|
    ensures var a := Accept(stored, k, appended[k - 1], mask);
      && Coupled(appended, pending, cursor, a.stored, mask)
      && stored <= a.stored
      && (a.stored != stored <==> k == |stored| + 1 && |appended[k - 1]| <= MAX_CONTENT)
      && (a.reply.Next? <==> k <= |stored| + 1 && |appended[k - 1]| <= MAX_CONTENT)
      && (a.reply.Next? ==> a.reply.next == |a.stored| + 1 && k <= |a.stored|)
      && a.reply != Conflict && a.reply != StoreFailed
  {
    if k == |stored| + 1 {
      assert appended[..k] == appended[..|stored|] + [appended[k - 1]];
      assert Redacted(mask, appended[..k]) == Redacted(mask, appended[..|stored|]) + [mask(appended[k - 1])];
    }
  }

  lemma AcknowledgeKeeps(appended: seq<Content>, pending: map<nat, Content>, cursor: Option<nat>, stored: seq<Content>, mask: Content -> Content, next: nat)
    requires Coupled(appended, pending, cursor, stored, mask) && next <= |stored| + 1
    ensures Coupled(appended, Unacknowledged(pending, next), cursor, stored, mask)
  {
  }

  // ---------------------------------------------------------------------------------------------
  // The whole system
  // ---------------------------------------------------------------------------------------------

  /** `wire` and `acks` hold every message ever put on the network and not yet lost: a message in them may be
      delivered at any time, any number of times. The agent keeps nothing in memory between steps. */
  datatype System = System(
    appended: seq<Content>, pending: map<nat, Content>, cursor: Option<nat>, stored: seq<Content>,
    wire: set<(nat, Content)>, acks: set<nat>)

  datatype Action =
    | DoAppend(chunks: seq<Content>)
    | DoSend(sequence: nat)
    | DoDeliver(message: (nat, Content))
    | DoAcknowledge(next: nat)
    | DoLose(wire: set<(nat, Content)>, acks: set<nat>)

  ghost predicate Appends(s: System, s': System, chunks: seq<Content>, last: nat) {
    && IsLast(s.pending, last)
    && var next := NextSequence(last, s.cursor);
       && Extends(s.pending, next, chunks, s'.pending)
       && s' == s.(appended := s.appended + chunks, pending := s'.pending, cursor := Some(next + |chunks|))
  }

  ghost predicate StepBy(s: System, s': System, mask: Content -> Content, a: Action) {
    match a
    case DoAppend(chunks) =>
      chunks != [] && exists last :: Appends(s, s', chunks, last)
    case DoSend(k) =>
      k in s.pending && s' == s.(wire := s.wire + {(k, s.pending[k])})
    case DoDeliver(m) =>
      m in s.wire &&
      var a := Accept(s.stored, m.0, m.1, mask);
      s' == s.(stored := a.stored, acks := if a.reply.Next? then s.acks + {a.reply.next} else s.acks)
    case DoAcknowledge(next) =>
      next in s.acks && s' == s.(pending := Unacknowledged(s.pending, next))
    case DoLose(wire, acks) =>
      s' == s.(wire := s.wire - wire, acks := s.acks - acks)
  }

  ghost predicate Step(s: System, s': System, mask: Content -> Content) {
    exists a :: StepBy(s, s', mask, a)
  }

  ghost predicate Init(s: System) {
    s == System([], map[], None, [], {}, {})
  }

  ghost predicate IsRun(ss: seq<System>, mask: Content -> Content) {
    && |ss| > 0
    && Init(ss[0])
    && forall i :: 0 <= i < |ss| - 1 ==> Step(ss[i], ss[i + 1], mask)
  }

  ghost predicate Inv(s: System, mask: Content -> Content) {
    && Coupled(s.appended, s.pending, s.cursor, s.stored, mask)
    && (forall m :: m in s.wire ==> 1 <= m.0 <= |s.appended| && m.1 == s.appended[m.0 - 1])
    && (forall n :: n in s.acks ==> n <= |s.stored| + 1)
  }

  predicate Grows(s: System, s': System) {
    s.stored <= s'.stored && s.appended <= s'.appended && |s'.stored| <= |s.stored| + 1
  }

  lemma AppendStep(s: System, s': System, mask: Content -> Content, a: Action)
    requires Inv(s, mask) && StepBy(s, s', mask, a) && a.DoAppend?
    ensures Inv(s', mask) && Grows(s, s')
  {
    var last :| Appends(s, s', a.chunks, last);
    NextIsFresh(s.appended, s.pending, s.cursor, s.stored, mask, last);
    AppendKeeps(s.appended, s.pending, s.cursor, s.stored, mask, a.chunks, s'.pending);
    assert forall k :: 0 <= k < |s.appended| ==> s'.appended[k] == s.appended[k];
  }

  lemma DeliverStep(s: System, s': System, mask: Content -> Content, a: Action)
    requires Inv(s, mask) && StepBy(s, s', mask, a) && a.DoDeliver?
    ensures Inv(s', mask) && Grows(s, s')
  {
    AcceptKeeps(s.appended, s.pending, s.cursor, s.stored, mask, a.message.0);
  }

  lemma AcknowledgeStep(s: System, s': System, mask: Content -> Content, a: Action)
    requires Inv(s, mask) && StepBy(s, s', mask, a) && a.DoAcknowledge?
    ensures Inv(s', mask) && Grows(s, s')
  {
    AcknowledgeKeeps(s.appended, s.pending, s.cursor, s.stored, mask, a.next);
  }

  lemma WireStep(s: System, s': System, mask: Content -> Content, a: Action)
    requires Inv(s, mask) && StepBy(s, s', mask, a) && (a.DoSend? || a.DoLose?)
    ensures Inv(s', mask) && Grows(s, s')
  {
  }

  lemma StepKeepsInv(s: System, s': System, mask: Content -> Content, a: Action)
    requires Inv(s, mask) && StepBy(s, s', mask, a)
    ensures Inv(s', mask) && Grows(s, s')
  {
    match a
    case DoAppend(_) => AppendStep(s, s', mask, a);
    case DoDeliver(_) => DeliverStep(s, s', mask, a);
    case DoAcknowledge(_) => AcknowledgeStep(s, s', mask, a);
    case _ => WireStep(s, s', mask, a);
  }

  lemma {:induction false} RunKeepsInv(ss: seq<System>, mask: Content -> Content, i: nat)
    requires IsRun(ss, mask) && i < |ss|
    ensures Inv(ss[i], mask)
  {
    if i > 0 {
      RunKeepsInv(ss, mask, i - 1);
      assert Step(ss[i - 1], ss[i - 1 + 1], mask);
      var a :| StepBy(ss[i - 1], ss[i], mask, a);
      StepKeepsInv(ss[i - 1], ss[i], mask, a);
    }
  }

  ghost predicate Once(s: System, mask: Content -> Content) {
    && |s.stored| <= |s.appended|
    && s.stored == Redacted(mask, s.appended[..|s.stored|])
    && (forall k :: 1 <= k <= |s.appended| ==> k <= |s.stored| || (k in s.pending && s.pending[k] == s.appended[k - 1]))
  }

  /** Exactly once, in order: in every state of every run the server holds a gap-free prefix of the appended
      chunks, redacted, each once; and every appended chunk is stored or still pending on the agent. */
  lemma ExactlyOnce(ss: seq<System>, mask: Content -> Content, i: nat)
    requires IsRun(ss, mask) && i < |ss|
    ensures Once(ss[i], mask)
  {
    RunKeepsInv(ss, mask, i);
  }

  /** A chunk over the server's limit is never stored, and neither is any chunk of the stream behind it. */
  lemma {:induction false} OversizedIsNeverStored(ss: seq<System>, mask: Content -> Content, i: nat, k: nat)
    requires IsRun(ss, mask) && i < |ss| && 1 <= k <= |ss[i].appended| && |ss[i].appended[k - 1]| > MAX_CONTENT
    ensures |ss[i].stored| < k
    decreases i
  {
    if i > 0 {
      RunKeepsInv(ss, mask, i - 1);
      assert Step(ss[i - 1], ss[i - 1 + 1], mask);
      var a :| StepBy(ss[i - 1], ss[i], mask, a);
      StepKeepsInv(ss[i - 1], ss[i], mask, a);
      if k <= |ss[i - 1].appended| {
        OversizedIsNeverStored(ss, mask, i - 1, k);
        StoresOnlySmall(ss[i - 1], ss[i], mask, a);
      }
    }
  }

  lemma StoresOnlySmall(s: System, s': System, mask: Content -> Content, a: Action)
    requires Inv(s, mask) && StepBy(s, s', mask, a)
    ensures |s'.stored| > |s.stored| ==> |s.stored| < |s.appended| && |s.appended[|s.stored|]| <= MAX_CONTENT
  {
    if a.DoDeliver? {
      AcceptKeeps(s.appended, s.pending, s.cursor, s.stored, mask, a.message.0);
    }
  }

  /** What is stored stays stored, unchanged, for the rest of the run. */
  lemma {:induction false} StoredIsStable(ss: seq<System>, mask: Content -> Content, i: nat, j: nat)
    requires IsRun(ss, mask) && i <= j < |ss|
    ensures ss[i].stored <= ss[j].stored
    decreases j - i
  {
    if i < j {
      RunKeepsInv(ss, mask, i);
      assert Step(ss[i], ss[i + 1], mask);
      var a :| StepBy(ss[i], ss[i + 1], mask, a);
      StepKeepsInv(ss[i], ss[i + 1], mask, a);
      StoredIsStable(ss, mask, i + 1, j);
    }
  }

  // ---------------------------------------------------------------------------------------------
  // An append that dies before it writes the cursor
  // ---------------------------------------------------------------------------------------------

  /** What such appends leave: chunks that are right as far as they go and a cursor that may lag behind. */
  ghost predicate CursorMayLag(appended: seq<Content>, pending: map<nat, Content>, cursor: Option<nat>) {
    && (forall k :: k in pending ==> 1 <= k <= |appended|)
    && (cursor.Some? ==> 1 <= cursor.value <= |appended| + 1)
  }

  /** The next append then numbers its chunks right exactly when the last appended chunk is still pending or
      the cursor is up to date. */
  lemma NextIsRightIff(appended: seq<Content>, pending: map<nat, Content>, cursor: Option<nat>, last: nat)
    requires CursorMayLag(appended, pending, cursor) && IsLast(pending, last) && appended != []
    ensures NextSequence(last, cursor) == |appended| + 1 <==> |appended| in pending || cursor == Some(|appended| + 1)
  {
    assert |appended| in pending ==> last == |appended|;
    if pending != map[] { assert last in pending; }
  }
}
