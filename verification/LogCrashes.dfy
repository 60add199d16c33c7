/** Appends that die after writing chunk files and before the cursor file (internal/logstream/spool.go). */
module LogCrashes {
  import opened Common
  import opened LogSplit
  import opened LogProtocol

  /** A step of the system, or an append that dies: the chunks it has written stay, the cursor is as before. */
  datatype Move = Plain(action: Action) | Dies(chunks: seq<Content>)

  ghost predicate Leaves(s: System, s': System, chunks: seq<Content>, last: nat) {
    exists done :: Appends(s, done, chunks, last) && s' == done.(cursor := s.cursor)
  }

  ghost predicate MovesTo(s: System, m: Move, s': System, mask: Content -> Content) {
    match m
    case Plain(a) => StepBy(s, s', mask, a)
    case Dies(chunks) => chunks != [] && exists last :: Leaves(s, s', chunks, last)
  }

  ghost predicate IsTrace(ss: seq<System>, moves: seq<Move>, mask: Content -> Content) {
    && |ss| == |moves| + 1
    && Init(ss[0])
    && forall i :: 0 <= i < |moves| ==> MovesTo(ss[i], moves[i], ss[i + 1], mask)
  }

  predicate Starts(m: Move) {
    m.Dies? || m.action.DoAppend?
  }

  /** The cursor lags behind and the last chunk is gone. */
  predicate Lags(s: System) {
    s.appended != [] && |s.appended| !in s.pending && s.cursor != Some(|s.appended| + 1)
  }

  predicate Misnumbers(s: System, m: Move) {
    Starts(m) && Lags(s)
  }

  // ---------------------------------------------------------------------------------------------
  // As long as no append is misnumbered
  // ---------------------------------------------------------------------------------------------

  function Corrected(s: System): System {
    s.(cursor := if s.appended == [] then None else Some(|s.appended| + 1))
  }

  /** All is well but for a cursor that may lag. */
  ghost predicate Sound(s: System, mask: Content -> Content) {
    Inv(Corrected(s), mask) && CursorMayLag(s.appended, s.pending, s.cursor)
  }

  lemma PlainKeeps(s: System, s': System, mask: Content -> Content, a: Action)
    requires Sound(s, mask) && StepBy(s, s', mask, a) && !a.DoAppend?
    ensures Sound(s', mask)
  {
    assert StepBy(Corrected(s), Corrected(s'), mask, a);
    StepKeepsInv(Corrected(s), Corrected(s'), mask, a);
  }

  lemma NumbersRight(s: System, mask: Content -> Content, last: nat)
    requires Sound(s, mask) && IsLast(s.pending, last)
    ensures NextSequence(last, s.cursor) == |s.appended| + 1 <==> !Lags(s)
    ensures NextSequence(last, s.cursor) <= |s.appended| + 1
  {
    if s.appended == [] {
      assert forall k :: k !in s.pending;
      assert s.pending == map[];
    } else {
      NextIsRightIff(s.appended, s.pending, s.cursor, last);
    }
  }

  lemma AppendKeepsSound(s: System, s': System, mask: Content -> Content, chunks: seq<Content>, last: nat)
    requires Sound(s, mask) && Appends(s, s', chunks, last) && chunks != [] && !Lags(s)
    ensures Sound(s', mask) && s'.cursor == Some(|s'.appended| + 1)
  {
    AppendsAlike(s, s', mask, chunks, last);
    AppendStep(Corrected(s), s', mask, DoAppend(chunks));
    assert Corrected(s') == s';
  }

  /** An append that is numbered right does what it would do with the right cursor. */
  lemma AppendsAlike(s: System, s': System, mask: Content -> Content, chunks: seq<Content>, last: nat)
    requires Sound(s, mask) && Appends(s, s', chunks, last) && chunks != [] && !Lags(s)
    ensures Appends(Corrected(s), s', chunks, last) && s'.cursor == Some(|s'.appended| + 1)
    ensures StepBy(Corrected(s), s', mask, DoAppend(chunks))
  {
    NumbersRight(s, mask, last);
    NextIsFresh(s.appended, s.pending, Corrected(s).cursor, s.stored, mask, last);
    assert s' == Corrected(s).(appended := s.appended + chunks, pending := s'.pending, cursor := Some(|s.appended| + 1 + |chunks|));
    assert Appends(Corrected(s), s', chunks, last);
  }

  lemma MoveKeeps(s: System, m: Move, s': System, mask: Content -> Content)
    requires Sound(s, mask) && MovesTo(s, m, s', mask) && !Misnumbers(s, m)
    ensures Sound(s', mask)
  {
    match m
    case Plain(a) =>
      if a.DoAppend? {
        var last :| Appends(s, s', a.chunks, last);
        AppendKeepsSound(s, s', mask, a.chunks, last);
      } else {
        PlainKeeps(s, s', mask, a);
      }
    case Dies(chunks) => DyingKeeps(s, s', mask, chunks);
  }

  lemma DyingKeeps(s: System, s': System, mask: Content -> Content, chunks: seq<Content>)
    requires Sound(s, mask) && MovesTo(s, Dies(chunks), s', mask) && !Lags(s)
    ensures Sound(s', mask)
  {
    var last :| Leaves(s, s', chunks, last);
    var done :| Appends(s, done, chunks, last) && s' == done.(cursor := s.cursor);
    AppendKeepsSound(s, done, mask, chunks, last);
    CursorStays(done, s.cursor, mask);
  }

  lemma CursorStays(s: System, cursor: Option<nat>, mask: Content -> Content)
    requires Sound(s, mask) && (cursor.Some? ==> 1 <= cursor.value <= |s.appended| + 1)
    ensures Sound(s.(cursor := cursor), mask)
  {
    assert Corrected(s.(cursor := cursor)) == Corrected(s);
  }

  // ---------------------------------------------------------------------------------------------
  // Once one is
  // ---------------------------------------------------------------------------------------------

  /** Everything that agent, network and server know is about fewer chunks than were appended. */
  ghost predicate Short(s: System) {
    && |s.stored| < |s.appended|
    && (forall k :: k in s.pending ==> k < |s.appended|)
    && (forall m :: m in s.wire ==> m.0 < |s.appended|)
    && (s.cursor.Some? ==> s.cursor.value <= |s.appended|)
  }

  lemma ShortIsNotOnce(s: System, mask: Content -> Content)
    requires Short(s)
    ensures !Once(s, mask)
  {
    assert |s.appended| !in s.pending;
  }

  lemma NextIsShort(s: System, last: nat)
    requires Short(s) && IsLast(s.pending, last)
    ensures NextSequence(last, s.cursor) <= |s.appended|
  {
    if s.pending != map[] {
      assert last in s.pending;
    }
  }

  lemma AppendShort(s: System, s': System, chunks: seq<Content>, last: nat)
    requires Appends(s, s', chunks, last) && chunks != []
    requires NextSequence(last, s.cursor) <= |s.appended| && |s.stored| <= |s.appended|
    requires (forall k :: k in s.pending ==> k <= |s.appended|) && (forall m :: m in s.wire ==> m.0 <= |s.appended|)
    ensures Short(s')
  {
  }

  lemma MoveStaysShort(s: System, m: Move, s': System, mask: Content -> Content)
    requires Short(s) && MovesTo(s, m, s', mask)
    ensures Short(s')
  {
    match m
    case Plain(a) =>
      if a.DoAppend? {
        var last :| Appends(s, s', a.chunks, last);
        NextIsShort(s, last);
        AppendShort(s, s', a.chunks, last);
      }
    case Dies(chunks) =>
      var last :| Leaves(s, s', chunks, last);
      var done :| Appends(s, done, chunks, last) && s' == done.(cursor := s.cursor);
      NextIsShort(s, last);
      AppendShort(s, done, chunks, last);
  }

  lemma MisnumberedIsShort(s: System, m: Move, s': System, mask: Content -> Content)
    requires Sound(s, mask) && MovesTo(s, m, s', mask) && Misnumbers(s, m)
    ensures Short(s')
  {
    if m.Plain? {
      var last :| Appends(s, s', m.action.chunks, last);
      NumbersRight(s, mask, last);
      AppendShort(s, s', m.action.chunks, last);
    } else {
      var last :| Leaves(s, s', m.chunks, last);
      var done :| Appends(s, done, m.chunks, last) && s' == done.(cursor := s.cursor);
      NumbersRight(s, mask, last);
      AppendShort(s, done, m.chunks, last);
    }
  }

  // ---------------------------------------------------------------------------------------------
  // Over whole runs
  // ---------------------------------------------------------------------------------------------

  ghost predicate NoneMisnumbered(ss: seq<System>, moves: seq<Move>, n: nat)
    requires |ss| == |moves| + 1 && n <= |moves|
  {
    forall j :: 0 <= j < n ==> !Misnumbers(ss[j], moves[j])
  }

  lemma {:induction false} TraceKeeps(ss: seq<System>, moves: seq<Move>, mask: Content -> Content, n: nat)
    requires IsTrace(ss, moves, mask) && n <= |moves|
    ensures if NoneMisnumbered(ss, moves, n) then Sound(ss[n], mask) else Short(ss[n])
    decreases n
  {
    if n > 0 {
      TraceKeeps(ss, moves, mask, n - 1);
      assert MovesTo(ss[n - 1], moves[n - 1], ss[n - 1 + 1], mask);
      if !NoneMisnumbered(ss, moves, n - 1) {
        MoveStaysShort(ss[n - 1], moves[n - 1], ss[n], mask);
      } else if Misnumbers(ss[n - 1], moves[n - 1]) {
        MisnumberedIsShort(ss[n - 1], moves[n - 1], ss[n], mask);
      } else {
        MoveKeeps(ss[n - 1], moves[n - 1], ss[n], mask);
      }
    }
  }

  /** In every run with appends that die: delivery is exactly once at a state if and only if no append before it
      started with a lagging cursor and the last chunk gone. After one that did, it never is again. */
  lemma ExactlyOnceIff(ss: seq<System>, moves: seq<Move>, mask: Content -> Content, n: nat)
    requires IsTrace(ss, moves, mask) && n <= |moves|
    ensures Once(ss[n], mask) <==> NoneMisnumbered(ss, moves, n)
  {
    TraceKeeps(ss, moves, mask, n);
    if !NoneMisnumbered(ss, moves, n) {
      ShortIsNotOnce(ss[n], mask);
    }
  }

  lemma TraceOn(ss: seq<System>, moves: seq<Move>, mask: Content -> Content, m: Move, s': System)
    requires IsTrace(ss, moves, mask) && MovesTo(ss[|moves|], m, s', mask)
    ensures IsTrace(ss + [s'], moves + [m], mask)
  {
    var ss', moves' := ss + [s'], moves + [m];
    forall i | 0 <= i < |moves'|
      ensures MovesTo(ss'[i], moves'[i], ss'[i + 1], mask)
    {
      if i < |moves| {
        assert ss'[i] == ss[i] && ss'[i + 1] == ss[i + 1] && moves'[i] == moves[i];
      }
    }
  }

  function FirstIsSent(c1: Content): seq<Move> {
    [Dies([c1])] + [Plain(DoSend(1)), Plain(DoDeliver((1, c1))), Plain(DoAcknowledge(2)), Plain(DoLose({(1, c1)}, {2}))]
  }

  function SecondIsLost(c1: Content, c2: Content, alike: bool): seq<Move> {
    FirstIsSent(c1) + [Plain(DoAppend([c2]))] + [Plain(DoSend(1))] + [Plain(DoDeliver((1, c2)))]
    + if alike then [Plain(DoAcknowledge(2))] else []
  }

  lemma FirstDies(c1: Content, mask: Content -> Content)
    ensures MovesTo(System([], map[], None, [], {}, {}), Dies([c1]), System([c1], map[1 := c1], None, [], {}, {}), mask)
  {
    var s, s' := System([], map[], None, [], {}, {}), System([c1], map[1 := c1], None, [], {}, {});
    assert [] + [c1] == [c1];
    assert Appends(s, s'.(cursor := Some(2)), [c1], 0);
    assert Leaves(s, s', [c1], 0);
  }

  lemma FirstArrives(c1: Content, mask: Content -> Content)
    requires |c1| <= MAX_CONTENT
    ensures MovesTo(System([c1], map[1 := c1], None, [], {}, {}), Plain(DoSend(1)), System([c1], map[1 := c1], None, [], {(1, c1)}, {}), mask)
    ensures MovesTo(System([c1], map[1 := c1], None, [], {(1, c1)}, {}), Plain(DoDeliver((1, c1))),
                    System([c1], map[1 := c1], None, [mask(c1)], {(1, c1)}, {2}), mask)
  {
    var none: seq<Content> := [];
    assert none + [mask(c1)] == [mask(c1)];
  }

  lemma FirstIsForgotten(c1: Content, stored: seq<Content>, mask: Content -> Content)
    ensures MovesTo(System([c1], map[1 := c1], None, stored, {(1, c1)}, {2}), Plain(DoAcknowledge(2)),
                    System([c1], map[], None, stored, {(1, c1)}, {2}), mask)
    ensures MovesTo(System([c1], map[], None, stored, {(1, c1)}, {2}), Plain(DoLose({(1, c1)}, {2})),
                    System([c1], map[], None, stored, {}, {}), mask)
  {
    assert Unacknowledged(map[1 := c1], 2) == map[];
    var wire := {(1, c1)};
    assert wire - wire == {} && {2} - {2} == {};
  }

  /** The first append dies; its chunk is delivered and acknowledged all the same. */
  lemma FirstIsGone(c1: Content, mask: Content -> Content) returns (ss: seq<System>)
    requires |c1| <= MAX_CONTENT
    ensures IsTrace(ss, FirstIsSent(c1), mask) && ss[5] == System([c1], map[], None, [mask(c1)], {}, {})
  {
    FirstDies(c1, mask);
    ss := [System([], map[], None, [], {}, {})];
    TraceOn(ss, [], mask, Dies([c1]), System([c1], map[1 := c1], None, [], {}, {}));
    ss := Sent(c1, mask, ss + [System([c1], map[1 := c1], None, [], {}, {})]);
  }

  lemma Sent(c1: Content, mask: Content -> Content, start: seq<System>) returns (ss: seq<System>)
    requires |c1| <= MAX_CONTENT && IsTrace(start, [Dies([c1])], mask) && start[1] == System([c1], map[1 := c1], None, [], {}, {})
    ensures IsTrace(ss, FirstIsSent(c1), mask) && ss[5] == System([c1], map[], None, [mask(c1)], {}, {})
  {
    FirstArrives(c1, mask);
    FirstIsForgotten(c1, [mask(c1)], mask);
    var s2, s3 := System([c1], map[1 := c1], None, [], {(1, c1)}, {}), System([c1], map[1 := c1], None, [mask(c1)], {(1, c1)}, {2});
    var s4, s5 := System([c1], map[], None, [mask(c1)], {(1, c1)}, {2}), System([c1], map[], None, [mask(c1)], {}, {});
    ss := FourMore(start, [Dies([c1])], mask, s2, s3, s4, s5, Plain(DoSend(1)), Plain(DoDeliver((1, c1))),
                   Plain(DoAcknowledge(2)), Plain(DoLose({(1, c1)}, {2})));
  }

  lemma FourMore(
    start: seq<System>, moves: seq<Move>, mask: Content -> Content, s1: System, s2: System, s3: System, s4: System,
    m1: Move, m2: Move, m3: Move, m4: Move) returns (ss: seq<System>)
    requires IsTrace(start, moves, mask)
    requires MovesTo(start[|moves|], m1, s1, mask) && MovesTo(s1, m2, s2, mask) && MovesTo(s2, m3, s3, mask) && MovesTo(s3, m4, s4, mask)
    ensures IsTrace(ss, moves + [m1, m2, m3, m4], mask) && ss == start + [s1, s2, s3, s4]
  {
    TraceOn(start, moves, mask, m1, s1);
    TraceOn(start + [s1], moves + [m1], mask, m2, s2);
    TraceOn(start + [s1] + [s2], moves + [m1] + [m2], mask, m3, s3);
    TraceOn(start + [s1] + [s2] + [s3], moves + [m1] + [m2] + [m3], mask, m4, s4);
    ss := start + [s1] + [s2] + [s3] + [s4];
    assert ss == start + [s1, s2, s3, s4];
    assert moves + [m1] + [m2] + [m3] + [m4] == moves + [m1, m2, m3, m4];
  }

  lemma NumberIsReused(c1: Content, c2: Content, stored: seq<Content>, mask: Content -> Content)
    ensures MovesTo(System([c1], map[], None, stored, {}, {}), Plain(DoAppend([c2])), System([c1, c2], map[1 := c2], Some(2), stored, {}, {}), mask)
  {
    var s, s' := System([c1], map[], None, stored, {}, {}), System([c1, c2], map[1 := c2], Some(2), stored, {}, {});
    assert [c1] + [c2] == [c1, c2];
    assert Appends(s, s', [c2], 0);
  }

  /** The run that loses a chunk: the first append dies before the cursor write, its chunk is delivered and
      acknowledged, and the second append reuses the number. The server takes its chunk for a repeat if the two look
      alike, so that it is acknowledged without being stored, and refuses it otherwise. */
  lemma LaggingCursorLosesChunk(c1: Content, c2: Content, mask: Content -> Content) returns (ss: seq<System>, moves: seq<Move>)
    requires |c1| <= MAX_CONTENT && |c2| <= MAX_CONTENT
    ensures IsTrace(ss, moves, mask) && moves == SecondIsLost(c1, c2, mask(c1) == mask(c2))
    ensures
      var s := ss[|moves|];
      && s.appended == [c1, c2] && s.stored == [mask(c1)]
      && s.pending == (if mask(c1) == mask(c2) then map[] else map[1 := c2])
      && (mask(c1) != mask(c2) ==> Accept(s.stored, 1, c2, mask).reply == Conflict)
  {
    var alike := mask(c1) == mask(c2);
    ss := FirstIsGone(c1, mask);
    moves := FirstIsSent(c1);
    var s := System([c1, c2], map[1 := c2], Some(2), [mask(c1)], {}, {});
    NumberIsReused(c1, c2, [mask(c1)], mask);
    TraceOn(ss, moves, mask, Plain(DoAppend([c2])), s);
    ss, moves := ss + [s], moves + [Plain(DoAppend([c2]))];
    s := s.(wire := {(1, c2)});
    TraceOn(ss, moves, mask, Plain(DoSend(1)), s);
    ss, moves := ss + [s], moves + [Plain(DoSend(1))];
    s := s.(acks := if alike then {2} else {});
    TraceOn(ss, moves, mask, Plain(DoDeliver((1, c2))), s);
    ss, moves := ss + [s], moves + [Plain(DoDeliver((1, c2)))];
    if alike {
      assert Unacknowledged(s.pending, 2) == map[];
      s := s.(pending := map[]);
      TraceOn(ss, moves, mask, Plain(DoAcknowledge(2)), s);
      ss, moves := ss + [s], moves + [Plain(DoAcknowledge(2))];
    }
  }
}
