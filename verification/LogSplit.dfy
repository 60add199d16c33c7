/** Splitting log output into chunks at character boundaries (internal/logstream/spool.go). */
module LogSplit {
  import opened Common

  // ---------------------------------------------------------------------------------------------
  // UTF-8 (section 3 of RFC 3629)
  // ---------------------------------------------------------------------------------------------

  predicate Tail(b: Byte) {
    0x80 <= b <= 0xBF
  }

  /** A byte that does not continue a character. */
  predicate RuneStart(b: Byte) {
    !Tail(b)
  }

  /** The bounds of the second byte, which exclude overlong forms, surrogates and values above U+10FFFF. */
  predicate Second(lead: Byte, b: Byte) {
    && Tail(b)
    && (lead == 0xE0 ==> b >= 0xA0)
    && (lead == 0xED ==> b <= 0x9F)
    && (lead == 0xF0 ==> b >= 0x90)
    && (lead == 0xF4 ==> b <= 0x8F)
  }

  /** The length of the well-formed character at the front, 0 if there is none. */
  function RuneLength(s: seq<Byte>): (n: nat)
    ensures n <= 4 && n <= |s|
    ensures n > 0 ==> RuneStart(s[0]) && forall i :: 1 <= i < n ==> Tail(s[i])
  {
    if |s| == 0 then 0
    else if s[0] <= 0x7F then 1
    else if 0xC2 <= s[0] <= 0xDF && |s| >= 2 && Second(s[0], s[1]) then 2
    else if 0xE0 <= s[0] <= 0xEF && |s| >= 3 && Second(s[0], s[1]) && Tail(s[2]) then 3
    else if 0xF0 <= s[0] <= 0xF4 && |s| >= 4 && Second(s[0], s[1]) && Tail(s[2]) && Tail(s[3]) then 4
    else 0
  }

  predicate ValidUtf8(s: seq<Byte>) {
    |s| == 0 || (RuneLength(s) > 0 && ValidUtf8(s[RuneLength(s)..]))
  }

  const REPLACEMENT: seq<Byte> := [0xEF, 0xBF, 0xBD]

  /** `strings.ToValidUTF8`: every run of invalid bytes becomes one replacement character. */
  function ToValid(s: seq<Byte>, inRun: bool := false): seq<Byte> {
    if |s| == 0 then []
    else if RuneLength(s) > 0 then s[..RuneLength(s)] + ToValid(s[RuneLength(s)..])
    else if inRun then ToValid(s[1..], true)
    else REPLACEMENT + ToValid(s[1..], true)
  }

  lemma {:induction false} ToValidKeepsValid(s: seq<Byte>)
    requires ValidUtf8(s)
    ensures ToValid(s) == s
  {
    if |s| > 0 {
      ToValidKeepsValid(s[RuneLength(s)..]);
    }
  }

  /** The front character does not depend on what follows it. */
  lemma RuneLengthFront(s: seq<Byte>, n: nat)
    requires RuneLength(s) > 0 && RuneLength(s) <= n <= |s|
    ensures RuneLength(s[..n]) == RuneLength(s)
  {
  }

  lemma RuneLengthAppend(s: seq<Byte>, t: seq<Byte>)
    requires RuneLength(s) > 0
    ensures RuneLength(s + t) == RuneLength(s)
  {
    RuneLengthFront2(s, s + t);
  }

  lemma RuneLengthFront2(s: seq<Byte>, u: seq<Byte>)
    requires |s| <= |u| && RuneLength(s) > 0 && forall i :: 0 <= i < |s| ==> u[i] == s[i]
    ensures RuneLength(u) == RuneLength(s)
  {
  }

  /** The cleaned text is valid for every input. */
  lemma {:induction false} ToValidIsValid(s: seq<Byte>, inRun: bool)
    ensures ValidUtf8(ToValid(s, inRun))
  {
    if |s| > 0 {
      var n := RuneLength(s);
      if n > 0 {
        ToValidIsValid(s[n..], false);
        RuneLengthFront(s, n);
        RuneLengthAppend(s[..n], ToValid(s[n..]));
        assert (s[..n] + ToValid(s[n..]))[n..] == ToValid(s[n..]);
      } else {
        ToValidIsValid(s[1..], true);
        assert RuneLength(REPLACEMENT) == 3;
        RuneLengthAppend(REPLACEMENT, ToValid(s[1..], true));
        assert (REPLACEMENT + ToValid(s[1..], true))[3..] == ToValid(s[1..], true);
      }
    }
  }

  /** In valid text every byte that does not continue a character is a boundary. */
  lemma {:induction false} BoundaryAtStart(s: seq<Byte>, p: nat)
    requires ValidUtf8(s) && p <= |s| && (p < |s| ==> RuneStart(s[p]))
    ensures ValidUtf8(s[..p]) && ValidUtf8(s[p..])
  {
    if p == 0 {
      assert s[0..] == s;
    } else {
      var n := RuneLength(s);
      FirstRuneEnds(s, p);
      BoundaryAtStart(s[n..], p - n);
      assert s[n..][p - n..] == s[p..];
      FrontIsValid(s, p);
    }
  }

  /** The first character ends before the next one starts. */
  lemma FirstRuneEnds(s: seq<Byte>, p: nat)
    requires ValidUtf8(s) && 0 < p <= |s| && (p < |s| ==> RuneStart(s[p]))
    ensures 0 < RuneLength(s) <= p
  {
  }

  lemma FrontIsValid(s: seq<Byte>, p: nat)
    requires ValidUtf8(s) && 0 < RuneLength(s) <= p <= |s| && ValidUtf8(s[RuneLength(s)..][..p - RuneLength(s)])
    ensures ValidUtf8(s[..p])
  {
    var n := RuneLength(s);
    RuneLengthFront(s, p);
    assert s[..p][n..] == s[n..][..p - n];
  }

  /** In valid text a boundary is never more than three bytes back. */
  lemma {:induction false} BoundaryNear(s: seq<Byte>, p: nat)
    requires ValidUtf8(s) && p < |s|
    ensures exists q :: p - 3 <= q <= p && 0 <= q && RuneStart(s[q])
  {
    var n := RuneLength(s);
    if p < n {
      assert RuneStart(s[0]);
    } else {
      BoundaryNear(s[n..], p - n);
      var q :| p - n - 3 <= q <= p - n && 0 <= q && RuneStart(s[n..][q]);
      assert RuneStart(s[n + q]);
    }
  }

  // ---------------------------------------------------------------------------------------------
  // How much cleaning can add
  // ---------------------------------------------------------------------------------------------

  lemma {:induction false} ToValidBound(s: seq<Byte>, inRun: bool)
    ensures |ToValid(s, inRun)| <= 2 * |s| + if inRun then -(|s| % 2) else |s| % 2
    decreases |s|
  {
    if |s| > 0 {
      var n := RuneLength(s);
      if n > 0 {
        ToValidBound(s[n..], false);
      } else {
        ToValidBound(s[1..], true);
      }
    }
  }

  /** Bytes that are invalid and plain by turns. */
  function Alternating(n: nat, invalid: bool): (s: seq<Byte>)
    ensures |s| == n
  {
    if n == 0 then [] else [if invalid then 0xFF else 0x41] + Alternating(n - 1, !invalid)
  }

  lemma {:induction false} AlternatingGrows(n: nat, invalid: bool)
    ensures |ToValid(Alternating(n, invalid), !invalid)| == 2 * n + if invalid then n % 2 else -(n % 2)
    decreases n
  {
    if n > 0 {
      var s := Alternating(n, invalid);
      assert s[1..] == Alternating(n - 1, !invalid);
      AlternatingGrows(n - 1, !invalid);
      if !invalid {
        assert RuneLength(s) == 1;
      }
    }
  }

  /** Cleaning keeps every piece of at most `size` bytes within `limit` exactly if the limit has twice the room. */
  lemma CleanFitsIff(size: nat, limit: nat)
    ensures (forall s: seq<Byte> :: |s| <= size ==> |ToValid(s)| <= limit) <==> 2 * size + size % 2 <= limit
  {
    if 2 * size + size % 2 <= limit {
      forall s: seq<Byte> | |s| <= size
        ensures |ToValid(s)| <= limit
      {
        ToValidBound(s, false);
      }
    } else {
      AlternatingGrows(size, true);
      assert |ToValid(Alternating(size, true))| > limit;
    }
  }

  // ---------------------------------------------------------------------------------------------
  // The split loop
  // ---------------------------------------------------------------------------------------------

  function Concat(pieces: seq<seq<Byte>>): seq<Byte> {
    if |pieces| == 0 then [] else Concat(pieces[..|pieces| - 1]) + pieces[|pieces| - 1]
  }

  ghost predicate Pieces(pieces: seq<seq<Byte>>, size: nat) {
    forall i :: 0 <= i < |pieces| ==> 0 < |pieces[i]| <= size
  }

  /** A chunk may end here: at the end, or before a byte that starts a character. */
  predicate Cut(content: seq<Byte>, p: nat) {
    0 < p && (p == |content| || (p < |content| && RuneStart(content[p])))
  }

  /** How many bytes the next chunk takes: as many as it may and fit, and all that fit if it may end nowhere. */
  method ChunkLength(content: seq<Byte>, chunkSize: nat) returns (length: nat)
    requires |content| > 0 && chunkSize > 0
    ensures 0 < length <= |content| && length <= chunkSize
    ensures |content| <= chunkSize ==> length == |content|
    ensures forall p :: length < p <= chunkSize && p <= |content| ==> !Cut(content, p)
    ensures !Cut(content, length) ==> length == chunkSize && forall p :: 0 < p <= chunkSize ==> !Cut(content, p)
    ensures ValidUtf8(content) && chunkSize >= 4 ==> ValidUtf8(content[..length]) && ValidUtf8(content[length..])
  {
    var limit := if |content| < chunkSize then |content| else chunkSize;
    length := limit;
    while length > 0 && length < |content| && !RuneStart(content[length])
      invariant 0 <= length <= limit && (limit == |content| ==> length == limit)
      invariant forall i :: length < i <= limit && i < |content| ==> !RuneStart(content[i])
    {
      length := length - 1;
    }
    if ValidUtf8(content) && chunkSize >= 4 {
      if limit < |content| {
        BoundaryNear(content, limit);
      }
      BoundaryAtStart(content, length);
    }
    if length == 0 {
      length := limit;
    }
  }

  function Clean(pieces: seq<seq<Byte>>): seq<seq<Byte>> {
    seq(|pieces|, i requires 0 <= i < |pieces| => ToValid(pieces[i]))
  }

  ghost predicate AllValid(pieces: seq<seq<Byte>>) {
    forall i :: 0 <= i < |pieces| ==> ValidUtf8(pieces[i])
  }

  lemma CleanFacts(pieces: seq<seq<Byte>>)
    ensures AllValid(Clean(pieces))
    ensures AllValid(pieces) ==> Clean(pieces) == pieces
  {
    forall i | 0 <= i < |pieces| ensures ValidUtf8(Clean(pieces)[i]) && (ValidUtf8(pieces[i]) ==> Clean(pieces)[i] == pieces[i]) {
      ToValidIsValid(pieces[i], false);
      if ValidUtf8(pieces[i]) { ToValidKeepsValid(pieces[i]); }
    }
  }

  lemma ConcatStep(pieces: seq<seq<Byte>>, piece: seq<Byte>, rest: seq<Byte>)
    ensures Concat(pieces + [piece]) + rest == Concat(pieces) + (piece + rest)
  {
    assert (pieces + [piece])[..|pieces|] == pieces;
  }

  /** The chunks stay within a limit that twice the chunk size does not exceed, and for valid text within the chunk
      size itself. */
  lemma ChunksFit(pieces: seq<seq<Byte>>, size: nat, limit: nat)
    requires Pieces(pieces, size) && size <= limit
    requires AllValid(pieces) || 2 * size + size % 2 <= limit
    ensures forall c :: c in Clean(pieces) ==> |c| <= limit
  {
    forall i | 0 <= i < |pieces|
      ensures |Clean(pieces)[i]| <= limit
    {
      if AllValid(pieces) {
        ToValidKeepsValid(pieces[i]);
      } else {
        ToValidBound(pieces[i], false);
      }
    }
  }

  lemma CleanSnoc(pieces: seq<seq<Byte>>, piece: seq<Byte>)
    ensures Clean(pieces + [piece]) == Clean(pieces) + [ToValid(piece)]
  {
  }

  lemma PiecesSnoc(pieces: seq<seq<Byte>>, piece: seq<Byte>, rest: seq<Byte>, size: nat, content: seq<Byte>)
    requires Pieces(pieces, size) && 0 < |piece| <= size && Concat(pieces) + (piece + rest) == content
    ensures Pieces(pieces + [piece], size) && Concat(pieces + [piece]) + rest == content
    ensures AllValid(pieces) && ValidUtf8(piece) ==> AllValid(pieces + [piece])
  {
    ConcatStep(pieces, piece, rest);
  }

  /** The content is cut into pieces up to `rest`. */
  ghost predicate CutUpTo(content: seq<Byte>, size: nat, pieces: seq<seq<Byte>>, rest: seq<Byte>) {
    && Pieces(pieces, size) && Concat(pieces) + rest == content
    && (ValidUtf8(content) && size >= 4 ==> ValidUtf8(rest) && AllValid(pieces))
    && (pieces == [] ==> rest == content)
    && (|content| <= size && pieces != [] ==> rest == [] && pieces == [content])
  }

  lemma CutNext(content: seq<Byte>, size: nat, pieces: seq<seq<Byte>>, rest: seq<Byte>, n: nat)
    requires CutUpTo(content, size, pieces, rest) && 0 < n <= |rest| && n <= size
    requires |rest| <= size ==> n == |rest|
    requires ValidUtf8(rest) && size >= 4 ==> ValidUtf8(rest[..n]) && ValidUtf8(rest[n..])
    ensures CutUpTo(content, size, pieces + [rest[..n]], rest[n..])
  {
    assert rest == rest[..n] + rest[n..];
    PiecesSnoc(pieces, rest[..n], rest[n..], size, content);
    if |content| <= size {
      assert pieces == [] && rest == content;
      assert rest[..n] == content && rest[n..] == [];
    }
  }

  lemma CutStarts(content: seq<Byte>, size: nat)
    ensures CutUpTo(content, size, [], content)
  {
  }

  lemma CutEnds(content: seq<Byte>, size: nat, pieces: seq<seq<Byte>>)
    requires CutUpTo(content, size, pieces, [])
    ensures Concat(pieces) == content && (content == [] <==> pieces == [])
  {
    assert Concat(pieces) + [] == Concat(pieces);
    if pieces != [] {
      var n := |pieces| - 1;
      assert Concat(pieces) == Concat(pieces[..n]) + pieces[n];
    }
  }

  /** The loop ends on every input with non-empty pieces that concatenate to it; each chunk is the cleaned
      piece, hence valid. On valid text with room for every character nothing is cleaned: the chunks
      themselves are at most the chunk size and concatenate to the content. */
  method Split(content: seq<Byte>, chunkSize: nat) returns (chunks: seq<seq<Byte>>, ghost pieces: seq<seq<Byte>>)
    requires chunkSize > 0
    ensures Pieces(pieces, chunkSize) && Concat(pieces) == content
    ensures chunks == Clean(pieces) && AllValid(chunks)
    ensures ValidUtf8(content) && chunkSize >= 4 ==> chunks == pieces
    ensures content == [] <==> chunks == []
    ensures content != [] && |content| <= chunkSize ==> pieces == [content]
  {
    chunks, pieces := [], [];
    var rest := content;
    CutStarts(content, chunkSize);
    while |rest| > 0
      invariant CutUpTo(content, chunkSize, pieces, rest) && chunks == Clean(pieces)
      decreases |rest|
    {
      var length := ChunkLength(rest, chunkSize);
      CutNext(content, chunkSize, pieces, rest, length);
      CleanSnoc(pieces, rest[..length]);
      chunks := chunks + [ToValid(rest[..length])];
      pieces := pieces + [rest[..length]];
      rest := rest[length..];
    }
    CutEnds(content, chunkSize, pieces);
    CleanFacts(pieces);
  }
}
