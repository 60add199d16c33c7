/** Secret masking (internal/secret/redactor.go): every variant of every secret is replaced by the mask, longest
    variant first. The encoders (base64, query and path escaping) and lower-casing are parameters, so the results
    hold whatever they compute. */
module Redactor {
  import opened Common

  type Bytes = seq<Byte>

  const STAR: Byte := 42
  const PERCENT: Byte := 37
  const MASK: Bytes := [STAR, STAR, STAR, STAR, STAR, STAR]

  predicate Occurs(u: Bytes, t: Bytes) {
    u <= t || (t != [] && Occurs(u, t[1..]))
  }

  /** The recursive definition means what it should. */
  lemma {:induction false} OccursIff(u: Bytes, t: Bytes)
    ensures Occurs(u, t) <==> exists i :: 0 <= i <= |t| && u <= t[i..]
    decreases |t|
  {
    if u <= t {
      assert t[0..] == t;
    } else if t != [] {
      OccursIff(u, t[1..]);
      if Occurs(u, t[1..]) {
        var i :| 0 <= i <= |t[1..]| && u <= t[1..][i..];
        assert t[1..][i..] == t[i + 1..];
      }
      if i :| 0 <= i <= |t| && u <= t[i..] {
        assert t[0..] == t;
        assert t[1..][i - 1..] == t[i..];
      }
    } else {
      assert forall i :: 0 <= i <= |t| ==> t[i..] == t;
    }
  }

  lemma {:induction false} OccursLater(u: Bytes, a: Bytes, t: Bytes)
    requires Occurs(u, t)
    ensures Occurs(u, a + t)
    decreases |a|
  {
    if a == [] {
      assert a + t == t;
    } else {
      OccursLater(u, a[1..], t);
      assert (a + t)[1..] == a[1..] + t;
    }
  }

  // ---------------------------------------------------------------------------------------------
  // One replacement
  // ---------------------------------------------------------------------------------------------

  /** Replaces the leftmost, non-overlapping occurrences of `v` by the mask. */
  function ReplaceAll(t: Bytes, v: Bytes): Bytes
    requires v != []
  {
    if |t| < |v| then t
    else if v <= t then MASK + ReplaceAll(t[|v|..], v)
    else [t[0]] + ReplaceAll(t[1..], v)
  }

  /** No piece of a mask can be the start, the end or an inner part of an occurrence. */
  predicate Safe(u: Bytes) {
    u != [] && u[0] != STAR && u[|u| - 1] != STAR && !Occurs(MASK, u)
  }

  lemma {:induction false} MaskHasStar(u: Bytes)
    ensures Occurs(MASK, u) ==> STAR in u
    decreases |u|
  {
    if MASK <= u {
      assert u[0] == MASK[0];
    } else if u != [] {
      MaskHasStar(u[1..]);
    }
  }

  /** Text in which `u` cannot begin adds no occurrence of it. */
  lemma {:induction false} SkipPrefix(u: Bytes, a: Bytes, t: Bytes)
    requires u != [] && u[0] !in a
    ensures Occurs(u, a + t) <==> Occurs(u, t)
    decreases |a|
  {
    if a == [] {
      assert a + t == t;
    } else {
      SkipPrefix(u, a[1..], t);
      assert (a + t)[1..] == a[1..] + t;
      assert (a + t)[0] == a[0];
    }
  }

  /** A word that begins a rewritten text begins the text itself, unless it cuts into a mask or holds one. */
  lemma {:induction false} PrefixSurvives(w: Bytes, t: Bytes, v: Bytes)
    requires v != [] && w != [] && w <= ReplaceAll(t, v)
    ensures w <= t || w[|w| - 1] == STAR || Occurs(MASK, w)
    decreases |t|
  {
    if |t| < |v| {
    } else if v <= t {
      if |w| >= 6 {
        assert MASK <= w;
      } else {
        assert w[|w| - 1] == MASK[|w| - 1];
      }
    } else if |w| > 1 {
      assert ReplaceAll(t, v)[1..] == ReplaceAll(t[1..], v);
      PrefixSurvives(w[1..], t[1..], v);
      assert w == [w[0]] + w[1..] && t == [t[0]] + t[1..];
    }
  }

  /** A replacement never creates an occurrence of a safe word. */
  lemma {:induction false} NoneNew(u: Bytes, t: Bytes, v: Bytes)
    requires v != [] && Safe(u) && Occurs(u, ReplaceAll(t, v))
    ensures Occurs(u, t)
    decreases |t|
  {
    if |t| < |v| {
    } else if v <= t {
      SkipPrefix(u, MASK, ReplaceAll(t[|v|..], v));
      NoneNew(u, t[|v|..], v);
      OccursLater(u, v, t[|v|..]);
      assert v + t[|v|..] == t;
    } else if u <= ReplaceAll(t, v) {
      PrefixSurvives(u, t, v);
    } else {
      assert ReplaceAll(t, v)[1..] == ReplaceAll(t[1..], v);
      NoneNew(u, t[1..], v);
    }
  }

  /** A replacement leaves no occurrence of the safe word it replaces. */
  lemma {:induction false} NoneLeft(t: Bytes, v: Bytes)
    requires Safe(v)
    ensures !Occurs(v, ReplaceAll(t, v))
    decreases |t|
  {
    if |t| < |v| {
      TooShort(v, t);
    } else if v <= t {
      NoneLeft(t[|v|..], v);
      SkipPrefix(v, MASK, ReplaceAll(t[|v|..], v));
    } else {
      NoneLeft(t[1..], v);
      assert ReplaceAll(t, v)[1..] == ReplaceAll(t[1..], v);
      if v <= ReplaceAll(t, v) {
        PrefixSurvives(v, t, v);
      }
    }
  }

  lemma {:induction false} TooShort(u: Bytes, t: Bytes)
    requires |t| < |u|
    ensures !Occurs(u, t)
    decreases |t|
  {
    if t != [] {
      TooShort(u, t[1..]);
    }
  }

  lemma {:induction false} NothingToReplace(t: Bytes, v: Bytes)
    requires v != [] && !Occurs(v, t)
    ensures ReplaceAll(t, v) == t
    decreases |t|
  {
    if |t| >= |v| {
      NothingToReplace(t[1..], v);
      assert [t[0]] + t[1..] == t;
    }
  }

  // ---------------------------------------------------------------------------------------------
  // Safety is exactly what one replacement needs
  // ---------------------------------------------------------------------------------------------

  /** If the first occurrence of `v` follows `a`, and what follows it is too short for another, the result is known. */
  lemma {:induction false} ReplaceFirst(a: Bytes, v: Bytes, b: Bytes)
    requires v != [] && |b| < |v|
    requires forall i :: 0 <= i < |a| ==> !(v <= (a + v + b)[i..])
    ensures ReplaceAll(a + v + b, v) == a + MASK + b
    decreases |a|
  {
    var t := a + v + b;
    if a == [] {
      assert t[|v|..] == b;
    } else {
      var rest := a[1..];
      assert t[0..] == t;
      assert t[1..] == rest + v + b;
      forall i | 0 <= i < |rest|
        ensures !(v <= (rest + v + b)[i..])
      {
        assert (rest + v + b)[i..] == t[i + 1..];
      }
      ReplaceFirst(rest, v, b);
      assert [a[0]] + (rest + MASK + b) == a + MASK + b;
    }
  }

  lemma StarFirstSurvives(v: Bytes) returns (t: Bytes)
    requires v != [] && v[0] == STAR
    ensures Occurs(v, ReplaceAll(t, v))
  {
    t := [] + v + v[1..];
    ReplaceFirst([], v, v[1..]);
    var left: Bytes := [STAR, STAR, STAR, STAR, STAR];
    assert [] + MASK + v[1..] == left + v;
    OccursLater(v, left, v);
  }

  /** Two overlapping occurrences of `v` would give it equal ends. */
  lemma OverlapEnds(v: Bytes, i: nat)
    requires i < |v| - 1 && v <= (v[..|v| - 1] + v)[i..]
    ensures v[0] == v[|v| - 1]
  {
    var n := |v|;
    var t := v[..n - 1] + v;
    assert v[0] == t[i..][0] == t[i] == v[i];
    assert v[n - 1] == t[i..][n - 1] == t[i + n - 1] == v[i];
  }

  lemma StarLastSurvives(v: Bytes) returns (t: Bytes)
    requires v != [] && v[0] != STAR && v[|v| - 1] == STAR
    ensures Occurs(v, ReplaceAll(t, v))
  {
    var n := |v|;
    t := v[..n - 1] + v + [];
    assert t == v[..n - 1] + v;
    forall i | 0 <= i < n - 1
      ensures !(v <= t[i..])
    {
      if v <= t[i..] {
        OverlapEnds(v, i);
      }
    }
    ReplaceFirst(v[..n - 1], v, []);
    assert v <= v[..n - 1] + MASK + [];
  }

  lemma {:induction false} FirstMask(v: Bytes) returns (k: nat)
    requires Occurs(MASK, v)
    ensures k <= |v| && MASK <= v[k..]
    ensures forall i :: 0 <= i < k ==> !(MASK <= v[i..])
    decreases |v|
  {
    assert v[0..] == v;
    if MASK <= v {
      k := 0;
    } else {
      var rest := FirstMask(v[1..]);
      k := rest + 1;
      assert v[1..][rest..] == v[k..];
      forall i | 0 < i < k
        ensures !(MASK <= v[i..])
      {
        assert v[1..][i - 1..] == v[i..];
      }
    }
  }

  /** An occurrence of `v` that starts at `i` inside the first part shows a mask at `i` in `v`. */
  lemma EarlierMask(v: Bytes, k: nat, i: nat)
    requires i < k && k + 6 <= |v| && MASK <= v[k..]
    requires v <= (v[..k] + v + v[k + 6..])[i..]
    ensures MASK <= v[i..]
  {
    var t := v[..k] + v + v[k + 6..];
    forall j | 0 <= j < 6
      ensures v[i..][j] == MASK[j]
    {
      assert MASK[j] == v[k..][j] == v[k + j] == t[i..][k + j] == t[i + k + j] == v[i + j];
    }
  }

  lemma InnerMaskSurvives(v: Bytes) returns (t: Bytes)
    requires Occurs(MASK, v)
    ensures v != MASK ==> v != [] && Occurs(v, ReplaceAll(t, v))
  {
    var k := FirstMask(v);
    assert |v[k..]| == |v| - k;
    t := v[..k] + v + v[k + 6..];
    forall i | 0 <= i < k
      ensures !(v <= t[i..])
    {
      if v <= t[i..] {
        EarlierMask(v, k, i);
      }
    }
    ReplaceFirst(v[..k], v, v[k + 6..]);
    assert v[..k] + MASK + v[k + 6..] == v;
  }

  lemma UnsafeSurvives(v: Bytes) returns (t: Bytes)
    requires v != [] && v != MASK && !Safe(v)
    ensures Occurs(v, ReplaceAll(t, v))
  {
    if v[0] == STAR {
      t := StarFirstSurvives(v);
    } else if v[|v| - 1] == STAR {
      t := StarLastSurvives(v);
    } else {
      t := InnerMaskSurvives(v);
    }
  }

  predicate Removed(v: Bytes, t: Bytes)
    requires v != []
  {
    !Occurs(v, ReplaceAll(t, v))
  }

  /** For every word but the mask itself: one replacement removes it from every text exactly if it is safe. */
  lemma RemovedIffSafe(v: Bytes)
    requires v != [] && v != MASK
    ensures (forall t: Bytes :: Removed(v, t)) <==> Safe(v)
  {
    if Safe(v) {
      forall t: Bytes
        ensures Removed(v, t)
      {
        NoneLeft(t, v);
      }
    } else {
      var t := UnsafeSurvives(v);
      assert !Removed(v, t);
    }
  }
}
