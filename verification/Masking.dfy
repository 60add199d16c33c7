/** The whole of `Mask` (internal/secret/redactor.go): collecting the variants, ordering them and replacing them
    one after the other; and what the result hides of the text. */
module Masking {
  import opened Common
  import opened Redactor

  datatype Encoders = Encoders(forms: seq<Bytes -> Bytes>, lower: Bytes -> Bytes)

  /** Lower-casing never makes text vanish. */
  ghost predicate Sane(e: Encoders) {
    forall v: Bytes :: v != [] ==> e.lower(v) != []
  }

  // ---------------------------------------------------------------------------------------------
  // The rewriting loop
  // ---------------------------------------------------------------------------------------------

  predicate HasLower(e: Encoders, v: Bytes) {
    PERCENT in v && e.lower(v) != v
  }

  function Step(e: Encoders, t: Bytes, v: Bytes): Bytes
    requires Sane(e) && v != []
  {
    var r := ReplaceAll(t, v);
    if HasLower(e, v) then ReplaceAll(r, e.lower(v)) else r
  }

  function Rewrite(e: Encoders, ordered: seq<Bytes>, text: Bytes): Bytes
    requires Sane(e) && [] !in ordered
  {
    if ordered == [] then text
    else Step(e, Rewrite(e, ordered[..|ordered| - 1], text), ordered[|ordered| - 1])
  }

  /** What the loop replaces: the variants, and the lower-cased percent encodings. */
  ghost predicate Needle(e: Encoders, ordered: seq<Bytes>, u: Bytes) {
    u in ordered || exists v :: v in ordered && HasLower(e, v) && u == e.lower(v)
  }

  lemma StepFacts(e: Encoders, t: Bytes, v: Bytes, u: Bytes)
    requires Sane(e) && v != [] && Safe(u)
    ensures Occurs(u, Step(e, t, v)) ==> Occurs(u, t)
    ensures u == v || (HasLower(e, v) && u == e.lower(v)) ==> !Occurs(u, Step(e, t, v))
  {
    var r := ReplaceAll(t, v);
    if Occurs(u, r) {
      NoneNew(u, t, v);
    }
    if u == v {
      NoneLeft(t, v);
    }
    if HasLower(e, v) {
      if Occurs(u, ReplaceAll(r, e.lower(v))) {
        NoneNew(u, r, e.lower(v));
      }
      if u == e.lower(v) {
        NoneLeft(r, u);
      }
    }
  }

  /** Complete: no safe needle is left. Conservative: no safe word appears that was not in the text. */
  lemma {:induction false} RewriteFacts(e: Encoders, ordered: seq<Bytes>, text: Bytes, u: Bytes)
    requires Sane(e) && [] !in ordered && Safe(u)
    ensures Needle(e, ordered, u) ==> !Occurs(u, Rewrite(e, ordered, text))
    ensures Occurs(u, Rewrite(e, ordered, text)) ==> Occurs(u, text)
    decreases |ordered|
  {
    if ordered != [] {
      var n := |ordered| - 1;
      var init, v := ordered[..n], ordered[n];
      assert ordered == init + [v];
      RewriteFacts(e, init, text, u);
      StepFacts(e, Rewrite(e, init, text), v, u);
    }
  }

  /** A text without needles is left alone. */
  lemma {:induction false} RewriteUnchanged(e: Encoders, ordered: seq<Bytes>, text: Bytes)
    requires Sane(e) && [] !in ordered
    requires forall u :: Needle(e, ordered, u) ==> !Occurs(u, text)
    ensures Rewrite(e, ordered, text) == text
    decreases |ordered|
  {
    if ordered != [] {
      var n := |ordered| - 1;
      var init, v := ordered[..n], ordered[n];
      assert ordered == init + [v];
      forall u | Needle(e, init, u)
        ensures !Occurs(u, text)
      {
        assert Needle(e, ordered, u);
      }
      RewriteUnchanged(e, init, text);
      assert Needle(e, ordered, v);
      NothingToReplace(text, v);
      if HasLower(e, v) {
        assert Needle(e, ordered, e.lower(v));
        NothingToReplace(text, e.lower(v));
      }
    }
  }

  // ---------------------------------------------------------------------------------------------
  // What is hidden
  // ---------------------------------------------------------------------------------------------

  /** A byte shown as it is, or a needle shown as the mask; `variant` is the variant the needle stems from. */
  datatype Piece = Kept(b: Byte) | Hidden(needle: Bytes, variant: Bytes)

  function Source(p: Piece): Bytes {
    match p
    case Kept(b) => [b]
    case Hidden(needle, _) => needle
  }

  function Face(p: Piece): Bytes {
    match p
    case Kept(b) => [b]
    case Hidden(_, _) => MASK
  }

  function Original(ps: seq<Piece>): Bytes {
    if ps == [] then [] else Source(ps[0]) + Original(ps[1..])
  }

  function Shown(ps: seq<Piece>): Bytes {
    if ps == [] then [] else Face(ps[0]) + Shown(ps[1..])
  }

  /** Some hidden piece that stems from a variant of at least `len` bytes overlaps the original bytes `from..to`. */
  predicate Touched(ps: seq<Piece>, from: int, to: int, len: nat) {
    ps != [] &&
    var n := |Source(ps[0])|;
    (ps[0].Hidden? && len <= |ps[0].variant| && from < n && 0 < to) || Touched(ps[1..], from - n, to - n, len)
  }

  predicate Spelled(ps: seq<Piece>, v: Bytes) {
    v == [] || (ps != [] && ps[0] == Kept(v[0]) && Spelled(ps[1..], v[1..]))
  }

  /** What follows the bytes that spell `v`. */
  function After(ps: seq<Piece>, v: Bytes): (rest: seq<Piece>)
    requires Spelled(ps, v)
    ensures |rest| == |ps| - |v|
  {
    if v == [] then ps else After(ps[1..], v[1..])
  }

  lemma {:induction false} SpelledShown(ps: seq<Piece>, v: Bytes)
    requires Spelled(ps, v)
    ensures Shown(ps) == v + Shown(After(ps, v))
    decreases |v|
  {
    if v != [] {
      SpelledShown(ps[1..], v[1..]);
      var rest := Shown(After(ps, v));
      assert Face(ps[0]) == [v[0]] && v == [v[0]] + v[1..];
      assert [v[0]] + (v[1..] + rest) == v + rest;
    }
  }

  lemma {:induction false} SpelledOriginal(ps: seq<Piece>, v: Bytes)
    requires Spelled(ps, v)
    ensures Original(ps) == v + Original(After(ps, v))
    decreases |v|
  {
    if v != [] {
      SpelledOriginal(ps[1..], v[1..]);
      var rest := Original(After(ps, v));
      assert Source(ps[0]) == [v[0]] && v == [v[0]] + v[1..];
      assert [v[0]] + (v[1..] + rest) == v + rest;
    }
  }

  lemma {:induction false} SpelledTouched(ps: seq<Piece>, v: Bytes, from: int, to: int, len: nat)
    requires Spelled(ps, v) && Touched(ps, from, to, len)
    ensures Touched(After(ps, v), from - |v|, to - |v|, len)
    decreases |v|
  {
    if v != [] {
      SpelledTouched(ps[1..], v[1..], from - 1, to - 1, len);
    }
  }

  lemma {:induction false} SpelledOnly(ps: seq<Piece>, v: Bytes)
    requires Spelled(ps, v)
    ensures forall p :: p in After(ps, v) ==> p in ps
    decreases |v|
  {
    if v != [] {
      SpelledOnly(ps[1..], v[1..]);
    }
  }

  /** A star-free word at the front of what is shown is spelled by kept bytes. */
  lemma {:induction false} SpelledIff(ps: seq<Piece>, v: Bytes)
    requires STAR !in v
    ensures Spelled(ps, v) <==> v <= Shown(ps)
    decreases |v|
  {
    if v != [] && ps != [] {
      assert Shown(ps)[0] == Face(ps[0])[0];
      if ps[0].Kept? {
        SpelledIff(ps[1..], v[1..]);
        assert Shown(ps)[1..] == Shown(ps[1..]);
        assert v == [v[0]] + v[1..];
      }
    }
  }

  function Hide(ps: seq<Piece>, v: Bytes, variant: Bytes): seq<Piece>
    requires v != []
    decreases |ps|
  {
    if ps == [] then []
    else if Spelled(ps, v) then
      [Hidden(v, variant)] + Hide(After(ps, v), v, variant)
    else
      [ps[0]] + Hide(ps[1..], v, variant)
  }

  lemma Uncons(a: Bytes, t: Bytes)
    requires a != []
    ensures (a + t)[0] == a[0] && (a + t)[1..] == a[1..] + t && a + t == [a[0]] + (a[1..] + t)
  {
  }

  /** A text that does not start with the first byte of the word. */
  lemma ReplaceCons(t: Bytes, v: Bytes)
    requires v != [] && t != [] && t[0] != v[0]
    ensures ReplaceAll(t, v) == [t[0]] + ReplaceAll(t[1..], v)
  {
    if |t| < |v| {
      assert t == [t[0]] + t[1..];
    }
  }

  lemma {:induction false} ReplaceSkip(a: Bytes, t: Bytes, v: Bytes)
    requires v != [] && v[0] !in a
    ensures ReplaceAll(a + t, v) == a + ReplaceAll(t, v)
    decreases |a|
  {
    if a == [] {
      assert a + t == t;
    } else {
      ReplaceSkip(a[1..], t, v);
      Uncons(a, t);
      Uncons(a, ReplaceAll(t, v));
      ReplaceCons(a + t, v);
    }
  }

  /** Hiding on pieces is replacing on what they show. */
  lemma {:induction false} HideShown(ps: seq<Piece>, v: Bytes, variant: Bytes)
    requires v != [] && STAR !in v
    ensures Shown(Hide(ps, v, variant)) == ReplaceAll(Shown(ps), v)
    decreases |ps|
  {
    if ps == [] {
    } else if Spelled(ps, v) {
      SpelledShown(ps, v);
      var rest := After(ps, v);
      HideShown(rest, v, variant);
      assert Hide(ps, v, variant)[1..] == Hide(rest, v, variant);
      assert Shown(ps)[|v|..] == Shown(rest);
    } else {
      HideShown(ps[1..], v, variant);
      SpelledIff(ps, v);
      assert Hide(ps, v, variant)[1..] == Hide(ps[1..], v, variant);
      if ps[0].Hidden? {
        ReplaceSkip(MASK, Shown(ps[1..]), v);
      } else {
        assert Shown(ps)[1..] == Shown(ps[1..]);
      }
    }
  }

  /** Hiding loses nothing of the original. */
  lemma {:induction false} HideOriginal(ps: seq<Piece>, v: Bytes, variant: Bytes)
    requires v != []
    ensures Original(Hide(ps, v, variant)) == Original(ps)
    decreases |ps|
  {
    if ps == [] {
    } else if Spelled(ps, v) {
      SpelledOriginal(ps, v);
      HideOriginal(After(ps, v), v, variant);
      assert Hide(ps, v, variant)[1..] == Hide(After(ps, v), v, variant);
    } else {
      HideOriginal(ps[1..], v, variant);
      assert Hide(ps, v, variant)[1..] == Hide(ps[1..], v, variant);
    }
  }

  /** Hiding hides only `v`. */
  lemma {:induction false} HideOnly(ps: seq<Piece>, v: Bytes, variant: Bytes)
    requires v != []
    ensures forall p :: p in Hide(ps, v, variant) && p.Hidden? ==> p in ps || p == Hidden(v, variant)
    decreases |ps|
  {
    if ps == [] {
    } else if Spelled(ps, v) {
      SpelledOnly(ps, v);
      HideOnly(After(ps, v), v, variant);
    } else {
      HideOnly(ps[1..], v, variant);
    }
  }

  lemma TouchedCons(p: Piece, ps: seq<Piece>, from: int, to: int, len: nat)
    ensures Touched([p] + ps, from, to, len) <==>
            (p.Hidden? && len <= |p.variant| && from < |Source(p)| && 0 < to) || Touched(ps, from - |Source(p)|, to - |Source(p)|, len)
  {
    assert ([p] + ps)[1..] == ps;
  }

  /** Hiding uncovers nothing. */
  lemma {:induction false} HideTouched(ps: seq<Piece>, v: Bytes, variant: Bytes, from: int, to: int, len: nat)
    requires v != [] && Touched(ps, from, to, len)
    ensures Touched(Hide(ps, v, variant), from, to, len)
    decreases |ps|
  {
    if Spelled(ps, v) {
      SpelledTouched(ps, v, from, to, len);
      HideTouched(After(ps, v), v, variant, from - |v|, to - |v|, len);
      TouchedCons(Hidden(v, variant), Hide(After(ps, v), v, variant), from, to, len);
    } else {
      var n := |Source(ps[0])|;
      if Touched(ps[1..], from - n, to - n, len) {
        HideTouched(ps[1..], v, variant, from - n, to - n, len);
      }
      TouchedCons(ps[0], Hide(ps[1..], v, variant), from, to, len);
    }
  }

  /** Every hidden piece stems from a variant of at least `len` bytes. */
  predicate Long(ps: seq<Piece>, len: nat) {
    forall p :: p in ps && p.Hidden? ==> p.needle != [] && len <= |p.variant|
  }

  /** Original bytes that no hidden piece touches are shown. */
  lemma {:induction false} UntouchedPrefix(ps: seq<Piece>, from: int, to: nat, len: nat)
    requires Long(ps, len) && from <= 0 && to <= |Original(ps)| && !Touched(ps, from, to, len)
    ensures Original(ps)[..to] <= Shown(ps)
    decreases |ps|
  {
    if ps != [] && to > 0 {
      assert ps[0] in ps && ps[0].Kept?;
      var rest := Original(ps[1..]);
      UntouchedPrefix(ps[1..], from - 1, to - 1, len);
      assert Original(ps) == [ps[0].b] + rest && Shown(ps) == [ps[0].b] + Shown(ps[1..]);
      assert ([ps[0].b] + rest)[..to] == [ps[0].b] + rest[..to - 1];
    }
  }

  lemma {:induction false} UntouchedIsShown(ps: seq<Piece>, u: Bytes, from: nat, len: nat)
    requires Long(ps, len) && u != [] && from <= |Original(ps)| && u <= Original(ps)[from..]
    ensures Touched(ps, from, from + |u|, len) || Occurs(u, Shown(ps))
    decreases |ps|
  {
    var all := Original(ps);
    if Touched(ps, from, from + |u|, len) {
    } else if from == 0 {
      assert all[0..] == all && all[..|u|] == u;
      UntouchedPrefix(ps, 0, |u|, len);
    } else {
      var n := |Source(ps[0])|;
      var rest := Original(ps[1..]);
      assert n <= from;
      assert all[from..] == rest[from - n..];
      UntouchedIsShown(ps[1..], u, from - n, len);
      OccursLater(u, Face(ps[0]), Shown(ps[1..]));
    }
  }

  // ---------------------------------------------------------------------------------------------
  // The variants and their order
  // ---------------------------------------------------------------------------------------------

  predicate FormOf(e: Encoders, value: Bytes, v: Bytes) {
    v == value || exists j :: 0 <= j < |e.forms| && v == e.forms[j](value)
  }

  /** A plain or encoded form of a non-empty secret. */
  predicate Variant(e: Encoders, values: seq<Bytes>, v: Bytes) {
    exists value :: value in values && value != [] && FormOf(e, value, v)
  }

  /** A variant, or a lower-cased percent encoding. */
  ghost predicate Secret(e: Encoders, values: seq<Bytes>, u: Bytes) {
    Variant(e, values, u) || exists v :: Variant(e, values, v) && HasLower(e, v) && u == e.lower(v)
  }

  predicate Descending(ordered: seq<Bytes>) {
    forall i, j :: 0 <= i < j < |ordered| ==> |ordered[i]| >= |ordered[j]|
  }

  ghost predicate Ordering(e: Encoders, values: seq<Bytes>, ordered: seq<Bytes>) {
    && Descending(ordered)
    && (forall v :: v in ordered <==> Variant(e, values, v) && v != [] && v != MASK)
  }

  method CollectVariants(e: Encoders, values: seq<Bytes>) returns (variants: set<Bytes>)
    ensures forall v :: v in variants <==> Variant(e, values, v)
  {
    variants := {};
    for k := 0 to |values|
      invariant forall v :: v in variants <==> Variant(e, values[..k], v)
    {
      assert values[..k + 1] == values[..k] + [values[k]];
      if values[k] != [] {
        var forms := CollectForms(e, values[k]);
        variants := variants + forms;
      }
    }
    assert values[..|values|] == values;
  }

  method CollectForms(e: Encoders, value: Bytes) returns (forms: set<Bytes>)
    ensures forall v :: v in forms <==> FormOf(e, value, v)
  {
    forms := {value};
    for j := 0 to |e.forms|
      invariant forall v :: v in forms <==> v == value || exists i :: 0 <= i < j && v == e.forms[i](value)
    {
      forms := forms + {e.forms[j](value)};
    }
  }

  method InsertByLength(ordered: seq<Bytes>, v: Bytes) returns (longer: seq<Bytes>)
    requires Descending(ordered)
    ensures Descending(longer)
    ensures forall u :: u in longer <==> u in ordered || u == v
  {
    var k := 0;
    while k < |ordered| && |ordered[k]| > |v|
      invariant k <= |ordered|
      invariant forall i :: 0 <= i < k ==> |ordered[i]| > |v|
    {
      k := k + 1;
    }
    longer := ordered[..k] + [v] + ordered[k..];
    forall u
      ensures u in longer <==> u in ordered || u == v
    {
      assert ordered == ordered[..k] + ordered[k..];
    }
  }

  method OrderByLength(variants: set<Bytes>) returns (ordered: seq<Bytes>)
    ensures Descending(ordered)
    ensures forall v :: v in ordered <==> v in variants && v != [] && v != MASK
  {
    ordered := [];
    var rest := variants;
    while rest != {}
      invariant rest <= variants && Descending(ordered)
      invariant forall v :: v in ordered <==> v in variants && v !in rest && v != [] && v != MASK
      decreases |rest|
    {
      var v :| v in rest;
      rest := rest - {v};
      if v != [] && v != MASK {
        ordered := InsertByLength(ordered, v);
      }
    }
  }

  // ---------------------------------------------------------------------------------------------
  // The whole of Mask
  // ---------------------------------------------------------------------------------------------

  predicate Stems(e: Encoders, ordered: seq<Bytes>, p: Piece) {
    p.Hidden? ==>
      p.variant in ordered && (p.needle == p.variant || (HasLower(e, p.variant) && p.needle == e.lower(p.variant)))
  }

  /** Every occurrence of a variant in the original is hit by the masking of a variant at least as long. */
  ghost predicate Hit(ps: seq<Piece>, v: Bytes) {
    forall from :: 0 <= from <= |Original(ps)| && v <= Original(ps)[from..] ==> Touched(ps, from, from + |v|, |v|)
  }

  /** The result is the text with occurrences of needles masked and nothing else changed; and every occurrence of
      a variant in the text is hit by the masking of a variant at least as long. */
  ghost predicate Explains(e: Encoders, ordered: seq<Bytes>, text: Bytes, result: Bytes, ps: seq<Piece>) {
    && Original(ps) == text && Shown(ps) == result
    && (forall p :: p in ps ==> Stems(e, ordered, p))
    && (forall v :: v in ordered ==> Hit(ps, v))
  }

  ghost predicate StarFree(e: Encoders, ordered: seq<Bytes>) {
    forall u :: Needle(e, ordered, u) ==> STAR !in u
  }

  lemma {:induction false} KeepAll(text: Bytes) returns (ps: seq<Piece>)
    ensures Original(ps) == text && Shown(ps) == text
    ensures forall p :: p in ps ==> p.Kept?
    decreases |text|
  {
    if text == [] {
      ps := [];
    } else {
      var rest := KeepAll(text[1..]);
      ps := [Kept(text[0])] + rest;
      assert ps[1..] == rest;
    }
  }

  /** One variant more. */
  lemma StepPieces(e: Encoders, ordered: seq<Bytes>, v: Bytes, ps: seq<Piece>) returns (ps': seq<Piece>)
    requires Sane(e) && v in ordered && v != [] && StarFree(e, ordered)
    requires forall p :: p in ps ==> Stems(e, ordered, p)
    requires [] !in ordered && forall w :: w in ordered ==> |v| <= |w|
    ensures Original(ps') == Original(ps) && Shown(ps') == Step(e, Shown(ps), v)
    ensures forall p :: p in ps' ==> Stems(e, ordered, p)
    ensures Hit(ps', v) && forall w :: Hit(ps, w) ==> Hit(ps', w)
  {
    assert Needle(e, ordered, v);
    var middle := Hide(ps, v, v);
    HideShown(ps, v, v);
    HideOriginal(ps, v, v);
    HideOnly(ps, v, v);
    HideKeepsHits(ps, v, v);
    FirstHit(e, ordered, ps, v);
    ps' := middle;
    if HasLower(e, v) {
      var u := e.lower(v);
      assert Needle(e, ordered, u);
      ps' := Hide(middle, u, v);
      HideShown(middle, u, v);
      HideOriginal(middle, u, v);
      HideOnly(middle, u, v);
      HideKeepsHits(middle, u, v);
    }
  }

  lemma HideKeepsHits(ps: seq<Piece>, v: Bytes, variant: Bytes)
    requires v != []
    ensures forall w :: Hit(ps, w) ==> Hit(Hide(ps, v, variant), w)
  {
    HideOriginal(ps, v, variant);
    forall w, from | Hit(ps, w) && 0 <= from <= |Original(ps)| && w <= Original(ps)[from..]
      ensures Touched(Hide(ps, v, variant), from, from + |w|, |w|)
    {
      HideTouched(ps, v, variant, from, from + |w|, |w|);
    }
  }

  /** When its turn comes, every occurrence of a variant that is still whole is hit. */
  lemma FirstHit(e: Encoders, ordered: seq<Bytes>, ps: seq<Piece>, v: Bytes)
    requires Sane(e) && v in ordered && v != [] && STAR !in v
    requires forall p :: p in ps ==> Stems(e, ordered, p)
    requires [] !in ordered && forall w :: w in ordered ==> |v| <= |w|
    ensures Hit(Hide(ps, v, v), v)
  {
    var hidden := Hide(ps, v, v);
    HideShown(ps, v, v);
    HideOriginal(ps, v, v);
    HideOnly(ps, v, v);
    MaskHasStar(v);
    NoneLeft(Shown(ps), v);
    forall p | p in hidden && p.Hidden?
      ensures p.needle != [] && |v| <= |p.variant|
    {
      assert p == Hidden(v, v) || Stems(e, ordered, p);
    }
    forall from | 0 <= from <= |Original(ps)| && v <= Original(ps)[from..]
      ensures Touched(hidden, from, from + |v|, |v|)
    {
      UntouchedIsShown(hidden, v, from, |v|);
    }
  }

  lemma {:induction false} RewriteExplained(e: Encoders, ordered: seq<Bytes>, text: Bytes) returns (ps: seq<Piece>)
    requires Sane(e) && [] !in ordered && Descending(ordered) && StarFree(e, ordered)
    ensures Explains(e, ordered, text, Rewrite(e, ordered, text), ps)
    decreases |ordered|
  {
    if ordered == [] {
      ps := KeepAll(text);
    } else {
      var n := |ordered| - 1;
      var init, v := ordered[..n], ordered[n];
      assert ordered == init + [v];
      forall u | Needle(e, init, u)
        ensures STAR !in u
      {
        assert Needle(e, ordered, u);
      }
      var before := RewriteExplained(e, init, text);
      forall p | p in before
        ensures Stems(e, ordered, p)
      {
        assert Stems(e, init, p);
      }
      ps := StepPieces(e, ordered, v, before);
    }
  }

  /** A star in the text is never removed: a secret that is a single star is masked nowhere. */
  lemma {:induction false} StarStays(t: Bytes, v: Bytes)
    requires v != [] && STAR in t
    ensures STAR in ReplaceAll(t, v)
    decreases |t|
  {
    if |t| < |v| {
    } else if v <= t {
      assert MASK[0] == STAR;
    } else if t[0] != STAR {
      assert t == [t[0]] + t[1..];
      StarStays(t[1..], v);
    }
  }

  lemma {:induction false} StarSecretSurvives(e: Encoders, ordered: seq<Bytes>, text: Bytes)
    requires Sane(e) && [] !in ordered && STAR in text
    ensures STAR in Rewrite(e, ordered, text)
    decreases |ordered|
  {
    if ordered != [] {
      var n := |ordered| - 1;
      StarSecretSurvives(e, ordered[..n], text);
      var before := Rewrite(e, ordered[..n], text);
      StarStays(before, ordered[n]);
      if HasLower(e, ordered[n]) {
        StarStays(ReplaceAll(before, ordered[n]), e.lower(ordered[n]));
      }
    }
  }

  /** A replacement that changes the text leaves a mask in it. */
  lemma {:induction false} LeavesMask(t: Bytes, v: Bytes)
    requires v != [] && Occurs(v, t)
    ensures Occurs(MASK, ReplaceAll(t, v))
    decreases |t|
  {
    if |t| < |v| {
      TooShort(v, t);
    } else if v <= t {
      assert MASK <= ReplaceAll(t, v);
    } else {
      LeavesMask(t[1..], v);
      assert ReplaceAll(t, v)[1..] == ReplaceAll(t[1..], v);
    }
  }

  lemma MaskStays(t: Bytes, v: Bytes)
    requires v != [] && Occurs(MASK, t)
    ensures Occurs(MASK, ReplaceAll(t, v))
  {
    if Occurs(v, t) {
      LeavesMask(t, v);
    } else {
      NothingToReplace(t, v);
    }
  }

  /** So does a secret that is the mask itself: the loop passes it over, and no other replacement removes it. */
  lemma {:induction false} MaskSecretSurvives(e: Encoders, ordered: seq<Bytes>, text: Bytes)
    requires Sane(e) && [] !in ordered && Occurs(MASK, text)
    ensures Occurs(MASK, Rewrite(e, ordered, text))
    decreases |ordered|
  {
    if ordered != [] {
      var n := |ordered| - 1;
      MaskSecretSurvives(e, ordered[..n], text);
      var before := Rewrite(e, ordered[..n], text);
      MaskStays(before, ordered[n]);
      if HasLower(e, ordered[n]) {
        MaskStays(ReplaceAll(before, ordered[n]), e.lower(ordered[n]));
      }
    }
  }

  lemma {:induction false} RewriteJoins(e: Encoders, a: seq<Bytes>, b: seq<Bytes>, text: Bytes)
    requires Sane(e) && [] !in a && [] !in b
    ensures Rewrite(e, a + b, text) == Rewrite(e, b, Rewrite(e, a, text))
    decreases |b|
  {
    if b == [] {
      assert a + b == a;
    } else {
      var n := |b| - 1;
      RewriteJoins(e, a, b[..n], text);
      assert (a + b)[..|a + b| - 1] == a + b[..n];
    }
  }

  /** What the loop replaces besides `v`: `a` before it, `b` after it, and its lower-cased form. */
  ghost predicate Other(e: Encoders, a: seq<Bytes>, v: Bytes, b: seq<Bytes>, u: Bytes) {
    Needle(e, a, u) || Needle(e, b, u) || (HasLower(e, v) && u == e.lower(v))
  }

  /** Every unsafe needle has a text in which it survives the whole loop, unless another needle occurs in that text
      before or after its replacement. */
  lemma UnsafeNeedleSurvives(e: Encoders, a: seq<Bytes>, v: Bytes, b: seq<Bytes>) returns (t: Bytes)
    requires Sane(e) && [] !in a && [] !in b && v != [] && v != MASK && !Safe(v)
    ensures Occurs(v, ReplaceAll(t, v))
    ensures (forall u :: Other(e, a, v, b, u) ==> !Occurs(u, t) && !Occurs(u, ReplaceAll(t, v))) ==>
              Rewrite(e, a + [v] + b, t) == ReplaceAll(t, v)
  {
    t := UnsafeSurvives(v);
    if forall u :: Other(e, a, v, b, u) ==> !Occurs(u, t) && !Occurs(u, ReplaceAll(t, v)) {
      AloneReplaced(e, a, v, b, t);
    }
  }

  lemma AloneReplaced(e: Encoders, a: seq<Bytes>, v: Bytes, b: seq<Bytes>, t: Bytes)
    requires Sane(e) && [] !in a && [] !in b && v != []
    requires forall u :: Other(e, a, v, b, u) ==> !Occurs(u, t) && !Occurs(u, ReplaceAll(t, v))
    ensures Rewrite(e, a + [v] + b, t) == ReplaceAll(t, v)
  {
    var r := ReplaceAll(t, v);
    forall u | Needle(e, a, u)
      ensures !Occurs(u, t)
    {
      assert Other(e, a, v, b, u);
    }
    RewriteUnchanged(e, a, t);
    if HasLower(e, v) {
      assert Other(e, a, v, b, e.lower(v));
      NothingToReplace(r, e.lower(v));
    }
    assert Step(e, t, v) == r;
    assert (a + [v])[..|a|] == a;
    forall u | Needle(e, b, u)
      ensures !Occurs(u, r)
    {
      assert Other(e, a, v, b, u);
    }
    RewriteUnchanged(e, b, r);
    RewriteJoins(e, a + [v], b, t);
  }

  /** Every secret needle is one the loop replaces, unless it is empty or stems from the mask. */
  lemma NeedlesAreSecrets(e: Encoders, values: seq<Bytes>, ordered: seq<Bytes>)
    requires Ordering(e, values, ordered)
    ensures forall u :: Needle(e, ordered, u) ==> Secret(e, values, u)
    ensures forall u :: Secret(e, values, u) ==> Needle(e, ordered, u) || u == [] || u == MASK
  {
    forall u | Secret(e, values, u)
      ensures Needle(e, ordered, u) || u == [] || u == MASK
    {
      if !Variant(e, values, u) {
        var v :| Variant(e, values, v) && HasLower(e, v) && u == e.lower(v);
        assert v in ordered;
      }
    }
  }

  /** Masks every variant of every secret. No safe needle is left, none is created, a text without needles is
      unchanged, and without stars among the needles the result is explained by its pieces. */
  /** Not a value, nor an encoded form of one, nor such a form in lower case if it is percent-encoded. */
  ghost predicate NothingLeft(e: Encoders, values: seq<Bytes>, result: Bytes) {
    forall value :: value in values && value != [] ==>
      && Left(value, result) && FormLeft(e, value, result)
      && forall j :: 0 <= j < |e.forms| ==> Left(e.forms[j](value), result) && FormLeft(e, e.forms[j](value), result)
  }

  ghost predicate Left(u: Bytes, result: Bytes) {
    Safe(u) ==> !Occurs(u, result)
  }

  ghost predicate FormLeft(e: Encoders, form: Bytes, result: Bytes) {
    PERCENT in form ==> Left(e.lower(form), result)
  }

  lemma SecretsAreLeftOut(e: Encoders, values: seq<Bytes>, result: Bytes)
    requires forall u :: Safe(u) && Secret(e, values, u) ==> !Occurs(u, result)
    ensures NothingLeft(e, values, result)
  {
    forall value, form | value in values && value != [] && FormOf(e, value, form)
      ensures Left(form, result) && FormLeft(e, form, result)
    {
      assert Variant(e, values, form) && Secret(e, values, form);
      assert PERCENT in form && e.lower(form) != form ==> Secret(e, values, e.lower(form));
    }
    forall value | value in values && value != []
      ensures Left(value, result) && FormLeft(e, value, result)
      ensures forall j :: 0 <= j < |e.forms| ==> Left(e.forms[j](value), result) && FormLeft(e, e.forms[j](value), result)
    {
      assert FormOf(e, value, value);
      assert forall j :: 0 <= j < |e.forms| ==> FormOf(e, value, e.forms[j](value));
    }
  }

  method Mask(e: Encoders, text: Bytes, values: seq<Bytes>)
    returns (result: Bytes, ghost ordered: seq<Bytes>, ghost pieces: seq<Piece>)
    requires Sane(e)
    ensures Ordering(e, values, ordered) && result == Rewrite(e, ordered, text)
    ensures forall u :: Safe(u) && Secret(e, values, u) ==> !Occurs(u, result)
    ensures NothingLeft(e, values, result)
    ensures forall u :: Safe(u) && Occurs(u, result) ==> Occurs(u, text)
    ensures (forall u :: Secret(e, values, u) && u != [] ==> !Occurs(u, text)) ==> result == text
    ensures (forall u :: Secret(e, values, u) ==> STAR !in u) ==> Explains(e, ordered, text, result, pieces)
  {
    var variants := CollectVariants(e, values);
    var sorted := OrderByLength(variants);
    ordered := sorted;
    assert [] !in sorted;
    result := text;
    for k := 0 to |sorted|
      invariant [] !in sorted[..k]
      invariant result == Rewrite(e, sorted[..k], text)
    {
      assert sorted[..k + 1][..k] == sorted[..k];
      assert sorted[k] in sorted && sorted[k] != [];
      result := ReplaceAll(result, sorted[k]);
      if PERCENT in sorted[k] && e.lower(sorted[k]) != sorted[k] {
        result := ReplaceAll(result, e.lower(sorted[k]));
      }
    }
    assert sorted[..|sorted|] == sorted;
    NeedlesAreSecrets(e, values, ordered);
    RewriteTheorem(e, ordered, text);
    SecretsAreLeftOut(e, values, result);
    pieces := [];
    if StarFree(e, ordered) {
      pieces := RewriteExplained(e, ordered, text);
    }
  }

  lemma RewriteTheorem(e: Encoders, ordered: seq<Bytes>, text: Bytes)
    requires Sane(e) && [] !in ordered
    ensures forall u :: Safe(u) && Needle(e, ordered, u) ==> !Occurs(u, Rewrite(e, ordered, text))
    ensures forall u :: Safe(u) && Occurs(u, Rewrite(e, ordered, text)) ==> Occurs(u, text)
    ensures (forall u :: Needle(e, ordered, u) ==> !Occurs(u, text)) ==> Rewrite(e, ordered, text) == text
  {
    forall u | Safe(u)
      ensures Needle(e, ordered, u) ==> !Occurs(u, Rewrite(e, ordered, text))
      ensures Occurs(u, Rewrite(e, ordered, text)) ==> Occurs(u, text)
    {
      RewriteFacts(e, ordered, text, u);
    }
    if forall u :: Needle(e, ordered, u) ==> !Occurs(u, text) {
      RewriteUnchanged(e, ordered, text);
    }
  }

  /** If no secret holds a star and no encoder introduces one, every needle is safe, so all of them are gone. */
  lemma StarFreeSecretsAreSafe(e: Encoders, values: seq<Bytes>, u: Bytes)
    requires Sane(e) && Secret(e, values, u) && u != []
    requires forall value :: value in values ==> STAR !in value
    requires forall value: Bytes, j :: 0 <= j < |e.forms| && STAR !in value ==> STAR !in e.forms[j](value)
    requires forall value: Bytes :: STAR !in value ==> STAR !in e.lower(value)
    ensures STAR !in u && Safe(u)
  {
    forall v | Variant(e, values, v)
      ensures STAR !in v
    {
      var value :| value in values && value != [] && FormOf(e, value, v);
    }
    MaskHasStar(u);
  }
}
