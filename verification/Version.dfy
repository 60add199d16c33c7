/** Stable version comparison (internal/agentupgrade/version.go). Strings are sequences of bytes. */
module Version {

  const MAX_LENGTH: nat := 64

  // ---------------------------------------------------------------------------------------------
  // The grammar and its meaning
  // ---------------------------------------------------------------------------------------------

  predicate Digit(c: char) {
    '0' <= c <= '9'
  }

  /** A decimal numeral without leading zeros. */
  predicate Numeral(s: string) {
    && |s| > 0
    && (|s| > 1 ==> s[0] != '0')
    && forall i :: 0 <= i < |s| ==> Digit(s[i])
  }

  function Pow10(n: nat): (p: nat)
    ensures p > 0
  {
    if n == 0 then 1 else 10 * Pow10(n - 1)
  }

  function DigitValue(c: char): (d: nat)
    ensures d <= 9
  {
    if Digit(c) then c as int - '0' as int else 0
  }

  /** The number a string of digits denotes. */
  function Value(s: string): nat {
    if |s| == 0 then 0 else DigitValue(s[0]) * Pow10(|s| - 1) + Value(s[1..])
  }

  datatype Core = Core(major: nat, minor: nat, patch: nat)

  /** Precedence of major.minor.patch (section 11 of Semantic Versioning 2.0.0). */
  predicate Precedes(x: Core, y: Core) {
    || x.major < y.major
    || (x.major == y.major && (x.minor < y.minor || (x.minor == y.minor && x.patch < y.patch)))
  }

  /** `version` is [v]a.b.c, not longer than the limit, and denotes `core`. */
  ghost predicate Reads(version: string, core: Core) {
    exists prefix, a, b, c :: ReadsAs(version, core, prefix, a, b, c)
  }

  predicate ReadsAs(version: string, core: Core, prefix: string, a: string, b: string, c: string) {
    && (prefix == "" || prefix == "v")
    && Numeral(a) && Numeral(b) && Numeral(c)
    && version == prefix + (a + "." + (b + "." + c))
    && |version| <= MAX_LENGTH
    && core == Core(Value(a), Value(b), Value(c))
  }

  // ---------------------------------------------------------------------------------------------
  // The code
  // ---------------------------------------------------------------------------------------------

  /** `strings.Split(s, ".")`. */
  function Split(s: string): (segments: seq<string>)
    ensures |segments| >= 1
  {
    if |s| == 0 then [""]
    else
      var rest := Split(s[1..]);
      if s[0] == '.' then [""] + rest else [[s[0]] + rest[0]] + rest[1..]
  }

  function Unprefixed(version: string): string {
    if |version| > 0 && version[0] == 'v' then version[1..] else version
  }

  predicate Stable(version: string) {
    && 0 < |version| <= MAX_LENGTH
    && |Split(Unprefixed(version))| == 3
    && forall k :: 0 <= k < 3 ==> Numeral(Split(Unprefixed(version))[k])
  }

  method StableVersionParts(version: string) returns (parts: seq<string>, ok: bool)
    ensures ok == Stable(version)
    ensures ok ==> parts == Split(Unprefixed(version))
  {
    parts := ["", "", ""];
    if |version| == 0 || |version| > MAX_LENGTH {
      return parts, false;
    }
    var rest := version;
    if version[0] == 'v' {
      rest := version[1..];
    }
    var segments := Split(rest);
    if |segments| != 3 {
      return parts, false;
    }
    var index := 0;
    while index < 3
      invariant 0 <= index <= 3 && |parts| == 3
      invariant forall k :: 0 <= k < index ==> Numeral(segments[k]) && parts[k] == segments[k]
    {
      var segment := segments[index];
      if |segment| == 0 || (|segment| > 1 && segment[0] == '0') {
        return parts, false;
      }
      var digit := 0;
      while digit < |segment|
        invariant 0 <= digit <= |segment|
        invariant forall j :: 0 <= j < digit ==> Digit(segment[j])
      {
        if segment[digit] < '0' || segment[digit] > '9' {
          assert !Numeral(segments[index]);
          return parts, false;
        }
        digit := digit + 1;
      }
      parts := parts[index := segment];
      index := index + 1;
    }
    ok := true;
    assert parts == segments;
  }

  /** `strings.Compare`. */
  function StringCompare(a: string, b: string): int {
    if |a| == 0 && |b| == 0 then 0
    else if |a| == 0 then -1
    else if |b| == 0 then 1
    else if a[0] < b[0] then -1
    else if a[0] > b[0] then 1
    else StringCompare(a[1..], b[1..])
  }

  /** The comparison decides numeric precedence, for every pair of strings and any number of digits, and
      refuses exactly the pairs with a string that denotes no version. */
  method CompareStableVersions(left: string, right: string) returns (comparison: int, ok: bool)
    ensures ok <==> (exists x :: Reads(left, x)) && (exists y :: Reads(right, y))
    ensures ok ==> forall x, y :: Reads(left, x) && Reads(right, y) ==>
      && (comparison < 0 <==> Precedes(x, y))
      && (comparison > 0 <==> Precedes(y, x))
      && (comparison == 0 <==> x == y)
  {
    StableIffReads(left);
    StableIffReads(right);
    var leftParts, leftOK := StableVersionParts(left);
    var rightParts, rightOK := StableVersionParts(right);
    if !leftOK || !rightOK {
      return 0, false;
    }
    ok := true;
    forall x, y | Reads(left, x) && Reads(right, y) ensures x == CoreOf(leftParts) && y == CoreOf(rightParts) {
      ReadsUnique(left, x);
      ReadsUnique(right, y);
    }
    var index := 0;
    while index < 3
      invariant 0 <= index <= 3
      invariant forall k :: 0 <= k < index ==> leftParts[k] == rightParts[k]
    {
      NumeralOrder(leftParts[index], rightParts[index]);
      if |leftParts[index]| < |rightParts[index]| {
        return -1, true;
      }
      if |leftParts[index]| > |rightParts[index]| {
        return 1, true;
      }
      comparison := StringCompare(leftParts[index], rightParts[index]);
      if comparison != 0 {
        return;
      }
      index := index + 1;
    }
    comparison := 0;
  }

  // ---------------------------------------------------------------------------------------------
  // Why it is numeric
  // ---------------------------------------------------------------------------------------------

  function CoreOf(parts: seq<string>): Core
    requires |parts| == 3
  {
    Core(Value(parts[0]), Value(parts[1]), Value(parts[2]))
  }

  lemma {:induction false} ScaleOrder(x: nat, y: nat, p: nat)
    requires x < y
    ensures x * p + p <= y * p
  {
    OneMore(y - 1, p);
    if x < y - 1 {
      ScaleOrder(x, y - 1, p);
    }
  }

  lemma OneMore(x: nat, p: nat)
    ensures (x + 1) * p == x * p + p
  {
  }

  lemma {:induction false} ValueBound(s: string)
    ensures Value(s) < Pow10(|s|)
  {
    if |s| > 0 {
      ValueBound(s[1..]);
      ScaleOrder(DigitValue(s[0]), 10, Pow10(|s| - 1));
    }
  }

  lemma ValueLead(s: string)
    requires Numeral(s) && |s| > 1
    ensures Value(s) >= Pow10(|s| - 1)
  {
    ScaleOrder(0, DigitValue(s[0]), Pow10(|s| - 1));
  }

  lemma {:induction false} Pow10Monotone(m: nat, n: nat)
    requires m <= n
    ensures Pow10(m) <= Pow10(n)
  {
    if m < n { Pow10Monotone(m, n - 1); }
  }

  lemma ShorterIsSmaller(a: string, b: string)
    requires Numeral(a) && Numeral(b) && |a| < |b|
    ensures Value(a) < Value(b)
  {
    ValueBound(a);
    Pow10Monotone(|a|, |b| - 1);
    ValueLead(b);
  }

  lemma {:induction false} SameLengthOrder(a: string, b: string)
    requires |a| == |b|
    requires forall i :: 0 <= i < |a| ==> Digit(a[i]) && Digit(b[i])
    ensures StringCompare(a, b) < 0 <==> Value(a) < Value(b)
    ensures StringCompare(a, b) > 0 <==> Value(a) > Value(b)
    ensures StringCompare(a, b) == 0 <==> a == b
  {
    if |a| > 0 {
      var x, y, p := DigitValue(a[0]), DigitValue(b[0]), Pow10(|a| - 1);
      ValueBound(a[1..]);
      ValueBound(b[1..]);
      if a[0] == b[0] {
        SameLengthOrder(a[1..], b[1..]);
        assert a == [a[0]] + a[1..] && b == [b[0]] + b[1..];
      } else if a[0] < b[0] {
        ScaleOrder(x, y, p);
      } else {
        ScaleOrder(y, x, p);
      }
    }
  }

  /** Length first, then bytes, is the numeric order of numerals of any length. */
  lemma NumeralOrder(a: string, b: string)
    requires Numeral(a) && Numeral(b)
    ensures |a| < |b| ==> Value(a) < Value(b)
    ensures |a| > |b| ==> Value(a) > Value(b)
    ensures |a| == |b| ==>
      && (StringCompare(a, b) < 0 <==> Value(a) < Value(b))
      && (StringCompare(a, b) > 0 <==> Value(a) > Value(b))
      && (StringCompare(a, b) == 0 <==> a == b)
  {
    if |a| < |b| {
      ShorterIsSmaller(a, b);
    } else if |a| > |b| {
      ShorterIsSmaller(b, a);
    } else {
      SameLengthOrder(a, b);
    }
  }

  lemma {:induction false} SplitDotFree(a: string, rest: string)
    requires '.' !in a
    ensures Split(a + "." + rest) == [a] + Split(rest)
    ensures Split(a) == [a]
  {
    if |a| == 0 {
      assert a + "." + rest == "." + rest;
      assert ("." + rest)[1..] == rest;
    } else {
      SplitDotFree(a[1..], rest);
      assert (a + "." + rest)[1..] == a[1..] + "." + rest;
      assert a == [a[0]] + a[1..];
      var tail := Split(a[1..] + "." + rest);
      assert tail[1..] == Split(rest);
    }
  }

  function Join(segments: seq<string>): string
    requires |segments| >= 1
  {
    if |segments| == 1 then segments[0] else segments[0] + "." + Join(segments[1..])
  }

  lemma {:induction false} JoinSplit(s: string)
    ensures Join(Split(s)) == s
  {
    if |s| > 0 {
      JoinSplit(s[1..]);
      var rest := Split(s[1..]);
      if s[0] == '.' {
        assert ([""] + rest)[1..] == rest;
        assert Join(Split(s)) == "" + "." + Join(rest);
        assert s == "." + s[1..];
      } else {
        var all := [[s[0]] + rest[0]] + rest[1..];
        if |rest| > 1 {
          assert all[1..] == rest[1..];
          assert Join(all) == [s[0]] + rest[0] + "." + Join(rest[1..]);
          assert s == [s[0]] + (rest[0] + "." + Join(rest[1..]));
        } else {
          assert Join(all) == [s[0]] + rest[0];
        }
        assert s == [s[0]] + s[1..];
      }
    }
  }

  lemma ReadsAsSplits(version: string, core: Core, prefix: string, a: string, b: string, c: string)
    requires ReadsAs(version, core, prefix, a, b, c)
    ensures Split(Unprefixed(version)) == [a, b, c]
  {
    var body := a + "." + (b + "." + c);
    assert body[0] == a[0] && Digit(a[0]);
    assert Unprefixed(version) == body by {
      if prefix == "v" {
        assert version[0] == 'v' && version[1..] == body;
      } else {
        assert version == body;
      }
    }
    SplitDotFree(a, b + "." + c);
    SplitDotFree(b, c);
    SplitDotFree(c, "");
  }

  lemma StableIffReads(version: string)
    ensures Stable(version) <==> exists core :: Reads(version, core)
  {
    if Stable(version) {
      var s := Split(Unprefixed(version));
      JoinSplit(Unprefixed(version));
      assert s[1..][1..] == [s[2]] && s[1..][0] == s[1];
      assert Join(s[1..]) == s[1] + "." + Join(s[1..][1..]);
      assert Unprefixed(version) == s[0] + "." + (s[1] + "." + s[2]);
      var prefix := if version[0] == 'v' then "v" else "";
      assert version == prefix + Unprefixed(version);
      assert ReadsAs(version, CoreOf(s), prefix, s[0], s[1], s[2]);
      assert Reads(version, CoreOf(s));
    }
    if exists core :: Reads(version, core) {
      var core :| Reads(version, core);
      var prefix, a, b, c :| ReadsAs(version, core, prefix, a, b, c);
      ReadsAsSplits(version, core, prefix, a, b, c);
    }
  }

  lemma ReadsUnique(version: string, core: Core)
    requires Reads(version, core)
    ensures Stable(version) && core == CoreOf(Split(Unprefixed(version)))
  {
    var prefix, a, b, c :| ReadsAs(version, core, prefix, a, b, c);
    ReadsAsSplits(version, core, prefix, a, b, c);
  }

  /** Two accepted strings denote the same version exactly when they differ at most by the prefix. */
  lemma EqualUpToPrefix(left: string, right: string, x: Core, y: Core)
    requires Reads(left, x) && Reads(right, y)
    ensures x == y <==> Unprefixed(left) == Unprefixed(right)
  {
    ReadsUnique(left, x);
    ReadsUnique(right, y);
    var s, t := Split(Unprefixed(left)), Split(Unprefixed(right));
    if x == y {
      NumeralOrder(s[0], t[0]);
      NumeralOrder(s[1], t[1]);
      NumeralOrder(s[2], t[2]);
      assert s == t;
      JoinSplit(Unprefixed(left));
      JoinSplit(Unprefixed(right));
    }
  }

  // ---------------------------------------------------------------------------------------------
  // How a version is written
  // ---------------------------------------------------------------------------------------------

  const DIGITS: string := "0123456789"

  /** A number as it is written. */
  function Decimal(n: nat): string {
    if n < 10 then [DIGITS[n]] else Decimal(n / 10) + [DIGITS[n % 10]]
  }

  function Written(core: Core): string {
    Decimal(core.major) + "." + (Decimal(core.minor) + "." + Decimal(core.patch))
  }

  lemma DigitIs(d: nat)
    requires d < 10
    ensures Digit(DIGITS[d]) && DigitValue(DIGITS[d]) == d && (DIGITS[d] == '0' <==> d == 0)
  {
  }

  lemma IsDigit(c: char)
    requires Digit(c)
    ensures DIGITS[DigitValue(c)] == c
  {
  }

  lemma {:induction false} ValueSnoc(s: string, c: char)
    ensures Value(s + [c]) == 10 * Value(s) + DigitValue(c)
  {
    if s == [] {
      assert s + [c] == [c] && [c][1..] == [];
    } else {
      assert (s + [c])[1..] == s[1..] + [c];
      ValueSnoc(s[1..], c);
      assert Pow10(|s|) == 10 * Pow10(|s| - 1);
    }
  }

  /** A written number is a numeral and denotes that number. */
  lemma {:induction false} WrittenReads(n: nat)
    ensures Numeral(Decimal(n)) && Value(Decimal(n)) == n && (Decimal(n)[0] == '0' <==> n == 0)
  {
    DigitIs(n % 10);
    if n < 10 {
      assert Decimal(n) == "" + [DIGITS[n]];
      ValueSnoc("", DIGITS[n]);
    } else {
      WrittenReads(n / 10);
      ValueSnoc(Decimal(n / 10), DIGITS[n % 10]);
    }
  }

  /** A numeral is the number it denotes, written out. */
  lemma {:induction false} NumeralIsWritten(s: string)
    requires Numeral(s)
    ensures s == Decimal(Value(s)) && (Value(s) > 0 || s == "0")
    decreases |s|
  {
    var n := |s| - 1;
    var front, c := s[..n], s[n];
    assert s == front + [c];
    ValueSnoc(front, c);
    IsDigit(c);
    if n > 0 {
      assert Numeral(front);
      NumeralIsWritten(front);
      TenTimes(Value(front), DigitValue(c));
    } else {
      assert front == "";
    }
  }

  lemma TenTimes(a: nat, d: nat)
    requires a > 0 && d < 10
    ensures 10 * a + d >= 10 && (10 * a + d) / 10 == a && (10 * a + d) % 10 == d
  {
  }

  /** A version is accepted and denotes a core exactly if it is the core written out, with or without the prefix, and not
      too long. */
  lemma ReadsIffWritten(version: string, core: Core)
    ensures Reads(version, core) <==> version in {Written(core), "v" + Written(core)} && |version| <= 64
  {
    if Reads(version, core) {
      var prefix, a, b, c :| ReadsAs(version, core, prefix, a, b, c);
      NumeralIsWritten(a);
      NumeralIsWritten(b);
      NumeralIsWritten(c);
      assert "" + Written(core) == Written(core);
    }
    if version in {Written(core), "v" + Written(core)} && |version| <= 64 {
      WrittenReads(core.major);
      WrittenReads(core.minor);
      WrittenReads(core.patch);
      var prefix := if version == Written(core) then "" else "v";
      assert "" + Written(core) == Written(core);
      assert ReadsAs(version, core, prefix, Decimal(core.major), Decimal(core.minor), Decimal(core.patch));
    }
  }
}
