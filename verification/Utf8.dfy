/** What the byte tests on UTF-8 amount to (section 3 of RFC 3629): a text is well formed exactly if it is the
    concatenation of encoded Unicode scalar values. */
module Utf8 {
  import opened Common
  import opened LogSplit

  /** A code point that is not a surrogate. */
  predicate Scalar(c: int) {
    0 <= c <= 0x10FFFF && !(0xD800 <= c <= 0xDFFF)
  }

  function Encode(c: int): seq<Byte>
    requires Scalar(c)
  {
    if c < 0x80 then [c]
    else if c < 0x800 then [0xC0 + c / 64, 0x80 + c % 64]
    else if c < 0x10000 then [0xE0 + c / 4096, 0x80 + c / 64 % 64, 0x80 + c % 64]
    else [0xF0 + c / 262144, 0x80 + c / 4096 % 64, 0x80 + c / 64 % 64, 0x80 + c % 64]
  }

  predicate AllScalar(cs: seq<int>) {
    forall i :: 0 <= i < |cs| ==> Scalar(cs[i])
  }

  function EncodeAll(cs: seq<int>): seq<Byte>
    requires AllScalar(cs)
  {
    if cs == [] then [] else Encode(cs[0]) + EncodeAll(cs[1..])
  }

  /** An encoded scalar value is taken as one character, whatever follows it. */
  lemma EncodedIsRune(c: int, rest: seq<Byte>)
    requires Scalar(c)
    ensures RuneLength(Encode(c) + rest) == |Encode(c)|
  {
    var s := Encode(c) + rest;
    assert forall i :: 0 <= i < |Encode(c)| ==> s[i] == Encode(c)[i];
  }

  lemma Pair(a: int, b: int)
    requires 0 <= b < 64
    ensures (64 * a + b) / 64 == a && (64 * a + b) % 64 == b
  {
  }

  /** What is taken as a character is an encoded scalar value. */
  lemma RuneIsEncoded(s: seq<Byte>) returns (c: int)
    requires RuneLength(s) > 0
    ensures Scalar(c) && Encode(c) == s[..RuneLength(s)]
  {
    if RuneLength(s) == 1 {
      c := s[0];
    } else if RuneLength(s) == 2 {
      c := Decode2(s[0], s[1]);
    } else if RuneLength(s) == 3 {
      c := Decode3(s[0], s[1], s[2]);
    } else {
      c := Decode4(s[0], s[1], s[2], s[3]);
    }
  }

  lemma Decode2(a: int, b: int) returns (c: int)
    requires 0xC2 <= a <= 0xDF && 0x80 <= b <= 0xBF
    ensures Scalar(c) && Encode(c) == [a, b]
  {
    c := 64 * (a - 0xC0) + (b - 0x80);
    Pair(a - 0xC0, b - 0x80);
  }

  lemma Decode3(a: int, b: int, b2: int) returns (c: int)
    requires 0xE0 <= a <= 0xEF && 0x80 <= b <= 0xBF && 0x80 <= b2 <= 0xBF
    requires (a == 0xE0 ==> b >= 0xA0) && (a == 0xED ==> b <= 0x9F)
    ensures Scalar(c) && Encode(c) == [a, b, b2]
  {
    var high := 64 * (a - 0xE0) + (b - 0x80);
    c := 64 * high + (b2 - 0x80);
    Pair(a - 0xE0, b - 0x80);
    Pair(high, b2 - 0x80);
  }

  lemma Decode4(a: int, b: int, b2: int, b3: int) returns (c: int)
    requires 0xF0 <= a <= 0xF4 && 0x80 <= b <= 0xBF && 0x80 <= b2 <= 0xBF && 0x80 <= b3 <= 0xBF
    requires (a == 0xF0 ==> b >= 0x90) && (a == 0xF4 ==> b <= 0x8F)
    ensures Scalar(c) && Encode(c) == [a, b, b2, b3]
  {
    var top := 64 * (a - 0xF0) + (b - 0x80);
    var high := 64 * top + (b2 - 0x80);
    c := 64 * high + (b3 - 0x80);
    Pair(a - 0xF0, b - 0x80);
    Pair(top, b2 - 0x80);
    Pair(high, b3 - 0x80);
  }

  lemma {:induction false} EncodedIsValid(cs: seq<int>)
    requires AllScalar(cs)
    ensures ValidUtf8(EncodeAll(cs))
  {
    if cs != [] {
      var s := EncodeAll(cs);
      EncodedIsRune(cs[0], EncodeAll(cs[1..]));
      assert s[|Encode(cs[0])|..] == EncodeAll(cs[1..]);
      EncodedIsValid(cs[1..]);
    }
  }

  lemma EncodeNext(c: int, more: seq<int>)
    requires Scalar(c) && AllScalar(more)
    ensures AllScalar([c] + more) && EncodeAll([c] + more) == Encode(c) + EncodeAll(more)
  {
    assert ([c] + more)[1..] == more;
  }

  lemma {:induction false} ValidIsEncoded(s: seq<Byte>) returns (cs: seq<int>)
    requires ValidUtf8(s)
    ensures AllScalar(cs) && EncodeAll(cs) == s
    decreases |s|
  {
    if s == [] {
      cs := [];
    } else {
      var n := RuneLength(s);
      var c := RuneIsEncoded(s);
      var more := ValidIsEncoded(s[n..]);
      cs := [c] + more;
      EncodeNext(c, more);
      assert s == s[..n] + s[n..];
    }
  }

  /** A text passes the byte tests exactly if it encodes some scalar values. */
  lemma ValidIff(s: seq<Byte>)
    ensures ValidUtf8(s) <==> exists cs :: AllScalar(cs) && s == EncodeAll(cs)
  {
    if ValidUtf8(s) {
      var cs := ValidIsEncoded(s);
    }
    if exists cs :: AllScalar(cs) && s == EncodeAll(cs) {
      var cs :| AllScalar(cs) && s == EncodeAll(cs);
      EncodedIsValid(cs);
    }
  }

  /** A character is found at the front exactly if an encoded scalar value is there. */
  lemma RuneIff(s: seq<Byte>, n: nat)
    requires 0 < n <= |s|
    ensures RuneLength(s) == n <==> exists c :: Scalar(c) && Encode(c) == s[..n]
  {
    if RuneLength(s) == n {
      var c := RuneIsEncoded(s);
    }
    if exists c :: Scalar(c) && Encode(c) == s[..n] {
      var c :| Scalar(c) && Encode(c) == s[..n];
      EncodedIsRune(c, s[n..]);
      assert s == Encode(c) + s[n..];
    }
  }

  /** What replaces a run of bytes that is not text is the replacement character. */
  lemma ReplacementIsEncoded()
    ensures REPLACEMENT == Encode(0xFFFD)
  {
  }
}
