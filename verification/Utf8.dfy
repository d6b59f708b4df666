/** Strings on the wire are UTF-8: the byte patterns that are accepted, and the
    characters they stand for. */
module Utf8 {
  import opened Bytes

  /** Well-formed UTF-8 by its byte patterns, section 4 of RFC 3629. */
  predicate ValidUtf8(s: Blob)
  {
    if s == [] then true
    else
      var n := CharLen(s);
      n > 0 && ValidUtf8(s[n..])
  }

  predicate Tail(b: byte)
  {
    0x80 <= b <= 0xBF
  }

  /** Length of the character at the front, 0 if there is none. */
  function CharLen(s: Blob): (n: nat)
    requires s != []
    ensures n <= |s|
  {
    var a := s[0];
    if a <= 0x7F then 1
    else if |s| >= 2 && 0xC2 <= a <= 0xDF && Tail(s[1]) then 2
    else if |s| >= 3 && Tail(s[1]) && Tail(s[2]) && ThreeBytes(a, s[1]) then 3
    else if |s| >= 4 && Tail(s[1]) && Tail(s[2]) && Tail(s[3]) && FourBytes(a, s[1]) then 4
    else 0
  }

  predicate ThreeBytes(a: byte, b: byte)
  {
    (a == 0xE0 && b >= 0xA0) || 0xE1 <= a <= 0xEC || (a == 0xED && b <= 0x9F) || 0xEE <= a <= 0xEF
  }

  predicate FourBytes(a: byte, b: byte)
  {
    (a == 0xF0 && b >= 0x90) || 0xF1 <= a <= 0xF3 || (a == 0xF4 && b <= 0x8F)
  }

  /** A Unicode scalar value: any code point but the surrogates. */
  type Scalar = c: nat | c < 0xD800 || 0xE000 <= c <= 0x10_FFFF

  /** Its bytes, section 3 of RFC 3629: six bits in each byte but the first. */
  function CharBytes(c: Scalar): Blob
  {
    if c < 0x80 then [c]
    else if c < 0x800 then [0xC0 + c / 64, 0x80 + c % 64]
    else if c < 0x1_0000 then [0xE0 + c / 4096, 0x80 + c / 64 % 64, 0x80 + c % 64]
    else [0xF0 + c / 262144, 0x80 + c / 4096 % 64, 0x80 + c / 64 % 64, 0x80 + c % 64]
  }

  function TextBytes(cs: seq<Scalar>): Blob
  {
    if cs == [] then [] else CharBytes(cs[0]) + TextBytes(cs[1..])
  }

  /** Joining six bits to a number and cutting them off again. */
  lemma SixBits(x: nat, y: nat)
    requires y < 64
    ensures (x * 64 + y) / 64 == x && (x * 64 + y) % 64 == y
  {
  }

  lemma TwoByteChar(a: byte, b: byte)
    requires 0xC2 <= a <= 0xDF && Tail(b)
    ensures var c := ((a as int) - 0xC0) * 64 + ((b as int) - 0x80);
      0x80 <= c < 0x800 && CharBytes(c) == [a, b]
  {
    SixBits((a as int) - 0xC0, (b as int) - 0x80);
  }

  lemma ThreeByteChar(a: byte, b: byte, d: byte)
    requires ThreeBytes(a, b) && Tail(b) && Tail(d)
    ensures var c := (((a as int) - 0xE0) * 64 + ((b as int) - 0x80)) * 64 + ((d as int) - 0x80);
      0x800 <= c < 0x1_0000 && !(0xD800 <= c < 0xE000) && CharBytes(c) == [a, b, d]
  {
    var x, y, z := (a as int) - 0xE0, (b as int) - 0x80, (d as int) - 0x80;
    SixBits(x, y);
    SixBits(x * 64 + y, z);
  }

  lemma FourByteChar(a: byte, b: byte, d: byte, e: byte)
    requires FourBytes(a, b) && Tail(b) && Tail(d) && Tail(e)
    ensures var c := ((((a as int) - 0xF0) * 64 + ((b as int) - 0x80)) * 64 + ((d as int) - 0x80)) * 64
                     + ((e as int) - 0x80);
      0x1_0000 <= c <= 0x10_FFFF && CharBytes(c) == [a, b, d, e]
  {
    var x, y, z, u := (a as int) - 0xF0, (b as int) - 0x80, (d as int) - 0x80, (e as int) - 0x80;
    SixBits(x, y);
    SixBits(x * 64 + y, z);
    SixBits((x * 64 + y) * 64 + z, u);
    var c := ((x * 64 + y) * 64 + z) * 64 + u;
    assert c / 4096 == x * 64 + y && c / 262144 == x;
  }

  /** A character's bytes are recognised whatever follows. */
  lemma CharIsRead(c: Scalar, rest: Blob)
    ensures CharBytes(c) != [] && CharLen(CharBytes(c) + rest) == |CharBytes(c)|
  {
    CharLooks(c);
    hide CharBytes;
    var b := CharBytes(c);
    assert forall i :: 0 <= i < |b| ==> (b + rest)[i] == b[i];
  }

  /** The shape of a character's bytes. */
  lemma CharLooks(c: Scalar)
    ensures var b := CharBytes(c);
      || (|b| == 1 && b[0] <= 0x7F)
      || (|b| == 2 && 0xC2 <= b[0] <= 0xDF && Tail(b[1]))
      || (|b| == 3 && ThreeBytes(b[0], b[1]) && Tail(b[1]) && Tail(b[2]))
      || (|b| == 4 && FourBytes(b[0], b[1]) && Tail(b[1]) && Tail(b[2]) && Tail(b[3]))
  {
  }

  /** What is recognised as a character are the bytes of one. */
  lemma CharIsOne(s: Blob) returns (c: Scalar)
    requires s != [] && CharLen(s) > 0
    ensures CharBytes(c) == s[..CharLen(s)]
  {
    hide CharBytes;
    var n, a: int := CharLen(s), s[0];
    if n == 1 {
      OneByteChar(s[0]);
      c := a;
    } else if n == 2 {
      TwoByteChar(s[0], s[1]);
      c := (a - 0xC0) * 64 + ((s[1] as int) - 0x80);
    } else if n == 3 {
      ThreeByteChar(s[0], s[1], s[2]);
      c := ((a - 0xE0) * 64 + ((s[1] as int) - 0x80)) * 64 + ((s[2] as int) - 0x80);
    } else {
      FourByteChar(s[0], s[1], s[2], s[3]);
      c := (((a - 0xF0) * 64 + ((s[1] as int) - 0x80)) * 64 + ((s[2] as int) - 0x80)) * 64 + ((s[3] as int) - 0x80);
    }
  }

  lemma OneByteChar(a: byte)
    requires a <= 0x7F
    ensures CharBytes(a) == [a]
  {
  }

  lemma {:induction false} TextIsValid(cs: seq<Scalar>)
    ensures ValidUtf8(TextBytes(cs))
  {
    hide CharBytes, CharLen;
    if cs != [] {
      var rest := TextBytes(cs[1..]);
      CharIsRead(cs[0], rest);
      TextIsValid(cs[1..]);
      assert (CharBytes(cs[0]) + rest)[|CharBytes(cs[0])|..] == rest;
    }
  }

  lemma {:induction false} ValidIsText(s: Blob) returns (cs: seq<Scalar>)
    requires ValidUtf8(s)
    ensures TextBytes(cs) == s
  {
    hide CharBytes, CharLen;
    cs := [];
    if s != [] {
      var n := CharLen(s);
      var c := CharIsOne(s);
      var more := ValidIsText(s[n..]);
      cs := [c] + more;
      assert cs[1..] == more && s[..n] + s[n..] == s;
    }
  }

  /** The accepted byte strings are exactly the texts of scalar values. */
  lemma ValidIffText(s: Blob)
    ensures ValidUtf8(s) <==> exists cs: seq<Scalar> :: TextBytes(cs) == s
  {
    hide *;
    if ValidUtf8(s) {
      var cs := ValidIsText(s);
    }
    forall cs: seq<Scalar> | TextBytes(cs) == s ensures ValidUtf8(s) { TextIsValid(cs); }
  }

  lemma Digits64(x: nat)
    ensures x == x / 64 * 64 + x % 64 && x / 4096 == x / 64 / 64 && x / 262144 == x / 4096 / 64
  {
  }

  /** The six-bit groups of a number determine it. */
  lemma SameDigits(c: nat, d: nat)
    requires c % 64 == d % 64
    ensures c / 64 == d / 64 ==> c == d
    ensures c / 64 % 64 == d / 64 % 64 && c / 4096 == d / 4096 ==> c == d
    ensures c / 64 % 64 == d / 64 % 64 && c / 4096 % 64 == d / 4096 % 64 && c / 262144 == d / 262144 ==> c == d
  {
    Digits64(c);
    Digits64(d);
    Digits64(c / 64);
    Digits64(d / 64);
    Digits64(c / 4096);
    Digits64(d / 4096);
  }

  lemma CharCases(c: Scalar)
    ensures c < 0x80 ==> CharBytes(c) == [c]
    ensures 0x80 <= c < 0x800 ==> CharBytes(c) == [0xC0 + c / 64, 0x80 + c % 64]
    ensures 0x800 <= c < 0x1_0000 ==> CharBytes(c) == [0xE0 + c / 4096, 0x80 + c / 64 % 64, 0x80 + c % 64]
    ensures 0x1_0000 <= c ==>
      CharBytes(c) == [0xF0 + c / 262144, 0x80 + c / 4096 % 64, 0x80 + c / 64 % 64, 0x80 + c % 64]
  {
  }

  lemma CharsDiffer(c: Scalar, d: Scalar)
    requires CharBytes(c) == CharBytes(d)
    ensures c == d
  {
    hide CharBytes;
    CharCases(c);
    CharCases(d);
    var b := CharBytes(c);
    if |b| == 1 {
      assert b[0] == c && b[0] == d;
    } else if |b| == 2 {
      assert b[0] == 0xC0 + c / 64 && b[0] == 0xC0 + d / 64 && b[1] == 0x80 + c % 64 && b[1] == 0x80 + d % 64;
      SameDigits(c, d);
    } else if |b| == 3 {
      assert b[0] == 0xE0 + c / 4096 && b[0] == 0xE0 + d / 4096;
      assert b[1] == 0x80 + c / 64 % 64 && b[1] == 0x80 + d / 64 % 64 && b[2] == 0x80 + c % 64 && b[2] == 0x80 + d % 64;
      SameDigits(c, d);
    } else {
      assert b[0] == 0xF0 + c / 262144 && b[0] == 0xF0 + d / 262144;
      assert b[1] == 0x80 + c / 4096 % 64 && b[1] == 0x80 + d / 4096 % 64;
      assert b[2] == 0x80 + c / 64 % 64 && b[2] == 0x80 + d / 64 % 64 && b[3] == 0x80 + c % 64 && b[3] == 0x80 + d % 64;
      SameDigits(c, d);
    }
  }

  /** No byte string stands for two texts. */
  lemma {:induction false} TextIsUnique(cs: seq<Scalar>, ds: seq<Scalar>)
    requires TextBytes(cs) == TextBytes(ds)
    ensures cs == ds
  {
    hide CharBytes, CharLen;
    if cs != [] && ds != [] {
      var a, b := CharBytes(cs[0]), CharBytes(ds[0]);
      var x, y := TextBytes(cs[1..]), TextBytes(ds[1..]);
      CharIsRead(cs[0], x);
      CharIsRead(ds[0], y);
      assert (a + x)[..|a|] == a && (b + y)[..|b|] == b;
      assert (a + x)[|a|..] == x && (b + y)[|b|..] == y;
      CharsDiffer(cs[0], ds[0]);
      TextIsUnique(cs[1..], ds[1..]);
      assert cs == [cs[0]] + cs[1..] && ds == [ds[0]] + ds[1..];
    } else if cs != [] {
      CharIsRead(cs[0], TextBytes(cs[1..]));
    } else if ds != [] {
      CharIsRead(ds[0], TextBytes(ds[1..]));
    }
  }
}
