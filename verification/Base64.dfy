/** Base64 as in section 4 of RFC 4648: the functions say what the text of a byte
    string is in terms of bits, the methods are the program's loops. */
module Base64 {
  import opened Bytes
  import opened BitGroups

  /** The alphabet `A`-`Z`, `a`-`z`, `0`-`9`, `+`, `/`. */
  function Letter(v: nat): char
    requires v < 64
  {
    if v < 26 then 'A' + v as char
    else if v < 52 then 'a' + (v - 26) as char
    else if v < 62 then '0' + (v - 52) as char
    else if v == 62 then '+'
    else '/'
  }

  datatype Symbol = Value(v: nat) | Ignored | Bad

  /** What a character means to the decoder, which also takes the URL alphabet. */
  function Meaning(c: char): Symbol
  {
    if 'A' <= c <= 'Z' then Value(c as int - 'A' as int)
    else if 'a' <= c <= 'z' then Value(c as int - 'a' as int + 26)
    else if '0' <= c <= '9' then Value(c as int - '0' as int + 52)
    else if c == '+' || c == '-' then Value(62)
    else if c == '/' || c == '_' then Value(63)
    else if c in "=\n\r \t" then Ignored
    else Bad
  }

  lemma MeaningFits(c: char)
    ensures Meaning(c).Value? ==> Meaning(c).v < 64
  {}

  lemma MeaningOfLetter(v: nat)
    requires v < 64
    ensures Meaning(Letter(v)) == Value(v)
  {}

  // ------------------------------------------------------------ reference

  /** The six-bit values of a text, if it has no bad character. */
  function Values(s: string): Option<seq<nat>>
  {
    if s == [] then Some([])
    else
      var m := Meaning(s[|s| - 1]);
      match Values(s[..|s| - 1])
      case None => None
      case Some(vs) => if m.Value? then Some(vs + [m.v]) else if m.Bad? then None else Some(vs)
  }

  /** The bytes in a string of bits. */
  function Pack(b: Bits): (out: Blob)
    ensures out == Groups(b, 8)
  {
    GroupsFit(b, 8);
    SmallPowers();
    Groups(b, 8)
  }

  function Decoded(s: string): Option<Blob>
  {
    match Values(s)
    case None => None
    case Some(vs) => Some(Pack(Spread(vs, 6)))
  }

  /** Bits of `d`, filled up with zeros to a multiple of six. */
  function Padded(d: Blob): Bits
  {
    Spread(d, 8) + BitsOf(0, if |d| % 3 == 0 then 0 else if |d| % 3 == 1 then 4 else 2)
  }

  function Letters(vs: seq<nat>): string
  {
    seq(|vs|, i requires 0 <= i < |vs| => if vs[i] < 64 then Letter(vs[i]) else '?')
  }

  /** One letter for six bits, and `=` up to a multiple of four characters. */
  function Encoded(d: Blob): string
  {
    Letters(Groups(Padded(d), 6)) + if |d| % 3 == 0 then "" else if |d| % 3 == 1 then "==" else "="
  }

  // ----------------------------------------------------------- round trip

  lemma {:induction false} ValuesOfLetters(vs: seq<nat>)
    requires Fit(vs, 6)
    ensures Values(Letters(vs)) == Some(vs)
  {
    SmallPowers();
    if vs != [] {
      var n := |vs| - 1;
      ValuesOfLetters(vs[..n]);
      assert Letters(vs)[..n] == Letters(vs[..n]);
      MeaningOfLetter(vs[n]);
      assert vs == vs[..n] + [vs[n]];
    }
  }

  lemma {:induction false} ValuesIgnore(s: string, extra: string)
    requires forall i :: 0 <= i < |extra| ==> Meaning(extra[i]).Ignored?
    ensures Values(s + extra) == Values(s)
  {
    hide Meaning;
    if extra == [] {
      assert s + extra == s;
    } else {
      var n := |extra| - 1;
      ValuesIgnore(s, extra[..n]);
      assert (s + extra)[..|s + extra| - 1] == s + extra[..n];
    }
  }

  lemma PaddedLength(d: Blob)
    ensures |Padded(d)| % 6 == 0 && |Spread(d, 8)| == 8 * |d| && 0 <= |Padded(d)| - 8 * |d| < 8
  {
    hide Spread, BitsOf;
    var k := |d| / 3;
    assert |d| == 3 * k + |d| % 3;
  }

  /** Decoding an encoding gives the bytes back, padding and all. */
  lemma Base64RoundTrip(d: Blob)
    ensures Decoded(Encoded(d)) == Some(d)
  {
    hide Meaning, Values, Spread, BitsOf, Groups, Letters, Pow2, Padded;
    var vs := Groups(Padded(d), 6);
    PaddedLength(d);
    SpreadOfGroups(Padded(d), |Padded(d)| / 6, 6);
    ValuesOfLetters(vs);
    EqualsIgnored();
    ValuesIgnore(Letters(vs), if |d| % 3 == 0 then "" else if |d| % 3 == 1 then "==" else "=");
    PackPadded(d);
  }

  lemma EqualsIgnored()
    ensures Meaning('=').Ignored?
  {}

  lemma PackPadded(d: Blob)
    ensures Pack(Padded(d)) == d
  {
    hide Spread, BitsOf, Pow2;
    PackOf(d, Padded(d)[8 * |d|..]);
    PaddedLength(d);
  }

  /** Fewer than eight further bits do not matter. */
  lemma PackOf(d: Blob, rest: Bits)
    requires |rest| < 8
    ensures Pack(Spread(d, 8) + rest) == d
  {
    hide Spread, BitsOf, Pow2;
    SmallPowers();
    GroupsOfSpread(d, rest, 8);
  }

  /** The letters of both alphabets, padding and the white space that is skipped. */
  predicate IsLetter(c: char)
  {
    'A' <= c <= 'Z' || 'a' <= c <= 'z' || '0' <= c <= '9' || c == '+' || c == '/' || c == '-' || c == '_'
  }

  predicate IsSkipped(c: char)
  {
    c == '=' || c == '\n' || c == '\r' || c == ' ' || c == '\t'
  }

  lemma MeaningCases(c: char)
    ensures Meaning(c).Value? <==> IsLetter(c)
    ensures Meaning(c).Ignored? <==> IsSkipped(c)
    ensures IsLetter(c) ==> !IsSkipped(c)
  {}

  /** A text decodes exactly when it consists of such characters. */
  lemma {:induction false} DecodesIff(s: string)
    ensures Decoded(s).Some? <==> forall i :: 0 <= i < |s| ==> IsLetter(s[i]) || IsSkipped(s[i])
  {
    hide Meaning, IsLetter, IsSkipped;
    if s != [] {
      var n := |s| - 1;
      DecodesIff(s[..n]);
      MeaningCases(s[n]);
      assert forall i :: 0 <= i < n ==> s[..n][i] == s[i];
    }
  }

  /** The text without padding and white space, in the standard alphabet. */
  function Plain(s: string): string
  {
    if s == [] then []
    else
      var c := s[|s| - 1];
      Plain(s[..|s| - 1]) +
      if IsSkipped(c) then [] else [if c == '-' then '+' else if c == '_' then '/' else c]
  }

  lemma LetterOf(c: char, v: nat)
    requires IsLetter(c) && v < 64
    ensures Meaning(c) == Value(v) <==> Letter(v) == if c == '-' then '+' else if c == '_' then '/' else c
  {}

  lemma NotALetter(c: char, v: nat)
    requires !IsLetter(c) && v < 64
    ensures Letter(v) != c
  {}

  /** Six-bit values are read from a text exactly when their letters are that text. */
  lemma {:induction false} ValuesExact(s: string, vs: seq<nat>)
    requires forall i :: 0 <= i < |vs| ==> vs[i] < 64
    ensures Values(s) == Some(vs) <==> Plain(s) == Letters(vs)
  {
    hide Meaning, Letter, IsLetter, IsSkipped, Letters;
    if s == [] {
      LettersLength(vs);
    } else {
      var n, m := |s| - 1, |vs| - 1;
      MeaningCases(s[n]);
      LettersLength(vs);
      if IsSkipped(s[n]) {
        ValuesExact(s[..n], vs);
        assert Plain(s) == Plain(s[..n]);
      } else if vs != [] {
        ValuesExact(s[..n], vs[..m]);
        assert vs == vs[..m] + [vs[m]];
        LettersSnoc(vs[..m], vs[m]);
        var c := if s[n] == '-' then '+' else if s[n] == '_' then '/' else s[n];
        assert Plain(s) == Plain(s[..n]) + [c];
        SnocChar(Plain(s[..n]), c, Letters(vs[..m]), Letter(vs[m]));
        if IsLetter(s[n]) {
          LetterOf(s[n], vs[m]);
          MeaningFits(s[n]);
          if Values(s[..n]).Some? {
            SnocValue(Values(s[..n]).value, Meaning(s[n]).v, vs[..m], vs[m]);
          }
        } else {
          NotALetter(s[n], vs[m]);
          UrlLetters(s[n]);
        }
      } else {
        assert Plain(s) != [];
      }
    }
  }

  lemma UrlLetters(c: char)
    requires !IsLetter(c)
    ensures c != '-' && c != '_'
  {}

  lemma LettersLength(vs: seq<nat>)
    ensures |Letters(vs)| == |vs|
  {}

  lemma LettersSnoc(vs: seq<nat>, v: nat)
    requires v < 64
    ensures Letters(vs + [v]) == Letters(vs) + [Letter(v)]
  {}

  lemma SnocChar(a: string, x: char, b: string, y: char)
    ensures a + [x] == b + [y] <==> a == b && x == y
  {
    if a + [x] == b + [y] {
      assert |a + [x]| == |b + [y]|;
      assert (a + [x])[..|a|] == a && (b + [y])[..|b|] == b;
      assert (a + [x])[|a|] == x && (b + [y])[|b|] == y;
    }
  }

  lemma SnocValue(a: seq<nat>, x: nat, b: seq<nat>, y: nat)
    ensures a + [x] == b + [y] <==> a == b && x == y
  {
    if a + [x] == b + [y] {
      assert |a + [x]| == |b + [y]|;
      assert (a + [x])[..|a|] == a && (b + [y])[..|b|] == b;
      assert (a + [x])[|a|] == x && (b + [y])[|b|] == y;
    }
  }

  /** The letters by their ASCII codes, as section 4 of RFC 4648 orders them:
      capitals, small letters, digits, plus, slash. */
  lemma AlphabetIs(v: nat)
    requires v < 64
    ensures Letter(v) as int ==
      if v <= 25 then 65 + v else if v <= 51 then 97 + (v - 26) else if v <= 61 then 48 + (v - 52)
      else if v == 62 then 43 else 47
  {}

  // ------------------------------------------------------------- decoder

  /** The register keeps what is pending, although its high bits fall off. */
  lemma Accumulates(acc: u32, pending: Bits, v: nat)
    requires |pending| in {0, 2, 4, 6} && v < 64
    requires acc % Pow2(|pending|) == Num(pending)
    ensures (Wrap32(acc * 64) + v) % Pow2(|pending| + 6) == Num(pending + BitsOf(v, 6))
  {
    hide BitsOf, Num, Pow2;
    SmallPowers();
    NumOfSum(pending, BitsOf(v, 6));
    NumOfBits(v, 6);
    Shifted(acc, v, |pending|);
  }

  lemma Shifted(acc: u32, v: nat, bits: nat)
    requires bits in {0, 2, 4, 6} && v < 64
    ensures (Wrap32(acc * 64) + v) % Pow2(bits + 6) == (acc % Pow2(bits)) * 64 + v
  {
    hide Pow2;
    SmallPowers();
    if bits == 0 {
      Shift0(acc, v);
    } else if bits == 2 {
      Shift2(acc, v);
    } else if bits == 4 {
      Shift4(acc, v);
    } else {
      Shift6(acc, v);
    }
  }

  // Multiples do not matter.

  lemma Remainder64(q: int, r: nat)
    requires r < 64
    ensures (64 * q + r) % 64 == r
  {}

  lemma Remainder256(q: int, r: nat)
    requires r < 256
    ensures (256 * q + r) % 256 == r
  {}

  lemma Remainder1024(q: int, r: nat)
    requires r < 1024
    ensures (1024 * q + r) % 1024 == r
  {}

  lemma Remainder4096(q: int, r: nat)
    requires r < 4096
    ensures (4096 * q + r) % 4096 == r
  {}

  lemma Shift0(acc: u32, v: nat)
    requires v < 64
    ensures (Wrap32(acc * 64) + v) % 64 == (acc % 1) * 64 + v
  {
    var k := (acc * 64) / 0x1_0000_0000;
    assert Wrap32(acc * 64) == acc * 64 - 0x1_0000_0000 * k;
    Remainder64(acc - 0x400_0000 * k, v);
    assert Wrap32(acc * 64) + v == 64 * (acc - 0x400_0000 * k) + (v);
  }

  lemma Shift2(acc: u32, v: nat)
    requires v < 64
    ensures (Wrap32(acc * 64) + v) % 256 == (acc % 4) * 64 + v
  {
    var k := (acc * 64) / 0x1_0000_0000;
    assert Wrap32(acc * 64) == acc * 64 - 0x1_0000_0000 * k;
    Remainder256(acc / 4 - 0x100_0000 * k, 64 * (acc % 4) + v);
    assert Wrap32(acc * 64) + v == 256 * (acc / 4 - 0x100_0000 * k) + (64 * (acc % 4) + v);
  }

  lemma Shift4(acc: u32, v: nat)
    requires v < 64
    ensures (Wrap32(acc * 64) + v) % 1024 == (acc % 16) * 64 + v
  {
    var k := (acc * 64) / 0x1_0000_0000;
    assert Wrap32(acc * 64) == acc * 64 - 0x1_0000_0000 * k;
    Remainder1024(acc / 16 - 0x40_0000 * k, 64 * (acc % 16) + v);
    assert Wrap32(acc * 64) + v == 1024 * (acc / 16 - 0x40_0000 * k) + (64 * (acc % 16) + v);
  }

  lemma Shift6(acc: u32, v: nat)
    requires v < 64
    ensures (Wrap32(acc * 64) + v) % 4096 == (acc % 64) * 64 + v
  {
    var k := (acc * 64) / 0x1_0000_0000;
    assert Wrap32(acc * 64) == acc * 64 - 0x1_0000_0000 * k;
    Remainder4096(acc / 64 - 0x10_0000 * k, 64 * (acc % 64) + v);
    assert Wrap32(acc * 64) + v == 4096 * (acc / 64 - 0x10_0000 * k) + (64 * (acc % 64) + v);
  }

  /** The eight oldest pending bits are a byte of the register. */
  lemma Emits(acc: u32, pending: Bits, bits: nat)
    requires bits in {0, 2, 4} && |pending| == bits + 8
    requires acc % Pow2(bits + 8) == Num(pending)
    ensures (acc / Pow2(bits)) % 256 == Num(pending[..8])
    ensures acc % Pow2(bits) == Num(pending[8..])
  {
    hide BitsOf, Num, Pow2;
    SmallPowers();
    assert pending == pending[..8] + pending[8..];
    NumOfSum(pending[..8], pending[8..]);
    BitsOfNum(pending[..8]);
    BitsOfNum(pending[8..]);
    Bytewise(acc, Num(pending[..8]), Num(pending[8..]), bits);
  }

  lemma Bytewise(acc: u32, high: nat, low: nat, bits: nat)
    requires bits in {0, 2, 4} && high < 256 && low < Pow2(bits)
    requires acc % Pow2(bits + 8) == high * Pow2(bits) + low
    ensures (acc / Pow2(bits)) % 256 == high && acc % Pow2(bits) == low
  {
    hide Pow2;
    SmallPowers();
    if bits == 0 {
      assert Pow2(bits) == 1;
    } else if bits == 2 {
      Byte2(acc, high, low);
    } else {
      Byte4(acc, high, low);
    }
  }

  lemma Byte2(acc: u32, high: nat, low: nat)
    requires high < 256 && low < 4 && acc % 1024 == high * 4 + low
    ensures (acc / 4) % 256 == high && acc % 4 == low
  {
    assert acc == 4 * (256 * (acc / 1024) + high) + low;
  }

  lemma Byte4(acc: u32, high: nat, low: nat)
    requires high < 256 && low < 16 && acc % 4096 == high * 16 + low
    ensures (acc / 16) % 256 == high && acc % 16 == low
  {
    assert acc == 16 * (256 * (acc / 4096) + high) + low;
  }

  /** What the loop knows: `out` and the pending bits are the bits read. */
  ghost predicate Reading(s: string, out: Blob, acc: u32, bits: nat, pending: Bits)
  {
    && |pending| == bits && bits in {0, 2, 4, 6}
    && acc % Pow2(bits) == Num(pending)
    && Values(s).Some?
    && Spread(Values(s).value, 6) == Spread(out, 8) + pending
  }

  lemma ReadsMore(s: string, c: char, out: Blob, acc: u32, bits: nat, pending: Bits)
    requires Reading(s, out, acc, bits, pending) && Meaning(c).Value?
    ensures var acc' := Wrap32(acc * 64) + Meaning(c).v; var more := pending + BitsOf(Meaning(c).v, 6);
      && Values(s + [c]).Some? && Spread(Values(s + [c]).value, 6) == Spread(out, 8) + more
      && acc' % Pow2(bits + 6) == Num(more) && acc' < 0x1_0000_0000
  {
    hide Meaning, Spread, BitsOf, Num, Pow2;
    var v := Meaning(c).v;
    MeaningFits(c);
    Accumulates(acc, pending, v);
    LowBitsFree(acc, v);
    assert (s + [c])[..|s|] == s;
    var vs := Values(s).value;
    SpreadOfSum(vs, [v], 6);
    SpreadOne(v, 6);
    assert Spread(out, 8) + pending + BitsOf(v, 6) == Spread(out, 8) + (pending + BitsOf(v, 6));
  }

  lemma LowBitsFree(acc: u32, v: nat)
    requires v < 64
    ensures Wrap32(acc * 64) + v < 0x1_0000_0000
  {}

  lemma SpreadOne(v: nat, w: nat)
    ensures Spread([v], w) == BitsOf(v, w)
  {
    hide BitsOf;
    SpreadUnfolds([v], w);
    assert Spread([v][1..], w) == [];
  }

  lemma WritesByte(s: string, out: Blob, acc: u32, bits: nat, pending: Bits)
    requires bits in {0, 2, 4} && |pending| == bits + 8 && acc % Pow2(bits + 8) == Num(pending)
    requires Values(s).Some? && Spread(Values(s).value, 6) == Spread(out, 8) + pending
    ensures Reading(s, out + [(acc / Pow2(bits)) % 256], acc, bits, pending[8..])
  {
    hide Values, Spread, BitsOf, Num, Pow2;
    var b := (acc / Pow2(bits)) % 256;
    Emits(acc, pending, bits);
    BitsOfNum(pending[..8]);
    SpreadOfSum(out, [b], 8);
    SpreadOne(b, 8);
    assert Spread(out, 8) + pending == Spread(out, 8) + pending[..8] + pending[8..];
  }

  lemma BadForever(s: string, i: nat)
    requires i < |s| && Meaning(s[i]).Bad?
    ensures Decoded(s) == None
  {
    hide Meaning, IsLetter, IsSkipped;
    DecodesIff(s);
    MeaningCases(s[i]);
  }

  lemma SkipsOne(s: string, c: char, out: Blob, acc: u32, bits: nat, pending: Bits)
    requires Reading(s, out, acc, bits, pending) && Meaning(c).Ignored?
    ensures Reading(s + [c], out, acc, bits, pending)
  {
    hide Meaning, Spread, Num, Pow2;
    assert (s + [c])[..|s|] == s;
  }

  lemma StartsReading()
    ensures Reading([], [], 0, 0, [])
  {}

  lemma StopsReading(s: string, out: Blob, acc: u32, bits: nat, pending: Bits)
    requires Reading(s, out, acc, bits, pending)
    ensures Decoded(s) == Some(out)
  {
    hide Values, Spread, Num, Pow2;
    PackOf(out, pending);
  }

  /** `decode_base64`. */
  method DecodeBase64(s: string) returns (r: Option<Blob>)
    ensures r == Decoded(s)
  {
    hide Meaning, Values, Reading, Decoded, Pow2;
    var out: Blob := [];
    var acc: u32 := 0;
    var bits: nat := 0;
    ghost var pending: Bits := [];
    StartsReading();
    for i := 0 to |s|
      invariant bits in {0, 2, 4, 6}
      invariant Reading(s[..i], out, acc, bits, pending)
    {
      ghost var before := pending;
      assert s[..i + 1] == s[..i] + [s[i]];
      match Meaning(s[i])
      case Bad =>
        BadForever(s, i);
        return None;
      case Ignored =>
        SkipsOne(s[..i], s[i], out, acc, bits, pending);
      case Value(v) =>
        ReadsMore(s[..i], s[i], out, acc, bits, pending);
        ReadingLength(s[..i], out, acc, bits, pending);
        acc := Wrap32(acc * 64) + v;
        bits := bits + 6;
        pending := pending + BitsOf(v, 6);
        if bits >= 8 {
          bits := bits - 8;
          WritesByte(s[..i + 1], out, acc, bits, pending);
          out := out + [acc / Pow2(bits) % 256];
          pending := pending[8..];
        } else {
          ReadingOn(s[..i + 1], out, acc, bits, pending);
        }
    }
    assert s[..|s|] == s;
    StopsReading(s, out, acc, bits, pending);
    return Some(out);
  }

  lemma ReadingLength(s: string, out: Blob, acc: u32, bits: nat, pending: Bits)
    requires Reading(s, out, acc, bits, pending)
    ensures |pending| == bits
  {}

  lemma ReadingOn(s: string, out: Blob, acc: u32, bits: nat, pending: Bits)
    requires |pending| == bits && bits in {0, 2, 4, 6} && acc % Pow2(bits) == Num(pending)
    requires Values(s).Some? && Spread(Values(s).value, 6) == Spread(out, 8) + pending
    ensures Reading(s, out, acc, bits, pending)
  {}

  // ------------------------------------------------------------- encoder

  lemma PaddedSum(a: Blob, b: Blob)
    requires |a| % 3 == 0
    ensures |a + b| % 3 == |b| % 3
    ensures Padded(a + b) == Spread(a, 8) + Padded(b) && Padded(a) == Spread(a, 8)
  {
    hide Spread, BitsOf;
    SpreadOfSum(a, b, 8);
    NoBits();
    assert Spread(a, 8) + [] == Spread(a, 8);
  }

  /** The closing marks, by the length of the last chunk. */
  function Marks(n: nat): string
  {
    if n % 3 == 0 then "" else if n % 3 == 1 then "==" else "="
  }

  lemma EncodedIs(d: Blob)
    ensures Encoded(d) == Letters(Groups(Padded(d), 6)) + Marks(|d|)
  {
    hide Letters, Groups, Padded;
  }

  /** An encoding has four characters for every three bytes begun, its marks last. */
  lemma EncodedLength(d: Blob)
    ensures |Encoded(d)| == 4 * ((|d| + 2) / 3)
    ensures forall i :: 0 <= i < |Encoded(d)| && Encoded(d)[i] == '=' ==> i >= (8 * |d| + 5) / 6
  {
    hide Spread, BitsOf, Groups, Letter;
    PaddedLength(d);
    var n := |Padded(d)| / 6;
    SpreadOfGroups(Padded(d), n, 6);
    assert n == (8 * |d| + 5) / 6;
    SmallPowers();
    forall v | 0 <= v < 64 ensures Letter(v) != '=' { LetterIsNoMark(v); }
  }

  lemma LetterIsNoMark(v: nat)
    requires v < 64
    ensures Letter(v) != '='
  {}

  /** Three bytes at a time: whole groups do not touch what follows. */
  lemma EncodedSplit(a: Blob, b: Blob)
    requires |a| % 3 == 0
    ensures Encoded(a + b) == Encoded(a) + Encoded(b)
  {
    hide Spread, BitsOf, Groups, Letters, Pow2, Padded, Encoded;
    PaddedSum(a, b);
    SpreadOfGroups(Spread(a, 8), 4 * (|a| / 3), 6);
    var vs := Groups(Spread(a, 8), 6);
    GroupsOfSpread(vs, Padded(b), 6);
    LettersOfSum(vs, Groups(Padded(b), 6));
    EncodedIs(a);
    EncodedIs(b);
    EncodedIs(a + b);
  }

  lemma NoBits()
    ensures BitsOf(0, 0) == []
  {}

  lemma LettersOfSum(a: seq<nat>, b: seq<nat>)
    ensures Letters(a + b) == Letters(a) + Letters(b)
  {}

  /** The bits of a few numbers of one width, side by side. */
  lemma SpreadFew(a: nat, b: nat, c: nat, d: nat, w: nat)
    ensures Spread([a, b], w) == BitsOf(a, w) + BitsOf(b, w)
    ensures Spread([a, b, c], w) == BitsOf(a, w) + BitsOf(b, w) + BitsOf(c, w)
    ensures Spread([a, b, c, d], w) == BitsOf(a, w) + BitsOf(b, w) + BitsOf(c, w) + BitsOf(d, w)
  {
    hide BitsOf, Spread;
    SpreadOne(a, w);
    SpreadOne(b, w);
    SpreadOne(c, w);
    SpreadOne(d, w);
    SpreadOfSum([a], [b], w);
    SpreadOfSum([a, b], [c], w);
    SpreadOfSum([a, b, c], [d], w);
    assert [a] + [b] == [a, b] && [a, b] + [c] == [a, b, c] && [a, b, c] + [d] == [a, b, c, d];
  }

  /** The same 24 bits as three bytes and as four letters. */
  lemma Regroup3(b0: byte, b1: byte, b2: byte, n: nat)
    requires n == b0 * 65536 + b1 * 256 + b2
    ensures Spread([b0, b1, b2], 8) == Spread([n / 262144, n / 4096 % 64, n / 64 % 64, n % 64], 6)
    ensures n / 262144 < 64
  {
    hide BitsOf, Spread, Pow2;
    SmallPowers();
    SpreadFew(b0, b1, b2, 0, 8);
    BitsJoin(b0, 8, b1, 8);
    BitsJoin(b0 * 256 + b1, 16, b2, 8);
    SpreadFew(n / 262144, n / 4096 % 64, n / 64 % 64, n % 64, 6);
    Sextets(n);
    BitsJoin(n / 262144, 6, n / 4096 % 64, 6);
    BitsJoin(n / 4096, 12, n / 64 % 64, 6);
    BitsJoin(n / 64, 18, n % 64, 6);
  }

  lemma Sextets(n: nat)
    requires n < 0x100_0000
    ensures n / 262144 < 64 && n / 4096 < 4096 && n / 64 < 262144
    ensures n / 4096 == (n / 262144) * 64 + n / 4096 % 64
    ensures n / 64 == (n / 4096) * 64 + n / 64 % 64
    ensures n == (n / 64) * 64 + n % 64
  {}

  lemma Regroup2(b0: byte, b1: byte, n: nat)
    requires n == b0 * 65536 + b1 * 256
    ensures Spread([b0, b1], 8) + BitsOf(0, 2) == Spread([n / 262144, n / 4096 % 64, n / 64 % 64], 6)
    ensures n / 262144 < 64
  {
    hide BitsOf, Spread, Pow2;
    SmallPowers();
    SpreadFew(b0, b1, 0, 0, 8);
    BitsJoin(b0, 8, b1, 8);
    BitsJoin(b0 * 256 + b1, 16, 0, 2);
    SpreadFew(n / 262144, n / 4096 % 64, n / 64 % 64, 0, 6);
    Sextets(n);
    BitsJoin(n / 262144, 6, n / 4096 % 64, 6);
    BitsJoin(n / 4096, 12, n / 64 % 64, 6);
  }

  lemma Regroup1(b0: byte, n: nat)
    requires n == b0 * 65536
    ensures Spread([b0], 8) + BitsOf(0, 4) == Spread([n / 262144, n / 4096 % 64], 6)
    ensures n / 262144 < 64
  {
    hide BitsOf, Spread, Pow2;
    SmallPowers();
    SpreadOne(b0, 8);
    BitsJoin(b0, 8, 0, 4);
    SpreadFew(n / 262144, n / 4096 % 64, 0, 0, 6);
    Sextets(n);
    BitsJoin(n / 262144, 6, n / 4096 % 64, 6);
  }

  /** Once the padded bits are those of `vs`, the text is known. */
  lemma EncodedFrom(c: Blob, vs: seq<nat>)
    requires Padded(c) == Spread(vs, 6) && forall i :: 0 <= i < |vs| ==> vs[i] < 64
    ensures Encoded(c) == Letters(vs) + if |c| % 3 == 0 then "" else if |c| % 3 == 1 then "==" else "="
  {
    hide Spread, BitsOf, Letters, Padded;
    SmallPowers();
    GroupsOfSpread(vs, [], 6);
    assert Spread(vs, 6) + [] == Spread(vs, 6);
    assert vs + Groups([], 6) == vs;
  }

  lemma ChunkOf3(b0: byte, b1: byte, b2: byte, n: nat)
    requires n == b0 * 65536 + b1 * 256 + b2
    ensures n / 262144 < 64
    ensures Encoded([b0, b1, b2]) ==
      [Letter(n / 262144), Letter(n / 4096 % 64), Letter(n / 64 % 64), Letter(n % 64)]
  {
    hide Spread, BitsOf, Groups, Encoded, Letter;
    Regroup3(b0, b1, b2, n);
    NoBits();
    EncodedFrom([b0, b1, b2], [n / 262144, n / 4096 % 64, n / 64 % 64, n % 64]);
  }

  lemma ChunkOf2(b0: byte, b1: byte, n: nat)
    requires n == b0 * 65536 + b1 * 256
    ensures n / 262144 < 64
    ensures Encoded([b0, b1]) == [Letter(n / 262144), Letter(n / 4096 % 64), Letter(n / 64 % 64), '=']
  {
    hide Spread, BitsOf, Groups, Encoded, Letter;
    Regroup2(b0, b1, n);
    EncodedFrom([b0, b1], [n / 262144, n / 4096 % 64, n / 64 % 64]);
  }

  lemma ChunkOf1(b0: byte, n: nat)
    requires n == b0 * 65536
    ensures n / 262144 < 64
    ensures Encoded([b0]) == [Letter(n / 262144), Letter(n / 4096 % 64), '=', '=']
  {
    hide Spread, BitsOf, Groups, Encoded, Letter;
    Regroup1(b0, n);
    EncodedFrom([b0], [n / 262144, n / 4096 % 64]);
  }

  lemma EncodedEmpty()
    ensures Encoded([]) == []
  {}

  /** One chunk of up to three bytes. */
  method EncodeChunk(c: Blob) returns (out: string)
    requires 1 <= |c| <= 3
    ensures out == Encoded(c)
  {
    hide Encoded, Letter;
    var b0: nat := c[0];
    var b1: nat := if |c| > 1 then c[1] else 0;
    var b2: nat := if |c| > 2 then c[2] else 0;
    var n := b0 * 65536 + b1 * 256 + b2;
    Sextets(n);
    out := [Letter(n / 262144), Letter(n / 4096 % 64)];
    out := out + [if |c| > 1 then Letter(n / 64 % 64) else '='];
    out := out + [if |c| > 2 then Letter(n % 64) else '='];
    if |c| == 1 {
      ChunkOf1(c[0], n);
      assert c == [c[0]];
    } else if |c| == 2 {
      ChunkOf2(c[0], c[1], n);
      assert c == [c[0], c[1]];
    } else {
      ChunkOf3(c[0], c[1], c[2], n);
      assert c == [c[0], c[1], c[2]];
    }
  }

  /** `encode_base64`. */
  method EncodeBase64(data: Blob) returns (out: string)
    ensures out == Encoded(data)
  {
    hide Encoded;
    out := [];
    var i := 0;
    EncodedEmpty();
    while i < |data|
      invariant 0 <= i <= |data| && (i % 3 == 0 || i == |data|)
      invariant out == Encoded(data[..i])
    {
      var next := Min(i + 3, |data|);
      var text := EncodeChunk(data[i..next]);
      EncodedSplit(data[..i], data[i..next]);
      assert data[..i] + data[i..next] == data[..next];
      out := out + text;
      i := next;
    }
    assert data[..|data|] == data;
  }
}
