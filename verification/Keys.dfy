/** The text forms of a 32-byte key: 64 hex digits, or `base64:` and a text. */
module Keys {
  import opened Bytes
  import BitGroups
  import Base64

  const HEX := "0123456789abcdef"

  /** Two lower-case digits a byte. */
  function HexOf(d: Blob): (s: string)
    ensures |s| == 2 * |d|
  {
    if d == [] then [] else HexOf(d[..|d| - 1]) + [Digit(d[|d| - 1] / 16), Digit(d[|d| - 1] % 16)]
  }

  function Digit(v: nat): char
    requires v < 16
  {
    if v < 10 then '0' + v as char else 'a' + (v - 10) as char
  }

  predicate IsHexDigit(c: char)
  {
    '0' <= c <= '9' || 'a' <= c <= 'f' || 'A' <= c <= 'F'
  }

  function HexVal(c: char): (v: nat)
    requires IsHexDigit(c)
    ensures v < 16
  {
    if '0' <= c <= '9' then c as int - '0' as int
    else if 'a' <= c <= 'f' then c as int - 'a' as int + 10
    else c as int - 'A' as int + 10
  }

  predicate AllHex(s: string)
  {
    forall i :: 0 <= i < |s| ==> IsHexDigit(s[i])
  }

  function LowerChar(c: char): char
  {
    if 'A' <= c <= 'Z' then c + 32 as char else c
  }

  function Lower(s: string): (t: string)
    ensures |t| == |s|
  {
    seq(|s|, i requires 0 <= i < |s| => LowerChar(s[i]))
  }

  /** The byte string whose digits are `s`. */
  function FromHex(s: string): (d: Blob)
    requires AllHex(s) && |s| % 2 == 0
    ensures |d| == |s| / 2
  {
    if s == [] then []
    else FromHex(s[..|s| - 2]) + [HexVal(s[|s| - 2]) * 16 + HexVal(s[|s| - 1])]
  }

  /** White space, as `trim` sees it. */
  predicate IsSpace(c: char)
  {
    var n := c as int;
    9 <= n <= 13 || n in {0x20, 0x85, 0xA0, 0x1680, 0x2028, 0x2029, 0x202F, 0x205F, 0x3000} || 0x2000 <= n <= 0x200A
  }

  predicate Blank(s: string)
  {
    forall i :: 0 <= i < |s| ==> IsSpace(s[i])
  }

  function TrimStart(s: string): string
  {
    if s != [] && IsSpace(s[0]) then TrimStart(s[1..]) else s
  }

  function TrimEnd(s: string): string
  {
    if s != [] && IsSpace(s[|s| - 1]) then TrimEnd(s[..|s| - 1]) else s
  }

  function Trim(s: string): string
  {
    TrimEnd(TrimStart(s))
  }

  /** Without one of two prefixes, if it has one. */
  function Strip(s: string, p: string, q: string): Option<string>
  {
    if p <= s then Some(s[|p|..]) else if q <= s then Some(s[|q|..]) else None
  }

  function Body(s: string): string
  {
    var t := Trim(s);
    var u := Strip(t, "hex:", "HEX:");
    if u.Some? then u.value else t
  }

  /** The key a text stands for. */
  function KeyOf(s: string): (k: Option<Blob>)
    ensures k.Some? ==> |k.value| == 32
  {
    var t := Body(s);
    if |t| == 64 && AllHex(t) then Some(FromHex(t))
    else
      match Strip(t, "base64:", "BASE64:")
      case None => None
      case Some(b) =>
        match Base64.Decoded(Trim(b))
        case None => None
        case Some(k) => if |k| == 32 then Some(k) else None
  }

  /** `hex`. */
  method Hex(bytes: Blob) returns (s: string)
    ensures s == HexOf(bytes)
  {
    s := [];
    for i := 0 to |bytes|
      invariant s == HexOf(bytes[..i])
    {
      s := s + [HEX[bytes[i] / 16]];
      s := s + [HEX[bytes[i] % 16]];
      TableIsDigit(bytes[i] / 16);
      TableIsDigit(bytes[i] % 16);
      assert bytes[..i + 1][..i] == bytes[..i];
    }
    assert bytes[..|bytes|] == bytes;
  }

  lemma TableIsDigit(v: nat)
    requires v < 16
    ensures |HEX| == 16 && HEX[v] == Digit(v)
  {
    assert HEX[0] == '0' && HEX[1] == '1' && HEX[2] == '2' && HEX[3] == '3' && HEX[4] == '4' && HEX[5] == '5';
    assert HEX[6] == '6' && HEX[7] == '7' && HEX[8] == '8' && HEX[9] == '9' && HEX[10] == 'a' && HEX[11] == 'b';
    assert HEX[12] == 'c' && HEX[13] == 'd' && HEX[14] == 'e' && HEX[15] == 'f';
  }

  lemma FromHexMore(s: string, i: nat)
    requires AllHex(s) && 2 * i + 2 <= |s|
    ensures AllHex(s[..2 * i]) && AllHex(s[..2 * i + 2])
    ensures FromHex(s[..2 * i + 2]) == FromHex(s[..2 * i]) + [HexVal(s[2 * i]) * 16 + HexVal(s[2 * i + 1])]
  {
    assert s[..2 * i + 2][..2 * i] == s[..2 * i];
  }

  /** The loop of `parse_key` over 64 digits. */
  method ParseDigits(s: string) returns (k: Blob)
    requires |s| == 64 && AllHex(s)
    ensures k == FromHex(s)
  {
    hide FromHex, HexVal;
    var out := new byte[32](_ => 0);
    NoDigits();
    assert s[..0] == [];
    for i := 0 to 32
      invariant AllHex(s[..2 * i]) && out[..i] == FromHex(s[..2 * i])
    {
      var hi := HexVal(s[i * 2]);
      var lo := HexVal(s[i * 2 + 1]);
      FromHexMore(s, i);
      out[i] := hi * 16 + lo;
      assert out[..i + 1] == out[..i] + [hi * 16 + lo];
    }
    assert s[..64] == s && out[..32] == out[..];
    return out[..];
  }

  lemma NoDigits()
    ensures FromHex([]) == []
  {}

  /** `parse_key`. */
  method ParseKey(text: string) returns (r: Option<Blob>)
    ensures r == KeyOf(text)
    ensures forall k :: r == Some(k) <==> IsHexKey(text, k) || IsBase64Key(text, k)
  {
    hide AllHex, Trim, Strip, FromHex, IsHexKey, IsBase64Key;
    forall k ensures KeyOf(text) == Some(k) <==> IsHexKey(text, k) || IsBase64Key(text, k) { KeyTextIff(text, k); }
    var s := Trim(text);
    var stripped := Strip(s, "hex:", "HEX:");
    s := if stripped.Some? then stripped.value else s;
    if |s| == 64 && AllHex(s) {
      var k := ParseDigits(s);
      return Some(k);
    }
    var b := Strip(s, "base64:", "BASE64:");
    if b.Some? {
      var k := Base64.DecodeBase64(Trim(b.value));
      if k.Some? && |k.value| == 32 {
        return k;
      }
    }
    return None;
  }

  // ---------------------------------------------------------- round trips

  lemma HexOfUnfolds(d: Blob)
    requires d != []
    ensures var n := |d| - 1; HexOf(d) == HexOf(d[..n]) + [Digit(d[n] / 16), Digit(d[n] % 16)]
  {}

  lemma AllHexUnfolds(s: string, hi: char, lo: char)
    requires AllHex(s + [hi, lo])
    ensures AllHex(s) && IsHexDigit(hi) && IsHexDigit(lo)
  {
    hide IsHexDigit;
    var t := s + [hi, lo];
    assert t[|s|] == hi && t[|s| + 1] == lo;
    assert forall i :: 0 <= i < |s| ==> t[i] == s[i];
  }

  lemma FromHexLast(t: string)
    requires AllHex(t) && |t| % 2 == 0 && t != []
    ensures FromHex(t) == FromHex(t[..|t| - 2]) + [HexVal(t[|t| - 2]) * 16 + HexVal(t[|t| - 1])]
  {}

  lemma FromHexUnfolds(s: string, hi: char, lo: char)
    requires AllHex(s) && IsHexDigit(hi) && IsHexDigit(lo) && AllHex(s + [hi, lo]) && |s| % 2 == 0
    ensures FromHex(s + [hi, lo]) == FromHex(s) + [HexVal(hi) * 16 + HexVal(lo)]
  {
    hide AllHex, HexVal, IsHexDigit, FromHex;
    var t := s + [hi, lo];
    assert t[..|t| - 2] == s && t[|t| - 2] == hi && t[|t| - 1] == lo;
    FromHexLast(t);
  }

  lemma LowerUnfolds(s: string, hi: char, lo: char)
    ensures Lower(s + [hi, lo]) == Lower(s) + [LowerChar(hi), LowerChar(lo)]
  {}

  lemma {:induction false} HexDigits(d: Blob)
    ensures AllHex(HexOf(d)) && Lower(HexOf(d)) == HexOf(d)
  {
    hide Lower, LowerChar, HexOf;
    if d == [] {
      NoHex();
    } else {
      var n := |d| - 1;
      HexDigits(d[..n]);
      HexOfUnfolds(d);
      DigitIsHex(d[n] / 16);
      DigitIsHex(d[n] % 16);
      LowerUnfolds(HexOf(d[..n]), Digit(d[n] / 16), Digit(d[n] % 16));
    }
  }

  lemma DigitIsHex(v: nat)
    requires v < 16
    ensures IsHexDigit(Digit(v)) && LowerChar(Digit(v)) == Digit(v)
  {}

  lemma NoHex()
    ensures HexOf([]) == [] && AllHex([]) && Lower([]) == []
  {}

  /** Hex digits stand for `d` exactly when in lower case they are its text. */
  lemma {:induction false} FromHexExact(s: string, d: Blob)
    requires AllHex(s) && |s| % 2 == 0
    ensures FromHex(s) == d <==> Lower(s) == HexOf(d)
  {
    hide AllHex, HexVal, Digit, LowerChar, IsHexDigit, FromHex, Lower, HexOf;
    if |s| == 2 * |d| {
      if d == [] {
        NoHex();
        NoDigits();
        assert s == [];
      } else {
        var n := |s| - 2;
        var m := |d| - 1;
        assert s == s[..n] + [s[n], s[n + 1]];
        AllHexUnfolds(s[..n], s[n], s[n + 1]);
        FromHexUnfolds(s[..n], s[n], s[n + 1]);
        LowerUnfolds(s[..n], s[n], s[n + 1]);
        HexOfUnfolds(d);
        FromHexExact(s[..n], d[..m]);
        PairExact(s[n], s[n + 1], d[m]);
        assert d == d[..m] + [d[m]];
        Snoc(FromHex(s[..n]), HexVal(s[n]) * 16 + HexVal(s[n + 1]), d[..m], d[m]);
        SnocTwo(Lower(s[..n]), LowerChar(s[n]), LowerChar(s[n + 1]), HexOf(d[..m]), Digit(d[m] / 16), Digit(d[m] % 16));
      }
    }
  }

  lemma Snoc(a: Blob, x: byte, b: Blob, y: byte)
    requires |a| == |b|
    ensures a + [x] == b + [y] <==> a == b && x == y
  {
    assert (a + [x])[..|a|] == a && (b + [y])[..|b|] == b;
    assert (a + [x])[|a|] == x && (b + [y])[|b|] == y;
  }

  lemma SnocTwo(a: string, x: char, x': char, b: string, y: char, y': char)
    requires |a| == |b|
    ensures a + [x, x'] == b + [y, y'] <==> a == b && x == y && x' == y'
  {
    assert (a + [x, x'])[..|a|] == a && (b + [y, y'])[..|b|] == b;
    assert (a + [x, x'])[|a|] == x && (b + [y, y'])[|b|] == y;
    assert (a + [x, x'])[|a| + 1] == x' && (b + [y, y'])[|b| + 1] == y';
  }

  lemma PairExact(hi: char, lo: char, b: byte)
    requires IsHexDigit(hi) && IsHexDigit(lo)
    ensures HexVal(hi) * 16 + HexVal(lo) == b <==> LowerChar(hi) == Digit(b / 16) && LowerChar(lo) == Digit(b % 16)
  {
    DigitOf(hi);
    DigitOf(lo);
  }

  lemma DigitOf(c: char)
    requires IsHexDigit(c)
    ensures forall v :: 0 <= v < 16 ==> (HexVal(c) == v <==> LowerChar(c) == Digit(v))
  {}

  lemma {:induction false} TrimStartOf(left: string, core: string)
    requires Blank(left) && core != [] && !IsSpace(core[0])
    ensures TrimStart(left + core) == core
  {
    hide IsSpace;
    if left == [] {
      assert left + core == core;
    } else {
      TrimStartOf(left[1..], core);
      assert (left + core)[1..] == left[1..] + core;
    }
  }

  lemma {:induction false} TrimEndOf(core: string, right: string)
    requires Blank(right) && core != [] && !IsSpace(core[|core| - 1])
    ensures TrimEnd(core + right) == core
  {
    hide IsSpace;
    if right == [] {
      assert core + right == core;
    } else {
      var n := |right| - 1;
      TrimEndOf(core, right[..n]);
      assert (core + right)[..|core + right| - 1] == core + right[..n];
    }
  }

  lemma TrimOf(left: string, core: string, right: string)
    requires Blank(left) && Blank(right) && core != [] && !IsSpace(core[0]) && !IsSpace(core[|core| - 1])
    ensures Trim(left + core + right) == core
  {
    hide IsSpace, TrimStart, TrimEnd, Blank;
    assert left + core + right == left + (core + right);
    TrimStartOf(left, core + right);
    TrimEndOf(core, right);
  }

  lemma NoSpaceInHex(c: char)
    requires IsHexDigit(c)
    ensures !IsSpace(c) && c != ':' && c != 'h' && c != 'H'
  {}

  lemma PrefixChars()
    ensures !IsSpace('h') && !IsSpace('H') && !IsSpace('b') && !IsSpace('B')
  {}

  /** Blanks around, either prefix or none, digits in any case: the key whose
      lower-case digits these are, and no other. */
  lemma HexKeyExact(left: string, prefix: string, digits: string, right: string, k: Blob)
    requires Blank(left) && Blank(right) && prefix in ["", "hex:", "HEX:"]
    requires |digits| == 64 && AllHex(digits)
    ensures KeyOf(left + prefix + digits + right) == Some(k) <==> Lower(digits) == HexOf(k)
  {
    hide TrimStart, TrimEnd, Blank, IsSpace, HexOf, FromHex, Lower;
    var core := prefix + digits;
    NoSpaceInHex(digits[0]);
    NoSpaceInHex(digits[63]);
    PrefixChars();
    TrimOf(left, core, right);
    assert left + prefix + digits + right == left + core + right;
    assert Body(left + core + right) == digits by {
      hide Trim, AllHex;
      if prefix == "" {
        assert core == digits;
      } else {
        assert core[4..] == digits;
      }
    }
    FromHexExact(digits, k);
  }

  /** Every 32-byte key is recovered from its hex form. */
  lemma HexKeyRoundTrip(k: Digest, left: string, prefix: string, right: string)
    requires Blank(left) && Blank(right) && prefix in ["", "hex:", "HEX:"]
    ensures KeyOf(left + prefix + HexOf(k) + right) == Some(k)
  {
    hide KeyOf, Blank, HexOf, FromHex, Lower;
    HexDigits(k);
    HexKeyExact(left, prefix, HexOf(k), right, k);
  }

  lemma EncodedLooks(k: Blob)
    requires |k| > 0
    ensures Base64.Encoded(k) != []
    ensures forall i :: 0 <= i < |Base64.Encoded(k)| ==> !IsSpace(Base64.Encoded(k)[i])
  {
    hide Base64.Padded, IsSpace, Base64.Letter, BitGroups.Groups;
    forall v | 0 <= v < 64 ensures !IsSpace(Base64.Letter(v)) { LetterNoSpace(v); }
    assert !IsSpace('=') && !IsSpace('?') by { MarkNoSpace(); }
    var vs := BitGroups.Groups(Base64.Padded(k), 6);
    assert vs != [] by {
      Base64.PaddedLength(k);
      FirstGroup(Base64.Padded(k));
    }
  }

  lemma FirstGroup(b: BitGroups.Bits)
    requires |b| >= 6
    ensures BitGroups.Groups(b, 6) != []
  {}

  lemma LetterNoSpace(v: nat)
    requires v < 64
    ensures !IsSpace(Base64.Letter(v))
  {}

  lemma MarkNoSpace()
    ensures !IsSpace('=') && !IsSpace('?')
  {}

  /** Every 32-byte key is recovered from its `base64:` form. */
  lemma Base64KeyRoundTrip(k: Digest, left: string, prefix: string, between: string, right: string)
    requires Blank(left) && Blank(between) && Blank(right) && prefix in ["base64:", "BASE64:"]
    ensures KeyOf(left + prefix + between + Base64.Encoded(k) + right) == Some(k)
  {
    hide *;
    var text := Base64.Encoded(k);
    var core := prefix + between + text;
    EncodedLooks(k);
    PrefixChars();
    assert core[0] == prefix[0] && core[|core| - 1] == text[|text| - 1];
    TrimOf(left, core, right);
    assert left + prefix + between + text + right == left + core + right;
    TrimOf(between, text, []) by { NoBlanks(); }
    assert between + text + [] == between + text;
    Base64Body(core, prefix, between + text);
    Base64.Base64RoundTrip(k);
    KeyFromBase64(left + core + right, between + text, k);
  }

  lemma NoBlanks()
    ensures Blank([])
  {}

  lemma Base64Body(core: string, prefix: string, rest: string)
    requires prefix in ["base64:", "BASE64:"] && core == prefix + rest
    ensures Strip(core, "hex:", "HEX:") == None
    ensures Strip(core, "base64:", "BASE64:") == Some(rest)
    ensures !AllHex(core)
  {
    assert core[0] == prefix[0] && core[6] == ':';
    assert core[7..] == rest;
  }

  lemma KeyFromBase64(s: string, rest: string, k: Digest)
    requires Strip(Trim(s), "hex:", "HEX:") == None && !AllHex(Trim(s))
    requires Strip(Trim(s), "base64:", "BASE64:") == Some(rest)
    requires Base64.Decoded(Trim(rest)) == Some(k)
    ensures KeyOf(s) == Some(k)
  {
    hide Trim, Strip, AllHex, Base64.Decoded;
  }

  // ------------------------------------------------- every accepted text

  /** Blanks, an optional prefix, 64 digits that in lower case are the hex form
      of `k`, blanks. */
  ghost predicate IsHexKey(s: string, k: Blob)
  {
    exists left, prefix, digits, right :: HexSplit(s, k, left, prefix, digits, right)
  }

  predicate HexSplit(s: string, k: Blob, left: string, prefix: string, digits: string, right: string)
  {
    && Blank(left) && Blank(right) && prefix in ["", "hex:", "HEX:"]
    && |digits| == 64 && AllHex(digits) && Lower(digits) == HexOf(k)
    && s == left + prefix + digits + right
  }

  /** Blanks, an optional hex prefix, a mark, blanks, a text that decodes to the
      32 bytes `k`, blanks.  The parser does not mind a hex prefix here. */
  ghost predicate IsBase64Key(s: string, k: Blob)
  {
    exists left, prefix, mark, between, core, right :: Base64Split(s, k, left, prefix, mark, between, core, right)
  }

  predicate Base64Split(s: string, k: Blob, left: string, prefix: string, mark: string, between: string, core: string,
                        right: string)
  {
    && Blank(left) && Blank(between) && Blank(right) && Trimmed(core)
    && prefix in ["", "hex:", "HEX:"] && mark in ["base64:", "BASE64:"]
    && |k| == 32 && Base64.Decoded(core) == Some(k)
    && s == left + prefix + mark + between + core + right
  }

  /** A text without blanks at its ends. */
  predicate Trimmed(s: string)
  {
    s != [] ==> !IsSpace(s[0]) && !IsSpace(s[|s| - 1])
  }

  lemma {:induction false} TrimStartSplits(s: string) returns (left: string)
    ensures Blank(left) && s == left + TrimStart(s)
    ensures TrimStart(s) != [] ==> !IsSpace(TrimStart(s)[0])
  {
    hide IsSpace;
    left := [];
    if s != [] && IsSpace(s[0]) {
      var more := TrimStartSplits(s[1..]);
      left := [s[0]] + more;
      assert s == [s[0]] + s[1..];
    }
  }

  lemma {:induction false} TrimEndSplits(s: string) returns (right: string)
    ensures Blank(right) && s == TrimEnd(s) + right
    ensures TrimEnd(s) != [] ==> !IsSpace(TrimEnd(s)[|TrimEnd(s)| - 1])
  {
    hide IsSpace;
    right := [];
    if s != [] && IsSpace(s[|s| - 1]) {
      var n := |s| - 1;
      var more := TrimEndSplits(s[..n]);
      right := more + [s[n]];
      assert s == s[..n] + [s[n]];
    }
  }

  /** What `trim` cuts off is blank and what it leaves is trimmed. */
  lemma TrimSplits(s: string) returns (left: string, right: string)
    ensures Blank(left) && Blank(right) && s == left + Trim(s) + right && Trimmed(Trim(s))
  {
    hide IsSpace, TrimStart, TrimEnd, Blank;
    left := TrimStartSplits(s);
    right := TrimEndSplits(TrimStart(s));
    var t, core := TrimStart(s), Trim(s);
    assert s == left + (core + right) == left + core + right;
    if core != [] {
      assert t[0] == core[0];
    }
  }

  lemma PrefixOfBody(s: string) returns (prefix: string)
    ensures prefix in ["", "hex:", "HEX:"] && Trim(s) == prefix + Body(s)
  {
    hide Trim;
    var t := Trim(s);
    prefix := if "hex:" <= t then "hex:" else if "HEX:" <= t then "HEX:" else "";
  }

  /** What is left of a text once blanks and a hex prefix are gone. */
  lemma BodySplits(s: string) returns (left: string, prefix: string, right: string)
    ensures Blank(left) && Blank(right) && prefix in ["", "hex:", "HEX:"]
    ensures s == left + prefix + Body(s) + right
  {
    hide *;
    left, right := TrimSplits(s);
    prefix := PrefixOfBody(s);
    assert left + (prefix + Body(s)) + right == left + prefix + Body(s) + right;
  }

  lemma EmptyIsNoKey()
    ensures Base64.Decoded([]) == Some([])
  {
    hide *;
    Base64.Base64RoundTrip([]);
    Base64.EncodedEmpty();
  }

  /** The two ways to a key; `mark` is empty for the first. */
  lemma KeyOfCases(s: string, k: Blob) returns (mark: string)
    requires KeyOf(s) == Some(k)
    ensures |k| == 32
    ensures mark == "" ==> |Body(s)| == 64 && AllHex(Body(s)) && FromHex(Body(s)) == k
    ensures mark != "" ==> mark in ["base64:", "BASE64:"] && mark <= Body(s)
    ensures mark != "" ==> Base64.Decoded(Trim(Body(s)[|mark|..])) == Some(k)
  {
    hide Body, AllHex, FromHex, Trim, Base64.Decoded;
    var t := Body(s);
    mark := if |t| == 64 && AllHex(t) then "" else if "base64:" <= t then "base64:" else "BASE64:";
    if mark != "" {
      assert Strip(t, "base64:", "BASE64:") == Some(t[|mark|..]);
    }
  }

  lemma KeyTextIsKnown(s: string, k: Blob)
    requires KeyOf(s) == Some(k)
    ensures IsHexKey(s, k) || IsBase64Key(s, k)
  {
    hide *;
    var mark := KeyOfCases(s, k);
    if mark == "" {
      HexTextIsKnown(s, k);
    } else {
      MarkedTextIsKnown(s, k, mark);
    }
  }

  lemma HexTextIsKnown(s: string, k: Blob)
    requires |Body(s)| == 64 && AllHex(Body(s)) && FromHex(Body(s)) == k
    ensures IsHexKey(s, k)
  {
    hide Body, AllHex, FromHex, Lower, HexOf, Blank;
    var left, prefix, right := BodySplits(s);
    FromHexExact(Body(s), k);
    assert HexSplit(s, k, left, prefix, Body(s), right);
  }

  lemma MarkedTextIsKnown(s: string, k: Blob, mark: string)
    requires mark in ["base64:", "BASE64:"] && mark <= Body(s) && |k| == 32
    requires Base64.Decoded(Trim(Body(s)[|mark|..])) == Some(k)
    ensures IsBase64Key(s, k)
  {
    hide Body, Trim, Blank, Trimmed, Base64.Decoded;
    var left, prefix, right := BodySplits(s);
    var rest := Body(s)[|mark|..];
    var between, right' := TrimSplits(rest);
    assert Body(s) == mark + rest;
    BlankSum(right', right);
    Joined(left, prefix, mark, between, Trim(rest), right', right);
    assert Base64Split(s, k, left, prefix, mark, between, Trim(rest), right' + right);
  }

  lemma Joined(a: string, b: string, c: string, d: string, e: string, f: string, g: string)
    ensures a + b + (c + (d + e + f)) + g == a + b + c + d + e + (f + g)
  {
  }

  lemma BlankSum(a: string, b: string)
    requires Blank(a) && Blank(b)
    ensures Blank(a + b)
  {
    hide IsSpace;
  }

  lemma Base64Accepted(s: string, k: Blob, left: string, prefix: string, mark: string, between: string, core: string,
                       right: string)
    requires Base64Split(s, k, left, prefix, mark, between, core, right)
    ensures KeyOf(s) == Some(k)
  {
    hide *;
    Base64Parts(s, k, left, prefix, mark, between, core, right);
    EmptyIsNoKey();
    assert core != [];
    var rest := between + core;
    var whole := prefix + (mark + rest);
    PrefixChars();
    MarkStarts(prefix, mark);
    WholeEnds(prefix, mark, between, core);
    TrimOf(left, whole, right);
    Regrouped(left, prefix, mark, between, core, right);
    NoBlanks();
    TrimOf(between, core, []);
    assert between + core + [] == rest;
    BodyOfMarked(s, prefix, mark, rest);
    KeyFromMarked(s, mark, rest, k);
  }

  lemma WholeEnds(prefix: string, mark: string, between: string, core: string)
    requires mark != [] && core != []
    ensures var whole := prefix + (mark + (between + core));
      whole != [] && whole[0] == (prefix + mark)[0] && whole[|whole| - 1] == core[|core| - 1]
  {
  }

  lemma Regrouped(a: string, b: string, c: string, d: string, e: string, f: string)
    ensures a + b + c + d + e + f == a + (b + (c + (d + e))) + f
  {
  }

  lemma Base64Parts(s: string, k: Blob, left: string, prefix: string, mark: string, between: string, core: string,
                    right: string)
    requires Base64Split(s, k, left, prefix, mark, between, core, right)
    ensures Blank(left) && Blank(between) && Blank(right)
    ensures prefix in ["", "hex:", "HEX:"] && mark in ["base64:", "BASE64:"]
    ensures core != [] ==> !IsSpace(core[0]) && !IsSpace(core[|core| - 1])
    ensures |k| == 32 && Base64.Decoded(core) == Some(k)
    ensures s == left + prefix + mark + between + core + right
  {
    hide Blank, IsSpace, Base64.Decoded;
  }

  lemma MarkStarts(prefix: string, mark: string)
    requires prefix in ["", "hex:", "HEX:"] && mark in ["base64:", "BASE64:"]
    ensures (prefix + mark)[0] in ['h', 'H', 'b', 'B']
  {
  }

  lemma BodyOfMarked(s: string, prefix: string, mark: string, rest: string)
    requires prefix in ["", "hex:", "HEX:"] && mark in ["base64:", "BASE64:"]
    requires Trim(s) == prefix + (mark + rest)
    ensures Body(s) == mark + rest
  {
    hide Trim;
    var t := Trim(s);
    if prefix == "" {
      assert t == mark + rest;
      assert t[0] == mark[0];
    } else {
      assert t[..4] == prefix && t[4..] == mark + rest;
    }
  }

  lemma KeyFromMarked(s: string, mark: string, rest: string, k: Blob)
    requires mark in ["base64:", "BASE64:"] && Body(s) == mark + rest
    requires Base64.Decoded(Trim(rest)) == Some(k) && |k| == 32
    ensures KeyOf(s) == Some(k)
  {
    Base64Body(mark + rest, mark, rest);
    hide Body, Trim, Strip, AllHex, Base64.Decoded;
  }

  /** A text is the key `k` exactly when it has one of the two forms of `k`;
      every other text is refused. */
  lemma KeyTextIff(s: string, k: Blob)
    ensures KeyOf(s) == Some(k) <==> IsHexKey(s, k) || IsBase64Key(s, k)
  {
    hide KeyOf, HexSplit, Base64Split;
    if KeyOf(s) == Some(k) {
      KeyTextIsKnown(s, k);
    }
    if IsHexKey(s, k) {
      var left, prefix, digits, right :| HexSplit(s, k, left, prefix, digits, right);
      HexAccepted(s, k, left, prefix, digits, right);
    }
    if IsBase64Key(s, k) {
      var left, prefix, mark, between, core, right :| Base64Split(s, k, left, prefix, mark, between, core, right);
      Base64Accepted(s, k, left, prefix, mark, between, core, right);
    }
  }

  lemma HexAccepted(s: string, k: Blob, left: string, prefix: string, digits: string, right: string)
    requires HexSplit(s, k, left, prefix, digits, right)
    ensures KeyOf(s) == Some(k)
  {
    hide KeyOf, Blank, AllHex, Lower, HexOf;
    HexKeyExact(left, prefix, digits, right, k);
  }
}
