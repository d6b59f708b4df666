/** A checksum that follows a sliding window: the plain sum of its bytes and the
    sum with weights that fall from left to right.  The code works in wrapping
    32-bit registers; what it means is sums modulo 2^16. */
module RollingSum {
  import opened Bytes

  /** The source's `Rolling` is a `Copy` struct: a value, replaced on each step. */
  datatype Rolling = Rolling(a: u32, b: u32, n: u32) {

    /** Slide the window by one byte: `out` leaves, `inb` enters. */
    function Roll(out: byte, inb: byte): Rolling {
      var a' := Low16(Wrap32(Wrap32(a - out) + inb));
      var b' := Low16(Wrap32(Wrap32(b - Wrap32(n * out)) + a'));
      Rolling(a', b', n)
    }

    function Digest(): u32
      requires a < 0x1_0000 && b < 0x1_0000
    {
      b * 0x1_0000 + a
    }
  }

  // The mathematical checksum of a window.

  function ByteSum(w: Blob): nat
  {
    if w == [] then 0 else w[0] + ByteSum(w[1..])
  }

  function WeightedSum(w: Blob): nat
  {
    if w == [] then 0 else |w| * w[0] + WeightedSum(w[1..])
  }

  /** The register contents that describe exactly the window `w`. */
  function Exact(w: Blob): (r: Rolling)
    ensures r.a < 0x1_0000 && r.b < 0x1_0000
  {
    Rolling(Low16(ByteSum(w)), Low16(WeightedSum(w)), Wrap32(|w|))
  }

  function Weak(w: Blob): u32
  {
    Exact(w).Digest()
  }

  /** The checksum of a window: the sum of its bytes in the low half and the
      weighted sum in the high half. */
  lemma WeakIs(w: Blob)
    ensures Weak(w) % 0x1_0000 == ByteSum(w) % 0x1_0000
    ensures Weak(w) / 0x1_0000 == WeightedSum(w) % 0x1_0000
  {
    hide ByteSum, WeightedSum;
  }

  /** `Rolling::new`: one pass over the window with wrapping additions. */
  method NewRolling(data: Blob) returns (r: Rolling)
    ensures r == Exact(data)
  {
    var a: u32, b: u32 := 0, 0;
    hide Wrap32, Low16;
    for i := 0 to |data|
      invariant Wrap32(a + ByteSum(data[i..])) == Wrap32(ByteSum(data))
      invariant Wrap32(b + WeightedSum(data[i..])) == Wrap32(WeightedSum(data))
    {
      var d := data[i];
      assert data[i..][1..] == data[i + 1..] && data[i..][0] == d;
      assert WeightedSum(data[i..]) == (|data| - i) * d + WeightedSum(data[i + 1..]);
      AddStep(a, d, ByteSum(data[i + 1..]));
      MulStep(b, |data| - i, d, WeightedSum(data[i + 1..]));
      a := Wrap32(a + d);
      b := Wrap32(b + Wrap32(Wrap32(|data| - i) * d));
    }
    WrapToLow(a, ByteSum(data));
    WrapToLow(b, WeightedSum(data));
    r := Rolling(Low16(a), Low16(b), Wrap32(|data|));
  }

  lemma WrapToLow(a: u32, s: nat)
    requires Wrap32(a + 0) == Wrap32(s)
    ensures Low16(a) == Low16(s)
  {
    Low16OfWrap(s);
    Low16OfWrap(a);
  }

  lemma AddStep(a: int, d: int, rest: int)
    ensures Wrap32(Wrap32(a + d) + rest) == Wrap32(a + (d + rest))
  {
  }

  lemma MulStep(b: int, n: int, d: int, rest: int)
    ensures Wrap32(Wrap32(b + Wrap32(Wrap32(n) * d)) + rest) == Wrap32(b + (n * d + rest))
  {
    var m := n * d;
    WrapProduct(n, d);
    AddStep(0, m, b);
    AddStep(b, m, rest);
  }

  lemma WrapProduct(x: int, y: int)
    ensures Wrap32(Wrap32(x) * y) == Wrap32(x * y)
  {
    var k := x / 0x1_0000_0000;
    assert x * y == Wrap32(x) * y + 0x1_0000_0000 * (k * y) by {
      assert x == 0x1_0000_0000 * k + Wrap32(x);
    }
  }

  lemma {:induction false} ByteSumSnoc(w: Blob, x: byte)
    ensures ByteSum(w + [x]) == ByteSum(w) + x
  {
    if w != [] {
      assert (w + [x])[1..] == w[1..] + [x];
      ByteSumSnoc(w[1..], x);
    }
  }

  lemma {:induction false} WeightedSumSnoc(w: Blob, x: byte)
    ensures WeightedSum(w + [x]) == WeightedSum(w) + ByteSum(w) + x
  {
    if w != [] {
      assert (w + [x])[1..] == w[1..] + [x];
      WeightedSumSnoc(w[1..], x);
      assert (|w| + 1) * w[0] == |w| * w[0] + w[0];
    }
  }

  /** One `roll` turns the exact checksum of a window into the exact checksum
      of the next window, whatever the register wrap-around in between. */
  lemma RollIsExact(w: Blob, x: byte)
    requires w != []
    ensures Exact(w).Roll(w[0], x) == Exact(w[1..] + [x])
  {
    hide Low16, Wrap32;
    var next := w[1..] + [x];
    var sum, moment := ByteSum(w), WeightedSum(w);
    var drop := |w| * w[0];
    var sum', moment' := ByteSum(next), WeightedSum(next);
    assert sum' == sum - w[0] + x by { ByteSumSnoc(w[1..], x); }
    assert moment' == moment - drop + sum' by { WeightedSumSnoc(w[1..], x); ByteSumSnoc(w[1..], x); }
    var r := Exact(w).Roll(w[0], x);
    assert r.a == Low16(sum') by { RollLow(sum, w[0], x); }
    assert Wrap32(Wrap32(|w|) * w[0]) == Wrap32(drop) by { WrapProduct(|w|, w[0]); }
    assert r.b == Low16(moment') by {
      RollLow(moment, drop, r.a);
      Low16OfSum(sum', moment - drop);
    }
  }

  lemma RollLow(s: int, out: int, inb: int)
    ensures Low16(Wrap32(Wrap32(Low16(s) - out) + inb)) == Low16(s - out + inb)
    ensures Low16(Wrap32(Wrap32(Low16(s) - Wrap32(out)) + inb)) == Low16(s - out + inb)
  {
    hide Low16, Wrap32;
    RollSteps(Low16(s) - out, inb);
    RollSteps(Low16(s) - Wrap32(out), inb);
    Low16OfSum(s, inb - out);
    Low16OfSum(s, inb - Wrap32(out));
    LowOfDifference(s + inb, out);
  }

  lemma RollSteps(x: int, inb: int)
    ensures Low16(Wrap32(Wrap32(x) + inb)) == Low16(x + inb)
  {
    hide Low16, Wrap32;
    Low16OfWrap(Wrap32(x) + inb);
    Low16OfSum(Wrap32(x), inb);
    Low16OfWrap(x);
    Low16OfSum(x, inb);
  }

  lemma LowOfDifference(x: int, y: int)
    ensures Low16(x - Wrap32(y)) == Low16(x - y)
  {
    var k := y / 0x1_0000_0000;
    assert x - Wrap32(y) == x - y + 0x1_0000 * (0x1_0000 * k);
  }

  /** The window of width `n` that starts at `p`. */
  function Window(s: Blob, p: nat, n: nat): Blob
    requires p + n <= |s|
  {
    s[p..p + n]
  }

  function RollMany(r: Rolling, s: Blob, p: nat, n: nat, k: nat): Rolling
    requires p + k + n <= |s| && (k > 0 ==> n > 0)
  {
    if k == 0 then r else RollMany(r, s, p, n, k - 1).Roll(s[p + k - 1], s[p + k - 1 + n])
  }

  /** After any number of rolls the registers equal a fresh checksum of the
      current window, for every window width and every position. */
  lemma {:induction false} RollingNeverDrifts(s: Blob, p: nat, n: nat, k: nat)
    requires n > 0 && p + k + n <= |s|
    ensures RollMany(Exact(Window(s, p, n)), s, p, n, k) == Exact(Window(s, p + k, n))
  {
    hide Exact, Rolling.Roll;
    if k > 0 {
      RollingNeverDrifts(s, p, n, k - 1);
      var w := Window(s, p + k - 1, n);
      assert w[1..] + [s[p + k - 1 + n]] == Window(s, p + k, n);
      RollIsExact(w, s[p + k - 1 + n]);
    }
  }
}
