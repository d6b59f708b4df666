/** Numbers as strings of bits, and strings of bits cut into equal groups. */
module BitGroups {
  import Multiples

  type Bits = seq<bool>

  function Pow2(w: nat): (p: nat)
    ensures p > 0
  {
    if w == 0 then 1 else 2 * Pow2(w - 1)
  }

  /** The `w` low bits of `v`, most significant first. */
  function BitsOf(v: nat, w: nat): (b: Bits)
    ensures |b| == w
  {
    if w == 0 then [] else BitsOf(v / 2, w - 1) + [v % 2 == 1]
  }

  function Num(b: Bits): nat
  {
    if b == [] then 0 else 2 * Num(b[..|b| - 1]) + if b[|b| - 1] then 1 else 0
  }

  lemma {:induction false} NumOfBits(v: nat, w: nat)
    requires v < Pow2(w)
    ensures Num(BitsOf(v, w)) == v
  {
    if w > 0 {
      NumOfBits(v / 2, w - 1);
      assert BitsOf(v, w)[..w - 1] == BitsOf(v / 2, w - 1);
    }
  }

  lemma {:induction false} BitsOfNum(b: Bits)
    ensures Num(b) < Pow2(|b|) && BitsOf(Num(b), |b|) == b
  {
    if b != [] {
      BitsOfNum(b[..|b| - 1]);
    }
  }

  lemma {:induction false} NumOfSum(a: Bits, b: Bits)
    ensures Num(a + b) == Num(a) * Pow2(|b|) + Num(b)
  {
    hide Num, Pow2;
    NumUnfolds(b);
    NumUnfolds(a + b);
    if b == [] {
      assert a + b == a;
      NoPower(Num(a));
    } else {
      var b' := b[..|b| - 1];
      assert (a + b)[..|a + b| - 1] == a + b';
      NumOfSum(a, b');
      PowUnfolds(|b|);
      Doubled(Num(a), Pow2(|b'|));
    }
  }

  lemma NumUnfolds(b: Bits)
    ensures b == [] ==> Num(b) == 0
    ensures b != [] ==> Num(b) == 2 * Num(b[..|b| - 1]) + if b[|b| - 1] then 1 else 0
  {}

  lemma NoPower(x: nat)
    ensures x * Pow2(0) == x
  {}

  lemma PowUnfolds(w: nat)
    requires w > 0
    ensures Pow2(w) == 2 * Pow2(w - 1)
  {}

  lemma Doubled(x: nat, y: nat)
    ensures 2 * (x * y) == x * (2 * y)
  {}

  /** Bits of the numbers in `vs`, `w` bits each, one after the other. */
  function Spread(vs: seq<nat>, w: nat): (b: Bits)
    ensures |b| == |vs| * w
  {
    if vs == [] then []
    else
      assert |vs| * w == w + |vs[1..]| * w by { Multiples.Next(|vs| - 1, w); }
      BitsOf(vs[0], w) + Spread(vs[1..], w)
  }

  /** `b` cut into groups of `w` bits; an incomplete last group is dropped. */
  function Groups(b: Bits, w: nat): (vs: seq<nat>)
    requires w > 0
  {
    if |b| < w then [] else [Num(b[..w])] + Groups(b[w..], w)
  }

  predicate Fit(vs: seq<nat>, w: nat)
  {
    forall i :: 0 <= i < |vs| ==> vs[i] < Pow2(w)
  }

  lemma {:induction false} SpreadOfSum(a: seq<nat>, b: seq<nat>, w: nat)
    ensures Spread(a + b, w) == Spread(a, w) + Spread(b, w)
  {
    hide Spread, BitsOf;
    SpreadUnfolds(a, w);
    SpreadUnfolds(a + b, w);
    if a == [] {
      assert a + b == b;
    } else {
      SpreadOfSum(a[1..], b, w);
      assert (a + b)[1..] == a[1..] + b;
      assert (a + b)[0] == a[0];
    }
  }

  lemma SpreadUnfolds(vs: seq<nat>, w: nat)
    ensures vs == [] ==> Spread(vs, w) == []
    ensures vs != [] ==> Spread(vs, w) == BitsOf(vs[0], w) + Spread(vs[1..], w)
  {}

  lemma GroupsUnfolds(first: Bits, rest: Bits, w: nat)
    requires |first| == w > 0
    ensures Groups(first + rest, w) == [Num(first)] + Groups(rest, w)
  {
    var b := first + rest;
    assert b[..w] == first && b[w..] == rest;
  }

  /** Cutting undoes spreading; fewer than `w` further bits are dropped. */
  lemma {:induction false} GroupsOfSpread(vs: seq<nat>, rest: Bits, w: nat)
    requires w > 0 && Fit(vs, w)
    ensures Groups(Spread(vs, w) + rest, w) == vs + Groups(rest, w)
  {
    hide Spread, BitsOf, Groups, Num, Pow2;
    SpreadUnfolds(vs, w);
    if vs == [] {
      assert Spread(vs, w) + rest == rest;
      assert vs + Groups(rest, w) == Groups(rest, w);
    } else {
      var tail := Spread(vs[1..], w) + rest;
      GroupsOfSpread(vs[1..], rest, w);
      NumOfBits(vs[0], w);
      GroupsUnfolds(BitsOf(vs[0], w), tail, w);
      assert Spread(vs, w) + rest == BitsOf(vs[0], w) + tail;
      assert [vs[0]] + (vs[1..] + Groups(rest, w)) == vs + Groups(rest, w);
    }
  }

  /** Spreading undoes cutting when nothing is dropped. */
  lemma {:induction false} SpreadOfGroups(b: Bits, n: nat, w: nat)
    requires w > 0 && |b| == n * w
    ensures Spread(Groups(b, w), w) == b && |Groups(b, w)| == n && Fit(Groups(b, w), w)
  {
    hide Spread, BitsOf, Groups, Num, Pow2;
    if n == 0 {
      EmptyGroups(b, w);
    } else {
      Multiples.Previous(n, w);
      var vs := Groups(b[w..], w);
      BitsOfNum(b[..w]);
      SpreadOfGroups(b[w..], n - 1, w);
      assert b == b[..w] + b[w..];
      GroupsUnfolds(b[..w], b[w..], w);
      SpreadUnfolds(Groups(b, w), w);
      assert Groups(b, w)[1..] == vs;
    }
  }

  lemma {:induction false} GroupsFit(b: Bits, w: nat)
    requires w > 0
    ensures Fit(Groups(b, w), w)
    decreases |b|
  {
    hide BitsOf, Num, Pow2;
    if |b| >= w {
      BitsOfNum(b[..w]);
      GroupsFit(b[w..], w);
    }
  }

  lemma EmptyGroups(b: Bits, w: nat)
    requires w > 0 && |b| == 0
    ensures Spread(Groups(b, w), w) == b && Groups(b, w) == []
  {}

  /** A number's bits, high part and low part. */
  lemma BitsJoin(x: nat, high: nat, y: nat, low: nat)
    requires x < Pow2(high) && y < Pow2(low)
    ensures BitsOf(x * Pow2(low) + y, high + low) == BitsOf(x, high) + BitsOf(y, low)
  {
    hide BitsOf, Num, Pow2;
    var b := BitsOf(x, high) + BitsOf(y, low);
    NumOfSum(BitsOf(x, high), BitsOf(y, low));
    NumOfBits(x, high);
    NumOfBits(y, low);
    BitsOfNum(b);
  }

  lemma SmallPowers()
    ensures Pow2(0) == 1 && Pow2(2) == 4 && Pow2(4) == 16 && Pow2(6) == 64 && Pow2(8) == 256
    ensures Pow2(10) == 1024 && Pow2(12) == 4096 && Pow2(16) == 65536 && Pow2(18) == 262144
  {
    assert Pow2(7) == 2 * Pow2(6);
    assert Pow2(9) == 2 * Pow2(8);
    assert Pow2(11) == 2 * Pow2(10);
    assert Pow2(13) == 2 * Pow2(12);
    assert Pow2(15) == 2 * Pow2(14);
    assert Pow2(17) == 2 * Pow2(16);
  }
}
