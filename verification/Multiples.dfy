/** Products with the block size, kept away from the solver's arithmetic. */
module Multiples {

  lemma Next(i: nat, bs: nat)
    ensures (i + 1) * bs == i * bs + bs && i * bs >= 0
  {
  }

  lemma Previous(i: nat, bs: nat)
    requires i > 0
    ensures i * bs == (i - 1) * bs + bs && (i - 1) * bs >= 0
  {
    Next(i - 1, bs);
  }

  lemma {:induction false} Less(x: nat, y: nat, bs: nat)
    requires x < y && bs > 0
    ensures x * bs + bs <= y * bs
    decreases y
  {
    Previous(y, bs);
    if x < y - 1 {
      Less(x, y - 1, bs);
    }
  }

  lemma Same(x: nat, y: nat, bs: nat)
    requires x * bs == y * bs && bs > 0
    ensures x == y
  {
    if x < y {
      Less(x, y, bs);
    } else if y < x {
      Less(y, x, bs);
    }
  }

  lemma Quotient(i: nat, bs: nat)
    requires bs > 0
    ensures i * bs >= 0 && (i * bs) / bs == i
  {
    var x, d := i * bs, (i * bs) / bs;
    assert x == bs * d + x % bs;
    assert bs * d == d * bs;
    if d < i {
      Less(d, i, bs);
    } else if i < d {
      Less(i, d, bs);
    }
  }

  /** The number of whole blocks in `x`. */
  lemma Floor(x: nat, bs: nat)
    requires bs > 0
    ensures (x / bs) * bs <= x < (x / bs + 1) * bs
  {
    var q := x / bs;
    assert x == bs * q + x % bs;
    assert bs * q == q * bs;
    Next(q, bs);
  }

  lemma LeMul(n: nat, a: nat, b: nat)
    requires a <= b
    ensures n * a <= n * b
  {
  }

  lemma AtLeast(n: nat, b: nat)
    requires b > 0
    ensures n <= n * b
  {
    LeMul(n, 1, b);
  }
}
