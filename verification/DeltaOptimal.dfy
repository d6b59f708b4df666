/** Bounds on literal bytes: resynchronisation after an edit, and identical files. */
module DeltaOptimal {
  import opened Bytes
  import opened Signatures
  import opened Emitter
  import opened Greedy
  import opened DeltaBounds
  import Multiples

  // ------------------------------------------------------- resynchronisation

  /** Number of literal bytes among the flags. */
  function Literals(flags: seq<bool>): nat
  {
    if flags == [] then 0 else (if flags[0] then 0 else 1) + Literals(flags[1..])
  }

  lemma {:induction false} LiteralsConcat(a: seq<bool>, b: seq<bool>)
    ensures Literals(a + b) == Literals(a) + Literals(b)
  {
    if a == [] {
      assert a + b == b;
    } else {
      assert (a + b)[1..] == a[1..] + b;
      LiteralsConcat(a[1..], b);
    }
  }

  lemma {:induction false} LiteralsRepeat(b: bool, n: nat)
    ensures Literals(Repeat(b, n)) == if b then 0 else n
  {
    if n > 0 {
      assert Repeat(b, n)[1..] == Repeat(b, n - 1);
      LiteralsRepeat(b, n - 1);
    }
  }

  /** `w` is one of the full blocks of `base`. */
  ghost predicate IsBlock(base: Blob, bs: pos, w: Blob)
  {
    exists i :: IsBlockAt(base, bs, w, i)
  }

  ghost predicate IsBlockAt(base: Blob, bs: pos, w: Blob, i: nat)
  {
    0 <= i * bs <= i * bs + bs <= |base| && w == base[i * bs..i * bs + bs]
  }

  /** From `q` on, the source holds `m` consecutive full base blocks. */
  ghost predicate BlockRun(j: Job, base: Blob, q: nat, m: nat)
    decreases m
  {
    && q <= |j.src|
    && (m > 0 ==>
          q + j.bs <= |j.src| && IsBlock(base, j.bs, j.src[q..q + j.bs]) && BlockRun(j, base, q + j.bs, m - 1))
  }

  function RunLimit(j: Job, q: nat, m: nat): nat
    decreases m
  {
    if m == 0 then q else RunLimit(j, q + j.bs, m - 1)
  }

  lemma {:induction false} RunLimitIs(j: Job, q: nat, m: nat)
    ensures RunLimit(j, q, m) == q + m * j.bs
    decreases m
  {
    if m > 0 {
      RunLimitIs(j, q + j.bs, m - 1);
      Multiples.Previous(m, j.bs);
    }
  }

  lemma {:induction false} RunFits(j: Job, base: Blob, q: nat, m: nat)
    requires BlockRun(j, base, q, m)
    ensures q <= RunLimit(j, q, m) <= |j.src|
    decreases m
  {
    if m > 0 {
      RunFits(j, base, q + j.bs, m - 1);
    }
  }

  /** A window equal to a base block always matches: no hash assumption. */
  lemma BlockMatches(j: Job, base: Blob, p: nat)
    requires j.sigs == SigsOf(j.h, base, j.bs)
    requires p + j.bs <= |j.src| && IsBlock(base, j.bs, j.src[p..p + j.bs])
    ensures MatchAt(j, p)
  {
    hide IsBlockAt, MatchAt, SigsOf, SigOf;
    var i :| IsBlockAt(base, j.bs, j.src[p..p + j.bs], i);
    BlockSig(j, base, p, i);
    MatchIntro(j, p, i);
  }

  lemma BlockSig(j: Job, base: Blob, p: nat, i: nat)
    requires j.sigs == SigsOf(j.h, base, j.bs)
    requires p + j.bs <= |j.src| && IsBlockAt(base, j.bs, j.src[p..p + j.bs], i)
    ensures i < |j.sigs| && j.sigs[i] == SigOf(j.h, j.src[p..p + j.bs])
  {
    hide SigsOf, SigOf;
    SigsOfBlock(j.h, base, j.bs, i);
  }

  lemma MatchIntro(j: Job, p: nat, i: nat)
    requires p + j.bs <= |j.src| && i < |j.sigs| && j.sigs[i] == SigOf(j.h, j.src[p..p + j.bs])
    ensures MatchAt(j, p)
  {
    hide SigOf;
  }

  /** Literal bytes the greedy scan, standing at `p`, produces before `end`. */
  function LiteralsUntil(j: Job, p: nat, end: nat): nat
    requires p <= end <= |j.src|
  {
    Literals(Copied(j, p)[..end - p])
  }

  lemma RepeatPrefix(n: nat, rest: seq<bool>, k: nat)
    requires k <= n
    ensures (Repeat(true, n) + rest)[..k] == Repeat(true, k)
  {
  }

  lemma CopiedMatch(j: Job, p: nat)
    requires MatchAt(j, p)
    ensures p + j.bs <= |j.src| && Copied(j, p) == Repeat(true, j.bs) + Copied(j, p + j.bs)
  {
    hide First, SigAt;
  }

  lemma StepMatch(j: Job, p: nat, end: nat)
    requires p <= end <= |j.src| && MatchAt(j, p)
    ensures LiteralsUntil(j, p, end) == if end <= p + j.bs then 0 else LiteralsUntil(j, p + j.bs, end)
  {
    var rest := Copied(j, p + j.bs);
    CopiedMatch(j, p);
    hide Copied, MatchAt, Repeat;
    if end <= p + j.bs {
      assert (Repeat(true, j.bs) + rest)[..end - p] == Repeat(true, end - p) by { RepeatPrefix(j.bs, rest, end - p); }
      LiteralsRepeat(true, end - p);
    } else {
      assert Copied(j, p)[..end - p] == Repeat(true, j.bs) + rest[..end - p - j.bs];
      LiteralsRepeat(true, j.bs);
      LiteralsConcat(Repeat(true, j.bs), rest[..end - p - j.bs]);
    }
  }

  lemma StepMiss(j: Job, p: nat, end: nat)
    requires p < end <= |j.src| && !MatchAt(j, p)
    ensures LiteralsUntil(j, p, end) == 1 + LiteralsUntil(j, p + 1, end)
  {
    var rest := Copied(j, p + 1);
    assert Copied(j, p) == [false] + rest;
    assert ([false] + rest)[..end - p] == [false] + rest[..end - p - 1];
    assert ([false] + rest[..end - p - 1])[1..] == rest[..end - p - 1];
  }

  /** A scan that stands on a block boundary of the run copies all of it. */
  lemma {:induction false} AlignedRun(j: Job, base: Blob, q: nat, m: nat)
    requires j.sigs == SigsOf(j.h, base, j.bs) && BlockRun(j, base, q, m)
    ensures q <= RunLimit(j, q, m) <= |j.src| && LiteralsUntil(j, q, RunLimit(j, q, m)) == 0
    decreases m
  {
    hide *;
    RunFits(j, base, q, m);
    RunTail(j, base, q, m);
    if m == 0 {
      StandStill(j, q);
    } else {
      RunFits(j, base, q + j.bs, m - 1);
      RunHead(j, base, q, m);
      StepMatch(j, q, RunLimit(j, q, m));
      AlignedRun(j, base, q + j.bs, m - 1);
    }
  }

  lemma StandStill(j: Job, p: nat)
    requires p <= |j.src|
    ensures LiteralsUntil(j, p, p) == 0
  {
    assert Copied(j, p)[..0] == [];
  }

  lemma RunHead(j: Job, base: Blob, q: nat, m: nat)
    requires j.sigs == SigsOf(j.h, base, j.bs) && BlockRun(j, base, q, m) && m > 0
    ensures MatchAt(j, q)
  {
    BlockMatches(j, base, q);
  }

  /** A scan that stands `q - p` bytes before a boundary sends at most that many
      literals in the rest of the run: each one brings it a byte closer, and a
      coincidental match keeps the distance. */
  lemma {:induction false} ShiftedRun(j: Job, base: Blob, p: nat, q: nat, m: nat)
    requires j.sigs == SigsOf(j.h, base, j.bs) && BlockRun(j, base, q, m) && p <= q < p + j.bs
    ensures q <= RunLimit(j, q, m) <= |j.src| && LiteralsUntil(j, p, RunLimit(j, q, m)) <= q - p
    decreases m, q - p
  {
    hide *;
    var end := RunLimit(j, q, m);
    RunFits(j, base, q, m);
    RunTail(j, base, q, m);
    if p == q {
      AlignedRun(j, base, q, m);
    } else if MatchAt(j, p) {
      StepMatch(j, p, end);
      if end > p + j.bs {
        ShiftedRun(j, base, p + j.bs, q + j.bs, m - 1);
      }
    } else {
      StepMiss(j, p, end);
      ShiftedRun(j, base, p + 1, q, m);
    }
  }

  /** Does a scan that stands at `p` test offset `q`? */
  predicate Stops(j: Job, p: nat, q: nat)
    decreases q - p
  {
    p == q || (p < q && Stops(j, if MatchAt(j, p) then p + j.bs else p + 1, q))
  }

  lemma StopsNext(j: Job, p: nat, q: nat)
    requires p < q
    ensures var next := if MatchAt(j, p) then p + j.bs else p + 1;
            Stops(j, p, q) == (next <= q && Stops(j, next, q))
  {
    hide MatchAt;
  }

  lemma SliceLiterals(j: Job, p: nat, next: nat, q: nat, end: nat)
    requires p <= |j.src| && next == (if MatchAt(j, p) then p + j.bs else p + 1)
    requires next <= q <= end <= |j.src|
    ensures Copied(j, p)[q - p..end - p] == Copied(j, next)[q - next..end - next]
  {
    hide *;
    if MatchAt(j, p) {
      CopiedMatch(j, p);
      SliceShift(Repeat(true, j.bs), Copied(j, next), q - p, end - p);
    } else {
      CopiedMiss(j, p);
      SliceShift([false], Copied(j, next), q - p, end - p);
    }
  }

  lemma CopiedMiss(j: Job, p: nat)
    requires p < |j.src| && !MatchAt(j, p)
    ensures Copied(j, p) == [false] + Copied(j, p + 1)
  {
  }

  lemma SliceShift(head: seq<bool>, rest: seq<bool>, a: nat, b: nat)
    requires |head| <= a <= b <= |head| + |rest|
    ensures (head + rest)[a..b] == rest[a - |head|..b - |head|]
  {
  }

  /** Seen from any earlier point of the scan, at most `bs - 1` bytes of the run
      are literal, and none if the scan stops at its start. */
  lemma {:induction false} RunSeenFrom(j: Job, base: Blob, p: nat, q: nat, m: nat)
    requires j.sigs == SigsOf(j.h, base, j.bs) && BlockRun(j, base, q, m) && p <= q
    ensures q <= RunLimit(j, q, m) <= |j.src|
    ensures Literals(Copied(j, p)[q - p..RunLimit(j, q, m) - p]) <= if Stops(j, p, q) then 0 else j.bs - 1
    decreases q - p
  {
    hide *;
    var end := RunLimit(j, q, m);
    RunFits(j, base, q, m);
    if p == q {
      AlignedRun(j, base, q, m);
      UntilIs(j, p, end);
      assert Copied(j, p)[0..end - p] == Copied(j, p)[..end - p];
    } else {
      var next := if MatchAt(j, p) then p + j.bs else p + 1;
      StopsNext(j, p, q);
      if next <= q {
        RunSeenFrom(j, base, next, q, m);
        SliceLiterals(j, p, next, q, end);
      } else {
        StraddlingMatch(j, base, p, q, m);
      }
    }
  }

  /** A match straddles the start of the run. */
  lemma StraddlingMatch(j: Job, base: Blob, p: nat, q: nat, m: nat)
    requires j.sigs == SigsOf(j.h, base, j.bs) && BlockRun(j, base, q, m)
    requires MatchAt(j, p) && p < q < p + j.bs
    ensures q <= RunLimit(j, q, m) <= |j.src|
    ensures Literals(Copied(j, p)[q - p..RunLimit(j, q, m) - p]) <= j.bs - 1
  {
    hide *;
    var end, next := RunLimit(j, q, m), p + j.bs;
    RunFits(j, base, q, m);
    RunTail(j, base, q, m);
    CopiedMatch(j, p);
    SliceAfterMatch(Copied(j, next), j.bs, q - p, end - p);
    if end > next {
      ShiftedRun(j, base, next, q + j.bs, m - 1);
      UntilIs(j, next, end);
    }
  }

  lemma RunTail(j: Job, base: Blob, q: nat, m: nat)
    requires BlockRun(j, base, q, m)
    ensures m == 0 ==> RunLimit(j, q, m) == q
    ensures m > 0 ==> BlockRun(j, base, q + j.bs, m - 1) && RunLimit(j, q, m) == RunLimit(j, q + j.bs, m - 1)
  {
    hide IsBlock;
  }

  lemma UntilIs(j: Job, p: nat, end: nat)
    requires p <= end <= |j.src|
    ensures LiteralsUntil(j, p, end) == Literals(Copied(j, p)[..end - p])
  {
  }

  lemma SliceAfterMatch(rest: seq<bool>, bs: nat, a: nat, b: nat)
    requires a <= bs && a <= b <= bs + |rest|
    ensures Literals((Repeat(true, bs) + rest)[a..b]) == if b <= bs then 0 else Literals(rest[..b - bs])
  {
    var flags := Repeat(true, bs) + rest;
    hide Literals;
    if b <= bs {
      assert flags[a..b] == Repeat(true, b - a);
      LiteralsRepeat(true, b - a);
    } else {
      assert flags[a..b] == Repeat(true, bs - a) + rest[..b - bs];
      LiteralsRepeat(true, bs - a);
      LiteralsConcat(Repeat(true, bs - a), rest[..b - bs]);
    }
  }

  /** The resynchronisation bound, for the stream the fast scan emits. */
  lemma Resynchronises(j: Job, base: Blob, out: Batch, q: nat, m: nat)
    requires j.sigs == SigsOf(j.h, base, j.bs) && IsDelta(j, out) && BlockRun(j, base, q, m)
    ensures q + m * j.bs <= |j.src| == |Flags(out.ops)| && m * j.bs >= 0
    ensures Literals(Flags(out.ops)[q..q + m * j.bs]) <= j.bs - 1
    ensures Stops(j, 0, q) ==> Literals(Flags(out.ops)[q..q + m * j.bs]) == 0
  {
    hide IsDelta, Literals, Flags, Copied, Stops;
    DeltaIsGreedy(j, out);
    RunLimitIs(j, q, m);
    RunSeenFrom(j, base, 0, q, m);
    assert Copied(j, 0)[q - 0..RunLimit(j, q, m) - 0] == Copied(j, 0)[q..q + m * j.bs];
  }

  /** A contiguous stretch of the base that starts at block `s` is such a run. */
  lemma {:induction false} StretchIsRun(j: Job, base: Blob, q: nat, s: nat, m: nat)
    requires 0 <= s * j.bs <= s * j.bs + m * j.bs <= |base| && 0 <= m * j.bs && q + m * j.bs <= |j.src|
    requires j.src[q..q + m * j.bs] == base[s * j.bs..s * j.bs + m * j.bs]
    ensures BlockRun(j, base, q, m)
    decreases m
  {
    hide IsBlock;
    if m > 0 {
      var bs, at, n := j.bs, s * j.bs, m * j.bs;
      Multiples.Previous(m, bs);
      Multiples.Next(s, bs);
      SplitEqual(j.src[q..q + n], base[at..at + n], bs);
      assert j.src[q..q + n][..bs] == j.src[q..q + bs] && base[at..at + n][..bs] == base[at..at + bs];
      assert j.src[q..q + n][bs..] == j.src[q + bs..q + bs + (n - bs)];
      assert base[at..at + n][bs..] == base[at + bs..at + bs + (n - bs)];
      BlockAt(base, bs, s);
      StretchIsRun(j, base, q + bs, s + 1, m - 1);
    }
  }

  lemma SplitEqual(a: Blob, b: Blob, k: nat)
    requires a == b && k <= |a|
    ensures a[..k] == b[..k] && a[k..] == b[k..]
  {
  }

  lemma BlockAt(base: Blob, bs: pos, s: nat)
    requires 0 <= s * bs <= s * bs + bs <= |base|
    ensures IsBlock(base, bs, base[s * bs..s * bs + bs])
  {
    assert IsBlockAt(base, bs, base[s * bs..s * bs + bs], s);
  }

  // ---------------------------------------------------------- identical files

  /** `bytes` cut into `Data` frames of at most CHUNK bytes. */
  function Chunks(bytes: Blob): seq<Op>
  {
    if |bytes| <= CHUNK then DataOp(bytes)
    else [Data(bytes[..CHUNK])] + Chunks(bytes[CHUNK..])
  }

  /** Literals added to an empty batch are emitted chunk by chunk. */
  lemma {:induction false} LiteralTail(e: Batch, tail: Blob)
    requires e.copy.None? && e.pending == []
    ensures Finish(AddBytes(e, tail)).ops == e.ops + Chunks(tail)
    decreases |tail|
  {
    hide AddBytes;
    if |tail| < CHUNK {
      AddBytesFits(e, tail);
      assert [] + tail == tail;
    } else {
      var head, rest := tail[..CHUNK], tail[CHUNK..];
      assert head + rest == tail && [] + head == head;
      var full := e.(ops := e.ops + [Data(head)], literal := e.literal + CHUNK);
      AddBytesFills(e, head);
      AddBytesConcat(e, head, rest);
      LiteralTail(full, rest);
      assert Chunks(tail) == [Data(head)] + Chunks(rest) by {
        if rest == [] {
          assert head == tail;
        }
      }
    }
  }

  /** The state after the first `i` blocks of an identical file. */
  function Run(bs: pos, i: nat): Batch
  {
    if i == 0 then EMPTY else Batch([], [], Some(Range(0, i * bs)), 0, 0)
  }

  function Starts(bs: pos, i: nat): seq<nat>
  {
    if i == 0 then [] else Starts(bs, i - 1) + [(i - 1) * bs]
  }

  /** Every block of an identical file matches where it stands. */
  lemma {:induction false} SelfPositions(j: Job, i: nat)
    requires j.sigs == SigsOf(j.h, j.src, j.bs) && 0 <= i * j.bs <= |j.src|
    ensures Positions(j, 0) == Starts(j.bs, i) + Positions(j, i * j.bs)
    decreases i
  {
    hide *;
    if i == 0 {
      StartsNone(j.bs);
      assert [] + Positions(j, 0) == Positions(j, 0);
    } else {
      var p := (i - 1) * j.bs;
      Multiples.Previous(i, j.bs);
      SelfPositions(j, i - 1);
      BlockAt(j.src, j.bs, i - 1);
      BlockMatches(j, j.src, p);
      StartsShape(j.bs, i);
      PositionsSnoc(j, Starts(j.bs, i - 1), p);
    }
  }

  lemma StartsNone(bs: pos)
    ensures Starts(bs, 0) == [] && 0 * bs == 0
  {
  }

  lemma StartsShape(bs: pos, i: nat)
    requires i > 0
    ensures |Starts(bs, i)| > 0 && Starts(bs, i)[..|Starts(bs, i)| - 1] == Starts(bs, i - 1)
    ensures Starts(bs, i) == Starts(bs, i - 1) + [(i - 1) * bs]
    ensures Starts(bs, i)[|Starts(bs, i)| - 1] == (i - 1) * bs
  {
  }

  /** Continuing the run wins over every earlier identical block. */
  lemma {:induction false} SelfRun(j: Job, blocks: seq<nat>, i: nat)
    requires j.sigs == SigsOf(j.h, j.src, j.bs) && 0 <= i * j.bs <= |j.src|
    requires var done := Starts(j.bs, i);
             |done| == |blocks| && Laid(j, done, i * j.bs) && ValidRun(j, done, blocks, i * j.bs)
    ensures Replay(j, Starts(j.bs, i), blocks, i * j.bs) == Run(j.bs, i)
    decreases i
  {
    hide *;
    if i == 0 {
      SelfNothing(j);
    } else {
      var done, last := Starts(j.bs, i), |blocks| - 1;
      StartsShape(j.bs, i);
      Multiples.Previous(i, j.bs);
      ReplayStep(j, done, blocks, i * j.bs);
      SelfRun(j, blocks[..last], i - 1);
      SelfChoice(j, blocks, i);
      SelfExtend(j, i);
      assert j.src[i * j.bs..i * j.bs] == [];
    }
  }

  lemma SelfNothing(j: Job)
    ensures 0 * j.bs == 0 && Laid(j, Starts(j.bs, 0), 0 * j.bs)
    ensures Replay(j, Starts(j.bs, 0), [], 0 * j.bs) == Run(j.bs, 0)
  {
    assert j.src[..0] == [];
  }

  lemma SelfExtend(j: Job, i: nat)
    requires i > 0
    ensures AddBytes(AddBlock(Run(j.bs, i - 1), BlockStart(j, i - 1), j.bs), []) == Run(j.bs, i)
  {
    Multiples.Previous(i, j.bs);
  }

  lemma RunEndOfStarts(j: Job, i: nat)
    ensures RunEnd(j, Starts(j.bs, i)) == i * j.bs
  {
    if i > 0 {
      StartsShape(j.bs, i);
      Multiples.Previous(i, j.bs);
    }
  }

  lemma SelfChoice(j: Job, blocks: seq<nat>, i: nat)
    requires i > 0 && j.sigs == SigsOf(j.h, j.src, j.bs) && 0 <= i * j.bs <= |j.src|
    requires var done := Starts(j.bs, i);
             && |done| == |blocks| && Laid(j, done, i * j.bs) && ValidRun(j, done, blocks, i * j.bs)
             && Laid(j, Starts(j.bs, i - 1), (i - 1) * j.bs)
             && |Starts(j.bs, i - 1)| == |blocks| - 1
             && Replay(j, Starts(j.bs, i - 1), blocks[..|blocks| - 1], (i - 1) * j.bs) == Run(j.bs, i - 1)
    ensures blocks[|blocks| - 1] == i - 1
  {
    hide *;
    var q := (i - 1) * j.bs;
    StartsShape(j.bs, i);
    Multiples.Previous(i, j.bs);
    RunEndOfStarts(j, i - 1);
    ChoiceStep(j, Starts(j.bs, i), blocks, i * j.bs);
    SelfSig(j, i - 1);
    SelfPick(j, i - 1);
  }

  lemma SelfSig(j: Job, i: nat)
    requires j.sigs == SigsOf(j.h, j.src, j.bs) && 0 <= i * j.bs && i * j.bs + j.bs <= |j.src|
    ensures i < |j.sigs| && j.sigs[i] == SigAt(j, i * j.bs)
  {
    hide SigsOf, SigOf;
    SigsOfBlock(j.h, j.src, j.bs, i);
  }

  lemma SelfPick(j: Job, i: nat)
    requires 0 <= i * j.bs && i * j.bs + j.bs <= |j.src| && i < |j.sigs| && j.sigs[i] == SigAt(j, i * j.bs)
    ensures Pick(j, SigAt(j, i * j.bs), Run(j.bs, i).copy) == Some(i)
  {
    hide SigAt;
    Multiples.Next(i, j.bs);
    Multiples.Quotient(i, j.bs);
    if i == 0 {
      assert First(j.sigs, SigAt(j, i * j.bs)) == Some(0);
    }
  }

  /** Sending a file to a receiver that already holds it costs one copy
      instruction for all full blocks, and the incomplete last block. */
  lemma SelfDeltaIsOptimal(j: Job, k: nat, out: Batch)
    requires j.sigs == SigsOf(j.h, j.src, j.bs) && IsDelta(j, out)
    requires k >= 1 && 0 <= k * j.bs <= |j.src| < k * j.bs + j.bs
    ensures out.ops == [Copy(0, k * j.bs)] + Chunks(j.src[k * j.bs..])
    ensures out.copied == k * j.bs && out.literal == |j.src| - k * j.bs
  {
    var blocks :| IsDeltaOf(j, blocks, out);
    hide *;
    SelfShape(j, k, blocks, out);
    SelfFinish(j.bs, k, j.src[k * j.bs..]);
  }

  /** The scan copies one run and is left with the tail. */
  lemma SelfShape(j: Job, k: nat, blocks: seq<nat>, out: Batch)
    requires j.sigs == SigsOf(j.h, j.src, j.bs) && IsDeltaOf(j, blocks, out)
    requires k >= 1 && 0 <= k * j.bs <= |j.src| < k * j.bs + j.bs
    ensures out == Finish(AddBytes(Run(j.bs, k), j.src[k * j.bs..]))
  {
    hide *;
    var p, starts := k * j.bs, Starts(j.bs, k);
    SelfPositions(j, k);
    NoMorePositions(j, p);
    assert starts + [] == starts;
    DeltaParts(j, blocks, out);
    LaidAt(j, starts, blocks, k);
    SelfRun(j, blocks, k);
    ReplayExtend(j, starts, blocks, p, |j.src|);
    assert j.src[p..|j.src|] == j.src[p..];
  }

  lemma DeltaParts(j: Job, blocks: seq<nat>, out: Batch)
    requires IsDeltaOf(j, blocks, out)
    ensures var done := Positions(j, 0);
            && |blocks| == |done| && Laid(j, done, |j.src|) && ValidRun(j, done, blocks, |j.src|)
            && out == Finish(Replay(j, done, blocks, |j.src|))
  {
  }

  lemma NoMorePositions(j: Job, p: nat)
    requires p + j.bs > |j.src|
    ensures Positions(j, p) == []
  {
  }

  lemma LaidAt(j: Job, done: seq<nat>, blocks: seq<nat>, k: nat)
    requires k > 0 && done == Starts(j.bs, k) && |done| == |blocks| && Laid(j, done, |j.src|)
    requires ValidRun(j, done, blocks, |j.src|)
    ensures k * j.bs >= 0 && Laid(j, done, k * j.bs) && ValidRun(j, done, blocks, k * j.bs)
  {
    hide Pick, First, OpenRun, Replay, SigAt;
    Multiples.Previous(k, j.bs);
    StartsShape(j.bs, k);
  }

  lemma SelfFinish(bs: pos, k: nat, tail: Blob)
    requires k > 0
    ensures var out := Finish(AddBytes(Run(bs, k), tail));
            && k * bs >= 0
            && out.ops == [Copy(0, k * bs)] + Chunks(tail)
            && out.copied == k * bs && out.literal == |tail|
  {
    hide *;
    Multiples.Previous(k, bs);
    SelfClosed(bs, k);
    var e := Run(bs, k);
    var c := CloseCopy(e);
    if tail == [] {
      AddNothing(e);
      NoChunks(e, c);
    } else {
      AddBytesClosesCopy(e, tail);
      LiteralTail(c, tail);
      CountBytes(c, tail);
      FinishCounts(AddBytes(c, tail));
    }
  }

  lemma SelfClosed(bs: pos, k: nat)
    requires k > 0 && k * bs >= 0
    ensures CloseCopy(Run(bs, k)) == Batch([Copy(0, k * bs)], [], None, 0, k * bs)
  {
  }

  lemma FinishCounts(e: Batch)
    requires e.copy.None?
    ensures Finish(e).literal == e.literal && Finish(e).copied == e.copied
  {
  }

  lemma NoChunks(e: Batch, c: Batch)
    requires c == CloseCopy(e) && c.pending == [] && c.copy.None?
    ensures Finish(e).ops == c.ops + Chunks([]) && Finish(e).literal == c.literal && Finish(e).copied == c.copied
  {
  }

  lemma {:induction false} CountBytes(e: Batch, s: Blob)
    requires e.copy.None?
    ensures var r := AddBytes(e, s); r.copy.None? && r.literal == e.literal + |s| && r.copied == e.copied
  {
    if s != [] {
      CountBytes(e, s[..|s| - 1]);
    }
  }
}
