/** The round trip for an index of any size: it holds for every source of a base
    if and only if the base has no block 2^32, or that block equals block 0. */
module DeltaLong {
  import opened Bytes
  import opened Signatures
  import opened Emitter
  import opened Greedy
  import opened BlockLookup
  import opened DeltaTrace
  import opened DeltaRebuild
  import opened DeltaOptimal
  import Multiples

  // ------------------------------------------------------------------- runs

  /** The open run ends right after the block that was matched last. */
  lemma RunEndsAtLast(j: Job, done: seq<nat>, blocks: seq<nat>, p: nat)
    requires |done| == |blocks| && Laid(j, done, p)
    ensures var open := OpenRun(j, done, blocks, p);
            if done == [] then open.None?
            else open.Some? && open.value.start + open.value.len == BlockStart(j, blocks[|done| - 1]) + j.bs
  {
    hide AddBlock, AddBytes, BlockStart, Replay;
    LaidEnd(j, done, p);
    var end := RunEnd(j, done);
    if done == [] {
      ReplayEmpty(j, 0);
      AddNothing(EMPTY);
      assert j.src[..0] == [];
    } else {
      var last := |done| - 1;
      ReplayUnfolds(j, done, blocks, end);
      var e := Replay(j, done[..last], blocks[..last], done[last]);
      var start := BlockStart(j, blocks[last]);
      assert j.src[done[last] + j.bs..end] == [];
      AddNothing(AddBlock(e, start, j.bs));
      AddBlockEnds(e, start, j.bs);
    }
  }

  lemma AddBlockEnds(e: Batch, start: nat, len: nat)
    ensures var c := AddBlock(e, start, len).copy; c.Some? && c.value.start + c.value.len == start + len
  {
  }

  /** A lookup answers with a 32-bit number of a block. */
  lemma AnswerIsSmall(j: Job, done: seq<nat>, blocks: seq<nat>, p: nat, b: nat)
    requires Answers(j, done, blocks, p, Some(b))
    ensures b < |j.sigs| && b < LIMIT
  {
    hide Laid, OpenRun, SigAt, RunEnd;
    SmallNumber(j.sigs, j.bs, SigAt(j, p), OpenRun(j, done, blocks, p));
    SmallNumber(j.sigs, j.bs, SigAt(j, p), None);
  }

  lemma SmallNumber(sigs: seq<Sig>, bs: pos, s: Sig, open: Option<Range>)
    ensures var r := Lookup(sigs, bs, s, open); r.Some? ==> r.value < |sigs| && r.value < LIMIT
  {
    hide Bucket, FirstAmong, Want;
    LookupCases(sigs, bs, s, open);
    var cands := Bucket(sigs, s.weak);
    if !Continues(sigs, bs, s, open) && FirstAmong(sigs, cands, s.strong).Some? {
      assert FirstAmong(sigs, cands, s.strong).value in cands;
    }
  }

  /** In every scan all blocks have 32-bit numbers, so every run it leaves open
      ends at or before block 2^32. */
  lemma {:induction false} RunsStayInRange(j: Job, done: seq<nat>, blocks: seq<nat>, p: nat)
    requires Reach(j, done, blocks, p)
    ensures |done| == |blocks| && Laid(j, done, p)
    ensures forall k :: 0 <= k < |blocks| ==> blocks[k] < |j.sigs| && blocks[k] < LIMIT
    ensures InRange(j.bs, OpenRun(j, done, blocks, p))
    decreases p
  {
    hide Laid, OpenRun, Answers, InRange;
    ReachLaid(j, done, blocks, p);
    if Passed(j, done, blocks, p) {
      RunsStayInRange(j, done, blocks, p - 1);
    } else if p > 0 {
      var last, q := |done| - 1, p - j.bs;
      RunsStayInRange(j, done[..last], blocks[..last], q);
      AnswerIsSmall(j, done[..last], blocks[..last], q, blocks[last]);
      forall k | 0 <= k < |blocks| ensures blocks[k] < |j.sigs| && blocks[k] < LIMIT {
        if k < last {
          assert blocks[k] == blocks[..last][k];
        }
      }
    }
    LastInRange(j, done, blocks, p);
  }

  lemma LastInRange(j: Job, done: seq<nat>, blocks: seq<nat>, p: nat)
    requires |done| == |blocks| && Laid(j, done, p)
    requires forall k :: 0 <= k < |blocks| ==> blocks[k] < LIMIT
    ensures InRange(j.bs, OpenRun(j, done, blocks, p))
  {
    hide Laid, OpenRun;
    RunEndsAtLast(j, done, blocks, p);
    if done != [] {
      Multiples.Less(blocks[|done| - 1], LIMIT, j.bs);
    }
  }

  // ------------------------------------------------------------- sufficiency

  /** A window and a block with equal strong hash are equal. */
  ghost predicate NoStrongCollision(j: Job, base: Blob)
  {
    forall p, i :: 0 <= p <= |j.src| - j.bs && 0 <= i < |j.sigs| && SigAt(j, p).strong == j.sigs[i].strong ==>
                     BlockStart(j, i) + j.bs <= |base| &&
                     base[BlockStart(j, i)..BlockStart(j, i) + j.bs] == j.src[p..p + j.bs]
  }

  lemma StrongIsEnough(j: Job, base: Blob)
    requires NoStrongCollision(j, base)
    ensures NoCollision(j, base)
  {
    hide SigAt, BlockStart;
  }

  /** Then strong hashes decide signatures, too. */
  lemma StrongDecides(j: Job, base: Blob, p: nat)
    requires NoStrongCollision(j, base) && j.sigs == SigsOf(j.h, base, j.bs) && p + j.bs <= |j.src|
    ensures Decides(j.sigs, SigAt(j, p))
  {
    hide SigsOf, SigOf, BlockStart;
    forall i | 0 <= i < |j.sigs| && j.sigs[i].strong == SigAt(j, p).strong
      ensures j.sigs[i] == SigAt(j, p)
    {
      BlockSigIs(j.h, base, j.bs, i);
      BlockStartIs(j, i);
    }
  }

  lemma BlockSigIs(h: Hash, base: Blob, bs: pos, i: nat)
    requires i < |SigsOf(h, base, bs)|
    ensures 0 <= i * bs <= i * bs + bs <= |base|
    ensures SigsOf(h, base, bs)[i] == SigOf(h, base[i * bs..i * bs + bs])
  {
    hide SigsOf, SigOf;
    SigsOfAt(h, base, bs, i);
  }

  /** Where strong hashes decide and block 2^32 repeats block 0, every match of
      every scan is right. */
  lemma {:induction false} ReachAgrees(j: Job, base: Blob, done: seq<nat>, blocks: seq<nat>, p: nat)
    requires Reach(j, done, blocks, p) && NoStrongCollision(j, base) && j.sigs == SigsOf(j.h, base, j.bs)
    requires Repeats(j.sigs)
    ensures |done| == |blocks| && Agrees(j, done, blocks)
    decreases p
  {
    hide Agrees, Answers, NoStrongCollision, Repeats, SigsOf;
    if p == 0 && done == [] {
      NothingDisagrees(j);
    } else if Passed(j, done, blocks, p) {
      ReachAgrees(j, base, done, blocks, p - 1);
    } else {
      var last, q := |done| - 1, p - j.bs;
      var b := blocks[last];
      ReachAgrees(j, base, done[..last], blocks[..last], q);
      AnswerAgrees(j, base, done[..last], blocks[..last], q, b);
      AgreesMore(j, done[..last], blocks[..last], q, b);
      assert done == done[..last] + [q] && blocks == blocks[..last] + [b];
    }
  }

  lemma NothingDisagrees(j: Job)
    ensures Agrees(j, [], [])
  {
  }

  lemma AnswerAgrees(j: Job, base: Blob, done: seq<nat>, blocks: seq<nat>, q: nat, b: nat)
    requires Reach(j, done, blocks, q) && Answers(j, done, blocks, q, Some(b)) && NoStrongCollision(j, base)
    requires j.sigs == SigsOf(j.h, base, j.bs) && Repeats(j.sigs)
    ensures q + j.bs <= |j.src| && b < |j.sigs| && SigAt(j, q) == j.sigs[b]
  {
    hide Laid, OpenRun, SigAt, RunEnd, Lookup, Reach, NoStrongCollision, Repeats, SigsOf, Decides, InRange;
    RunsStayInRange(j, done, blocks, q);
    AnswerIsSmall(j, done, blocks, q, b);
    StrongDecides(j, base, q);
    var s, open := SigAt(j, q), OpenRun(j, done, blocks, q);
    if Lookup(j.sigs, j.bs, s, open) == Some(b) {
      LookupSound(j.sigs, j.bs, s, open);
    } else {
      NoRunInRange(j.bs);
      LookupSound(j.sigs, j.bs, s, None);
    }
  }

  lemma NoRunInRange(bs: pos)
    ensures InRange(bs, None)
  {
  }

  /** Applying the operations to the base gives back the source, however many
      blocks there are. */
  lemma ScanRoundTrip(j: Job, base: Blob, done: seq<nat>, blocks: seq<nat>, out: Batch)
    requires IsScan(j, done, blocks, out) && NoStrongCollision(j, base) && j.sigs == SigsOf(j.h, base, j.bs)
    requires Repeats(j.sigs)
    ensures CopiesFit(base, out.ops) && Rebuild(base, out.ops) == j.src
  {
    hide Reach, Laid, Replay, Finish, Agrees, NoStrongCollision, NoCollision, Repeats, SigsOf, CopiesFit, Rebuild;
    var p: nat :| p + j.bs > |j.src| && Reach(j, done, blocks, p);
    ReachAgrees(j, base, done, blocks, p);
    StrongIsEnough(j, base);
    ReplayRebuilds(j, base, done, blocks);
  }

  // --------------------------------------------------------------- necessity

  /** A base with a block 2^32 whose first 2^32 + 1 blocks are the source. */
  predicate LongJob(j: Job, base: Blob)
  {
    && 0 <= LIMIT * j.bs <= LIMIT * j.bs + j.bs <= |base|
    && j.src == base[..LIMIT * j.bs + j.bs] && j.sigs == SigsOf(j.h, base, j.bs)
  }

  /** The blocks a scan of that source takes: one after the other, cut to 32 bits. */
  function Course(k: nat): (r: seq<nat>)
    ensures |r| == k
  {
    if k == 0 then [] else Course(k - 1) + [Wrap32(k - 1)]
  }

  lemma StartsLength(bs: pos, k: nat)
    ensures |Starts(bs, k)| == k
  {
    if k > 0 {
      StartsLength(bs, k - 1);
    }
  }

  lemma LongSig(j: Job, base: Blob, k: nat)
    requires LongJob(j, base) && k <= LIMIT
    ensures 0 <= k * j.bs && k * j.bs + j.bs <= |j.src|
    ensures k < |j.sigs| && SigAt(j, k * j.bs) == j.sigs[k]
  {
    hide SigsOf, SigOf;
    var at := k * j.bs;
    Multiples.Next(k, j.bs);
    if k < LIMIT {
      Multiples.Less(k, LIMIT, j.bs);
    }
    SigsOfBlock(j.h, base, j.bs, k);
    assert j.src[at..at + j.bs] == base[at..at + j.bs];
  }

  lemma {:induction false} BucketHead(sigs: seq<Sig>)
    requires sigs != []
    ensures Bucket(sigs, sigs[0].weak) != [] && Bucket(sigs, sigs[0].weak)[0] == 0
  {
    if |sigs| > 1 {
      var last := |sigs| - 1;
      assert sigs[..last][0] == sigs[0];
      BucketHead(sigs[..last]);
    } else {
      assert Bucket(sigs[..0], sigs[0].weak) == [];
    }
  }

  /** Along the source every lookup continues the run, the last one with block 0. */
  lemma LongLookup(j: Job, base: Blob, k: nat)
    requires LongJob(j, base) && k <= LIMIT
    ensures 0 <= k * j.bs && k * j.bs + j.bs <= |j.src|
    ensures Lookup(j.sigs, j.bs, SigAt(j, k * j.bs), Run(j.bs, k).copy) == Some(Wrap32(k))
  {
    hide SigAt, Bucket, FirstAmong, LongJob, Want;
    LongSig(j, base, k);
    var s, open := j.sigs[k], Run(j.bs, k).copy;
    LookupCases(j.sigs, j.bs, s, open);
    if k == 0 {
      BucketHead(j.sigs);
      FirstIsHead(j.sigs, Bucket(j.sigs, s.weak), s.strong);
    } else {
      BucketWraps(j.sigs, s.weak);
      WantIs(j.bs, k);
    }
  }

  lemma FirstIsHead(sigs: seq<Sig>, cands: seq<u32>, strong: Strong)
    requires cands != [] && cands[0] < |sigs| && sigs[cands[0]].strong == strong
    ensures FirstAmong(sigs, cands, strong) == Some(cands[0])
  {
  }

  lemma WantIs(bs: pos, k: nat)
    ensures k * bs >= 0 && Want(Range(0, k * bs), bs) == k
  {
    Multiples.Quotient(k, bs);
  }

  /** What the batch holds before block `k`. */
  lemma {:induction false} LongState(j: Job, base: Blob, k: nat)
    requires LongJob(j, base) && k <= LIMIT
    ensures |Starts(j.bs, k)| == k && 0 <= k * j.bs <= |j.src| && Laid(j, Starts(j.bs, k), k * j.bs)
    ensures Replay(j, Starts(j.bs, k), Course(k), k * j.bs) == Run(j.bs, k)
    ensures OpenRun(j, Starts(j.bs, k), Course(k), k * j.bs) == Run(j.bs, k).copy
    ensures RunEnd(j, Starts(j.bs, k)) == k * j.bs
  {
    hide *;
    StartsLength(j.bs, k);
    LongSig(j, base, k);
    RunEndOfStarts(j, k);
    if k == 0 {
      SelfNothing(j);
      CourseNone();
    } else {
      LongState(j, base, k - 1);
      LongSig(j, base, k - 1);
      Multiples.Previous(k, j.bs);
      StartsShape(j.bs, k);
      CourseMore(k);
      ReplayAdd(j, Starts(j.bs, k - 1), Course(k - 1), (k - 1) * j.bs, k - 1);
      SelfExtend(j, k);
      AddNothing(AddBlock(Run(j.bs, k - 1), BlockStart(j, k - 1), j.bs));
    }
    OpenRunIs(j, Starts(j.bs, k), Course(k));
  }

  lemma CourseNone()
    ensures Course(0) == []
  {
  }

  lemma CourseMore(k: nat)
    requires 0 < k <= LIMIT
    ensures Course(k) == Course(k - 1) + [k - 1]
  {
  }

  lemma OpenRunIs(j: Job, done: seq<nat>, blocks: seq<nat>)
    requires |done| == |blocks| && Laid(j, done, RunEnd(j, done))
    ensures OpenRun(j, done, blocks, RunEnd(j, done)) == Replay(j, done, blocks, RunEnd(j, done)).copy
  {
    hide Replay;
  }

  /** The scan takes that course ... */
  lemma {:induction false} LongReach(j: Job, base: Blob, k: nat)
    requires LongJob(j, base) && k <= LIMIT + 1
    ensures k * j.bs >= 0 && Reach(j, Starts(j.bs, k), Course(k), k * j.bs)
  {
    hide *;
    if k == 0 {
      ReachNothing(j);
    } else {
      LongReach(j, base, k - 1);
      LongAnswer(j, base, k - 1, Some(Wrap32(k - 1)));
      ReachHit(j, Starts(j.bs, k - 1), Course(k - 1), (k - 1) * j.bs, Wrap32(k - 1));
      StartsShape(j.bs, k);
      CourseUnfolds(k);
      Multiples.Previous(k, j.bs);
    }
  }

  lemma ReachNothing(j: Job)
    ensures 0 * j.bs == 0 && Starts(j.bs, 0) == [] && Course(0) == [] && Reach(j, [], [], 0)
  {
  }

  lemma CourseUnfolds(k: nat)
    requires k > 0
    ensures Course(k) == Course(k - 1) + [Wrap32(k - 1)]
  {
  }

  /** ... because at each block there is one answer only. */
  lemma LongAnswer(j: Job, base: Blob, k: nat, r: Option<nat>)
    requires LongJob(j, base) && k <= LIMIT
    ensures k * j.bs >= 0
    ensures Answers(j, Starts(j.bs, k), Course(k), k * j.bs, r) <==> r == Some(Wrap32(k))
  {
    hide Lookup, SigAt, Run, Laid, OpenRun, RunEnd, LongJob, Wrap32, Starts;
    LongState(j, base, k);
    LongLookup(j, base, k);
  }

  /** Every scan of the long source takes the course. */
  lemma {:induction false} LongIsUnique(j: Job, base: Blob, done: seq<nat>, blocks: seq<nat>, p: nat) returns (k: nat)
    requires LongJob(j, base) && Reach(j, done, blocks, p)
    ensures k <= LIMIT + 1 && p == k * j.bs && done == Starts(j.bs, k) && blocks == Course(k)
    decreases p
  {
    hide Answers, LongJob, Starts, Course, Laid;
    ReachLaid(j, done, blocks, p);
    if p == 0 && done == [] {
      k := 0;
      ReachNothing(j);
    } else if Passed(j, done, blocks, p) {
      k := LongIsUnique(j, base, done, blocks, p - 1);
      BeforeTheEnd(j, base, done, blocks, p - 1, k, None);
      LongAnswer(j, base, k, None);
      assert false;
    } else {
      var last, q := |done| - 1, p - j.bs;
      k := LongIsUnique(j, base, done[..last], blocks[..last], q);
      BeforeTheEnd(j, base, done[..last], blocks[..last], q, k, Some(blocks[last]));
      LongAnswer(j, base, k, Some(blocks[last]));
      Multiples.Next(k, j.bs);
      StartsShape(j.bs, k + 1);
      CourseUnfolds(k + 1);
      assert done == done[..last] + [q] && blocks == blocks[..last] + [blocks[last]];
      k := k + 1;
    }
  }

  lemma BeforeTheEnd(j: Job, base: Blob, done: seq<nat>, blocks: seq<nat>, p: nat, k: nat, r: Option<nat>)
    requires LongJob(j, base) && Answers(j, done, blocks, p, r) && p == k * j.bs
    ensures k <= LIMIT
  {
    if k > LIMIT {
      Multiples.Less(LIMIT, k, j.bs);
    }
  }

  /** The source is rebuilt with block 0 in the place of block 2^32: every scan
      of it copies blocks 0 to 2^32 - 1 and then block 0 again. */
  lemma LongScan(j: Job, base: Blob, done: seq<nat>, blocks: seq<nat>, out: Batch)
    requires LongJob(j, base) && IsScan(j, done, blocks, out)
    ensures out.ops == [Copy(0, LIMIT * j.bs), Copy(0, j.bs)]
    ensures Rebuild(base, out.ops) == base[..LIMIT * j.bs] + base[..j.bs]
  {
    hide Reach, Laid, Replay, LongJob, Rebuild, Starts, Course;
    var p: nat :| p + j.bs > |j.src| && Reach(j, done, blocks, p);
    var k := LongIsUnique(j, base, done, blocks, p);
    AtTheEnd(j, base, k);
    LongSize(j, base);
    LongFinish(j, base);
    TwoCopies(base, LIMIT * j.bs, j.bs);
  }

  lemma AtTheEnd(j: Job, base: Blob, k: nat)
    requires LongJob(j, base) && k <= LIMIT + 1 && k * j.bs + j.bs > |j.src|
    ensures k == LIMIT + 1 && k * j.bs == |j.src|
  {
    Multiples.Next(LIMIT, j.bs);
    if k < LIMIT + 1 {
      Multiples.Less(k, LIMIT + 1, j.bs);
    }
  }

  lemma LongFinish(j: Job, base: Blob)
    requires LongJob(j, base)
    ensures var done, blocks := Starts(j.bs, LIMIT + 1), Course(LIMIT + 1);
            && |done| == |blocks| && Laid(j, done, |j.src|)
            && Finish(Replay(j, done, blocks, |j.src|)).ops == [Copy(0, LIMIT * j.bs), Copy(0, j.bs)]
  {
    hide *;
    LimitIsNat();
    LongSize(j, base);
    LongState(j, base, LIMIT);
    StartsShape(j.bs, LIMIT + 1);
    StartsLength(j.bs, LIMIT + 1);
    CourseUnfolds(LIMIT + 1);
    WrapLimit();
    ReplayAdd(j, Starts(j.bs, LIMIT), Course(LIMIT), LIMIT * j.bs, 0);
    BlockStartIs(j, 0);
    LongBatch(j.bs);
  }

  lemma LimitIsNat()
    ensures LIMIT >= 0
  {
  }

  lemma LongSize(j: Job, base: Blob)
    requires LongJob(j, base)
    ensures 0 <= LIMIT * j.bs && |j.src| == LIMIT * j.bs + j.bs <= |base|
  {
    hide SigsOf;
  }

  lemma WrapLimit()
    ensures Wrap32(LIMIT) == 0
  {
  }

  lemma LongBatch(bs: pos)
    ensures Finish(AddBlock(Run(bs, LIMIT), 0, bs)).ops == [Copy(0, LIMIT * bs), Copy(0, bs)]
  {
    assert [Copy(0, LIMIT * bs)] + [Copy(0, bs)] == [Copy(0, LIMIT * bs), Copy(0, bs)];
  }

  lemma TwoCopies(base: Blob, n: nat, m: nat)
    requires n <= |base| && m <= |base|
    ensures Rebuild(base, [Copy(0, n), Copy(0, m)]) == base[..n] + base[..m]
  {
    hide Rebuild, Piece;
    RebuildNone(base);
    RebuildOne(base, [], Copy(0, n));
    RebuildOne(base, [Copy(0, n)], Copy(0, m));
    PieceOf(base, n);
    PieceOf(base, m);
    assert [] + [Copy(0, n)] == [Copy(0, n)] && [Copy(0, n)] + [Copy(0, m)] == [Copy(0, n), Copy(0, m)];
  }

  lemma PieceOf(base: Blob, n: nat)
    requires n <= |base|
    ensures Piece(base, Copy(0, n)) == base[..n] && [] + Piece(base, Copy(0, n)) == base[..n]
  {
  }

  lemma RebuildNone(base: Blob)
    ensures Rebuild(base, []) == []
  {
  }

  // ------------------------------------------------------ if and only if

  /** The whole indexed prefix as a source, and any source against one base. */
  function JobFor(h: Hash, base: Blob, bs: pos, src: Blob): Job
  {
    Job(h, SigsOf(h, base, bs), bs, src)
  }

  /** Every scan of `src` rebuilds it, if no strong hash misleads it. */
  ghost predicate Rebuilt(h: Hash, base: Blob, bs: pos, src: Blob)
  {
    NoStrongCollision(JobFor(h, base, bs, src), base) ==> AllScansRebuild(JobFor(h, base, bs, src), base)
  }

  ghost predicate AllScansRebuild(j: Job, base: Blob)
  {
    forall done: seq<nat>, blocks: seq<nat>, out: Batch :: IsScan(j, done, blocks, out) ==>
      CopiesFit(base, out.ops) && Rebuild(base, out.ops) == j.src
  }

  /** The base has no block 2^32, or that block equals block 0. */
  predicate Harmless(base: Blob, bs: pos)
  {
    LIMIT * bs + bs <= |base| ==> LIMIT * bs >= 0 && base[LIMIT * bs..LIMIT * bs + bs] == base[..bs]
  }

  lemma HarmlessRepeats(h: Hash, base: Blob, bs: pos)
    requires Harmless(base, bs)
    ensures Repeats(SigsOf(h, base, bs))
  {
    hide SigsOf, SigOf;
    SigsOfAt(h, base, bs, LIMIT);
    SigsOfAt(h, base, bs, 0);
    Multiples.Next(LIMIT, bs);
    assert 0 * bs == 0;
  }

  lemma HarmlessRebuilds(h: Hash, base: Blob, bs: pos, src: Blob)
    requires Harmless(base, bs)
    ensures Rebuilt(h, base, bs, src)
  {
    hide NoStrongCollision, IsScan, Repeats, SigsOf, CopiesFit, Rebuild;
    var j := JobFor(h, base, bs, src);
    HarmlessRepeats(h, base, bs);
    if NoStrongCollision(j, base) {
      forall done: seq<nat>, blocks: seq<nat>, out: Batch | IsScan(j, done, blocks, out)
        ensures CopiesFit(base, out.ops) && Rebuild(base, out.ops) == src
      {
        ScanRoundTrip(j, base, done, blocks, out);
      }
    }
  }

  /** Some scan of the first 2^32 + 1 blocks exists ... */
  lemma LongScanExists(j: Job, base: Blob) returns (done: seq<nat>, blocks: seq<nat>, out: Batch)
    requires LongJob(j, base)
    ensures IsScan(j, done, blocks, out)
  {
    hide *;
    LimitIsNat();
    done, blocks := Starts(j.bs, LIMIT + 1), Course(LIMIT + 1);
    LongReach(j, base, LIMIT + 1);
    LongFinish(j, base);
    out := Finish(Replay(j, done, blocks, |j.src|));
    Multiples.Next(LIMIT + 1, j.bs);
    Multiples.Next(LIMIT, j.bs);
    LongSize(j, base);
    ScanIntro(j, done, blocks, out, (LIMIT + 1) * j.bs);
  }

  lemma ScanIntro(j: Job, done: seq<nat>, blocks: seq<nat>, out: Batch, p: nat)
    requires |done| == |blocks| && Laid(j, done, |j.src|) && out == Finish(Replay(j, done, blocks, |j.src|))
    requires p + j.bs > |j.src| && Reach(j, done, blocks, p)
    ensures IsScan(j, done, blocks, out)
  {
    hide Laid, Finish, Replay, Reach;
  }

  /** ... and none rebuilds them if block 2^32 differs from block 0, although no
      strong hash misleads it. */
  lemma LongIsNotRebuilt(h: Hash, base: Blob, bs: pos)
    requires !Harmless(base, bs) && NoStrongCollision(JobFor(h, base, bs, base), base)
    ensures 0 <= LIMIT * bs && LIMIT * bs + bs <= |base|
    ensures !Rebuilt(h, base, bs, base[..LIMIT * bs + bs])
  {
    hide NoStrongCollision, IsScan, SigsOf, CopiesFit, Rebuild;
    var src := base[..LIMIT * bs + bs];
    var j := JobFor(h, base, bs, src);
    PrefixIsStrong(h, base, bs, LIMIT * bs + bs);
    var done, blocks, out := LongScanExists(j, base);
    LongScan(j, base, done, blocks, out);
    Differ(base, LIMIT * bs, bs);
    Refutes(h, base, bs, src, done, blocks, out);
  }

  lemma Refutes(h: Hash, base: Blob, bs: pos, src: Blob, done: seq<nat>, blocks: seq<nat>, out: Batch)
    requires NoStrongCollision(JobFor(h, base, bs, src), base) && IsScan(JobFor(h, base, bs, src), done, blocks, out)
    requires Rebuild(base, out.ops) != src
    ensures !Rebuilt(h, base, bs, src)
  {
    var j := JobFor(h, base, bs, src);
    assert NoStrongCollision(j, base);
    assert !AllScansRebuild(j, base);
    assert Rebuilt(h, base, bs, src) == (NoStrongCollision(j, base) ==> AllScansRebuild(j, base));
  }

  lemma Differ(base: Blob, n: nat, m: nat)
    requires n + m <= |base| && base[n..n + m] != base[..m]
    ensures base[..n] + base[..m] != base[..n + m]
  {
    assert base[..n + m][n..] == base[n..n + m];
    assert (base[..n] + base[..m])[n..] == base[..m];
  }

  lemma PrefixIsStrong(h: Hash, base: Blob, bs: pos, n: nat)
    requires n <= |base| && NoStrongCollision(JobFor(h, base, bs, base), base)
    ensures NoStrongCollision(JobFor(h, base, bs, base[..n]), base)
  {
    hide SigsOf, SigOf, BlockStart;
    var whole, part := JobFor(h, base, bs, base), JobFor(h, base, bs, base[..n]);
    forall p, i | 0 <= p <= n - bs && 0 <= i < |part.sigs| && SigAt(part, p).strong == part.sigs[i].strong
      ensures BlockStart(part, i) + bs <= |base|
      ensures base[BlockStart(part, i)..BlockStart(part, i) + bs] == part.src[p..p + bs]
    {
      assert part.src[p..p + bs] == whole.src[p..p + bs];
      assert SigAt(part, p) == SigAt(whole, p);
      BlockStartIs(part, i);
      BlockStartIs(whole, i);
    }
  }

  /** For a base whose own windows do not collide with its blocks: every source
      is rebuilt if and only if the base has no block 2^32 that differs from
      block 0. */
  lemma RoundTripIff(h: Hash, base: Blob, bs: pos)
    requires NoStrongCollision(JobFor(h, base, bs, base), base)
    ensures (forall src :: Rebuilt(h, base, bs, src)) <==> Harmless(base, bs)
  {
    hide NoStrongCollision, Rebuilt, Harmless;
    if Harmless(base, bs) {
      forall src ensures Rebuilt(h, base, bs, src) { HarmlessRebuilds(h, base, bs, src); }
    } else {
      LongIsNotRebuilt(h, base, bs);
    }
  }
}
