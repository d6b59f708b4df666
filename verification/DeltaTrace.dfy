/** What `produce_delta` does for an index of any size, step by step: which
    windows it matches, with which blocks, and which it passes. */
module DeltaTrace {
  import opened Bytes
  import opened Signatures
  import opened Emitter
  import opened Greedy
  import opened BlockLookup

  /** The lookup of the window at `p` may have the answer `r`: the run that the
      last match left open is still known, unless a gap has begun and a refill
      has closed it. */
  ghost predicate Answers(j: Job, done: seq<nat>, blocks: seq<nat>, p: nat, r: Option<nat>)
  {
    && |done| == |blocks| && Laid(j, done, p) && p + j.bs <= |j.src|
    && (|| Lookup(j.sigs, j.bs, SigAt(j, p), OpenRun(j, done, blocks, p)) == r
        || (p > RunEnd(j, done) && Lookup(j.sigs, j.bs, SigAt(j, p), None) == r))
  }

  /** The scan comes to position `p` having matched the windows at `done` with
      `blocks`: by passing the window before `p`, or by matching one that ends
      at `p`. */
  ghost predicate Reach(j: Job, done: seq<nat>, blocks: seq<nat>, p: nat)
    decreases p
  {
    |done| == |blocks| &&
    (|| (p == 0 && done == [])
     || Passed(j, done, blocks, p)
     || Matched(j, done, blocks, p))
  }

  ghost predicate Passed(j: Job, done: seq<nat>, blocks: seq<nat>, p: nat)
    decreases p, 0
  {
    p > 0 && Answers(j, done, blocks, p - 1, None) && Reach(j, done, blocks, p - 1)
  }

  ghost predicate Matched(j: Job, done: seq<nat>, blocks: seq<nat>, p: nat)
    requires |done| == |blocks|
    decreases p, 0
  {
    done != [] && p >= j.bs &&
    var last, q := |done| - 1, p - j.bs;
    && done[last] == q && Answers(j, done[..last], blocks[..last], q, Some(blocks[last]))
    && Reach(j, done[..last], blocks[..last], q)
  }

  /** A whole scan and its outcome. */
  ghost predicate IsScan(j: Job, done: seq<nat>, blocks: seq<nat>, out: Batch)
  {
    && |done| == |blocks| && Laid(j, done, |j.src|)
    && out == Finish(Replay(j, done, blocks, |j.src|))
    && exists p: nat :: p + j.bs > |j.src| && Reach(j, done, blocks, p)
  }

  lemma {:induction false} ReachLaid(j: Job, done: seq<nat>, blocks: seq<nat>, p: nat)
    requires Reach(j, done, blocks, p)
    ensures |done| == |blocks| && Laid(j, done, p) && p <= |j.src|
  {
    if Passed(j, done, blocks, p) {
      LaidLater(j, done, p - 1, p);
    }
  }

  lemma LaidLater(j: Job, done: seq<nat>, p: nat, q: nat)
    requires Laid(j, done, p) && p <= q <= |j.src|
    ensures Laid(j, done, q)
  {
  }

  // ------------------------------------------------------- one step at a time

  /** The scanner's state: literals before `lit` are batched. */
  ghost predicate Traced(j: Job, v: Batch, done: seq<nat>, blocks: seq<nat>, lit: nat, p: nat)
  {
    && |done| == |blocks| && lit <= p && Laid(j, done, lit)
    && v == Replay(j, done, blocks, lit) && Reach(j, done, blocks, p)
  }

  lemma TraceStart(j: Job)
    ensures Traced(j, EMPTY, [], [], 0, 0)
  {
    assert j.src[..0] == [];
    AddNothing(EMPTY);
  }

  lemma TraceFlush(j: Job, v: Batch, done: seq<nat>, blocks: seq<nat>, lit: nat, p: nat)
    requires Traced(j, v, done, blocks, lit, p)
    ensures p <= |j.src| && Traced(j, AddBytes(v, j.src[lit..p]), done, blocks, p, p)
  {
    hide Reach, Replay, AddBytes, Laid;
    ReachLaid(j, done, blocks, p);
    ReplayExtend(j, done, blocks, lit, p);
  }

  /** What the scanner asks with its own run is what `Answers` allows. */
  lemma TraceAsks(j: Job, v: Batch, done: seq<nat>, blocks: seq<nat>, lit: nat, p: nat)
    requires Traced(j, v, done, blocks, lit, p) && p + j.bs <= |j.src|
    ensures Answers(j, done, blocks, p, Lookup(j.sigs, j.bs, SigAt(j, p), v.copy))
  {
    hide Reach, Replay, Lookup, SigAt;
    ReachLaid(j, done, blocks, p);
    LaidEnd(j, done, lit);
    ReplayCopy(j, done, blocks, lit);
    SameRun(j, done, blocks, lit, p);
  }

  lemma SameRun(j: Job, done: seq<nat>, blocks: seq<nat>, p: nat, q: nat)
    requires |done| == |blocks| && Laid(j, done, p) && Laid(j, done, q)
    ensures OpenRun(j, done, blocks, p) == OpenRun(j, done, blocks, q)
  {
    hide Replay;
  }

  lemma TraceMiss(j: Job, v: Batch, done: seq<nat>, blocks: seq<nat>, lit: nat, p: nat)
    requires Traced(j, v, done, blocks, lit, p) && p + j.bs <= |j.src|
    requires Lookup(j.sigs, j.bs, SigAt(j, p), v.copy) == None
    ensures Traced(j, v, done, blocks, lit, p + 1)
  {
    TraceAsks(j, v, done, blocks, lit, p);
    hide Replay, Laid, Answers, Lookup;
    assert Passed(j, done, blocks, p + 1);
  }

  lemma TraceHit(j: Job, v: Batch, done: seq<nat>, blocks: seq<nat>, lit: nat, p: nat, b: nat)
    requires Traced(j, v, done, blocks, lit, p) && p + j.bs <= |j.src|
    requires Lookup(j.sigs, j.bs, SigAt(j, p), v.copy) == Some(b)
    ensures Traced(j, AddBlock(AddBytes(v, j.src[lit..p]), BlockStart(j, b), j.bs),
                   done + [p], blocks + [b], p + j.bs, p + j.bs)
  {
    TraceAsks(j, v, done, blocks, lit, p);
    hide Replay, Laid, Answers, Lookup, AddBytes, AddBlock, BlockStart, Reach;
    ReachLaid(j, done, blocks, p);
    ReplayExtend(j, done, blocks, lit, p);
    ReplayAdd(j, done, blocks, p, b);
    ReachHit(j, done, blocks, p, b);
  }

  lemma ReachHit(j: Job, done: seq<nat>, blocks: seq<nat>, p: nat, b: nat)
    requires Reach(j, done, blocks, p) && Answers(j, done, blocks, p, Some(b))
    ensures Reach(j, done + [p], blocks + [b], p + j.bs)
  {
    hide Answers;
    var done', blocks' := done + [p], blocks + [b];
    assert done'[..|done|] == done && blocks'[..|done|] == blocks;
    assert Matched(j, done', blocks', p + j.bs);
  }

  lemma ReplayAdd(j: Job, done: seq<nat>, blocks: seq<nat>, p: nat, b: nat)
    requires |done| == |blocks| && p + j.bs <= |j.src| && Laid(j, done, p)
    ensures Laid(j, done + [p], p + j.bs)
    ensures Replay(j, done + [p], blocks + [b], p + j.bs) ==
            AddBlock(Replay(j, done, blocks, p), BlockStart(j, b), j.bs)
  {
    hide BlockStart, AddBlock;
    var done', blocks' := done + [p], blocks + [b];
    assert done'[..|done|] == done && blocks'[..|done|] == blocks;
    assert j.src[p + j.bs..p + j.bs] == [];
  }

  lemma TraceEnd(j: Job, v: Batch, done: seq<nat>, blocks: seq<nat>, lit: nat, p: nat)
    requires Traced(j, v, done, blocks, lit, p) && p + j.bs > |j.src|
    ensures lit <= |j.src| && IsScan(j, done, blocks, Finish(AddBytes(v, j.src[lit..])))
  {
    hide Replay, Laid, AddBytes, Reach, Finish;
    ReachLaid(j, done, blocks, p);
    ReplayExtend(j, done, blocks, lit, |j.src|);
    assert j.src[lit..] == j.src[lit..|j.src|];
  }

  // ----------------------------------------------- the reference, up to 2^32

  /** With at most 2^32 blocks a scan does what the reference does. */
  lemma {:induction false} ReachIsGreedy(j: Job, done: seq<nat>, blocks: seq<nat>, p: nat)
    requires Short(j) && Reach(j, done, blocks, p)
    ensures |done| == |blocks| && Laid(j, done, p) && ValidRun(j, done, blocks, p)
    ensures Positions(j, 0) == done + Positions(j, p)
  {
    hide Laid, ValidRun, Replay, Positions, Lookup, MatchAt, OpenRun, SigAt, Pick, First, RunEnd;
    ReachLaid(j, done, blocks, p);
    if p == 0 && done == [] {
      NothingMatched(j);
    } else if Passed(j, done, blocks, p) {
      ReachIsGreedy(j, done, blocks, p - 1);
      NoAnswer(j, done, blocks, p - 1);
      PositionsMiss(j, p - 1);
      ValidRunAnyEnd(j, done, blocks, p - 1, p);
    } else {
      var last, q := |done| - 1, p - j.bs;
      var b := blocks[last];
      assert done == done[..last] + [q] && blocks == blocks[..last] + [b];
      ReachIsGreedy(j, done[..last], blocks[..last], q);
      Picked(j, done[..last], blocks[..last], q, b);
      ReplaySnoc(j, done[..last], blocks[..last], q, b);
      PositionsSnoc(j, done[..last], q);
    }
  }

  lemma NothingMatched(j: Job)
    ensures ValidRun(j, [], [], 0) && [] + Positions(j, 0) == Positions(j, 0)
  {
  }

  lemma NoAnswer(j: Job, done: seq<nat>, blocks: seq<nat>, p: nat)
    requires Short(j) && Answers(j, done, blocks, p, None)
    ensures p + j.bs <= |j.src| && !MatchAt(j, p)
  {
    hide Laid, Replay, Lookup, OpenRun, First;
    LookupIsPick(j, SigAt(j, p), OpenRun(j, done, blocks, p));
    LookupIsPick(j, SigAt(j, p), None);
  }

  lemma Picked(j: Job, done: seq<nat>, blocks: seq<nat>, p: nat, b: nat)
    requires Short(j) && Answers(j, done, blocks, p, Some(b))
    ensures p + j.bs <= |j.src| && |done| == |blocks| && Laid(j, done, p) && MatchAt(j, p)
    ensures || Pick(j, SigAt(j, p), OpenRun(j, done, blocks, p)) == Some(b)
            || (p > RunEnd(j, done) && First(j.sigs, SigAt(j, p)) == Some(b))
  {
    hide Laid, Replay, Lookup, OpenRun, First, SigAt;
    LookupIsPick(j, SigAt(j, p), OpenRun(j, done, blocks, p));
    LookupIsPick(j, SigAt(j, p), None);
  }

  lemma PositionsMiss(j: Job, p: nat)
    requires p + j.bs <= |j.src| && !MatchAt(j, p)
    ensures Positions(j, p) == Positions(j, p + 1)
  {
    hide MatchAt;
  }

  /** Every scan is a delta in the sense of the reference. */
  lemma ScanIsDelta(j: Job, done: seq<nat>, blocks: seq<nat>, out: Batch)
    requires Short(j) && IsScan(j, done, blocks, out)
    ensures IsDeltaOf(j, blocks, out)
  {
    hide Laid, ValidRun, Replay, Reach, Finish, Positions;
    var p: nat :| p + j.bs > |j.src| && Reach(j, done, blocks, p);
    ReachIsGreedy(j, done, blocks, p);
    ReachLaid(j, done, blocks, p);
    assert Positions(j, p) == [] by { NothingLeft(j, p); }
    assert done + [] == done;
    ValidRunAnyEnd(j, done, blocks, p, |j.src|);
  }

  lemma NothingLeft(j: Job, p: nat)
    requires p + j.bs > |j.src|
    ensures Positions(j, p) == []
  {
  }
}
