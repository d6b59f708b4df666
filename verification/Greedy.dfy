/** The reference scan: test every window against every block, left to right,
    and jump over each window that matches. */
module Greedy {
  import opened Bytes
  import opened Signatures
  import opened Emitter

  type pos = x: int | x >= 1 witness 1

  /** One delta computation: the receiver's signatures against a source. */
  datatype Job = Job(h: Hash, sigs: seq<Sig>, bs: pos, src: Blob)

  /** Offset of block `b` in the base file. */
  function BlockStart(j: Job, b: nat): nat
  {
    b * j.bs
  }

  /** Linear search for a signature. */
  function FirstFrom(sigs: seq<Sig>, s: Sig, from: nat): (r: Option<nat>)
    requires from <= |sigs|
    ensures r.Some? ==> from <= r.value < |sigs| && sigs[r.value] == s
    ensures forall k :: from <= k < (if r.Some? then r.value else |sigs|) ==> sigs[k] != s
    decreases |sigs| - from
  {
    if from == |sigs| then None
    else if sigs[from] == s then Some(from)
    else FirstFrom(sigs, s, from + 1)
  }

  function First(sigs: seq<Sig>, s: Sig): Option<nat>
  {
    FirstFrom(sigs, s, 0)
  }

  function SigAt(j: Job, p: nat): Sig
    requires p + j.bs <= |j.src|
  {
    SigOf(j.h, j.src[p..p + j.bs])
  }

  /** Some block has the signature of the window at `p`. */
  predicate MatchAt(j: Job, p: nat)
  {
    p + j.bs <= |j.src| && First(j.sigs, SigAt(j, p)).Some?
  }

  /** Block choice: the continuation of the open run if it fits, else the first match. */
  function Pick(j: Job, s: Sig, open: Option<Range>): (r: Option<nat>)
    ensures r.Some? ==> r.value < |j.sigs| && j.sigs[r.value] == s
    ensures r.Some? <==> First(j.sigs, s).Some?
  {
    if open.Some? then
      var want := (open.value.start + open.value.len) / j.bs;
      if want < |j.sigs| && j.sigs[want] == s then Some(want) else First(j.sigs, s)
    else
      First(j.sigs, s)
  }

  /** Offsets of the windows the greedy scan matches from `p` on. */
  function Positions(j: Job, p: nat): seq<nat>
    decreases |j.src| - p
  {
    if p + j.bs > |j.src| then []
    else if MatchAt(j, p) then [p] + Positions(j, p + j.bs)
    else Positions(j, p + 1)
  }

  // ---------------------------------------------------------------- replays

  /** Matched windows do not overlap and end by `p`. */
  ghost predicate Laid(j: Job, done: seq<nat>, p: nat)
    decreases |done|
  {
    && p <= |j.src|
    && (done != [] ==>
          var last := |done| - 1;
          done[last] + j.bs <= p && Laid(j, done[..last], done[last]))
  }

  /** End of the last matched window. */
  function RunEnd(j: Job, done: seq<nat>): nat
  {
    if done == [] then 0 else done[|done| - 1] + j.bs
  }

  /** The batch after the first `p` source bytes, when the windows at `done`
      were matched to `blocks` and everything else is literal. */
  ghost function Replay(j: Job, done: seq<nat>, blocks: seq<nat>, p: nat): Batch
    requires |done| == |blocks| && Laid(j, done, p)
    decreases |done|
  {
    if done == [] then AddBytes(EMPTY, j.src[..p])
    else
      var last := |done| - 1;
      var q := done[last];
      AddBytes(AddBlock(Replay(j, done[..last], blocks[..last], q), BlockStart(j, blocks[last]), j.bs),
               j.src[q + j.bs..p])
  }

  lemma LaidEnd(j: Job, done: seq<nat>, p: nat)
    requires Laid(j, done, p)
    ensures RunEnd(j, done) <= p && Laid(j, done, RunEnd(j, done))
  {
  }

  /** The copy run that is open right after the last matched window. */
  ghost function OpenRun(j: Job, done: seq<nat>, blocks: seq<nat>, p: nat): Option<Range>
    requires |done| == |blocks| && Laid(j, done, p)
  {
    LaidEnd(j, done, p);
    Replay(j, done, blocks, RunEnd(j, done)).copy
  }

  /** Every block was chosen by `Pick`, looking at the run left open by the
      previous match; inside a literal gap the run may also have been closed. */
  ghost predicate ValidRun(j: Job, done: seq<nat>, blocks: seq<nat>, p: nat)
    requires |done| == |blocks| && Laid(j, done, p)
    decreases |done|
  {
    done != [] ==>
      var last := |done| - 1;
      var q, b := done[last], blocks[last];
      && ValidRun(j, done[..last], blocks[..last], q)
      && (|| Pick(j, SigAt(j, q), OpenRun(j, done[..last], blocks[..last], q)) == Some(b)
          || (q > RunEnd(j, done[..last]) && First(j.sigs, SigAt(j, q)) == Some(b)))
  }

  /** The specification of `produce_delta`: the matched windows are those of
      the greedy scan, whichever way the source was read. */
  ghost predicate IsDeltaOf(j: Job, blocks: seq<nat>, out: Batch)
  {
    var done := Positions(j, 0);
    && |blocks| == |done|
    && Laid(j, done, |j.src|)
    && ValidRun(j, done, blocks, |j.src|)
    && out == Finish(Replay(j, done, blocks, |j.src|))
  }

  ghost predicate IsDelta(j: Job, out: Batch)
  {
    exists blocks :: IsDeltaOf(j, blocks, out)
  }

  // ------------------------------------------------- replays, step by step

  lemma ReplayExtend(j: Job, done: seq<nat>, blocks: seq<nat>, p: nat, q: nat)
    requires |done| == |blocks| && Laid(j, done, p) && p <= q <= |j.src|
    ensures Laid(j, done, q)
    ensures Replay(j, done, blocks, q) == AddBytes(Replay(j, done, blocks, p), j.src[p..q])
    ensures ValidRun(j, done, blocks, p) ==> ValidRun(j, done, blocks, q)
  {
    hide AddBytes, Laid, ValidRun, Replay, RunEnd;
    ValidRunAnyEnd(j, done, blocks, p, q);
    LaidEnd(j, done, p);
    var from := RunEnd(j, done);
    var start := ReplayHead(j, done, blocks, p);
    ReplayFrom(j, done, blocks, p);
    ReplayFrom(j, done, blocks, q);
    SameHead(j, done, blocks, p, q);
    AddBytesConcat(start, j.src[from..p], j.src[p..q]);
    assert j.src[from..p] + j.src[p..q] == j.src[from..q];
  }

  /** The batch right after the last matched window. */
  ghost function ReplayHead(j: Job, done: seq<nat>, blocks: seq<nat>, p: nat): Batch
    requires |done| == |blocks| && Laid(j, done, p)
  {
    if done == [] then EMPTY
    else
      var last := |done| - 1;
      AddBlock(Replay(j, done[..last], blocks[..last], done[last]), BlockStart(j, blocks[last]), j.bs)
  }

  lemma ReplayFrom(j: Job, done: seq<nat>, blocks: seq<nat>, p: nat)
    requires |done| == |blocks| && Laid(j, done, p)
    ensures RunEnd(j, done) <= p <= |j.src|
    ensures Replay(j, done, blocks, p) == AddBytes(ReplayHead(j, done, blocks, p), j.src[RunEnd(j, done)..p])
  {
    hide AddBytes, AddBlock, BlockStart;
    LaidEnd(j, done, p);
    assert j.src[..p] == j.src[0..p];
  }

  lemma SameHead(j: Job, done: seq<nat>, blocks: seq<nat>, p: nat, q: nat)
    requires |done| == |blocks| && Laid(j, done, p) && Laid(j, done, q)
    ensures ReplayHead(j, done, blocks, p) == ReplayHead(j, done, blocks, q)
  {
    hide AddBlock, BlockStart, Replay;
  }

  lemma ValidRunAnyEnd(j: Job, done: seq<nat>, blocks: seq<nat>, p: nat, q: nat)
    requires |done| == |blocks| && Laid(j, done, p) && p <= q <= |j.src|
    ensures Laid(j, done, q) && (ValidRun(j, done, blocks, p) ==> ValidRun(j, done, blocks, q))
  {
  }

  lemma ReplayEmpty(j: Job, p: nat)
    requires Laid(j, [], p)
    ensures p <= |j.src| && Replay(j, [], [], p) == AddBytes(EMPTY, j.src[..p])
  {
  }

  lemma BlockStartIs(j: Job, b: nat)
    ensures BlockStart(j, b) == b * j.bs
  {
  }

  /** A replay is its last match on top of the replay before it. */
  lemma ReplayUnfolds(j: Job, done: seq<nat>, blocks: seq<nat>, p: nat)
    requires |done| == |blocks| && Laid(j, done, p) && done != []
    ensures var last := |done| - 1;
            var q, b := done[last], blocks[last];
            && q + j.bs <= p <= |j.src| && Laid(j, done[..last], q)
            && Replay(j, done, blocks, p) ==
               AddBytes(AddBlock(Replay(j, done[..last], blocks[..last], q), BlockStart(j, b), j.bs),
                        j.src[q + j.bs..p])
  {
    hide AddBytes, AddBlock, BlockStart;
  }

  /** Taking the last matched window off a replay. */
  lemma ReplayStep(j: Job, done: seq<nat>, blocks: seq<nat>, p: nat)
    requires |done| == |blocks| && Laid(j, done, p) && ValidRun(j, done, blocks, p) && done != []
    ensures p <= |j.src|
    ensures var last := |done| - 1;
            var q, b := done[last], blocks[last];
            && q + j.bs <= p <= |j.src|
            && Laid(j, done[..last], q) && ValidRun(j, done[..last], blocks[..last], q)
            && b < |j.sigs| && SigAt(j, q) == j.sigs[b]
            && Replay(j, done, blocks, p) ==
               AddBytes(AddBlock(Replay(j, done[..last], blocks[..last], q), BlockStart(j, b), j.bs),
                        j.src[q + j.bs..p])
  {
    hide AddBytes, AddBlock, BlockStart, SigOf;
  }

  /** How the last block was chosen. */
  lemma ChoiceStep(j: Job, done: seq<nat>, blocks: seq<nat>, p: nat)
    requires |done| == |blocks| && Laid(j, done, p) && ValidRun(j, done, blocks, p) && done != []
    ensures var last := |done| - 1;
            var q, b := done[last], blocks[last];
            && q + j.bs <= |j.src| && RunEnd(j, done[..last]) <= q && Laid(j, done[..last], q)
            && (q == RunEnd(j, done[..last]) ==>
                  Pick(j, SigAt(j, q), Replay(j, done[..last], blocks[..last], q).copy) == Some(b))
  {
    hide AddBytes, AddBlock, BlockStart, SigOf, Pick, First;
    LaidEnd(j, done[..|done| - 1], done[|done| - 1]);
  }

  /** The scanner's own copy run: the open run, or nothing once the gap has begun. */
  lemma ReplayCopy(j: Job, done: seq<nat>, blocks: seq<nat>, p: nat)
    requires |done| == |blocks| && Laid(j, done, p)
    ensures Replay(j, done, blocks, p).copy ==
            if p == RunEnd(j, done) then OpenRun(j, done, blocks, p) else None
  {
    LaidEnd(j, done, p);
    var from := RunEnd(j, done);
    if p > from {
      ReplayExtend(j, done, blocks, from, p);
      AddBytesClosesCopy(Replay(j, done, blocks, from), j.src[from..p]);
    }
  }

  lemma PositionsSnoc(j: Job, done: seq<nat>, p: nat)
    requires MatchAt(j, p)
    ensures done + Positions(j, p) == (done + [p]) + Positions(j, p + j.bs)
  {
    hide Positions, MatchAt;
    PositionsHit(j, p);
    var rest := Positions(j, p + j.bs);
    assert done + ([p] + rest) == (done + [p]) + rest;
  }

  lemma PositionsHit(j: Job, p: nat)
    requires MatchAt(j, p)
    ensures Positions(j, p) == [p] + Positions(j, p + j.bs)
  {
    hide SigAt, First;
  }

  lemma ReplaySnoc(j: Job, done: seq<nat>, blocks: seq<nat>, p: nat, b: nat)
    requires |done| == |blocks| && p + j.bs <= |j.src| && Laid(j, done, p) && ValidRun(j, done, blocks, p)
    requires || Pick(j, SigAt(j, p), OpenRun(j, done, blocks, p)) == Some(b)
             || (p > RunEnd(j, done) && First(j.sigs, SigAt(j, p)) == Some(b))
    ensures Laid(j, done + [p], p + j.bs)
    ensures Replay(j, done + [p], blocks + [b], p + j.bs) ==
            AddBlock(Replay(j, done, blocks, p), BlockStart(j, b), j.bs)
    ensures ValidRun(j, done + [p], blocks + [b], p + j.bs)
  {
    hide Pick, BlockStart, AddBlock, First, OpenRun, RunEnd;
    var done', blocks' := done + [p], blocks + [b];
    assert done'[..|done|] == done && blocks'[..|done|] == blocks;
    assert j.src[p + j.bs..p + j.bs] == [];
  }
}
