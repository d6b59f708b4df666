/** What an operation stream means to the receiver, and its normal form. */
module DeltaRebuild {
  import opened Bytes
  import opened Signatures
  import opened Emitter
  import opened Greedy
  import Multiples

  // ------------------------------------------------------------- round trip

  predicate InBase(base: Blob, r: Range)
  {
    r.start + r.len <= |base|
  }

  function Part(base: Blob, r: Range): Blob
  {
    if InBase(base, r) then base[r.start..r.start + r.len] else []
  }

  function Piece(base: Blob, op: Op): Blob
  {
    match op
    case Copy(start, len) => Part(base, Range(start, len))
    case Data(bytes) => bytes
  }

  /** The bytes the receiver writes for `ops`. */
  function Rebuild(base: Blob, ops: seq<Op>): Blob
  {
    if ops == [] then [] else Rebuild(base, ops[..|ops| - 1]) + Piece(base, ops[|ops| - 1])
  }

  /** Every copy lies inside the base. */
  ghost predicate CopiesFit(base: Blob, ops: seq<Op>)
  {
    forall k :: 0 <= k < |ops| && ops[k].Copy? ==> InBase(base, Range(ops[k].start, ops[k].len))
  }

  lemma {:induction false} RebuildConcat(base: Blob, a: seq<Op>, b: seq<Op>)
    ensures Rebuild(base, a + b) == Rebuild(base, a) + Rebuild(base, b)
  {
    hide Piece;
    if b == [] {
      assert a + b == a;
    } else {
      var last := |b| - 1;
      RebuildConcat(base, a, b[..last]);
      assert (a + b)[..|a + b| - 1] == a + b[..last];
    }
  }

  function Open(base: Blob, e: Batch): Blob
  {
    match e.copy
    case None => []
    case Some(r) => Part(base, r)
  }

  /** Emitted operations, then the pending literals, then the open copy. */
  function Built(base: Blob, e: Batch): Blob
  {
    Rebuild(base, e.ops) + e.pending + Open(base, e)
  }

  ghost predicate BatchFits(base: Blob, e: Batch)
  {
    CopiesFit(base, e.ops) && (e.copy.Some? ==> InBase(base, e.copy.value))
  }

  lemma RebuildOne(base: Blob, ops: seq<Op>, op: Op)
    ensures Rebuild(base, ops + [op]) == Rebuild(base, ops) + Piece(base, op)
  {
    assert (ops + [op])[..|ops|] == ops;
  }

  lemma RebuildData(base: Blob, ops: seq<Op>, pending: Blob)
    ensures Rebuild(base, ops + DataOp(pending)) == Rebuild(base, ops) + pending
  {
    if pending == [] {
      assert ops + DataOp(pending) == ops;
    } else {
      RebuildOne(base, ops, Data(pending));
    }
  }

  lemma CloseCopyBuilds(base: Blob, e: Batch)
    requires BatchFits(base, e)
    ensures Built(base, CloseCopy(e)) == Built(base, e) && BatchFits(base, CloseCopy(e))
    ensures CloseCopy(e).copy.None?
  {
    if e.copy.Some? {
      var r := e.copy.value;
      RebuildData(base, e.ops, e.pending);
      RebuildOne(base, e.ops + DataOp(e.pending), Copy(r.start, r.len));
    }
  }

  lemma AddByteBuilds(base: Blob, e: Batch, b: byte)
    requires BatchFits(base, e)
    ensures Built(base, AddByte(e, b)) == Built(base, e) + [b] && BatchFits(base, AddByte(e, b))
  {
    hide *;
    CloseCopyBuilds(base, e);
    AddByteClosed(e, b);
    AddLiteralBuilds(base, CloseCopy(e), b);
  }

  lemma AddLiteralBuilds(base: Blob, c: Batch, b: byte)
    requires BatchFits(base, c) && c.copy.None?
    ensures Built(base, AddByte(c, b)) == Built(base, c) + [b] && BatchFits(base, AddByte(c, b))
  {
    hide Rebuild, InBase;
    var pending := c.pending + [b];
    RebuildOne(base, c.ops, Data(pending));
    BuiltClosed(base, c);
    BuiltClosed(base, AddByte(c, b));
    var done := Rebuild(base, c.ops);
    assert done + pending == done + c.pending + [b];
    assert done + pending + [] == done + pending;
  }

  lemma BuiltClosed(base: Blob, c: Batch)
    requires c.copy.None?
    ensures Built(base, c) == Rebuild(base, c.ops) + c.pending
  {
    hide Rebuild;
  }

  lemma {:induction false} AddBytesBuilds(base: Blob, e: Batch, s: Blob)
    requires BatchFits(base, e)
    ensures Built(base, AddBytes(e, s)) == Built(base, e) + s && BatchFits(base, AddBytes(e, s))
  {
    if s != [] {
      hide Built, AddByte, BatchFits;
      var last := |s| - 1;
      AddBytesBuilds(base, e, s[..last]);
      AddByteBuilds(base, AddBytes(e, s[..last]), s[last]);
      assert s[..last] + [s[last]] == s;
    }
  }

  lemma AddBlockBuilds(base: Blob, e: Batch, start: nat, len: nat)
    requires BatchFits(base, e) && start + len <= |base|
    ensures Built(base, AddBlock(e, start, len)) == Built(base, e) + base[start..start + len]
    ensures BatchFits(base, AddBlock(e, start, len))
  {
    if e.copy.Some? && e.copy.value.start + e.copy.value.len == start {
      ExtendBuilds(base, e, len);
      hide *;
      AddBlockExtends(e, start, len);
    } else {
      CloseCopyBuilds(base, e);
      NewCopyBuilds(base, CloseCopy(e), Range(start, len));
      hide *;
      AddBlockNew(e, start, len);
    }
  }

  lemma AddBlockExtends(e: Batch, start: nat, len: nat)
    requires e.copy.Some? && e.copy.value.start + e.copy.value.len == start
    ensures AddBlock(e, start, len) == e.(copy := Some(Range(e.copy.value.start, e.copy.value.len + len)))
  {
  }

  lemma ExtendBuilds(base: Blob, e: Batch, len: nat)
    requires BatchFits(base, e) && e.copy.Some?
    requires e.copy.value.start + e.copy.value.len + len <= |base|
    ensures var start := e.copy.value.start + e.copy.value.len;
            var f := e.(copy := Some(Range(e.copy.value.start, e.copy.value.len + len)));
            BatchFits(base, f) && Built(base, f) == Built(base, e) + base[start..start + len]
  {
    hide Rebuild, CopiesFit, Part;
    PartGrows(base, e.copy.value, len);
  }

  lemma AddBlockNew(e: Batch, start: nat, len: nat)
    requires !(e.copy.Some? && e.copy.value.start + e.copy.value.len == start)
    ensures AddBlock(e, start, len) == CloseCopy(e).(copy := Some(Range(start, len)))
  {
  }

  lemma NewCopyBuilds(base: Blob, c: Batch, r: Range)
    requires BatchFits(base, c) && InBase(base, r)
    ensures var d := c.(copy := Some(r));
            BatchFits(base, d) && (c.copy.None? ==> Built(base, d) == Built(base, c) + base[r.start..r.start + r.len])
  {
    hide Rebuild, CopiesFit;
  }

  lemma PartGrows(base: Blob, r: Range, len: nat)
    requires InBase(base, r) && r.start + r.len + len <= |base|
    ensures Part(base, Range(r.start, r.len + len)) ==
            Part(base, r) + base[r.start + r.len..r.start + r.len + len]
  {
  }

  lemma FinishBuilds(base: Blob, e: Batch)
    requires BatchFits(base, e)
    ensures Rebuild(base, Finish(e).ops) == Built(base, e) && CopiesFit(base, Finish(e).ops)
  {
    CloseCopyBuilds(base, e);
    RebuildData(base, CloseCopy(e).ops, CloseCopy(e).pending);
  }

  /** A window and a block with equal signatures hold equal bytes. */
  ghost predicate NoCollision(j: Job, base: Blob)
  {
    forall p, i :: 0 <= p <= |j.src| - j.bs && 0 <= i < |j.sigs| && SigAt(j, p) == j.sigs[i] ==>
                     BlockStart(j, i) + j.bs <= |base| &&
                     base[BlockStart(j, i)..BlockStart(j, i) + j.bs] == j.src[p..p + j.bs]
  }

  /** Every matched window has the signature of its block. */
  ghost predicate Agrees(j: Job, done: seq<nat>, blocks: seq<nat>)
    requires |done| == |blocks|
  {
    forall k :: 0 <= k < |done| ==>
      done[k] + j.bs <= |j.src| && blocks[k] < |j.sigs| && SigAt(j, done[k]) == j.sigs[blocks[k]]
  }

  lemma {:induction false} ReplayBuilds(j: Job, base: Blob, done: seq<nat>, blocks: seq<nat>, p: nat)
    requires |done| == |blocks| && Laid(j, done, p) && Agrees(j, done, blocks) && NoCollision(j, base)
    ensures var e := Replay(j, done, blocks, p); BatchFits(base, e) && Built(base, e) == j.src[..p]
    decreases |done|
  {
    hide *;
    if done == [] {
      EmptyBuilds(base);
      ReplayEmpty(j, p);
      AddBytesBuilds(base, EMPTY, j.src[..p]);
      assert [] + j.src[..p] == j.src[..p];
    } else {
      var last := |done| - 1;
      var q, b := done[last], blocks[last];
      ReplayUnfolds(j, done, blocks, p);
      AgreesLast(j, done, blocks);
      NoCollisionAt(j, base, q, b);
      var e := Replay(j, done[..last], blocks[..last], q);
      ReplayBuilds(j, base, done[..last], blocks[..last], q);
      AddBlockBuilds(base, e, BlockStart(j, b), j.bs);
      AddBytesBuilds(base, AddBlock(e, BlockStart(j, b), j.bs), j.src[q + j.bs..p]);
      assert j.src[..q] + j.src[q..q + j.bs] + j.src[q + j.bs..p] == j.src[..p];
    }
  }

  lemma AgreesLast(j: Job, done: seq<nat>, blocks: seq<nat>)
    requires |done| == |blocks| > 0 && Agrees(j, done, blocks)
    ensures var last := |done| - 1;
            && Agrees(j, done[..last], blocks[..last])
            && done[last] + j.bs <= |j.src| && blocks[last] < |j.sigs|
            && SigAt(j, done[last]) == j.sigs[blocks[last]]
  {
    hide SigAt;
  }

  lemma AgreesMore(j: Job, done: seq<nat>, blocks: seq<nat>, q: nat, b: nat)
    requires |done| == |blocks| && Agrees(j, done, blocks)
    requires q + j.bs <= |j.src| && b < |j.sigs| && SigAt(j, q) == j.sigs[b]
    ensures Agrees(j, done + [q], blocks + [b])
  {
    hide SigAt;
  }

  lemma {:induction false} ValidRunAgrees(j: Job, done: seq<nat>, blocks: seq<nat>, p: nat)
    requires |done| == |blocks| && Laid(j, done, p) && ValidRun(j, done, blocks, p)
    ensures Agrees(j, done, blocks)
    decreases |done|
  {
    hide Laid, ValidRun, Replay, SigAt;
    if done != [] {
      var last := |done| - 1;
      ReplayStep(j, done, blocks, p);
      ValidRunAgrees(j, done[..last], blocks[..last], done[last]);
      AgreesMore(j, done[..last], blocks[..last], done[last], blocks[last]);
      assert done == done[..last] + [done[last]] && blocks == blocks[..last] + [blocks[last]];
    }
  }

  lemma NoCollisionAt(j: Job, base: Blob, p: nat, i: nat)
    requires NoCollision(j, base) && p + j.bs <= |j.src| && i < |j.sigs| && SigAt(j, p) == j.sigs[i]
    ensures BlockStart(j, i) + j.bs <= |base|
    ensures base[BlockStart(j, i)..BlockStart(j, i) + j.bs] == j.src[p..p + j.bs]
  {
  }

  lemma EmptyBuilds(base: Blob)
    ensures BatchFits(base, EMPTY) && Built(base, EMPTY) == []
  {
  }

  /** A finished replay of agreeing matches rebuilds the source. */
  lemma ReplayRebuilds(j: Job, base: Blob, done: seq<nat>, blocks: seq<nat>)
    requires |done| == |blocks| && Laid(j, done, |j.src|) && Agrees(j, done, blocks) && NoCollision(j, base)
    ensures var out := Finish(Replay(j, done, blocks, |j.src|));
            CopiesFit(base, out.ops) && Rebuild(base, out.ops) == j.src
  {
    hide Replay, Finish, Laid, NoCollision, Agrees;
    ReplayBuilds(j, base, done, blocks, |j.src|);
    FinishBuilds(base, Replay(j, done, blocks, |j.src|));
    assert j.src[..|j.src|] == j.src;
  }

  /** Applying the operations to the base gives back the source. */
  lemma DeltaRoundTrip(j: Job, base: Blob, out: Batch)
    requires IsDelta(j, out) && NoCollision(j, base)
    ensures CopiesFit(base, out.ops) && Rebuild(base, out.ops) == j.src
  {
    hide Replay, Finish, Laid, ValidRun, Positions, NoCollision, Agrees;
    var blocks :| IsDeltaOf(j, blocks, out);
    ValidRunAgrees(j, Positions(j, 0), blocks, |j.src|);
    ReplayRebuilds(j, base, Positions(j, 0), blocks);
  }

  // ------------------------------------------------------------ normal form

  /** Block-aligned, non-empty and inside the indexed prefix. */
  ghost predicate GoodRange(bs: pos, count: nat, r: Range)
  {
    exists first, n :: 0 <= first && 1 <= n && Blocks(bs, count, r, first, n)
  }

  ghost predicate Blocks(bs: pos, count: nat, r: Range, first: nat, n: nat)
  {
    r.start == first * bs && r.len == n * bs && first + n <= count
  }

  ghost predicate GoodOp(bs: pos, count: nat, op: Op)
  {
    match op
    case Copy(start, len) => GoodRange(bs, count, Range(start, len))
    case Data(bytes) => 1 <= |bytes| <= CHUNK
  }

  /** `b` may directly follow `a`. */
  predicate MayFollow(a: Op, b: Op)
  {
    match a
    case Copy(start, len) => b.Copy? ==> start + len != b.start
    case Data(bytes) => |bytes| < CHUNK ==> b.Copy?
  }

  ghost predicate NormalForm(bs: pos, count: nat, ops: seq<Op>)
  {
    && (forall k :: 0 <= k < |ops| ==> GoodOp(bs, count, ops[k]))
    && (forall k :: 0 < k < |ops| ==> MayFollow(ops[k - 1], ops[k]))
  }

  predicate LastAllows(ops: seq<Op>, op: Op)
  {
    ops != [] ==> MayFollow(ops[|ops| - 1], op)
  }

  /** The invariant behind the normal form: whatever is emitted next is allowed. */
  ghost predicate Normal(bs: pos, count: nat, e: Batch, p: nat)
  {
    && NormalForm(bs, count, e.ops)
    && |e.pending| < CHUNK
    && LastAllows(e.ops, Data([0]))
    && (e.copy.None? && e.pending == [] ==> e.ops == [] || e.ops[|e.ops| - 1].Data?)
    && (e.copy.Some? ==>
          && GoodRange(bs, count, e.copy.value)
          && (e.pending == [] ==> LastAllows(e.ops, Copy(e.copy.value.start, e.copy.value.len))))
    && e.literal + e.copied + OpenLen(e) == p
  }

  lemma NormalAppend(bs: pos, count: nat, ops: seq<Op>, op: Op)
    requires NormalForm(bs, count, ops) && GoodOp(bs, count, op) && LastAllows(ops, op)
    ensures NormalForm(bs, count, ops + [op])
  {
  }

  /** Closing the copy keeps the form; afterwards any literal, and any copy
      that does not continue the closed one, may follow. */
  lemma CloseCopyNormal(bs: pos, count: nat, e: Batch, p: nat)
    requires Normal(bs, count, e, p)
    ensures var c := CloseCopy(e);
            && NormalForm(bs, count, c.ops) && |c.pending| < CHUNK && c.literal + c.copied == p
            && LastAllows(c.ops, Data([0]))
            && (e.copy.Some? ==> c.pending == [] && c.ops != [] &&
                                 c.ops[|c.ops| - 1] == Copy(e.copy.value.start, e.copy.value.len))
  {
    hide GoodRange;
    if e.copy.Some? {
      var op := Copy(e.copy.value.start, e.copy.value.len);
      if e.pending == [] {
        assert e.ops + DataOp(e.pending) == e.ops;
      } else {
        NormalAppend(bs, count, e.ops, Data(e.pending));
      }
      NormalAppend(bs, count, e.ops + DataOp(e.pending), op);
    }
  }

  lemma AddByteNormal(bs: pos, count: nat, e: Batch, p: nat, b: byte)
    requires Normal(bs, count, e, p)
    ensures Normal(bs, count, AddByte(e, b), p + 1)
  {
    CloseCopyNormal(bs, count, e, p);
    var c := CloseCopy(e);
    NormalAddLiteral(bs, count, c, p, b);
  }

  lemma NormalAddLiteral(bs: pos, count: nat, c: Batch, p: nat, b: byte)
    requires c.copy.None? && NormalForm(bs, count, c.ops) && |c.pending| < CHUNK && c.literal + c.copied == p
    requires LastAllows(c.ops, Data([0]))
    ensures Normal(bs, count, AddByte(c, b), p + 1)
  {
    hide GoodRange;
    if |c.pending| + 1 == CHUNK {
      NormalAppend(bs, count, c.ops, Data(c.pending + [b]));
    }
  }

  lemma {:induction false} AddBytesNormal(bs: pos, count: nat, e: Batch, p: nat, s: Blob)
    requires Normal(bs, count, e, p)
    ensures Normal(bs, count, AddBytes(e, s), p + |s|)
  {
    if s != [] {
      hide Normal, AddByte;
      AddBytesNormal(bs, count, e, p, s[..|s| - 1]);
      AddByteNormal(bs, count, AddBytes(e, s[..|s| - 1]), p + |s| - 1, s[|s| - 1]);
    }
  }

  lemma GoodRangeGrows(bs: pos, count: nat, r: Range, b: nat)
    requires GoodRange(bs, count, r) && b < count && r.start + r.len == b * bs
    ensures GoodRange(bs, count, Range(r.start, r.len + bs))
  {
    var first, n :| 0 <= first && 1 <= n && Blocks(bs, count, r, first, n);
    assert (first + n) * bs == b * bs;
    assert first + n == b by { Multiples.Same(first + n, b, bs); }
    Multiples.Next(n, bs);
    assert Blocks(bs, count, Range(r.start, r.len + bs), first, n + 1);
  }

  lemma AddBlockNormal(bs: pos, count: nat, e: Batch, p: nat, b: nat)
    requires Normal(bs, count, e, p) && b < count
    ensures Normal(bs, count, AddBlock(e, b * bs, bs), p + bs)
  {
    var start := b * bs;
    assert GoodRange(bs, count, Range(start, bs)) by { assert Blocks(bs, count, Range(start, bs), b, 1); }
    if e.copy.Some? && e.copy.value.start + e.copy.value.len == start {
      GoodRangeGrows(bs, count, e.copy.value, b);
      hide GoodRange;
    } else {
      hide GoodRange;
      CloseCopyNormal(bs, count, e, p);
    }
  }

  lemma {:induction false} ReplayNormal(j: Job, done: seq<nat>, blocks: seq<nat>, p: nat)
    requires |done| == |blocks| && Laid(j, done, p) && ValidRun(j, done, blocks, p)
    ensures Normal(j.bs, |j.sigs|, Replay(j, done, blocks, p), p)
    decreases |done|
  {
    hide *;
    if done == [] {
      ReplayEmpty(j, p);
      EmptyNormal(j.bs, |j.sigs|);
      AddBytesNormal(j.bs, |j.sigs|, EMPTY, 0, j.src[..p]);
    } else {
      var last := |done| - 1;
      var q, b := done[last], blocks[last];
      ReplayStep(j, done, blocks, p);
      var e := Replay(j, done[..last], blocks[..last], q);
      ReplayNormal(j, done[..last], blocks[..last], q);
      AddBlockNormal(j.bs, |j.sigs|, e, q, b);
      assert BlockStart(j, b) == b * j.bs by { BlockStartIs(j, b); }
      AddBytesNormal(j.bs, |j.sigs|, AddBlock(e, BlockStart(j, b), j.bs), q + j.bs, j.src[q + j.bs..p]);
    }
  }

  lemma EmptyNormal(bs: pos, count: nat)
    ensures Normal(bs, count, EMPTY, 0)
  {
  }

  lemma FinishNormal(bs: pos, count: nat, e: Batch, p: nat)
    requires Normal(bs, count, e, p)
    ensures NormalForm(bs, count, Finish(e).ops) && Finish(e).literal + Finish(e).copied == p
  {
    hide GoodRange;
    CloseCopyNormal(bs, count, e, p);
    var c := CloseCopy(e);
    if c.pending == [] {
      assert c.ops + DataOp(c.pending) == c.ops;
    } else {
      NormalAppend(bs, count, c.ops, Data(c.pending));
    }
  }

  /** The stream is in normal form and accounts for every source byte. */
  lemma DeltaNormalForm(j: Job, out: Batch)
    requires IsDelta(j, out)
    ensures NormalForm(j.bs, |j.sigs|, out.ops)
    ensures out.literal + out.copied == |j.src|
  {
    hide Replay, Finish, Laid, ValidRun, Positions, Normal;
    var blocks :| IsDeltaOf(j, blocks, out);
    ReplayNormal(j, Positions(j, 0), blocks, |j.src|);
    FinishNormal(j.bs, |j.sigs|, Replay(j, Positions(j, 0), blocks, |j.src|), |j.src|);
  }
}
