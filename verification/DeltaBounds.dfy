/** How much a delta transfers: independence of read sizes, the
    resynchronisation bound and optimality on identical files. */
module DeltaBounds {
  import opened Bytes
  import opened Signatures
  import opened Emitter
  import opened Greedy

  // ------------------------------------------- independence of read sizes

  /** The literal operations of a stream, in order. */
  function DataOps(ops: seq<Op>): seq<Op>
  {
    if ops == [] then []
    else DataOps(ops[..|ops| - 1]) + if ops[|ops| - 1].Data? then [ops[|ops| - 1]] else []
  }

  lemma DataOpsOne(ops: seq<Op>, op: Op)
    ensures DataOps(ops + [op]) == DataOps(ops) + if op.Data? then [op] else []
  {
    assert (ops + [op])[..|ops|] == ops;
  }

  lemma DataOpsPending(ops: seq<Op>, pending: Blob)
    ensures DataOps(ops + DataOp(pending)) == DataOps(ops) + DataOp(pending)
  {
    if pending == [] {
      assert ops + DataOp(pending) == ops;
    } else {
      DataOpsOne(ops, Data(pending));
    }
  }

  /** Two scanner states that differ at most in which equal blocks they copy. */
  ghost predicate Alike(e: Batch, f: Batch)
  {
    && e.literal == f.literal
    && e.copied + OpenLen(e) == f.copied + OpenLen(f)
    && e.copy.Some? == f.copy.Some?
    && DataOps(e.ops) + DataOp(e.pending) == DataOps(f.ops) + DataOp(f.pending)
    && (e.copy.None? ==> e.pending == f.pending && DataOps(e.ops) == DataOps(f.ops))
  }

  lemma CloseCopyData(e: Batch)
    ensures var c := CloseCopy(e);
            && c.copy.None? && c.literal == e.literal && c.copied == e.copied + OpenLen(e)
            && DataOps(c.ops) + DataOp(c.pending) == DataOps(e.ops) + DataOp(e.pending)
            && (e.copy.Some? ==> c.pending == [] && DataOps(c.ops) == DataOps(e.ops) + DataOp(e.pending))
            && (e.copy.None? ==> c == e)
  {
    if e.copy.Some? {
      DataOpsPending(e.ops, e.pending);
      DataOpsOne(e.ops + DataOp(e.pending), Copy(e.copy.value.start, e.copy.value.len));
    }
  }

  lemma CloseCopyAlike(e: Batch, f: Batch)
    requires Alike(e, f)
    ensures Alike(CloseCopy(e), CloseCopy(f))
  {
    hide CloseCopy, DataOps;
    CloseCopyData(e);
    CloseCopyData(f);
  }

  lemma AddByteAlike(e: Batch, f: Batch, b: byte)
    requires Alike(e, f)
    ensures Alike(AddByte(e, b), AddByte(f, b))
  {
    CloseCopyAlike(e, f);
    AddByteClosed(e, b);
    AddByteClosed(f, b);
    AddLiteralAlike(CloseCopy(e), CloseCopy(f), b);
  }

  lemma AddLiteralAlike(c: Batch, d: Batch, b: byte)
    requires Alike(c, d) && c.copy.None?
    ensures Alike(AddByte(c, b), AddByte(d, b))
  {
    var pending := c.pending + [b];
    DataOpsOne(c.ops, Data(pending));
    DataOpsOne(d.ops, Data(pending));
    hide DataOps;
    assert CloseCopy(c) == c && CloseCopy(d) == d;
  }

  lemma {:induction false} AddBytesAlike(e: Batch, f: Batch, s: Blob)
    requires Alike(e, f)
    ensures Alike(AddBytes(e, s), AddBytes(f, s))
  {
    if s != [] {
      hide Alike, AddByte;
      AddBytesAlike(e, f, s[..|s| - 1]);
      AddByteAlike(AddBytes(e, s[..|s| - 1]), AddBytes(f, s[..|s| - 1]), s[|s| - 1]);
    }
  }

  lemma AddBlockData(e: Batch, start: nat, len: nat)
    ensures var a := AddBlock(e, start, len);
            && a.copy.Some? && a.literal == e.literal
            && a.copied + OpenLen(a) == e.copied + OpenLen(e) + len
            && DataOps(a.ops) + DataOp(a.pending) == DataOps(e.ops) + DataOp(e.pending)
  {
    hide DataOps;
    CloseCopyData(e);
  }

  lemma AddBlockAlike(e: Batch, f: Batch, start: nat, start': nat, len: nat)
    requires Alike(e, f)
    ensures Alike(AddBlock(e, start, len), AddBlock(f, start', len))
  {
    hide AddBlock, DataOps;
    AddBlockData(e, start, len);
    AddBlockData(f, start', len);
  }

  lemma {:induction false} ReplayAlike(j: Job, done: seq<nat>, a: seq<nat>, b: seq<nat>, p: nat)
    requires |done| == |a| == |b| && Laid(j, done, p) && ValidRun(j, done, a, p) && ValidRun(j, done, b, p)
    ensures Alike(Replay(j, done, a, p), Replay(j, done, b, p))
    decreases |done|
  {
    hide *;
    if done == [] {
      assert a == b;
      ReplayEmpty(j, p);
      AlikeSelf(Replay(j, done, a, p));
    } else {
      var last := |done| - 1;
      var q := done[last];
      ReplayStep(j, done, a, p);
      ReplayStep(j, done, b, p);
      ReplayAlike(j, done[..last], a[..last], b[..last], q);
      var e, f := Replay(j, done[..last], a[..last], q), Replay(j, done[..last], b[..last], q);
      AddBlockAlike(e, f, BlockStart(j, a[last]), BlockStart(j, b[last]), j.bs);
      AddBytesAlike(AddBlock(e, BlockStart(j, a[last]), j.bs), AddBlock(f, BlockStart(j, b[last]), j.bs),
                    j.src[q + j.bs..p]);
    }
  }

  lemma AlikeSelf(e: Batch)
    ensures Alike(e, e)
  {
  }

  lemma FinishAlike(e: Batch, f: Batch)
    requires Alike(e, f)
    ensures DataOps(Finish(e).ops) == DataOps(Finish(f).ops)
    ensures Finish(e).literal == Finish(f).literal && Finish(e).copied == Finish(f).copied
  {
    CloseCopyAlike(e, f);
    CloseCopyData(e);
    CloseCopyData(f);
    hide CloseCopy, DataOps;
    DataOpsPending(CloseCopy(e).ops, CloseCopy(e).pending);
    DataOpsPending(CloseCopy(f).ops, CloseCopy(f).pending);
  }

  /** However the source is cut into reads, the literal frames and both
      counters come out the same. */
  lemma ReadSizesDoNotMatter(j: Job, out: Batch, out': Batch)
    requires IsDelta(j, out) && IsDelta(j, out')
    ensures DataOps(out.ops) == DataOps(out'.ops)
    ensures out.literal == out'.literal && out.copied == out'.copied
  {
    hide Replay, Finish, Laid, ValidRun, Positions;
    var a :| IsDeltaOf(j, a, out);
    var b :| IsDeltaOf(j, b, out');
    var done := Positions(j, 0);
    ReplayAlike(j, done, a, b, |j.src|);
    FinishAlike(Replay(j, done, a, |j.src|), Replay(j, done, b, |j.src|));
  }

  // ---------------------------------------------------- which bytes are sent

  function Repeat(b: bool, n: nat): (r: seq<bool>)
    ensures |r| == n
  {
    seq(n, _ => b)
  }

  /** One flag per source byte from `p` on: is it copied by the greedy scan? */
  function Copied(j: Job, p: nat): (r: seq<bool>)
    ensures p <= |j.src| ==> |r| == |j.src| - p
    decreases |j.src| - p
  {
    if p >= |j.src| then []
    else if MatchAt(j, p) then Repeat(true, j.bs) + Copied(j, p + j.bs)
    else [false] + Copied(j, p + 1)
  }

  /** One flag per byte an operation stream writes: is it copied? */
  function Flags(ops: seq<Op>): seq<bool>
  {
    if ops == [] then []
    else Flags(ops[..|ops| - 1]) + OpFlags(ops[|ops| - 1])
  }

  function OpFlags(op: Op): seq<bool>
  {
    match op
    case Copy(_, len) => Repeat(true, len)
    case Data(bytes) => Repeat(false, |bytes|)
  }

  function BatchFlags(e: Batch): seq<bool>
  {
    Flags(e.ops) + Repeat(false, |e.pending|) + Repeat(true, OpenLen(e))
  }

  lemma FlagsOne(ops: seq<Op>, op: Op)
    ensures Flags(ops + [op]) == Flags(ops) + OpFlags(op)
  {
    assert (ops + [op])[..|ops|] == ops;
  }

  lemma FlagsPending(ops: seq<Op>, pending: Blob)
    ensures Flags(ops + DataOp(pending)) == Flags(ops) + Repeat(false, |pending|)
  {
    if pending == [] {
      assert ops + DataOp(pending) == ops;
    } else {
      FlagsOne(ops, Data(pending));
    }
  }

  lemma CloseCopyFlags(e: Batch)
    ensures BatchFlags(CloseCopy(e)) == BatchFlags(e) && CloseCopy(e).copy.None?
  {
    if e.copy.Some? {
      hide Flags;
      FlagsPending(e.ops, e.pending);
      FlagsOne(e.ops + DataOp(e.pending), Copy(e.copy.value.start, e.copy.value.len));
    }
  }

  lemma AddByteFlags(e: Batch, b: byte)
    ensures BatchFlags(AddByte(e, b)) == BatchFlags(e) + [false]
  {
    hide Flags, CloseCopy;
    CloseCopyFlags(e);
    var c := CloseCopy(e);
    var pending := c.pending + [b];
    assert Repeat(false, |c.pending|) + [false] == Repeat(false, |pending|);
    FlagsOne(c.ops, Data(pending));
  }

  lemma {:induction false} AddBytesFlags(e: Batch, s: Blob)
    ensures BatchFlags(AddBytes(e, s)) == BatchFlags(e) + Repeat(false, |s|)
  {
    if s != [] {
      hide BatchFlags, AddByte;
      AddBytesFlags(e, s[..|s| - 1]);
      AddByteFlags(AddBytes(e, s[..|s| - 1]), s[|s| - 1]);
      assert Repeat(false, |s| - 1) + [false] == Repeat(false, |s|);
    }
  }

  lemma AddBlockFlags(e: Batch, start: nat, len: nat)
    ensures BatchFlags(AddBlock(e, start, len)) == BatchFlags(e) + Repeat(true, len)
  {
    hide Flags, CloseCopy;
    CloseCopyFlags(e);
    assert Repeat(true, OpenLen(e)) + Repeat(true, len) == Repeat(true, OpenLen(e) + len);
  }

  /** Flags of the first `p` bytes when the windows at `done` are copied. */
  function Layout(j: Job, done: seq<nat>, p: nat): seq<bool>
    decreases |done|
  {
    if done == [] then Repeat(false, p)
    else
      var q := done[|done| - 1];
      Layout(j, done[..|done| - 1], q) + Repeat(true, j.bs) + Repeat(false, if p < q + j.bs then 0 else p - q - j.bs)
  }

  lemma {:induction false} ReplayFlags(j: Job, done: seq<nat>, blocks: seq<nat>, p: nat)
    requires |done| == |blocks| && Laid(j, done, p) && ValidRun(j, done, blocks, p)
    ensures BatchFlags(Replay(j, done, blocks, p)) == Layout(j, done, p)
    decreases |done|
  {
    hide BatchFlags, Replay, AddBlock, AddBytes, BlockStart, Laid, ValidRun, Positions;
    if done == [] {
      ReplayEmpty(j, p);
      AddBytesFlags(EMPTY, j.src[..p]);
      EmptyFlags();
      assert [] + Repeat(false, p) == Repeat(false, p);
    } else {
      var last := |done| - 1;
      var q, start := done[last], BlockStart(j, blocks[last]);
      ReplayStep(j, done, blocks, p);
      var e := Replay(j, done[..last], blocks[..last], q);
      ReplayFlags(j, done[..last], blocks[..last], q);
      AddBlockFlags(e, start, j.bs);
      AddBytesFlags(AddBlock(e, start, j.bs), j.src[q + j.bs..p]);
    }
  }

  lemma EmptyFlags()
    ensures BatchFlags(EMPTY) == []
  {
  }

  lemma LayoutMore(j: Job, done: seq<nat>, p: nat, q: nat)
    requires Laid(j, done, p) && p <= q
    ensures Layout(j, done, q) == Layout(j, done, p) + Repeat(false, q - p)
  {
    var from := RunEnd(j, done);
    assert Repeat(false, p - from) + Repeat(false, q - p) == Repeat(false, q - from);
  }

  /** Scanning on from `p` adds exactly the flags of the greedy scan. */
  lemma {:induction false} LayoutIsGreedy(j: Job, done: seq<nat>, p: nat)
    requires Laid(j, done, p)
    ensures Layout(j, done + Positions(j, p), |j.src|) == Layout(j, done, p) + Copied(j, p)
    decreases |j.src| - p
  {
    hide MatchAt, Layout;
    if p + j.bs > |j.src| {
      assert done + [] == done;
      LaidEnd(j, done, p);
      LayoutMore(j, done, p, |j.src|);
      AllLiteral(j, p);
    } else if MatchAt(j, p) {
      hide Laid;
      LaidSnoc(j, done, p);
      PositionsSnoc(j, done, p);
      LayoutSnoc(j, done, p);
      LayoutIsGreedy(j, done + [p], p + j.bs);
    } else {
      LaidMore(j, done, p);
      hide Laid;
      LayoutMore(j, done, p, p + 1);
      assert Repeat(false, 1) == [false];
      LayoutIsGreedy(j, done, p + 1);
    }
  }

  lemma LaidMore(j: Job, done: seq<nat>, p: nat)
    requires Laid(j, done, p) && p < |j.src|
    ensures Laid(j, done, p + 1)
  {
  }

  lemma LaidSnoc(j: Job, done: seq<nat>, p: nat)
    requires Laid(j, done, p) && p + j.bs <= |j.src|
    ensures Laid(j, done + [p], p + j.bs)
  {
    assert (done + [p])[..|done|] == done;
  }

  lemma LayoutSnoc(j: Job, done: seq<nat>, p: nat)
    ensures Layout(j, done + [p], p + j.bs) == Layout(j, done, p) + Repeat(true, j.bs)
  {
    assert (done + [p])[..|done|] == done;
    assert Repeat(false, 0) == [];
  }

  lemma {:induction false} AllLiteral(j: Job, p: nat)
    requires p <= |j.src| < p + j.bs
    ensures Copied(j, p) == Repeat(false, |j.src| - p)
    decreases |j.src| - p
  {
    if p < |j.src| {
      AllLiteral(j, p + 1);
    }
  }

  lemma FinishFlags(e: Batch)
    ensures Flags(Finish(e).ops) == BatchFlags(e)
  {
    hide Flags, CloseCopy;
    CloseCopyFlags(e);
    FlagsPending(CloseCopy(e).ops, CloseCopy(e).pending);
  }

  /** Byte for byte, the fast scan copies exactly what the reference scan copies. */
  lemma DeltaIsGreedy(j: Job, out: Batch)
    requires IsDelta(j, out)
    ensures Flags(out.ops) == Copied(j, 0)
  {
    hide Replay, Finish, ValidRun, Positions, Flags, Copied;
    var blocks :| IsDeltaOf(j, blocks, out);
    var done := Positions(j, 0);
    ReplayFlags(j, done, blocks, |j.src|);
    FinishFlags(Replay(j, done, blocks, |j.src|));
    LayoutIsGreedy(j, [], 0);
    assert [] + done == done && Layout(j, [], 0) == [];
    assert [] + Copied(j, 0) == Copied(j, 0);
  }
}
