/** Turning matched blocks and literal bytes into `Copy` and `Data` operations. */
module Emitter {
  import opened Bytes
  import opened Signatures

  /** A step of the rebuilding: take a part of the base, or these bytes. */
  datatype Op = Copy(start: nat, len: nat) | Data(bytes: Blob)

  /** A range of the base file. */
  datatype Range = Range(start: nat, len: nat)

  /** What the scanner has emitted and what it still holds back: literals that
      precede the open copy run, then the run itself. */
  datatype Batch = Batch(ops: seq<Op>, pending: Blob, copy: Option<Range>, literal: nat, copied: nat)

  const EMPTY := Batch([], [], None, 0, 0)

  function DataOp(pending: Blob): seq<Op>
  {
    if pending == [] then [] else [Data(pending)]
  }

  /** Bytes of the open copy run. */
  function OpenLen(e: Batch): nat
  {
    if e.copy.Some? then e.copy.value.len else 0
  }

  function CloseCopy(e: Batch): Batch
  {
    match e.copy
    case None => e
    case Some(r) =>
      Batch(e.ops + DataOp(e.pending) + [Copy(r.start, r.len)], [], None, e.literal, e.copied + r.len)
  }

  function AddByte(e: Batch, b: byte): Batch
  {
    var c := CloseCopy(e);
    var pending := c.pending + [b];
    if |pending| == CHUNK then
      c.(ops := c.ops + [Data(pending)], pending := [], literal := c.literal + 1)
    else
      c.(pending := pending, literal := c.literal + 1)
  }

  function AddBytes(e: Batch, s: Blob): Batch
  {
    if s == [] then e else AddByte(AddBytes(e, s[..|s| - 1]), s[|s| - 1])
  }

  function AddBlock(e: Batch, start: nat, len: nat): Batch
  {
    if e.copy.Some? && e.copy.value.start + e.copy.value.len == start then
      e.(copy := Some(Range(e.copy.value.start, e.copy.value.len + len)))
    else
      CloseCopy(e).(copy := Some(Range(start, len)))
  }

  function Finish(e: Batch): Batch
  {
    var c := CloseCopy(e);
    c.(ops := c.ops + DataOp(c.pending), pending := [])
  }

  lemma AddByteClosed(e: Batch, b: byte)
    ensures AddByte(e, b) == AddByte(CloseCopy(e), b) && CloseCopy(e).copy.None?
  {
  }

  lemma AddNothing(e: Batch)
    ensures AddBytes(e, []) == e
  {
  }

  lemma {:induction false} AddBytesConcat(e: Batch, s: Blob, t: Blob)
    ensures AddBytes(AddBytes(e, s), t) == AddBytes(e, s + t)
  {
    if t == [] {
      assert s + t == s;
    } else {
      var last := |t| - 1;
      AddBytesConcat(e, s, t[..last]);
      assert (s + t)[..|s + t| - 1] == s + t[..last];
    }
  }

  lemma AddBytesUnfolds(e: Batch, s: Blob)
    requires s != []
    ensures AddBytes(e, s) == AddByte(AddBytes(e, s[..|s| - 1]), s[|s| - 1])
  {
    hide AddByte;
  }

  lemma AddByteOpen(e: Batch, b: byte)
    requires e.copy.None?
    ensures var pending := e.pending + [b];
            AddByte(e, b) ==
            if |pending| == CHUNK
            then e.(ops := e.ops + [Data(pending)], pending := [], literal := e.literal + 1)
            else e.(pending := pending, literal := e.literal + 1)
  {
  }

  lemma SnocPart(p: Blob, s: Blob)
    requires s != []
    ensures p + s[..|s| - 1] + [s[|s| - 1]] == p + s
  {
  }

  /** Bytes that do not overflow the batch are simply appended to it. */
  lemma {:induction false} AddBytesFits(e: Batch, s: Blob)
    requires e.copy.None? && |e.pending| + |s| < CHUNK
    ensures AddBytes(e, s) == e.(pending := e.pending + s, literal := e.literal + |s|)
  {
    hide AddBytes, AddByte;
    if s == [] {
      AddNothing(e);
      assert e.pending + s == e.pending;
    } else {
      var last := |s| - 1;
      AddBytesFits(e, s[..last]);
      AddBytesUnfolds(e, s);
      AddByteOpen(e.(pending := e.pending + s[..last], literal := e.literal + last), s[last]);
      SnocPart(e.pending, s);
    }
  }

  /** Bytes that exactly fill the batch emit it. */
  lemma AddBytesFills(e: Batch, s: Blob)
    requires e.copy.None? && |e.pending| < CHUNK && |e.pending| + |s| == CHUNK
    ensures AddBytes(e, s) ==
            e.(ops := e.ops + [Data(e.pending + s)], pending := [], literal := e.literal + |s|)
  {
    hide AddBytes, AddByte;
    var last := |s| - 1;
    AddBytesFits(e, s[..last]);
    AddBytesUnfolds(e, s);
    AddByteOpen(e.(pending := e.pending + s[..last], literal := e.literal + last), s[last]);
    SnocPart(e.pending, s);
  }

  /** One turn of `append`: as many bytes as the chunk has room for. */
  lemma AddPart(e: Batch, s: Blob, lo: nat, hi: nat, v: Batch)
    requires lo < hi <= |s| && v == AddBytes(e, s[..lo]) && v.copy.None? && |v.pending| < CHUNK
    requires |v.pending| + (hi - lo) <= CHUNK
    ensures var pending := v.pending + s[lo..hi];
            AddBytes(e, s[..hi]) ==
            if |pending| == CHUNK
            then v.(ops := v.ops + [Data(pending)], pending := [], literal := v.literal + (hi - lo))
            else v.(pending := pending, literal := v.literal + (hi - lo))
  {
    hide AddBytes;
    AddBytesConcat(e, s[..lo], s[lo..hi]);
    assert s[..lo] + s[lo..hi] == s[..hi];
    if |v.pending| + (hi - lo) == CHUNK {
      AddBytesFills(v, s[lo..hi]);
    } else {
      AddBytesFits(v, s[lo..hi]);
    }
  }

  /** Content bytes that cross the wire, and that do not. */
  function LiteralBytes(ops: seq<Op>): nat
  {
    if ops == [] then 0
    else LiteralBytes(ops[..|ops| - 1]) + var op := ops[|ops| - 1]; if op.Data? then |op.bytes| else 0
  }

  function CopiedBytes(ops: seq<Op>): nat
  {
    if ops == [] then 0
    else CopiedBytes(ops[..|ops| - 1]) + var op := ops[|ops| - 1]; if op.Copy? then op.len else 0
  }

  /** The counters are right, and `n` bytes of the source are accounted for. */
  predicate Tallied(e: Batch, n: nat)
  {
    && LiteralBytes(e.ops) + |e.pending| == e.literal && CopiedBytes(e.ops) == e.copied
    && e.literal + e.copied + OpenLen(e) == n
  }

  lemma TallyOne(ops: seq<Op>, op: Op)
    ensures LiteralBytes(ops + [op]) == LiteralBytes(ops) + if op.Data? then |op.bytes| else 0
    ensures CopiedBytes(ops + [op]) == CopiedBytes(ops) + if op.Copy? then op.len else 0
  {
    assert (ops + [op])[..|ops|] == ops;
  }

  lemma TallyPending(ops: seq<Op>, pending: Blob)
    ensures LiteralBytes(ops + DataOp(pending)) == LiteralBytes(ops) + |pending|
    ensures CopiedBytes(ops + DataOp(pending)) == CopiedBytes(ops)
  {
    hide LiteralBytes, CopiedBytes;
    if pending == [] {
      assert ops + DataOp(pending) == ops;
    } else {
      TallyOne(ops, Data(pending));
    }
  }

  lemma CloseCopyTallies(e: Batch, n: nat)
    requires Tallied(e, n)
    ensures Tallied(CloseCopy(e), n) && CloseCopy(e).copy.None?
  {
    hide LiteralBytes, CopiedBytes;
    if e.copy.Some? {
      var r := e.copy.value;
      TallyPending(e.ops, e.pending);
      TallyOne(e.ops + DataOp(e.pending), Copy(r.start, r.len));
    }
  }

  lemma AddByteTallies(e: Batch, b: byte, n: nat)
    requires Tallied(e, n)
    ensures Tallied(AddByte(e, b), n + 1)
  {
    hide LiteralBytes, CopiedBytes, CloseCopy;
    CloseCopyTallies(e, n);
    var c := CloseCopy(e);
    TallyOne(c.ops, Data(c.pending + [b]));
  }

  lemma {:induction false} AddBytesTallies(e: Batch, s: Blob, n: nat)
    requires Tallied(e, n)
    ensures Tallied(AddBytes(e, s), n + |s|)
  {
    hide Tallied, AddByte;
    if s != [] {
      var last := |s| - 1;
      AddBytesTallies(e, s[..last], n);
      AddByteTallies(AddBytes(e, s[..last]), s[last], n + last);
    }
  }

  lemma AddBlockTallies(e: Batch, start: nat, len: nat, n: nat)
    requires Tallied(e, n)
    ensures Tallied(AddBlock(e, start, len), n + len)
  {
    hide LiteralBytes, CopiedBytes, CloseCopy;
    CloseCopyTallies(e, n);
  }

  /** At the end every byte of the source is in an operation. */
  lemma FinishTallies(e: Batch, n: nat)
    requires Tallied(e, n)
    ensures Tallied(Finish(e), n) && Finish(e).copy.None? && Finish(e).pending == []
  {
    hide LiteralBytes, CopiedBytes, CloseCopy;
    CloseCopyTallies(e, n);
    TallyPending(CloseCopy(e).ops, CloseCopy(e).pending);
  }

  lemma EmptyTallies()
    ensures Tallied(EMPTY, 0)
  {
  }

  /** The mutable batching state of `produce_delta` together with the
      operations handed to its `emit` callback. */
  class Sink {
    var ops: seq<Op>
    var pending: Blob
    var copy: Option<Range>
    var literal: nat
    var copied: nat

    ghost function Value(): Batch
      reads this
    {
      Batch(ops, pending, copy, literal, copied)
    }

    constructor ()
      ensures Value() == EMPTY
    {
      ops, pending, copy, literal, copied := [], [], None, 0, 0;
    }

    method Emit(op: Op)
      modifies this`ops
      ensures ops == old(ops) + [op]
    {
      ops := ops + [op];
    }

    /** Emit the open copy, after the literals that come before it. */
    method EmitCopy()
      modifies this
      ensures Value() == CloseCopy(old(Value()))
    {
      if copy.None? {
        return;
      }
      var r := copy.value;
      copy := None;
      if pending != [] {
        var out := pending;
        pending := [];
        Emit(Data(out));
      }
      copied := copied + r.len;
      Emit(Copy(r.start, r.len));
    }

    /** Literal bytes wait in `pending`; whenever they make a chunk, it leaves. */
    method Append(input: Blob)
      requires copy.None? && |pending| < CHUNK
      modifies this
      ensures Value() == AddBytes(old(Value()), input) && |pending| < CHUNK
    {
      hide AddBytes;
      ghost var start, done := Value(), 0;
      ghost var v := start;
      AddNothing(start);
      assert input[..0] == [];
      var bytes := input;
      literal := literal + |bytes|;
      while bytes != []
        invariant done <= |input| && bytes == input[done..]
        invariant v == AddBytes(start, input[..done]) && v.literal == start.literal + done
        invariant Value() == v.(literal := start.literal + |input|) && |pending| < CHUNK && copy.None?
        decreases |bytes|
      {
        var take := Min(CHUNK - |pending|, |bytes|);
        AddPart(start, input, done, done + take, v);
        assert bytes[..take] == input[done..done + take];
        pending := pending + bytes[..take];
        bytes := bytes[take..];
        done := done + take;
        v := AddBytes(start, input[..done]);
        if |pending| == CHUNK {
          var out := pending;
          pending := [];
          Emit(Data(out));
        }
      }
      assert input[..|input|] == input;
    }

    /** Close the copy and turn `bytes` into literals. */
    method FlushLiteral(bytes: Blob)
      requires bytes != [] && |pending| < CHUNK
      modifies this
      ensures Value() == AddBytes(old(Value()), bytes) && |pending| < CHUNK && copy.None?
    {
      ghost var before := Value();
      EmitCopy();
      Append(bytes);
      AddBytesClosesCopy(before, bytes);
    }

    /** A matched block: extend the open run or start a new one. */
    method Block(start: nat, len: nat)
      requires |pending| < CHUNK
      modifies this
      ensures Value() == AddBlock(old(Value()), start, len) && |pending| < CHUNK
    {
      if copy.Some? && copy.value.start + copy.value.len == start {
        copy := Some(Range(copy.value.start, copy.value.len + len));
      } else {
        EmitCopy();
        copy := Some(Range(start, len));
      }
    }

    method Close()
      modifies this
      ensures Value() == Finish(old(Value()))
    {
      EmitCopy();
      if pending != [] {
        Emit(Data(pending));
        pending := [];
      }
    }
  }

  lemma {:induction false} AddBytesClosesCopy(e: Batch, s: Blob)
    requires s != []
    ensures AddBytes(CloseCopy(e), s) == AddBytes(e, s)
    ensures AddBytes(e, s).copy.None?
  {
    if |s| > 1 {
      AddBytesClosesCopy(e, s[..|s| - 1]);
    }
  }
}
