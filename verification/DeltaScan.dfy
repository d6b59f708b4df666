/** `produce_delta`: the buffered, rolling, indexed scan. */
module DeltaScan {
  import opened Bytes
  import opened RollingSum
  import opened FileReader
  import opened Signatures
  import opened Emitter
  import opened Greedy
  import opened BlockLookup
  import opened DeltaTrace

  const READ_CHUNK := 0x10_0000

  /** What an index says about one block, and about one checksum. */
  lemma IndexedBlock(idx: SigIndex, sigs: seq<Sig>, i: nat)
    requires idx.Represents(sigs) && i < |sigs|
    ensures idx.blockCount == |sigs| && |idx.strong| == STRONG_LEN * |sigs| && idx.StrongOf(i) == sigs[i].strong
  {
    hide Bucket, Strongs;
    StrongsAt(sigs, i);
  }

  lemma IndexedBucket(idx: SigIndex, sigs: seq<Sig>, w: u32)
    requires idx.Represents(sigs)
    ensures idx.blockCount == |sigs|
    ensures if w in idx.byWeak then idx.byWeak[w] == Bucket(sigs, w) else Bucket(sigs, w) == []
    ensures forall k :: 0 <= k < |Bucket(sigs, w)| ==> Bucket(sigs, w)[k] < |sigs|
  {
    hide Bucket, Strongs;
    BucketWraps(sigs, w);
    forall k | 0 <= k < |Bucket(sigs, w)| ensures Bucket(sigs, w)[k] < |sigs| {
      assert Bucket(sigs, w)[k] in Bucket(sigs, w);
    }
  }

  method FindBlock(h: Hash, idx: SigIndex, window: Blob, weak: u32, open: Option<Range>, ghost j: Job)
    returns (matched: Option<nat>)
    requires j.h == h && j.bs == idx.blockSize && idx.Represents(j.sigs) && weak == Weak(window)
    ensures matched == Lookup(j.sigs, j.bs, SigOf(j.h, window), open)
  {
    hide SigOf, Weak, Bucket, FirstAmong, SigIndex.Represents, SigIndex.StrongOf, Lookup, Wrap32, Want;
    SigOfParts(j.h, window);
    IndexedBucket(idx, j.sigs, weak);
    LookupCases(j.sigs, j.bs, SigOf(j.h, window), open);
    var strong := h(window)[..STRONG_LEN];
    if weak !in idx.byWeak {
      return None;
    }
    var cands := idx.byWeak[weak];
    if open.Some? {
      var want := Want(open.value, idx.blockSize);
      if want < idx.blockCount && Wrap32(want) in cands {
        IndexedBlock(idx, j.sigs, want);
        if idx.StrongOf(want) == strong {
          return Some(Wrap32(want));
        }
      }
    }
    matched := FindFirst(idx, cands, strong, j.sigs);
  }

  method FindFirst(idx: SigIndex, cands: seq<u32>, strong: Strong, ghost sigs: seq<Sig>)
    returns (matched: Option<nat>)
    requires idx.Represents(sigs) && forall k :: 0 <= k < |cands| ==> cands[k] < |sigs|
    ensures matched == FirstAmong(sigs, cands, strong)
  {
    hide SigIndex.Represents, SigIndex.StrongOf;
    assert cands[0..] == cands;
    for k := 0 to |cands|
      invariant FirstAmong(sigs, cands, strong) == FirstAmong(sigs, cands[k..], strong)
    {
      IndexedBlock(idx, sigs, cands[k]);
      assert cands[k..][1..] == cands[k + 1..];
      if idx.StrongOf(cands[k]) == strong {
        return Some(cands[k]);
      }
    }
    return None;
  }

  lemma SigOfParts(h: Hash, w: Blob)
    ensures SigOf(h, w) == Sig(Weak(w), h(w)[..STRONG_LEN])
  {
  }

  /** `buf.copy_within(from..filled, 0)`. */
  method ShiftDown(buf: array<byte>, from: nat, filled: nat)
    requires from <= filled <= buf.Length
    modifies buf
    ensures buf[..filled - from] == old(buf[from..filled])
  {
    forall i | 0 <= i < filled - from {
      buf[i] := buf[from + i];
    }
  }

  /** Offset in the source of the first buffered byte. */
  ghost function Offset(src: Reader, filled: nat): nat
    requires filled <= src.at
    reads src
  {
    src.at - filled
  }

  /** The buffer holds the `filled` source bytes read last. */
  ghost predicate Buffered(src: Reader, buf: array<byte>, filled: nat)
    reads src, buf
  {
    src.Valid() && filled <= src.at && filled <= buf.Length &&
    buf[..filled] == src.data[Offset(src, filled)..src.at]
  }

  lemma BufferedPart(src: Reader, buf: array<byte>, filled: nat, a: nat, b: nat)
    requires Buffered(src, buf, filled) && a <= b <= filled
    ensures buf[a..b] == src.data[Offset(src, filled) + a..Offset(src, filled) + b]
  {
    var held := buf[..filled];
    assert |held| == filled && forall i :: 0 <= i < filled ==> held[i] == buf[i];
    assert buf[a..b] == held[a..b];
    SliceOfSlice(src.data, Offset(src, filled), src.at, a, b);
  }

  lemma SliceOfSlice(s: Blob, lo: nat, hi: nat, a: nat, b: nat)
    requires lo <= hi <= |s| && a <= b <= hi - lo
    ensures s[lo..hi][a..b] == s[lo + a..lo + b]
  {
    var part := s[lo..hi];
    assert forall i :: 0 <= i < |part| ==> part[i] == s[lo + i];
    assert part[a..b] == s[lo + a..lo + b];
  }

  /** Forget the first `n` buffered bytes. */
  method Drop(src: Reader, buf: array<byte>, n: nat, filled: nat) returns (filled': nat)
    requires Buffered(src, buf, filled) && n <= filled
    modifies buf
    ensures Buffered(src, buf, filled') && filled' == filled - n
  {
    BufferedPart(src, buf, filled, n, filled);
    filled' := filled;
    if n > 0 {
      ShiftDown(buf, n, filled);
      filled' := filled - n;
    }
  }

  /** One read behind the buffered bytes; no bytes means the end of the file,
      because there is always room. */
  method Fill(src: Reader, buf: array<byte>, filled: nat) returns (filled': nat, eof: bool)
    requires Buffered(src, buf, filled) && filled < buf.Length
    modifies src`at, buf
    ensures Buffered(src, buf, filled') && Offset(src, filled') == old(Offset(src, filled))
    ensures eof <==> old(src.at) == |src.data|
    ensures if eof then src.at == old(src.at) else src.at > old(src.at)
  {
    ghost var off, before := Offset(src, filled), src.at;
    var n := src.Read(buf, filled);
    assert buf[..filled + n] == buf[..filled] + buf[filled..filled + n];
    assert src.data[off..before] + src.data[before..src.at] == src.data[off..src.at];
    filled', eof := filled + n, n == 0;
  }

  /** The loop invariant of `produce_delta`: `buf[lit..pos]` is known to be
      literal, windows before `pos` are dealt with. */
  ghost predicate Scanning(src: Reader, buf: array<byte>, sink: Sink, filled: nat, lit: nat, pos: nat,
                           j: Job, done: seq<nat>, blocks: seq<nat>)
    reads src, buf, sink
    ensures Scanning(src, buf, sink, filled, lit, pos, j, done, blocks) ==>
              lit <= pos <= filled <= buf.Length && filled <= src.at <= |src.data| && j.src == src.data
  {
    && j.src == src.data
    && Buffered(src, buf, filled)
    && lit <= pos <= filled
    && Tracking(j, sink.Value(), done, blocks, Offset(src, filled) + lit, Offset(src, filled) + pos)
  }

  /** The batch accounts for the source before `lit`, and is what a scan has when
      it comes to `pos`. */
  ghost predicate Tracking(j: Job, v: Batch, done: seq<nat>, blocks: seq<nat>, lit: nat, pos: nat)
  {
    |v.pending| < CHUNK && Tallied(v, lit) && Traced(j, v, done, blocks, lit, pos)
  }

  /** Drop `n` bytes and read more: the buffer moves on by `n`. */
  method Advance(src: Reader, buf: array<byte>, n: nat, filled: nat) returns (filled': nat, eof: bool)
    requires Buffered(src, buf, filled) && n <= filled && filled - n < buf.Length
    modifies src`at, buf
    ensures Buffered(src, buf, filled') && filled' <= src.at && Offset(src, filled') == old(Offset(src, filled)) + n
    ensures eof <==> old(src.at) == |src.data|
    ensures if eof then src.at == old(src.at) else src.at > old(src.at)
  {
    hide Buffered;
    filled' := Drop(src, buf, n, filled);
    filled', eof := Fill(src, buf, filled');
  }

  /** Hand the known literals to the batch. */
  method Flush(src: Reader, buf: array<byte>, sink: Sink, filled: nat, lit: nat, pos: nat,
               ghost j: Job, ghost done: seq<nat>, ghost blocks: seq<nat>)
    requires Scanning(src, buf, sink, filled, lit, pos, j, done, blocks)
    modifies sink
    ensures Scanning(src, buf, sink, filled, pos, pos, j, done, blocks)
  {
    hide Traced, AddBytes, Tallied;
    ghost var off, v := Offset(src, filled), sink.Value();
    TraceFlush(j, v, done, blocks, off + lit, off + pos);
    AddBytesTallies(v, j.src[off + lit..off + pos], off + lit);
    BufferedPart(src, buf, filled, lit, pos);
    if lit < pos {
      sink.FlushLiteral(buf[lit..pos]);
    } else {
      AddNothing(v);
    }
  }

  /** Batch the known literals, drop everything before `pos` and read more.
      The source writes this out at both places that need it. */
  method Refill(src: Reader, buf: array<byte>, sink: Sink, filled: nat, lit: nat, pos: nat,
                ghost j: Job, ghost done: seq<nat>, ghost blocks: seq<nat>)
    returns (filled': nat, eof: bool)
    requires Scanning(src, buf, sink, filled, lit, pos, j, done, blocks) && filled - pos < buf.Length
    modifies src`at, buf, sink
    ensures Scanning(src, buf, sink, filled', 0, 0, j, done, blocks)
    ensures eof <==> old(src.at) == |src.data|
    ensures if eof then src.at == old(src.at) else src.at > old(src.at)
  {
    Flush(src, buf, sink, filled, lit, pos, j, done, blocks);
    hide Tracking, Buffered, Offset;
    filled', eof := Advance(src, buf, pos, filled);
  }

  /** Checksum the window at `pos`, unless a roll already did, and look it up. */
  method TestWindow(h: Hash, idx: SigIndex, src: Reader, buf: array<byte>, sink: Sink, filled: nat, lit: nat,
                    pos: nat, roll: Option<Rolling>, ghost j: Job, ghost done: seq<nat>, ghost blocks: seq<nat>)
    returns (r: Rolling, matched: Option<nat>)
    requires Scanning(src, buf, sink, filled, lit, pos, j, done, blocks)
    requires j.h == h && j.bs == idx.blockSize && idx.Represents(j.sigs)
    requires pos + idx.blockSize <= filled <= buf.Length && filled <= src.at
    requires roll.Some? ==> roll.value == Exact(buf[pos..pos + idx.blockSize])
    ensures r == Exact(buf[pos..pos + idx.blockSize])
    ensures Offset(src, filled) + pos + j.bs <= |j.src|
    ensures matched == Lookup(j.sigs, j.bs, SigAt(j, Offset(src, filled) + pos), sink.copy)
    ensures matched.Some? ==> matched.value < |j.sigs|
  {
    hide Exact, SigIndex.Represents, Traced, Tallied, Lookup;
    var window := buf[pos..pos + idx.blockSize];
    BufferedPart(src, buf, filled, pos, pos + idx.blockSize);
    if roll.Some? {
      r := roll.value;
    } else {
      r := NewRolling(window);
    }
    matched := FindBlock(h, idx, window, r.Digest(), sink.copy, j);
  }

  /** A matched window: batch the literal gap before it, then the block. */
  method Hit(src: Reader, buf: array<byte>, sink: Sink, filled: nat, lit: nat, pos: nat, bs: nat, start: nat,
             ghost block: nat, ghost j: Job, ghost done: seq<nat>, ghost blocks: seq<nat>)
    requires Scanning(src, buf, sink, filled, lit, pos, j, done, blocks) && bs == j.bs && pos + bs <= filled
    requires filled <= src.at && Offset(src, filled) + pos + bs <= |j.src|
    requires Lookup(j.sigs, j.bs, SigAt(j, Offset(src, filled) + pos), sink.copy) == Some(block)
    requires start == BlockStart(j, block)
    modifies sink
    ensures Scanning(src, buf, sink, filled, pos + bs, pos + bs, j,
                     done + [Offset(src, filled) + pos], blocks + [block])
  {
    hide Traced, AddBytes, AddBlock, Lookup, SigAt, BlockStart, Tallied;
    ghost var off, v := Offset(src, filled), sink.Value();
    TraceHit(j, v, done, blocks, off + lit, off + pos, block);
    AddBytesTallies(v, j.src[off + lit..off + pos], off + lit);
    AddBlockTallies(AddBytes(v, j.src[off + lit..off + pos]), start, bs, off + pos);
    BufferedPart(src, buf, filled, lit, pos);
    if lit < pos {
      sink.FlushLiteral(buf[lit..pos]);
    } else {
      AddNothing(v);
    }
    sink.Block(start, bs);
  }

  /** No match: slide the window by one byte. */
  method Slide(src: Reader, buf: array<byte>, sink: Sink, filled: nat, lit: nat, pos: nat, bs: nat, r: Rolling,
               ghost j: Job, ghost done: seq<nat>, ghost blocks: seq<nat>)
    returns (r': Rolling)
    requires Scanning(src, buf, sink, filled, lit, pos, j, done, blocks) && bs == j.bs
    requires pos + 1 + bs <= filled <= buf.Length && filled <= src.at && r == Exact(buf[pos..pos + bs])
    requires Offset(src, filled) + pos + bs <= |j.src|
    requires Lookup(j.sigs, j.bs, SigAt(j, Offset(src, filled) + pos), sink.copy) == None
    ensures Scanning(src, buf, sink, filled, lit, pos + 1, j, done, blocks)
    ensures r' == Exact(buf[pos + 1..pos + 1 + bs])
  {
    hide Traced, Exact, Rolling.Roll, Lookup, SigAt, Tallied;
    ghost var off := Offset(src, filled);
    TraceMiss(j, sink.Value(), done, blocks, off + lit, off + pos);
    var window := buf[pos..pos + bs];
    RollIsExact(window, buf[pos + bs]);
    assert window[1..] + [buf[pos + bs]] == buf[pos + 1..pos + 1 + bs];
    r' := r.Roll(buf[pos], buf[pos + bs]);
  }

  /** End of the file: the rest is literal. */
  method Complete(src: Reader, buf: array<byte>, sink: Sink, filled: nat, lit: nat, pos: nat,
                  ghost j: Job, ghost done: seq<nat>, ghost blocks: seq<nat>)
    requires Scanning(src, buf, sink, filled, lit, pos, j, done, blocks) && src.at == |src.data|
    requires filled <= src.at
    requires pos + j.bs > filled || (pos + 1 + j.bs > filled && Offset(src, filled) + pos + j.bs <= |j.src| &&
               Lookup(j.sigs, j.bs, SigAt(j, Offset(src, filled) + pos), sink.copy) == None)
    modifies sink
    ensures IsScan(j, done, blocks, sink.Value())
    ensures Tallied(sink.Value(), |j.src|) && sink.copy.None? && sink.pending == []
  {
    hide Traced, AddBytes, Finish, IsScan, Tallied, Lookup, SigAt;
    ghost var off := Offset(src, filled);
    if pos + j.bs > filled {
      TraceEnd(j, sink.Value(), done, blocks, off + lit, off + pos);
    } else {
      TraceMiss(j, sink.Value(), done, blocks, off + lit, off + pos);
      TraceEnd(j, sink.Value(), done, blocks, off + lit, off + pos + 1);
    }
    AddBytesTallies(sink.Value(), j.src[off + lit..off + filled], off + lit);
    FinishTallies(AddBytes(sink.Value(), j.src[off + lit..off + filled]), off + filled);
    BufferedPart(src, buf, filled, lit, filled);
    assert j.src[off + lit..] == j.src[off + lit..off + filled];
    AddNothing(sink.Value());
    if lit < filled {
      sink.FlushLiteral(buf[lit..filled]);
    }
    sink.Close();
  }

  lemma StartScanning(src: Reader, buf: array<byte>, sink: Sink, j: Job)
    requires src.Valid() && src.at == 0 && j.src == src.data && sink.Value() == EMPTY
    ensures Scanning(src, buf, sink, 0, 0, 0, j, [], [])
  {
    hide Traced, Tallied;
    TraceStart(j);
    EmptyTallies();
  }

  /** `produce_delta`: whatever the sizes of the reads and of the index, the
      outcome is that of a scan as `DeltaTrace` describes it, and every byte of
      the source is counted once. */
  method ProduceDelta(h: Hash, src: Reader, idx: SigIndex, ghost j: Job)
    returns (sink: Sink, ghost done: seq<nat>, ghost blocks: seq<nat>)
    requires src.Valid() && src.at == 0
    requires idx.blockSize == j.bs && idx.Represents(j.sigs)
    requires j.h == h && j.src == src.data
    modifies src
    ensures fresh(sink) && IsScan(j, done, blocks, sink.Value())
    ensures Tallied(sink.Value(), |j.src|) && sink.copy.None? && sink.pending == []
  {
    hide Exact, IsScan, SigIndex.Represents, SigOf, Buffered, AddBytes, SigAt, Lookup, Tallied, Tracking, BlockStart,
      Offset;
    var bs := idx.blockSize;
    var buf := new byte[READ_CHUNK + bs](_ => 0);
    var filled: nat, pos: nat, lit: nat, eof := 0, 0, 0, false;
    var roll: Option<Rolling> := None;
    sink := new Sink();
    done, blocks := [], [];
    assert Scanning(src, buf, sink, 0, 0, 0, j, done, blocks) by {
      StartScanning(src, buf, sink, j);
    }
    hide Scanning;
    while true
      invariant fresh(buf) && fresh(sink) && buf.Length == READ_CHUNK + bs
      invariant Scanning(src, buf, sink, filled, lit, pos, j, done, blocks)
      invariant roll.Some? ==> pos + bs <= filled && roll.value == Exact(buf[pos..pos + bs])
      invariant eof ==> src.at == |src.data|
      decreases |src.data| - src.at, !eof, filled - pos
    {
      if pos + bs > filled {
        if eof {
          break;
        }
        filled, eof := Refill(src, buf, sink, filled, lit, pos, j, done, blocks);
        pos, lit, roll := 0, 0, None;
        continue;
      }
      var r, matched := TestWindow(h, idx, src, buf, sink, filled, lit, pos, roll, j, done, blocks);
      if matched.Some? {
        var start := matched.value * bs;
        BlockStartIs(j, matched.value);
        Hit(src, buf, sink, filled, lit, pos, bs, start, matched.value, j, done, blocks);
        done, blocks := done + [Offset(src, filled) + pos], blocks + [matched.value];
        pos := pos + bs;
        lit, roll := pos, None;
      } else if pos + 1 + bs <= filled {
        r := Slide(src, buf, sink, filled, lit, pos, bs, r, j, done, blocks);
        pos, roll := pos + 1, Some(r);
      } else if eof {
        break;
      } else {
        filled, eof := Refill(src, buf, sink, filled, lit, pos, j, done, blocks);
        pos, lit, roll := 0, 0, None;
      }
    }
    Complete(src, buf, sink, filled, lit, pos, j, done, blocks);
  }
}
