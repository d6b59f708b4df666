/** The data phase of the sender, and the transfer as a whole. */
module Sending {
  import opened Bytes
  import opened FileReader
  import opened Signatures
  import opened Emitter
  import G = Greedy
  import opened BlockLookup
  import opened DeltaTrace
  import opened DeltaScan
  import opened DeltaRebuild
  import opened DeltaBounds
  import L = DeltaLong
  import opened Receiving
  import opened Planning
  import opened Delivery
  import Multiples

  // ------------------------------------------------------------- whole files

  /** Data frames of at most one chunk that spell out the source. */
  ghost predicate IsWhole(src: Blob, ops: seq<Op>)
  {
    && (forall k :: 0 <= k < |ops| ==> ops[k].Data? && 1 <= |ops[k].bytes| <= CHUNK)
    && Rebuild([], ops) == src
  }

  lemma {:induction false} DataNeedsNoBase(base: Blob, ops: seq<Op>)
    requires forall k :: 0 <= k < |ops| ==> ops[k].Data?
    ensures Rebuild(base, ops) == Rebuild([], ops) && CopiesFit(base, ops)
  {
    if ops != [] {
      DataNeedsNoBase(base, ops[..|ops| - 1]);
    }
  }

  /** `stream_local_file`: one frame per read. */
  method StreamWhole(src: Blob) returns (ops: seq<Op>)
    ensures IsWhole(src, ops)
  {
    hide Rebuild;
    var f := new Reader(src);
    var buf := new byte[CHUNK](_ => 0);
    ops := [];
    assert Rebuild([], []) == [] by { RebuildNothing(); }
    while true
      invariant f.Valid() && f.data == src && fresh(f) && fresh(buf) && buf.Length == CHUNK
      invariant forall k :: 0 <= k < |ops| ==> ops[k].Data? && 1 <= |ops[k].bytes| <= CHUNK
      invariant Rebuild([], ops) == src[..f.at]
      decreases |src| - f.at
    {
      ghost var before := f.at;
      var n := f.Read(buf, 0);
      if n == 0 {
        break;
      }
      var data := buf[..n];
      assert data == buf[0..0 + n];
      assert src[..before] + src[before..f.at] == src[..f.at];
      RebuildOne([], ops, Data(data));
      ops := ops + [Data(data)];
    }
    assert src[..|src|] == src;
  }

  lemma RebuildNothing()
    ensures Rebuild([], []) == []
  {
  }

  // --------------------------------------------------------------- one file

  /** How many signatures the sender believes it has: the push side counts the
      bytes it received, the pull side uses the announced block count. */
  function SigCount(dir: Direction, slot: Slot): nat
  {
    if dir.Push? then |slot.sigs| / SIG_LEN else slot.blockCount
  }

  /** `SigIndex::new` accepts the slot. */
  predicate Indexable(dir: Direction, slot: Slot)
  {
    slot.blockSize != 0 && |slot.sigs| == SigCount(dir, slot) * SIG_LEN
  }

  ghost function JobFor(h: Hash, dir: Direction, slot: Slot, src: Blob): G.Job
    requires Indexable(dir, slot)
  {
    G.Job(h, DecodeSigs(slot.sigs, SigCount(dir, slot)), slot.blockSize, src)
  }

  /** What the sender may do for a file, given what it knows. */
  ghost predicate MaySend(h: Hash, dir: Direction, slot: Slot, src: Blob, item: Item)
  {
    match slot.plan
    case Skip => item == Nothing
    case Whole => item.Stream? && IsWhole(src, item.ops)
    case Delta =>
      && Indexable(dir, slot)
      && item.Stream?
      && exists out: Batch :: out.ops == item.ops && Outcome(JobFor(h, dir, slot, src), out)
  }

  /** What `ProduceDelta` promises: a scan that accounts for every byte. */
  ghost predicate Outcome(j: G.Job, out: Batch)
  {
    && Tallied(out, |j.src|) && out.copy.None? && out.pending == []
    && exists done, blocks :: IsScan(j, done, blocks, out)
  }

  /** Values that a frame and a signature list in memory can have. */
  predicate SlotInRange(slot: Slot)
  {
    slot.plan.Delta? ==>
      slot.blockSize < 0x1_0000_0000 && slot.blockCount < 0x1_0000_0000_0000_0000 &&
      |slot.sigs| < 0x1_0000_0000_0000_0000
  }

  method SendFile(h: Hash, dir: Direction, slot: Slot, src: Blob) returns (r: Result<Item>)
    requires SlotInRange(slot)
    ensures r.Ok? ==> MaySend(h, dir, slot, src, r.value)
    ensures r.Err? <==> slot.plan.Delta? && !Indexable(dir, slot)
  {
    hide IsWhole, DecodeSigs, Bucket, Strongs, IsScan, Tallied, Outcome;
    match slot.plan {
      case Skip => return Ok(Nothing);
      case Whole =>
        var ops := StreamWhole(src);
        return Ok(Stream(ops));
      case Delta =>
        var count := SigCount(dir, slot);
        var idx := NewIndex(slot.blockSize, count, slot.sigs);
        if idx.Err? {
          return Err(idx.message);
        }
        var f := new Reader(src);
        ghost var j := JobFor(h, dir, slot, src);
        var sink, done, blocks := ProduceDelta(h, f, idx.value, j);
        DeltaIntro(j, done, blocks, sink.Value());
        return Ok(Stream(sink.ops));
    }
  }

  lemma DeltaIntro(j: G.Job, done: seq<nat>, blocks: seq<nat>, out: Batch)
    requires IsScan(j, done, blocks, out)
    requires Tallied(out, |j.src|) && out.copy.None? && out.pending == []
    ensures Outcome(j, out)
  {
    hide Tallied, IsScan;
  }

  // ----------------------------------------------------------- byte accounting

  function ItemBytes(item: Item, src: Blob): nat
  {
    match item
    case Nothing => |src|
    case Stream(ops) => LiteralBytes(ops) + CopiedBytes(ops)
  }

  /** Whatever is sent for a file accounts for each of its bytes once, as sent
      or as reused; hash collisions cannot change that. */
  lemma SendConserves(h: Hash, dir: Direction, slot: Slot, src: Blob, item: Item)
    requires MaySend(h, dir, slot, src, item)
    ensures ItemBytes(item, src) == |src|
  {
    hide Rebuild, IsScan, LiteralBytes, CopiedBytes, DecodeSigs;
    match slot.plan
    case Skip =>
    case Whole =>
      DataNeedsNoBase([], item.ops);
      BytesAddUp([], item.ops);
    case Delta =>
      var out: Batch :| out.ops == item.ops && Outcome(JobFor(h, dir, slot, src), out);
  }

  // ------------------------------------------------------ the right thing is sent

  function BaseIn(files: Files, p: Path): Option<Blob>
  {
    if p in files then Some(files[p]) else None
  }

  /** The hash hypotheses for one file: the whole-file hash decides equality
      with the receiver's copy, and equal block signatures mean equal blocks. */
  ghost predicate Collisionless(h: Hash, base: Option<Blob>, src: Blob)
  {
    base.Some? ==>
      var b, bs := base.value, ChooseBlockSize(|base.value|);
      && (h(b) == h(src) ==> b == src)
      && NoCollision(G.Job(h, SigsOf(h, b, bs), bs, src), b)
  }

  /** The sender knows the receiver's answer, or has to send the file whole. */
  ghost predicate Informed(dir: Direction, slot: Slot, a: Answer)
  {
    slot == Told(dir, a) || slot.plan.Whole?
  }

  lemma AnswerIndex(h: Hash, dir: Direction, b: Blob, src: Blob, slot: Slot)
    requires var a := AnswerFor(h, Some(b), |src|, h(src)); a.plan.Delta? && slot == Told(dir, a)
    ensures var bs := ChooseBlockSize(|b|);
            Indexable(dir, slot) && JobFor(h, dir, slot, src) == G.Job(h, SigsOf(h, b, bs), bs, src)
  {
    hide *;
    var bs := ChooseBlockSize(|b|);
    var sigs := SigsOf(h, b, bs);
    DeltaAnswer(h, b, |src|, h(src));
    ToldParts(dir, AnswerFor(h, Some(b), |src|, h(src)));
    SigsRoundTrip(sigs, []);
    assert EncodeSigs(sigs) + [] == EncodeSigs(sigs);
    ToldIndex(h, dir, slot, src, sigs);
  }

  lemma ToldParts(dir: Direction, a: Answer)
    ensures var s := Told(dir, a);
            && s.plan == a.plan && s.blockSize == a.blockSize && s.sigs == a.sigs
            && (dir.Pull? ==> s.blockCount == a.blockCount)
  {
  }

  lemma DeltaAnswer(h: Hash, b: Blob, size: nat, sha: Digest)
    requires AnswerFor(h, Some(b), size, sha).plan.Delta?
    ensures var bs := ChooseBlockSize(|b|);
            AnswerFor(h, Some(b), size, sha) == Answer(Delta, bs, |SigsOf(h, b, bs)|, EncodeSigs(SigsOf(h, b, bs)))
  {
    hide SigsOf, EncodeSigs, ChooseBlockSize, WorthDelta;
  }

  lemma ToldIndex(h: Hash, dir: Direction, slot: Slot, src: Blob, sigs: seq<Sig>)
    requires slot.blockSize > 0 && |slot.sigs| == SIG_LEN * |sigs| && (dir.Pull? ==> slot.blockCount == |sigs|)
    requires DecodeSigs(slot.sigs, |sigs|) == sigs
    ensures Indexable(dir, slot) && JobFor(h, dir, slot, src) == G.Job(h, sigs, slot.blockSize, src)
  {
    hide DecodeSigs;
  }

  /** A sender that follows what it was told, or sends whole, is faithful. */
  lemma SendIsFaithful(h: Hash, dir: Direction, base: Option<Blob>, slot: Slot, src: Blob, item: Item)
    requires var a := AnswerFor(h, base, |src|, h(src)); Informed(dir, slot, a)
    requires Collisionless(h, base, src) && MaySend(h, dir, slot, src, item) && Found(h, base, src)
    ensures var a := AnswerFor(h, base, |src|, h(src));
            var used := if a.plan.Delta? then base else None;
            match item
            case Nothing => base == Some(src)
            case Stream(ops) => Applicable(used, ops) && Rebuild(BaseBytes(used), ops) == src
  {
    var a := AnswerFor(h, base, |src|, h(src));
    var used := if a.plan.Delta? then base else None;
    match slot.plan
    case Skip =>
      assert a.plan.Skip?;
    case Whole =>
      hide Rebuild, AnswerFor, NoCollision;
      DataNeedsNoBase(BaseBytes(used), item.ops);
    case Delta =>
      AnswerIndex(h, dir, base.value, src, slot);
      hide Rebuild, NoCollision, IsScan, G.IsDeltaOf, SigsOf, AnswerFor, CopiesFit, Tallied;
      var j := JobFor(h, dir, slot, src);
      var out: Batch :| out.ops == item.ops && Outcome(j, out);
      var done, blocks :| IsScan(j, done, blocks, out);
      ScanIsFaithful(h, base.value, src, done, blocks, out);
  }

  /** A base of at most 2^51 bytes: its blocks have 32-bit numbers. */
  predicate Numbered(base: Option<Blob>)
  {
    base.Some? ==> |base.value| <= 0x8_0000_0000_0000
  }

  /** Block numbers lead to the right blocks: there are few of them, or block 2^32
      equals block 0 and no strong hash misleads. */
  ghost predicate Found(h: Hash, base: Option<Blob>, src: Blob)
  {
    base.Some? ==>
      var b, bs := base.value, ChooseBlockSize(|base.value|);
      Numbered(base) || (L.NoStrongCollision(L.JobFor(h, b, bs, src), b) && L.Harmless(b, bs))
  }

  lemma ScanIsFaithful(h: Hash, b: Blob, src: Blob, done: seq<nat>, blocks: seq<nat>, out: Batch)
    requires Found(h, Some(b), src) && Collisionless(h, Some(b), src)
    requires IsScan(L.JobFor(h, b, ChooseBlockSize(|b|), src), done, blocks, out)
    ensures CopiesFit(b, out.ops) && Rebuild(b, out.ops) == src
  {
    hide IsScan, NoCollision, L.NoStrongCollision, L.Harmless, Repeats, SigsOf, CopiesFit, Rebuild, G.IsDeltaOf;
    var bs := ChooseBlockSize(|b|);
    var j := L.JobFor(h, b, bs, src);
    if Numbered(Some(b)) {
      FewSignatures(h, b);
      ScanIsDelta(j, done, blocks, out);
      DeltaRoundTrip(j, b, out);
    } else {
      L.HarmlessRepeats(h, b, bs);
      L.ScanRoundTrip(j, b, done, blocks, out);
    }
  }

  lemma FewSignatures(h: Hash, b: Blob)
    requires |b| <= 0x8_0000_0000_0000
    ensures |SigsOf(h, b, ChooseBlockSize(|b|))| <= 0x1_0000_0000
  {
    var bs := ChooseBlockSize(|b|);
    var n := |SigsOf(h, b, bs)|;
    if n > 0 {
      SigsOfAt(h, b, bs, n - 1);
      hide SigsOf, SigOf;
      BlockLimit(|b|, n);
    }
  }

  /** Sizes are 64-bit numbers. */
  predicate Storable(base: Option<Blob>)
  {
    base.Some? ==> |base.value| < 0x1_0000_0000_0000_0000
  }

  /** The answer for any base fits the fields of its frame. */
  lemma AnswerInRange(h: Hash, dir: Direction, base: Option<Blob>, size: nat, sha: Digest)
    requires Storable(base)
    ensures SlotInRange(Told(dir, AnswerFor(h, base, size, sha)))
  {
    if base.Some? {
      hide SigsOf, SigOf;
      SignaturesFit(h, base.value);
    }
  }

  /** Large bases have large blocks, so the signature list stays addressable. */
  lemma SignaturesFit(h: Hash, b: Blob)
    requires |b| < 0x1_0000_0000_0000_0000
    ensures |SigsOf(h, b, ChooseBlockSize(|b|))| * SIG_LEN < 0x1_0000_0000_0000_0000
  {
    hide SigsOf, SigOf;
    var bs := ChooseBlockSize(|b|);
    var n := |SigsOf(h, b, bs)|;
    if n > 0 {
      SigsOfAt(h, b, bs, n - 1);
      if |b| > 512 * 1024 * KIB {
        assert bs == 512 * KIB;
      } else {
        Multiples.AtLeast(n, bs);
      }
    }
  }

  lemma BlockLimit(size: nat, n: nat)
    requires size <= 0x8_0000_0000_0000 && n * ChooseBlockSize(size) <= size
    ensures n <= 0x1_0000_0000
  {
    var bs := ChooseBlockSize(size);
    if n > 0x1_0000_0000 {
      Multiples.Less(0x1_0000_0000, n, bs);
    }
  }
}
