/** Block signatures of a base file: scanning, wire form and sender-side index. */
module Signatures {
  import opened Bytes
  import opened RollingSum
  import opened FileReader
  import Multiples

  const SIG_LEN := 20
  const STRONG_LEN := 16
  const CHUNK := 16 * 1024
  const SIGS_PER_FRAME := CHUNK / SIG_LEN
  const SIG_BATCH := SIGS_PER_FRAME * SIG_LEN
  const DELTA_MIN_SIZE := 4096
  const KIB := 1024

  /** Weak checksum plus the first 16 bytes of the strong hash. */
  datatype Sig = Sig(weak: u32, strong: Strong)

  type Strong = s: Blob | |s| == STRONG_LEN witness seq(STRONG_LEN, _ => 0)

  function SigOf(h: Hash, w: Blob): Sig
  {
    Sig(Weak(w), h(w)[..STRONG_LEN])
  }

  /** Reference: the signatures of every full block of `base`, in order. */
  function SigsOf(h: Hash, base: Blob, bs: nat): seq<Sig>
    requires bs > 0
  {
    if |base| < bs then [] else [SigOf(h, base[..bs])] + SigsOf(h, base[bs..], bs)
  }

  lemma SigsOfUnfolds(h: Hash, base: Blob, bs: nat)
    requires bs > 0
    ensures |base| < bs ==> SigsOf(h, base, bs) == []
    ensures |base| >= bs ==> SigsOf(h, base, bs) == [SigOf(h, base[..bs])] + SigsOf(h, base[bs..], bs)
  {
    hide SigOf;
  }

  lemma {:induction false} SigsOfAt(h: Hash, base: Blob, bs: nat, i: nat)
    requires bs > 0
    ensures i < |SigsOf(h, base, bs)| <==> (i + 1) * bs <= |base|
    ensures i < |SigsOf(h, base, bs)| ==>
              0 <= i * bs <= i * bs + bs <= |base| &&
              SigsOf(h, base, bs)[i] == SigOf(h, base[i * bs..i * bs + bs])
    decreases i
  {
    hide SigsOf, SigOf;
    SigsOfUnfolds(h, base, bs);
    Multiples.Next(i, bs);
    if |base| >= bs {
      if i == 0 {
        assert 0 * bs == 0;
      } else {
        Multiples.Previous(i, bs);
        SigsOfAt(h, base[bs..], bs, i - 1);
        if (i + 1) * bs <= |base| {
          BlockOfRest(base, bs, (i - 1) * bs);
        }
      }
    }
  }

  lemma BlockOfRest(base: Blob, bs: nat, at: nat)
    requires bs + at + bs <= |base|
    ensures base[bs..][at..at + bs] == base[bs + at..bs + at + bs]
  {
  }

  /** Every full block has its signature in the list: its checksum, the byte sum
      in the low half and the weighted sum in the high half, and the first half
      of its hash. */
  lemma SigsOfBlock(h: Hash, base: Blob, bs: nat, i: nat)
    requires bs > 0 && 0 <= i * bs <= i * bs + bs <= |base|
    ensures i < |SigsOf(h, base, bs)| && SigsOf(h, base, bs)[i] == SigOf(h, base[i * bs..i * bs + bs])
    ensures var w, s := base[i * bs..i * bs + bs], SigsOf(h, base, bs)[i];
      && s.weak % 0x1_0000 == ByteSum(w) % 0x1_0000 && s.weak / 0x1_0000 == WeightedSum(w) % 0x1_0000
      && s.strong == h(w)[..16]
  {
    hide *;
    Multiples.Next(i, bs);
    SigsOfAt(h, base, bs, i);
    SigIs(h, base[i * bs..i * bs + bs]);
  }

  lemma SigIs(h: Hash, w: Blob)
    ensures var s := SigOf(h, w);
      && s.weak % 0x1_0000 == ByteSum(w) % 0x1_0000 && s.weak / 0x1_0000 == WeightedSum(w) % 0x1_0000
      && s.strong == h(w)[..16]
  {
    hide ByteSum, WeightedSum, Weak;
    WeakIs(w);
  }

  /** There are as many signatures as full blocks. */
  lemma SigCount(h: Hash, base: Blob, bs: nat)
    requires bs > 0
    ensures |SigsOf(h, base, bs)| == |base| / bs
  {
    hide *;
    var n := |base| / bs;
    Multiples.Floor(|base|, bs);
    SigsOfAt(h, base, bs, n);
    if n > 0 {
      SigsOfAt(h, base, bs, n - 1);
    }
  }

  // ------------------------------------------------------------ block policy

  function ChooseBlockSize(baseSize: nat): (r: u32)
    ensures 1 <= r <= 512 * KIB
    ensures baseSize > 0 ==> r <= baseSize
  {
    var bs := if baseSize > 512 * 1024 * KIB then 512 * KIB
              else if baseSize > 64 * 1024 * KIB then 128 * KIB
              else if baseSize > 8 * 1024 * KIB then 32 * KIB
              else 8 * KIB;
    Max(Min(bs, Max(baseSize, 1)), 1)
  }

  predicate WorthDelta(baseSize: nat, sourceSize: nat, blockCount: nat)
  {
    if baseSize < DELTA_MIN_SIZE || sourceSize < DELTA_MIN_SIZE || blockCount == 0 then
      false
    else
      var sigBytes := blockCount * SIG_LEN;
      sigBytes * 8 <= sourceSize && sigBytes * 8 <= baseSize
  }

  /** What the policy achieves: larger bases never get smaller blocks, a base
      that is not empty has a full block, up to 512 MiB there are at most 4096
      blocks, and beyond that one per 512 KiB.  Blocks are never coarse either:
      beyond 8 KiB a block is at most a 256th of its base, and a base below 8 KiB
      is one block. */
  lemma BlockPolicy(size: nat, larger: nat)
    requires size <= larger
    ensures ChooseBlockSize(size) <= ChooseBlockSize(larger)
    ensures size > 0 ==> size / ChooseBlockSize(size) >= 1
    ensures size <= 512 * 1024 * KIB ==> size / ChooseBlockSize(size) <= 4096
    ensures size > 512 * 1024 * KIB ==> ChooseBlockSize(size) == 512 * KIB
    ensures ChooseBlockSize(size) <= Max(8 * KIB, size / 256)
    ensures size >= 2 * 1024 * KIB ==> size / ChooseBlockSize(size) >= 256
    ensures 0 < size <= 8 * KIB ==> ChooseBlockSize(size) == size
    ensures 8 * KIB <= size <= 8 * 1024 * KIB ==> ChooseBlockSize(size) == 8 * KIB
  {
    var bs := ChooseBlockSize(size);
    if 0 < size < 8 * KIB {
      assert bs == size;
      assert size / size == 1;
    }
  }

  /** With the chosen block size the signature list is always small beside the
      base, so only the source decides: a delta is worth it exactly when both
      files have the minimum size and the list is an eighth of the source. */
  lemma WorthDeltaExact(baseSize: nat, sourceSize: nat)
    ensures var count := baseSize / ChooseBlockSize(baseSize);
      WorthDelta(baseSize, sourceSize, count) <==>
        baseSize >= DELTA_MIN_SIZE && sourceSize >= DELTA_MIN_SIZE && count * SIG_LEN * 8 <= sourceSize
  {
    var bs := ChooseBlockSize(baseSize);
    if baseSize >= DELTA_MIN_SIZE {
      BlockPolicy(baseSize, baseSize);
      FewBlocks(baseSize, bs);
    }
  }

  lemma FewBlocks(size: nat, bs: nat)
    requires DELTA_MIN_SIZE <= bs <= size
    ensures (size / bs) * 160 <= size
  {
    var n := size / bs;
    assert n * bs <= size;
    Multiples.LeMul(n, 160, bs);
  }

  /** The non-wrapping product inside `Rolling::new` stays below 2^32 for every
      block size the policy can choose. */
  lemma ChosenBlocksDoNotOverflow(baseSize: nat, i: nat, d: byte)
    requires i <= ChooseBlockSize(baseSize)
    ensures (ChooseBlockSize(baseSize) - i) * d < 0x1_0000_0000
  {
    ProductBound(ChooseBlockSize(baseSize) - i, 512 * KIB, d);
  }

  lemma ProductBound(x: nat, most: nat, d: byte)
    requires x <= most
    ensures x * d <= most * 255
  {
    assert x * d <= most * d <= most * 255;
  }

  // --------------------------------------------------------------- scanning

  function Weaks(sigs: seq<Sig>): (r: seq<u32>)
    ensures |r| == |sigs|
  {
    if sigs == [] then [] else Weaks(sigs[..|sigs| - 1]) + [sigs[|sigs| - 1].weak]
  }

  function Strongs(sigs: seq<Sig>): (r: Blob)
    ensures |r| == STRONG_LEN * |sigs|
  {
    if sigs == [] then [] else Strongs(sigs[..|sigs| - 1]) + sigs[|sigs| - 1].strong
  }

  lemma {:induction false} WeaksAt(sigs: seq<Sig>, i: nat)
    requires i < |sigs|
    ensures Weaks(sigs)[i] == sigs[i].weak
  {
    if i < |sigs| - 1 {
      WeaksAt(sigs[..|sigs| - 1], i);
    }
  }

  lemma StrongsUnfold(sigs: seq<Sig>)
    requires sigs != []
    ensures Strongs(sigs) == Strongs(sigs[..|sigs| - 1]) + sigs[|sigs| - 1].strong
  {
  }

  lemma {:induction false} StrongsAt(sigs: seq<Sig>, i: nat)
    requires i < |sigs|
    ensures Strongs(sigs)[STRONG_LEN * i..STRONG_LEN * i + STRONG_LEN] == sigs[i].strong
  {
    hide Strongs;
    var last := |sigs| - 1;
    var init := Strongs(sigs[..last]);
    StrongsUnfold(sigs);
    if i < last {
      StrongsAt(sigs[..last], i);
      PartOfFirst(init, sigs[last].strong, STRONG_LEN * i, STRONG_LEN * i + STRONG_LEN);
    } else {
      PartLast(init, sigs[last].strong);
    }
  }

  lemma PartLast(a: Blob, b: Blob)
    ensures (a + b)[|a|..|a| + |b|] == b
  {
  }

  lemma PartOfFirst(a: Blob, b: Blob, lo: nat, hi: nat)
    requires lo <= hi <= |a|
    ensures (a + b)[lo..hi] == a[lo..hi]
  {
  }

  datatype SigSet = SigSet(blockSize: u32, blockCount: nat, weak: seq<u32>, strong: Blob,
                           fileSha: Digest, size: nat)
  {
    /** This set holds exactly the signatures `sigs`. */
    ghost predicate Lists(sigs: seq<Sig>) {
      blockCount == |sigs| && weak == Weaks(sigs) && strong == Strongs(sigs)
    }
  }

  /** `sigs` are the signatures found before offset `at`, stored in `weak` and `strong`. */
  ghost predicate BlocksScanned(h: Hash, base: Blob, bs: nat, at: nat, sigs: seq<Sig>, weak: seq<u32>, strong: Blob)
    requires bs > 0
  {
    && at <= |base|
    && weak == Weaks(sigs)
    && strong == Strongs(sigs)
    && SigsOf(h, base, bs) == sigs + SigsOf(h, base[at..], bs)
  }

  lemma BlocksStart(h: Hash, base: Blob, bs: nat)
    requires bs > 0
    ensures BlocksScanned(h, base, bs, 0, [], [], [])
  {
    assert base[0..] == base && [] + SigsOf(h, base, bs) == SigsOf(h, base, bs);
  }

  lemma BlocksStep(h: Hash, base: Blob, bs: nat, at: nat, sigs: seq<Sig>, weak: seq<u32>, strong: Blob)
    requires bs > 0 && at + bs <= |base| && BlocksScanned(h, base, bs, at, sigs, weak, strong)
    ensures var s := SigOf(h, base[at..at + bs]);
            && s == Sig(Weak(base[at..at + bs]), h(base[at..at + bs])[..STRONG_LEN])
            && BlocksScanned(h, base, bs, at + bs, sigs + [s], weak + [s.weak], strong + s.strong)
  {
    var s := SigOf(h, base[at..at + bs]);
    var rest := SigsOf(h, base[at + bs..], bs);
    assert (sigs + [s])[..|sigs|] == sigs;
    assert SigsOf(h, base[at..], bs) == [s] + rest by {
      assert base[at..][..bs] == base[at..at + bs] && base[at..][bs..] == base[at + bs..];
    }
    assert (sigs + [s]) + rest == sigs + ([s] + rest);
  }

  lemma BlocksEnd(h: Hash, base: Blob, bs: nat, at: nat, sigs: seq<Sig>, weak: seq<u32>, strong: Blob)
    requires bs > 0 && BlocksScanned(h, base, bs, at, sigs, weak, strong) && |base| - at < bs
    ensures sigs == SigsOf(h, base, bs) && weak == Weaks(sigs) && strong == Strongs(sigs)
  {
    assert SigsOf(h, base[at..], bs) == [] && sigs + [] == sigs;
  }

  /** `SigSet::scan`: hash the whole file and every full block in one pass. */
  method ScanFile(h: Hash, base: Blob, blockSize: u32) returns (r: SigSet)
    ensures r.Lists(SigsOf(h, base, Max(blockSize, 1)))
    ensures r.fileSha == h(base) && r.size == |base| && r.blockSize == blockSize
  {
    hide BlocksScanned, SigsOf, Weaks, Strongs, SigOf;
    var f := new Reader(base);
    var bs := Max(blockSize, 1);
    var buf := new byte[bs](_ => 0);
    var hashed: Blob, weak: seq<u32>, strong: Blob := [], [], [];
    ghost var sigs, at := [], 0;
    BlocksStart(h, base, bs);
    while true
      invariant f.Valid() && f.data == base && fresh(f) && fresh(buf) && buf.Length == bs
      invariant hashed == base[..f.at]
      invariant at == f.at && BlocksScanned(h, base, bs, at, sigs, weak, strong)
      decreases |base| - f.at
    {
      var from := f.at;
      var n := f.ReadFull(buf);
      if n == 0 {
        break;
      }
      var block := buf[..n];
      assert block == base[from..from + n];
      hashed := hashed + block;
      if n == bs {
        var c := NewRolling(block);
        BlocksStep(h, base, bs, from, sigs, weak, strong);
        weak := weak + [c.Digest()];
        strong := strong + h(block)[..STRONG_LEN];
        sigs, at := sigs + [Sig(c.Digest(), h(block)[..STRONG_LEN])], at + bs;
      }
      if n < bs {
        break;
      }
    }
    BlocksEnd(h, base, bs, at, sigs, weak, strong);
    assert hashed == base;
    r := SigSet(blockSize, |weak|, weak, strong, h(hashed), |base|);
  }

  // -------------------------------------------------------------- wire form

  function EncodeSig(s: Sig): (r: Blob)
    ensures |r| == SIG_LEN
  {
    ToBigEndian(s.weak, 4) + s.strong
  }

  function EncodeSigs(sigs: seq<Sig>): (r: Blob)
    ensures |r| == SIG_LEN * |sigs|
  {
    if sigs == [] then [] else EncodeSigs(sigs[..|sigs| - 1]) + EncodeSig(sigs[|sigs| - 1])
  }

  /** Record `i` takes 20 bytes: the checksum, high byte first, and the hash. */
  lemma {:induction false} SigRecord(sigs: seq<Sig>, i: nat)
    requires i < |sigs|
    ensures var b := EncodeSigs(sigs)[20 * i..20 * i + 20]; var w := sigs[i].weak;
      && b[..4] == [w / 0x100_0000, w / 0x1_0000 % 0x100, w / 0x100 % 0x100, w % 0x100]
      && b[4..] == sigs[i].strong
  {
    var last := |sigs| - 1;
    assert EncodeSigs(sigs) == EncodeSigs(sigs[..last]) + EncodeSig(sigs[last]);
    hide EncodeSigs;
    if i < last {
      SigRecord(sigs[..last], i);
      PartOfFirst(EncodeSigs(sigs[..last]), EncodeSig(sigs[last]), 20 * i, 20 * i + 20);
    } else {
      OneRecord(sigs[last]);
      var init, all := EncodeSigs(sigs[..last]), EncodeSigs(sigs);
      assert |init| == 20 * last && |all| == 20 * last + 20;
      assert all[20 * last..20 * last + 20] == EncodeSig(sigs[last]);
    }
  }

  lemma OneRecord(s: Sig)
    ensures var b := EncodeSig(s); var w := s.weak;
      && |b| == 20 && b[4..] == s.strong
      && b[..4] == [w / 0x100_0000, w / 0x1_0000 % 0x100, w / 0x100 % 0x100, w % 0x100]
  {
    var w := s.weak;
    assert w / 0x100 / 0x100 == w / 0x1_0000 && w / 0x1_0000 / 0x100 == w / 0x100_0000;
    assert ToBigEndian(w / 0x100_0000, 1) == [w / 0x100_0000];
    assert ToBigEndian(w / 0x1_0000, 2) == [w / 0x100_0000, w / 0x1_0000 % 0x100];
    assert ToBigEndian(w / 0x100, 3) == ToBigEndian(w / 0x1_0000, 2) + [w / 0x100 % 0x100];
  }

  /** `SigSet::encode`. */
  method EncodeSet(sigSet: SigSet, ghost sigs: seq<Sig>) returns (out: Blob)
    requires sigSet.Lists(sigs)
    ensures out == EncodeSigs(sigs)
  {
    out := [];
    for i := 0 to |sigSet.weak|
      invariant out == EncodeSigs(sigs[..i])
    {
      WeaksAt(sigs, i);
      StrongsAt(sigs, i);
      out := out + ToBigEndian(sigSet.weak[i], 4);
      out := out + sigSet.strong[STRONG_LEN * i..STRONG_LEN * i + STRONG_LEN];
      assert sigs[..i + 1][..i] == sigs[..i];
    }
    assert sigs[..|sigs|] == sigs;
  }

  // -------------------------------------------------------------- the index

  /** Sender-side view of the receiver's signatures. */
  datatype SigIndex = SigIndex(blockSize: u32, blockCount: nat, strong: Blob, byWeak: map<u32, seq<u32>>)
  {
    /** The index answers exactly like the list `sigs`. */
    ghost predicate Represents(sigs: seq<Sig>) {
      && blockCount == |sigs|
      && strong == Strongs(sigs)
      && (forall w :: w in byWeak <==> Bucket(sigs, w) != [])
      && (forall w :: w in byWeak ==> byWeak[w] == Bucket(sigs, w))
    }

    function StrongOf(block: nat): Blob
      requires |strong| == STRONG_LEN * blockCount && block < blockCount
    {
      strong[STRONG_LEN * block..STRONG_LEN * block + STRONG_LEN]
    }
  }

  /** What the index stores for one weak checksum: block numbers cast to u32. */
  function Bucket(sigs: seq<Sig>, w: u32): seq<u32>
  {
    if sigs == [] then []
    else
      var last := |sigs| - 1;
      Bucket(sigs[..last], w) + if sigs[last].weak == w then [Wrap32(last)] else []
  }

  /** The signature at position `i` of a signature list in wire form. */
  function SigIn(blob: Blob, i: nat): Sig
    requires SIG_LEN * i + SIG_LEN <= |blob|
  {
    var at := SIG_LEN * i;
    Pow256Values();
    BigEndianInverse(blob[at..at + 4]);
    Sig(FromBigEndian(blob[at..at + 4]), blob[at + 4..at + SIG_LEN])
  }

  function DecodeSigs(blob: Blob, count: nat): (r: seq<Sig>)
    requires |blob| >= SIG_LEN * count
    ensures |r| == count
  {
    if count == 0 then [] else DecodeSigs(blob, count - 1) + [SigIn(blob, count - 1)]
  }

  /** `SigIndex::new`. */
  method NewIndex(blockSize: u32, blockCount: u64, blob: Blob) returns (r: Result<SigIndex>)
    ensures r.Ok? <==> blockSize != 0 && |blob| == blockCount * SIG_LEN < 0x1_0000_0000_0000_0000
    ensures r.Ok? ==> r.value.blockSize == blockSize && r.value.Represents(DecodeSigs(blob, blockCount))
  {
    if blockSize == 0 {
      return Err("bad block size 0");
    }
    var want := blockCount * SIG_LEN;
    if want >= 0x1_0000_0000_0000_0000 {
      return Err("impossible block count");
    }
    if |blob| != want {
      return Err("signature list has the wrong length");
    }
    var byWeak: map<u32, seq<u32>> := map[];
    var strong: Blob := [];
    IndexNone(blockSize, blob);
    for i := 0 to blockCount
      invariant SigIndex(blockSize, i, strong, byWeak).Represents(DecodeSigs(blob, i))
    {
      hide SigIndex.Represents, DecodeSigs, SigIn;
      var s := SigIn(blob, i);
      IndexMore(SigIndex(blockSize, i, strong, byWeak), blob, i);
      byWeak := byWeak[s.weak := (if s.weak in byWeak then byWeak[s.weak] else []) + [Wrap32(i)]];
      strong := strong + blob[SIG_LEN * i + 4..SIG_LEN * i + SIG_LEN];
    }
    return Ok(SigIndex(blockSize, blockCount, strong, byWeak));
  }

  lemma IndexNone(blockSize: u32, blob: Blob)
    ensures SigIndex(blockSize, 0, [], map[]).Represents(DecodeSigs(blob, 0))
  {
  }

  /** One more signature of the blob. */
  lemma IndexMore(idx: SigIndex, blob: Blob, i: nat)
    requires |blob| >= SIG_LEN * (i + 1) && idx.blockCount == i && idx.Represents(DecodeSigs(blob, i))
    ensures var s := SigIn(blob, i); var had := if s.weak in idx.byWeak then idx.byWeak[s.weak] else [];
      SigIndex(idx.blockSize, i + 1, idx.strong + s.strong, idx.byWeak[s.weak := had + [Wrap32(i)]])
        .Represents(DecodeSigs(blob, i + 1))
  {
    hide SigIn, Wrap32;
    var s := SigIn(blob, i);
    var before, after := DecodeSigs(blob, i), DecodeSigs(blob, i + 1);
    assert after[..i] == before && after[i] == s;
    hide DecodeSigs;
    assert forall w :: Bucket(after, w) == Bucket(before, w) + if s.weak == w then [Wrap32(i)] else [];
  }

  lemma {:induction false} DecodeSigsAt(blob: Blob, count: nat, i: nat)
    requires |blob| >= SIG_LEN * count && i < count
    ensures DecodeSigs(blob, count)[i] == SigIn(blob, i)
  {
    if i < count - 1 {
      DecodeSigsAt(blob, count - 1, i);
    }
  }

  /** Reading back what `encode` wrote gives the same signatures. */
  lemma {:induction false} SigsRoundTrip(sigs: seq<Sig>, rest: Blob)
    ensures DecodeSigs(EncodeSigs(sigs) + rest, |sigs|) == sigs
  {
    if sigs != [] {
      var last := |sigs| - 1;
      var tail := EncodeSig(sigs[last]) + rest;
      assert EncodeSigs(sigs) + rest == EncodeSigs(sigs[..last]) + tail;
      SigsRoundTrip(sigs[..last], tail);
      var blob := EncodeSigs(sigs) + rest;
      assert SigIn(blob, last) == sigs[last] by {
        var at := SIG_LEN * last;
        assert blob[at..at + 4] == ToBigEndian(sigs[last].weak, 4);
        assert blob[at + 4..at + SIG_LEN] == sigs[last].strong;
        Pow256Values();
        BigEndianRoundTrip(sigs[last].weak, 4);
      }
    }
  }

  // --------------------------------------------------------- bucket contents

  /** Below 2^32 blocks a bucket holds exactly the matching block numbers, in
      increasing order. */
  lemma {:induction false} BucketIsExact(sigs: seq<Sig>, w: u32)
    requires |sigs| <= 0x1_0000_0000
    ensures forall k :: 0 <= k < |Bucket(sigs, w)| ==>
                          Bucket(sigs, w)[k] < |sigs| && sigs[Bucket(sigs, w)[k]].weak == w
    ensures forall j, k :: 0 <= j < k < |Bucket(sigs, w)| ==> Bucket(sigs, w)[j] < Bucket(sigs, w)[k]
    ensures forall i :: 0 <= i < |sigs| && sigs[i].weak == w ==> i in Bucket(sigs, w)
  {
    hide Bucket;
    if sigs == [] {
      NoBucket(w);
    } else {
      var last := |sigs| - 1;
      BucketIsExact(sigs[..last], w);
      BucketUnfolds(sigs, w);
      BucketGrows(sigs, w, Bucket(sigs[..last], w), Bucket(sigs, w));
    }
  }

  lemma NoBucket(w: u32)
    ensures Bucket([], w) == []
  {
  }

  lemma BucketUnfolds(sigs: seq<Sig>, w: u32)
    requires 0 < |sigs| <= 0x1_0000_0000
    ensures var last := |sigs| - 1;
      Bucket(sigs, w) == Bucket(sigs[..last], w) + if sigs[last].weak == w then [last] else []
  {
    hide Wrap32;
    SmallStays(|sigs| - 1);
  }

  lemma SmallStays(i: nat)
    requires i < 0x1_0000_0000
    ensures Wrap32(i) == i
  {
  }

  lemma BucketGrows(sigs: seq<Sig>, w: u32, b: seq<u32>, b': seq<u32>)
    requires 0 < |sigs| <= 0x1_0000_0000
    requires b' == b + if sigs[|sigs| - 1].weak == w then [|sigs| - 1] else []
    requires forall k :: 0 <= k < |b| ==> b[k] < |sigs| - 1 && sigs[..|sigs| - 1][b[k]].weak == w
    requires forall j, k :: 0 <= j < k < |b| ==> b[j] < b[k]
    requires forall i :: 0 <= i < |sigs| - 1 && sigs[..|sigs| - 1][i].weak == w ==> i in b
    ensures forall k :: 0 <= k < |b'| ==> b'[k] < |sigs| && sigs[b'[k]].weak == w
    ensures forall j, k :: 0 <= j < k < |b'| ==> b'[j] < b'[k]
    ensures forall i :: 0 <= i < |sigs| && sigs[i].weak == w ==> i in b'
  {
    forall i | 0 <= i < |sigs| && sigs[i].weak == w ensures i in b' {
      if i < |sigs| - 1 {
        assert sigs[..|sigs| - 1][i] == sigs[i];
      } else {
        assert b'[|b|] == i;
      }
    }
  }

  /** However many blocks there are, a bucket holds the numbers of the blocks
      with that checksum, cut to 32 bits. */
  lemma {:induction false} BucketWraps(sigs: seq<Sig>, w: u32)
    ensures forall i :: 0 <= i < |sigs| && sigs[i].weak == w ==> Wrap32(i) in Bucket(sigs, w)
    ensures forall c :: c in Bucket(sigs, w) ==> c < |sigs|
  {
    hide Wrap32;
    if sigs != [] {
      var last := |sigs| - 1;
      BucketWraps(sigs[..last], w);
      WrapIsLess(last);
      forall i | 0 <= i < |sigs| && sigs[i].weak == w ensures Wrap32(i) in Bucket(sigs, w) {
        if i < last {
          assert sigs[..last][i] == sigs[i];
        }
      }
    }
  }

  lemma WrapIsLess(i: nat)
    ensures Wrap32(i) <= i
  {
  }

  /** Conversely. */
  lemma {:induction false} BucketOrigin(sigs: seq<Sig>, w: u32, c: u32) returns (i: nat)
    requires c in Bucket(sigs, w)
    ensures i < |sigs| && sigs[i].weak == w && Wrap32(i) == c
  {
    hide Wrap32;
    var last := |sigs| - 1;
    if sigs[last].weak == w && Wrap32(last) == c {
      i := last;
    } else {
      i := BucketOrigin(sigs[..last], w, c);
    }
  }

  /** ... and that is exactly how far it goes: from 2^32 + 1 blocks on, the cast
      to u32 loses block 2^32. */
  lemma IndexExactIff(sigs: seq<Sig>)
    ensures (forall i :: 0 <= i < |sigs| ==> i in Bucket(sigs, sigs[i].weak)) <==> |sigs| <= 0x1_0000_0000
  {
    if |sigs| <= 0x1_0000_0000 {
      forall i | 0 <= i < |sigs| ensures i in Bucket(sigs, sigs[i].weak) {
        BucketIsExact(sigs, sigs[i].weak);
      }
    } else {
      assert 0x1_0000_0000 !in Bucket(sigs, sigs[0x1_0000_0000].weak);
    }
  }
}
