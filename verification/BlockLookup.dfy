/** The index lookup of `produce_delta`, and the search it stands for. */
module BlockLookup {
  import opened Bytes
  import opened Signatures
  import opened Emitter
  import opened Greedy
  import Multiples

  /** How many block numbers 32 bits tell apart. */
  const LIMIT := 0x1_0000_0000

  /** `cands` are exactly the blocks with one weak checksum, in increasing order. */
  ghost predicate Candidates(sigs: seq<Sig>, weak: u32, cands: seq<u32>)
  {
    && (forall k :: 0 <= k < |cands| ==> cands[k] < |sigs|)
    && (forall a, b :: 0 <= a < b < |cands| ==> cands[a] < cands[b])
    && (forall i :: 0 <= i < |sigs| ==> (i in cands <==> sigs[i].weak == weak))
  }

  /** The first candidate whose strong hash agrees. */
  function FirstAmong(sigs: seq<Sig>, cands: seq<u32>, strong: Strong): (r: Option<nat>)
    ensures r.Some? ==> r.value < |sigs| && sigs[r.value].strong == strong
    ensures r.Some? ==> r.value in cands
  {
    if cands == [] then None
    else if cands[0] < |sigs| && sigs[cands[0]].strong == strong then Some(cands[0])
    else FirstAmong(sigs, cands[1..], strong)
  }

  /** The block that would continue a run. */
  function Want(open: Range, bs: pos): nat
  {
    (open.start + open.len) / bs
  }

  /** The index lookup of one window, for any number of blocks: continue the
      open run if its next block is a candidate, else take the first candidate
      with the same strong hash.  Block numbers are cut to 32 bits. */
  function Lookup(sigs: seq<Sig>, bs: pos, s: Sig, open: Option<Range>): (r: Option<nat>)
    ensures r.Some? ==> r.value < |sigs|
  {
    BucketWraps(sigs, s.weak);
    var cands := Bucket(sigs, s.weak);
    var want := if open.Some? then Want(open.value, bs) else |sigs|;
    if want < |sigs| && Wrap32(want) in cands && sigs[want].strong == s.strong then Some(Wrap32(want))
    else FirstAmong(sigs, cands, s.strong)
  }

  /** The block after an open run is taken, if it may be. */
  predicate Continues(sigs: seq<Sig>, bs: pos, s: Sig, open: Option<Range>)
  {
    open.Some? &&
    var want := Want(open.value, bs);
    want < |sigs| && Wrap32(want) in Bucket(sigs, s.weak) && sigs[want].strong == s.strong
  }

  lemma LookupCases(sigs: seq<Sig>, bs: pos, s: Sig, open: Option<Range>)
    ensures Bucket(sigs, s.weak) == [] ==> Lookup(sigs, bs, s, open) == None
    ensures !Continues(sigs, bs, s, open) ==>
              Lookup(sigs, bs, s, open) == FirstAmong(sigs, Bucket(sigs, s.weak), s.strong)
    ensures Continues(sigs, bs, s, open) ==>
              Lookup(sigs, bs, s, open) == Some(Wrap32(Want(open.value, bs)))
  {
    hide Bucket;
  }

  // ------------------------------------------------------ lookup and search

  /** No more blocks than 32-bit numbers. */
  predicate Short(j: Job)
  {
    |j.sigs| <= LIMIT
  }

  /** Up to 2^32 blocks the lookup is the reference search. */
  lemma LookupIsPick(j: Job, s: Sig, open: Option<Range>)
    requires Short(j)
    ensures Lookup(j.sigs, j.bs, s, open) == Pick(j, s, open)
  {
    hide Bucket, FirstAmong, First, Candidates;
    var cands := Bucket(j.sigs, s.weak);
    BucketCandidates(j.sigs, s.weak);
    AmongIsFirst(j.sigs, s, cands);
    if open.Some? {
      var want := (open.value.start + open.value.len) / j.bs;
      if want < |j.sigs| {
        IsCandidate(j.sigs, s, cands, want);
      }
    }
  }

  lemma BucketCandidates(sigs: seq<Sig>, weak: u32)
    requires |sigs| <= LIMIT
    ensures Candidates(sigs, weak, Bucket(sigs, weak))
  {
    BucketIsExact(sigs, weak);
  }

  lemma IsCandidate(sigs: seq<Sig>, s: Sig, cands: seq<u32>, want: nat)
    requires |sigs| <= LIMIT && Candidates(sigs, s.weak, cands) && want < |sigs|
    ensures Wrap32(want) == want
    ensures Wrap32(want) in cands && sigs[want].strong == s.strong <==> sigs[want] == s
  {
  }

  lemma {:induction false} AmongParts(sigs: seq<Sig>, cands: seq<u32>, strong: Strong) returns (k: nat)
    requires forall i :: 0 <= i < |cands| ==> cands[i] < |sigs|
    ensures k <= |cands| && forall i :: 0 <= i < k ==> sigs[cands[i]].strong != strong
    ensures FirstAmong(sigs, cands, strong) == if k < |cands| then Some(cands[k]) else None
    ensures k < |cands| ==> sigs[cands[k]].strong == strong
  {
    if cands == [] || sigs[cands[0]].strong == strong {
      k := 0;
    } else {
      k := AmongParts(sigs, cands[1..], strong);
      k := k + 1;
    }
  }

  lemma AmongIsFirst(sigs: seq<Sig>, s: Sig, cands: seq<u32>)
    requires Candidates(sigs, s.weak, cands)
    ensures FirstAmong(sigs, cands, s.strong) == First(sigs, s)
  {
    hide First, FirstAmong;
    var k := AmongParts(sigs, cands, s.strong);
    if k < |cands| {
      FirstCandidate(sigs, s, cands, k);
    } else {
      NoCandidate(sigs, s, cands);
    }
  }

  lemma NoCandidate(sigs: seq<Sig>, s: Sig, cands: seq<u32>)
    requires Candidates(sigs, s.weak, cands)
    requires forall k :: 0 <= k < |cands| ==> sigs[cands[k]] != s
    ensures First(sigs, s).None?
  {
    forall i | 0 <= i < |sigs| ensures sigs[i] != s {
      if sigs[i].weak == s.weak {
        assert i in cands;
      }
    }
  }

  /** The first candidate with the right signature is the first block with it. */
  lemma FirstCandidate(sigs: seq<Sig>, s: Sig, cands: seq<u32>, k: nat)
    requires Candidates(sigs, s.weak, cands) && k < |cands| && sigs[cands[k]] == s
    requires forall i :: 0 <= i < k ==> sigs[cands[i]] != s
    ensures First(sigs, s) == Some(cands[k])
  {
    var f := First(sigs, s);
    var i :| 0 <= i < |cands| && cands[i] == f.value;
    assert i >= k;
  }

  // ------------------------------------------------------- beyond 2^32 blocks

  /** Block numbers may be cut to 32 bits as far as a scan can tell: there is no
      block 2^32, or it has the signature of block 0. */
  predicate Repeats(sigs: seq<Sig>)
  {
    |sigs| <= LIMIT || sigs[LIMIT] == sigs[0]
  }

  /** A run that ends at or before block 2^32. */
  predicate InRange(bs: pos, open: Option<Range>)
  {
    open.Some? ==> open.value.start + open.value.len <= LIMIT * bs
  }

  /** Equal strong hashes mean equal signatures. */
  predicate Decides(sigs: seq<Sig>, s: Sig)
  {
    forall i :: 0 <= i < |sigs| && sigs[i].strong == s.strong ==> sigs[i] == s
  }

  /** A lookup never returns a block with another signature, for any run in range
      and any window whose strong hash decides, if and only if block 2^32 does
      not exist or has the signature of block 0. */
  lemma LookupSoundIff(sigs: seq<Sig>, bs: pos)
    requires forall i :: 0 <= i < |sigs| ==> Decides(sigs, sigs[i])
    ensures (forall s, open :: Decides(sigs, s) && InRange(bs, open) && Lookup(sigs, bs, s, open).Some? ==>
                                 sigs[Lookup(sigs, bs, s, open).value] == s)
       <==> Repeats(sigs)
  {
    hide Lookup, Wrap32, InRange, Decides;
    if Repeats(sigs) {
      forall s, open | Decides(sigs, s) && InRange(bs, open) && Lookup(sigs, bs, s, open).Some?
        ensures sigs[Lookup(sigs, bs, s, open).value] == s
      {
        LookupSound(sigs, bs, s, open);
      }
    } else {
      LookupGoesWrong(sigs, bs);
    }
  }

  lemma LookupSound(sigs: seq<Sig>, bs: pos, s: Sig, open: Option<Range>)
    requires Decides(sigs, s) && Repeats(sigs) && InRange(bs, open) && Lookup(sigs, bs, s, open).Some?
    ensures sigs[Lookup(sigs, bs, s, open).value] == s
  {
    hide Bucket, FirstAmong, Want;
    LookupCases(sigs, bs, s, open);
    if Continues(sigs, bs, s, open) {
      var want := Want(open.value, bs);
      WantInRange(bs, open);
      assert sigs[want] == s;
    }
  }

  lemma WantInRange(bs: pos, open: Option<Range>)
    requires open.Some? && InRange(bs, open)
    ensures Want(open.value, bs) <= LIMIT
  {
    var end := open.value.start + open.value.len;
    var want := end / bs;
    assert end == bs * want + end % bs;
    if want > LIMIT {
      Multiples.Less(LIMIT, want, bs);
    }
  }

  /** A run that ends at block 2^32 continues with block 0. */
  lemma LookupGoesWrong(sigs: seq<Sig>, bs: pos)
    requires |sigs| > LIMIT && sigs[LIMIT] != sigs[0]
    ensures var open := Some(Range((LIMIT - 1) * bs, bs));
            InRange(bs, open) && Lookup(sigs, bs, sigs[LIMIT], open) == Some(0)
  {
    hide Bucket, FirstAmong;
    Multiples.Quotient(LIMIT, bs);
    assert (LIMIT - 1) * bs + bs == LIMIT * bs;
    BucketWraps(sigs, sigs[LIMIT].weak);
  }
}
