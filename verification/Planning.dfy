/** The plan phase: the receiver looks at its own copies and tells the sender,
    file by file, what to send; signatures travel in numbered batches. */
module Planning {
  import opened Bytes
  import P = Payloads
  import opened Signatures
  import opened Receiving

  /** The receiver's answer for one file. */
  datatype Answer = Answer(plan: Plan, blockSize: nat, blockCount: nat, sigs: Blob)

  const WHOLE := Answer(Whole, 0, 0, [])

  /** `plan_push_target` and the loop body of `plan_pull_files`: `base` is the
      regular file at the destination, if there is one. */
  function AnswerFor(h: Hash, base: Option<Blob>, size: nat, sha: Digest): Answer
  {
    match base
    case None => WHOLE
    case Some(b) =>
      var bs := ChooseBlockSize(|b|);
      var sigs := SigsOf(h, b, bs);
      if sha != ZERO && h(b) == sha then Answer(Skip, 0, 0, [])
      else if WorthDelta(|b|, size, |sigs|) then Answer(Delta, bs, |sigs|, EncodeSigs(sigs))
      else WHOLE
  }

  /** The base is the file already: a hash was announced and it has that hash. */
  predicate SameHash(h: Hash, base: Option<Blob>, sha: Digest)
  {
    base.Some? && sha != ZERO && h(base.value) == sha
  }

  /** Both files have 4 KiB, and eight times the signatures, of 20 bytes for each
      full block of the base, are no more than the file to send. */
  predicate DeltaPays(base: Option<Blob>, size: nat)
  {
    base.Some? && |base.value| >= 4096 && size >= 4096 &&
    |base.value| / ChooseBlockSize(|base.value|) * 160 <= size
  }

  /** Nothing to send for an equal hash, a delta where it pays, else the whole file. */
  lemma AnswerExact(h: Hash, base: Option<Blob>, size: nat, sha: Digest)
    ensures var a := AnswerFor(h, base, size, sha);
      && (a.plan.Skip? <==> SameHash(h, base, sha))
      && (a.plan.Delta? <==> !SameHash(h, base, sha) && DeltaPays(base, size))
      && (a.plan.Delta? ==> DescribesBase(h, base, a))
      && (!a.plan.Delta? ==> a.blockSize == a.blockCount == 0 && a.sigs == [])
  {
    hide SigsOf, EncodeSigs, ChooseBlockSize, WorthDelta;
    if base.Some? {
      SigCount(h, base.value, ChooseBlockSize(|base.value|));
      WorthDeltaExact(|base.value|, size);
    }
  }

  /** A delta comes with the block size chosen for the base, and the number and
      the list of the signatures of its full blocks. */
  predicate DescribesBase(h: Hash, base: Option<Blob>, a: Answer)
  {
    base.Some? &&
    var bs := ChooseBlockSize(|base.value|);
    a.blockSize == bs && a.blockCount == |base.value| / bs && a.sigs == EncodeSigs(SigsOf(h, base.value, bs))
  }

  method PlanTarget(h: Hash, base: Option<Blob>, size: nat, sha: Digest) returns (a: Answer)
    ensures a == AnswerFor(h, base, size, sha)
    ensures a.plan.Skip? <==> SameHash(h, base, sha)
    ensures a.plan.Delta? <==> !SameHash(h, base, sha) && DeltaPays(base, size)
    ensures a.plan.Delta? ==> DescribesBase(h, base, a)
    ensures !a.plan.Delta? ==> a.blockSize == a.blockCount == 0 && a.sigs == []
  {
    AnswerExact(h, base, size, sha);
    hide SameHash, DeltaPays, DescribesBase;
    hide SigsOf, EncodeSigs, ChooseBlockSize;
    if base.None? {
      return WHOLE;
    }
    var bs := ChooseBlockSize(|base.value|);
    var s := ScanFile(h, base.value, bs);
    ghost var sigs := SigsOf(h, base.value, bs);
    assert s.Lists(sigs);
    if sha != ZERO && s.fileSha == sha {
      return Answer(Skip, 0, 0, []);
    }
    if !WorthDelta(|base.value|, size, s.blockCount) {
      return WHOLE;
    }
    var blob := EncodeSet(s, sigs);
    return Answer(Delta, s.blockSize, s.blockCount, blob);
  }

  // ---------------------------------------------------------- the plan stream

  function Action(p: Plan): nat
  {
    match p
    case Whole => 0
    case Skip => 1
    case Delta => 2
  }

  function FromAction(a: nat): Option<Plan>
  {
    if a == 0 then Some(Whole) else if a == 1 then Some(Skip) else if a == 2 then Some(Delta) else None
  }

  /** Signature frames from batch `k` on. */
  function SigFrames(id: nat, n: nat, k: nat, blob: Blob): seq<P.Payload>
    decreases |blob|
  {
    if blob == [] then []
    else
      var take := Min(SIG_BATCH, |blob|);
      [P.FileSigs(id, n, k * SIGS_PER_FRAME, blob[..take])] + SigFrames(id, n, k + 1, blob[take..])
  }

  function AnswerFrames(id: nat, n: nat, a: Answer): seq<P.Payload>
  {
    [P.FilePlan(id, n, Action(a.plan), a.blockSize, a.blockCount)] + SigFrames(id, n, 0, a.sigs)
  }

  /** The frames for the files from `n` on, and the closing frame. */
  function PlanFrames(id: nat, answers: seq<Answer>, n: nat): seq<P.Payload>
    requires n <= |answers|
    decreases |answers| - n
  {
    if n == |answers| then [P.PlanEnd(id)]
    else AnswerFrames(id, n, answers[n]) + PlanFrames(id, answers, n + 1)
  }

  /** Frame `m` of a signature list: its number counts signatures, and it holds
      whole signatures when the list does. */
  ghost predicate GoodBatch(id: nat, n: nat, m: nat, whole: bool, f: P.Payload)
  {
    && f.FileSigs? && f.id == id && f.fileSeq == n && f.first * SIG_LEN == m * SIG_BATCH
    && 0 < |f.sigs| <= SIG_BATCH && (whole ==> |f.sigs| % SIG_LEN == 0)
  }

  /** Consecutive batches, all full but the last. */
  ghost predicate Batches(id: nat, n: nat, whole: bool, out: seq<P.Payload>)
  {
    && (forall m :: 0 <= m < |out| ==> GoodBatch(id, n, m, whole, out[m]))
    && (forall m :: 0 <= m < |out| - 1 ==> out[m].FileSigs? && |out[m].sigs| == SIG_BATCH)
  }

  /** The blobs of the frames, one after the other. */
  function Joined(frames: seq<P.Payload>): Blob
  {
    if frames == [] then []
    else Joined(frames[..|frames| - 1]) + if frames[|frames| - 1].FileSigs? then frames[|frames| - 1].sigs else []
  }

  /** Cut the signature list into batches of whole signatures. */
  method SendSigs(id: nat, n: nat, blob: Blob) returns (out: seq<P.Payload>)
    ensures out == SigFrames(id, n, 0, blob)
    ensures Batches(id, n, |blob| % SIG_LEN == 0, out)
    ensures Joined(out) == blob
  {
    hide SigFrames, Joined, Batches, GoodBatch, FullSoFar;
    ghost var whole := |blob| % SIG_LEN == 0;
    out := [];
    var k, rest := 0, blob;
    NoBatches(id, n, whole);
    while rest != []
      invariant k == |out|
      invariant SigFrames(id, n, 0, blob) == out + SigFrames(id, n, k, rest)
      invariant Joined(out) + rest == blob
      invariant whole ==> |rest| % SIG_LEN == 0
      invariant Batches(id, n, whole, out) && (rest != [] ==> FullSoFar(out))
      decreases |rest|
    {
      var take := Min(SIG_BATCH, |rest|);
      var frame := P.FileSigs(id, n, k * SIGS_PER_FRAME, rest[..take]);
      SigFramesUnfold(id, n, k, rest);
      JoinedSnoc(out, frame);
      TakeBatch(rest, take);
      BatchSnoc(id, n, whole, out, frame);
      assert (Joined(out) + rest[..take]) + rest[take..] == Joined(out) + rest;
      assert out + ([frame] + SigFrames(id, n, k + 1, rest[take..])) ==
             (out + [frame]) + SigFrames(id, n, k + 1, rest[take..]);
      out := out + [frame];
      k, rest := k + 1, rest[take..];
    }
    SigFramesUnfold(id, n, k, []);
    assert out + [] == out && Joined(out) + [] == Joined(out);
  }

  /** Only the last frame of a list may be short. */
  predicate FullSoFar(out: seq<P.Payload>)
  {
    out != [] ==> out[|out| - 1].FileSigs? && |out[|out| - 1].sigs| == SIG_BATCH
  }

  lemma NoBatches(id: nat, n: nat, whole: bool)
    ensures Joined([]) == [] && Batches(id, n, whole, []) && FullSoFar([])
  {
  }

  lemma TakeBatch(rest: Blob, take: nat)
    requires rest != [] && take == Min(SIG_BATCH, |rest|)
    ensures rest == rest[..take] + rest[take..] && 0 < |rest[..take]| <= SIG_BATCH
    ensures rest[take..] != [] ==> |rest[..take]| == SIG_BATCH
    ensures |rest| % SIG_LEN == 0 ==> |rest[..take]| % SIG_LEN == 0 && |rest[take..]| % SIG_LEN == 0
  {
  }

  lemma BatchSnoc(id: nat, n: nat, whole: bool, out: seq<P.Payload>, f: P.Payload)
    requires Batches(id, n, whole, out) && FullSoFar(out)
    requires f.FileSigs? && f.id == id && f.fileSeq == n && f.first == |out| * SIGS_PER_FRAME
    requires 0 < |f.sigs| <= SIG_BATCH && (whole ==> |f.sigs| % SIG_LEN == 0)
    ensures Batches(id, n, whole, out + [f])
    ensures |f.sigs| == SIG_BATCH ==> FullSoFar(out + [f])
  {
  }

  lemma SigFramesUnfold(id: nat, n: nat, k: nat, blob: Blob)
    ensures blob == [] ==> SigFrames(id, n, k, blob) == []
    ensures blob != [] ==>
              var take := Min(SIG_BATCH, |blob|);
              SigFrames(id, n, k, blob) ==
              [P.FileSigs(id, n, k * SIGS_PER_FRAME, blob[..take])] + SigFrames(id, n, k + 1, blob[take..])
  {
  }

  lemma JoinedSnoc(frames: seq<P.Payload>, f: P.Payload)
    requires f.FileSigs?
    ensures Joined(frames + [f]) == Joined(frames) + f.sigs
  {
    assert (frames + [f])[..|frames|] == frames;
  }

  // --------------------------------------------------------- reading the plans

  /** What the sender knows about one file. */
  datatype Slot = Slot(plan: Plan, blockSize: nat, blockCount: nat, sigs: Blob)

  const UNPLANNED := Slot(Whole, 0, 0, [])

  datatype Status = Waiting | Planned | Refused

  datatype Reading = Reading(table: seq<Slot>, status: Status)

  /** One frame, as `read_push_plans` (Push) or `run_pull` (Pull) takes it.  The
      push side keeps old signatures unless the plan is a delta, and ignores the
      block count; the pull side starts each plan afresh. */
  function ReadStep(dir: Direction, id: nat, r: Reading, p: P.Payload): Reading
  {
    if !r.status.Waiting? || p.id != id then r
    else
      match p
      case FilePlan(_, n, action, blockSize, blockCount) =>
        var plan := FromAction(action);
        if n >= |r.table| || plan.None? then r.(status := Refused)
        else
          var was := r.table[n];
          var slot := if dir.Push?
                      then Slot(plan.value, blockSize, was.blockCount, if plan == Some(Delta) then [] else was.sigs)
                      else Slot(plan.value, blockSize, blockCount, []);
          r.(table := r.table[n := slot])
      case FileSigs(_, n, first, sigs) =>
        if n >= |r.table| || |r.table[n].sigs| != first * SIG_LEN then r.(status := Refused)
        else r.(table := r.table[n := r.table[n].(sigs := r.table[n].sigs + sigs)])
      case PlanEnd(_) => r.(status := Planned)
      case Error(_, _, _) => r.(status := Refused)
      case _ => r
  }

  /** What the reader refuses: a file it has not announced, an action it does not
      know, signatures that do not follow on those it has, an error. */
  predicate Bad(r: Reading, p: P.Payload)
  {
    match p
    case FilePlan(_, n, action, _, _) => n >= |r.table| || action > 2
    case FileSigs(_, n, first, _) => n >= |r.table| || first * SIG_LEN != |r.table[n].sigs|
    case Error(_, _, _) => true
    case _ => false
  }

  /** One frame ends the reading for exactly these causes. */
  lemma ReadEnds(dir: Direction, id: nat, r: Reading, p: P.Payload)
    requires r.status.Waiting?
    ensures ReadStep(dir, id, r, p).status.Refused? <==> p.id == id && Bad(r, p)
    ensures ReadStep(dir, id, r, p).status.Planned? <==> p.id == id && p.PlanEnd?
    ensures !ReadStep(dir, id, r, p).status.Waiting? ==> ReadStep(dir, id, r, p).table == r.table
  {
  }

  /** A frame that is taken concerns one file: 0, 1 and 2 stand for whole, skip
      and delta, and signatures are appended; only what starts a delta, or any
      plan for a pull, forgets earlier ones.  Anything else changes nothing. */
  lemma ReadContinues(dir: Direction, id: nat, r: Reading, p: P.Payload)
    requires r.status.Waiting? && p.id == id && !Bad(r, p) && !p.PlanEnd?
    ensures var t := ReadStep(dir, id, r, p);
      && t.status.Waiting? && |t.table| == |r.table|
      && (p.FilePlan? || p.FileSigs? ==> forall i :: 0 <= i < |r.table| && i != p.fileSeq ==> t.table[i] == r.table[i])
      && (p.FilePlan? ==>
            var was, now := r.table[p.fileSeq], t.table[p.fileSeq];
            && now.plan == (if p.action == 0 then Whole else if p.action == 1 then Skip else Delta)
            && now.blockSize == p.blockSize
            && now.sigs == (if dir.Push? && !now.plan.Delta? then was.sigs else [])
            && (dir.Pull? ==> now.blockCount == p.blockCount))
      && (p.FileSigs? ==> t.table[p.fileSeq] == r.table[p.fileSeq].(sigs := r.table[p.fileSeq].sigs + p.sigs))
      && (!p.FilePlan? && !p.FileSigs? ==> t == r)
  {
  }

  function ReadMany(dir: Direction, id: nat, r: Reading, ps: seq<P.Payload>): Reading
  {
    if ps == [] then r else ReadStep(dir, id, ReadMany(dir, id, r, ps[..|ps| - 1]), ps[|ps| - 1])
  }

  /** The reading loop of both senders. */
  class PlanReader {
    const dir: Direction
    const id: nat
    var table: seq<Slot>
    var status: Status

    constructor (dir: Direction, id: nat, files: nat)
      ensures this.dir == dir && this.id == id
      ensures table == seq(files, _ => UNPLANNED) && status == Waiting
    {
      this.dir, this.id := dir, id;
      table, status := seq(files, _ => UNPLANNED), Waiting;
    }

    method Take(p: P.Payload)
      modifies this
      ensures Reading(table, status) == ReadStep(dir, id, old(Reading(table, status)), p)
    {
      if status.Waiting? && p.id == id {
        match p {
          case FilePlan(_, n, action, blockSize, blockCount) =>
            var plan := FromAction(action);
            if n >= |table| || plan.None? {
              status := Refused;
            } else if dir.Push? {
              var slot := table[n].(plan := plan.value, blockSize := blockSize);
              if plan.value.Delta? {
                slot := slot.(sigs := []);
              }
              table := table[n := slot];
            } else {
              table := table[n := Slot(plan.value, blockSize, blockCount, [])];
            }
          case FileSigs(_, n, first, sigs) =>
            if n >= |table| || |table[n].sigs| != first * SIG_LEN {
              status := Refused;
            } else {
              table := table[n := table[n].(sigs := table[n].sigs + sigs)];
            }
          case PlanEnd(_) => status := Planned;
          case Error(_, _, _) => status := Refused;
          case _ =>
        }
      }
    }

    method ReadAll(ps: seq<P.Payload>)
      modifies this
      ensures Reading(table, status) == ReadMany(dir, id, old(Reading(table, status)), ps)
    {
      hide ReadStep;
      ghost var r := Reading(table, status);
      for i := 0 to |ps|
        invariant Reading(table, status) == ReadMany(dir, id, r, ps[..i])
      {
        assert ps[..i + 1][..i] == ps[..i];
        Take(ps[i]);
      }
      assert ps[..|ps|] == ps;
    }
  }

  // -------------------------------------------------- what the sender learns

  lemma {:induction false} ReadConcat(dir: Direction, id: nat, r: Reading, a: seq<P.Payload>, b: seq<P.Payload>)
    ensures ReadMany(dir, id, r, a + b) == ReadMany(dir, id, ReadMany(dir, id, r, a), b)
  {
    hide ReadStep;
    if b == [] {
      assert a + b == a;
    } else {
      assert (a + b)[..|a + b| - 1] == a + b[..|b| - 1];
      ReadConcat(dir, id, r, a, b[..|b| - 1]);
    }
  }

  lemma ReadOne(dir: Direction, id: nat, r: Reading, p: P.Payload)
    ensures ReadMany(dir, id, r, [p]) == ReadStep(dir, id, r, p)
  {
    hide ReadStep;
    assert [p][..0] == [];
    assert ReadMany(dir, id, r, [p][..0]) == r;
  }

  lemma ReadCons(dir: Direction, id: nat, r: Reading, p: P.Payload, ps: seq<P.Payload>)
    ensures ReadMany(dir, id, r, [p] + ps) == ReadMany(dir, id, ReadStep(dir, id, r, p), ps)
  {
    hide *;
    ReadConcat(dir, id, r, [p], ps);
    ReadOne(dir, id, r, p);
  }

  lemma {:induction false} ReadSettled(dir: Direction, id: nat, r: Reading, ps: seq<P.Payload>)
    requires !r.status.Waiting?
    ensures ReadMany(dir, id, r, ps) == r
  {
    if ps != [] {
      ReadSettled(dir, id, r, ps[..|ps| - 1]);
    }
  }

  /** Batches that arrive in order add up to the whole list. */
  lemma {:induction false} ReadSigs(dir: Direction, id: nat, r: Reading, n: nat, k: nat, rest: Blob)
    requires r.status.Waiting? && n < |r.table|
    requires rest != [] ==> |r.table[n].sigs| == k * SIG_BATCH
    ensures ReadMany(dir, id, r, SigFrames(id, n, k, rest)) ==
            r.(table := r.table[n := r.table[n].(sigs := r.table[n].sigs + rest)])
    decreases |rest|
  {
    var slot := r.table[n];
    if rest == [] {
      assert slot.sigs + [] == slot.sigs;
      assert r.table[n := slot] == r.table;
    } else {
      var take := Min(SIG_BATCH, |rest|);
      var head, tail := rest[..take], rest[take..];
      var frame := P.FileSigs(id, n, k * SIGS_PER_FRAME, head);
      assert k * SIGS_PER_FRAME * SIG_LEN == k * SIG_BATCH;
      var r' := r.(table := r.table[n := slot.(sigs := slot.sigs + head)]);
      assert ReadStep(dir, id, r, frame) == r';
      hide ReadStep;
      ReadSigs(dir, id, r', n, k + 1, tail);
      ReadCons(dir, id, r, frame, SigFrames(id, n, k + 1, tail));
      assert slot.sigs + head + tail == slot.sigs + rest by { assert head + tail == rest; }
      assert r'.table[n := slot.(sigs := slot.sigs + rest)] == r.table[n := slot.(sigs := slot.sigs + rest)];
    }
  }

  /** What a complete answer leaves in the sender's table. */
  function Told(dir: Direction, a: Answer): Slot
  {
    Slot(a.plan, a.blockSize, if dir.Push? then 0 else a.blockCount, a.sigs)
  }

  lemma ReadAnswer(dir: Direction, id: nat, r: Reading, n: nat, a: Answer)
    requires r.status.Waiting? && n < |r.table| && r.table[n] == UNPLANNED
    ensures ReadMany(dir, id, r, AnswerFrames(id, n, a)) == r.(table := r.table[n := Told(dir, a)])
  {
    var p := P.FilePlan(id, n, Action(a.plan), a.blockSize, a.blockCount);
    var slot := Told(dir, a).(sigs := []);
    var r' := r.(table := r.table[n := slot]);
    assert ReadStep(dir, id, r, p) == r';
    hide ReadStep;
    ReadCons(dir, id, r, p, SigFrames(id, n, 0, a.sigs));
    ReadSigs(dir, id, r', n, 0, a.sigs);
    assert [] + a.sigs == a.sigs;
    assert r'.table[n := Told(dir, a)] == r.table[n := Told(dir, a)];
  }

  ghost predicate UnplannedFrom(table: seq<Slot>, n: nat)
  {
    forall i :: n <= i < |table| ==> table[i] == UNPLANNED
  }

  /** The complete stream tells the sender everything, in both directions. */
  lemma {:induction false} ReadPlans(dir: Direction, id: nat, r: Reading, answers: seq<Answer>, n: nat)
    requires r.status.Waiting? && |r.table| == |answers| && n <= |answers| && UnplannedFrom(r.table, n)
    ensures var t := ReadMany(dir, id, r, PlanFrames(id, answers, n));
            && t.status.Planned? && |t.table| == |answers|
            && (forall i :: 0 <= i < n ==> t.table[i] == r.table[i])
            && (forall i :: n <= i < |answers| ==> t.table[i] == Told(dir, answers[i]))
    decreases |answers| - n
  {
    if n == |answers| {
      ReadOne(dir, id, r, P.PlanEnd(id));
    } else {
      hide ReadStep, AnswerFrames, ReadMany;
      var r' := r.(table := r.table[n := Told(dir, answers[n])]);
      ReadAnswer(dir, id, r, n, answers[n]);
      ReadConcat(dir, id, r, AnswerFrames(id, n, answers[n]), PlanFrames(id, answers, n + 1));
      ReadPlans(dir, id, r', answers, n + 1);
    }
  }

  // -------------------------------------------------- losing the first frames

  /** Slot `i` is right or says nothing: the true answer, or "send it whole". */
  ghost predicate Harmless(slot: Slot, a: Answer)
  {
    slot == Told(Push, a) || slot.plan.Whole?
  }

  /** Outcomes that can follow a lost prefix of the plan stream. */
  ghost predicate SafeReading(answers: seq<Answer>, n: nat, r: Reading, t: Reading)
    requires n <= |answers| == |r.table|
  {
    t.status.Planned? ==>
      && |t.table| == |answers|
      && (forall i :: 0 <= i < n ==> t.table[i] == r.table[i])
      && (forall i :: n <= i < |answers| ==> Harmless(t.table[i], answers[i]))
  }

  /** Signature frame `m` of a list that starts with batch `k`. */
  lemma {:induction false} SigFrameAt(id: nat, n: nat, k: nat, blob: Blob, m: nat)
    requires m < |SigFrames(id, n, k, blob)|
    ensures var f := SigFrames(id, n, k, blob)[m];
            f.FileSigs? && f.id == id && f.fileSeq == n && f.first == (k + m) * SIGS_PER_FRAME
    decreases m
  {
    if m > 0 {
      SigFrameAt(id, n, k + 1, blob[Min(SIG_BATCH, |blob|)..], m - 1);
    }
  }

  /** The rest of one answer, whose plan frame was lost: either all batches are
      there and the file will simply be sent whole, or the first missing batch
      is noticed. */
  lemma ReadTorn(id: nat, r: Reading, n: nat, a: Answer, k: nat)
    requires r.status.Waiting? && n < |r.table| && r.table[n] == UNPLANNED
    requires 0 < k < |AnswerFrames(id, n, a)|
    ensures var t := ReadMany(Push, id, r, AnswerFrames(id, n, a)[k..]);
            || t.status.Refused?
            || (k == 1 && t == r.(table := r.table[n := UNPLANNED.(sigs := a.sigs)]))
  {
    hide ReadMany, ReadStep, SigFrames;
    var frames := SigFrames(id, n, 0, a.sigs);
    assert AnswerFrames(id, n, a)[k..] == frames[k - 1..];
    if k == 1 {
      assert frames[0..] == frames;
      ReadSigs(Push, id, r, n, 0, a.sigs);
      assert [] + a.sigs == a.sigs;
    } else {
      ReadGap(id, r, n, a.sigs, k - 1);
    }
  }

  /** A signature frame whose predecessors were lost is refused. */
  lemma ReadGap(id: nat, r: Reading, n: nat, blob: Blob, m: nat)
    requires r.status.Waiting? && n < |r.table| && r.table[n] == UNPLANNED
    requires 0 < m < |SigFrames(id, n, 0, blob)|
    ensures ReadMany(Push, id, r, SigFrames(id, n, 0, blob)[m..]).status.Refused?
  {
    hide ReadMany, SigFrames;
    var frames := SigFrames(id, n, 0, blob);
    SigFrameAt(id, n, 0, blob, m);
    var f, rest := frames[m], frames[m + 1..];
    assert frames[m..] == [f] + rest;
    GapIsSeen(id, r, n, f, m);
    ReadCons(Push, id, r, f, rest);
    ReadSettled(Push, id, r.(status := Refused), rest);
  }

  lemma GapIsSeen(id: nat, r: Reading, n: nat, f: P.Payload, m: nat)
    requires r.status.Waiting? && n < |r.table| && r.table[n] == UNPLANNED && m > 0
    requires f.FileSigs? && f.id == id && f.fileSeq == n && f.first == m * SIGS_PER_FRAME
    ensures ReadStep(Push, id, r, f) == r.(status := Refused)
  {
  }

  /** A prefix of the plan stream may be lost; the sender then refuses, keeps
      waiting, or knows for each file the true plan with its complete signature
      list or no plan at all. */
  lemma {:induction false} LostPrefix(id: nat, r: Reading, answers: seq<Answer>, n: nat, k: nat)
    requires r.status.Waiting? && |r.table| == |answers| && n <= |answers| && UnplannedFrom(r.table, n)
    requires k <= |PlanFrames(id, answers, n)|
    ensures SafeReading(answers, n, r, ReadMany(Push, id, r, PlanFrames(id, answers, n)[k..]))
    decreases |answers| - n
  {
    hide ReadStep, AnswerFrames, ReadMany, PlanFrames;
    var frames := PlanFrames(id, answers, n);
    PlanFramesUnfold(id, answers, n);
    if k == 0 {
      assert frames[0..] == frames;
      ReadPlans(Push, id, r, answers, n);
    } else if n == |answers| {
      assert frames[k..] == [];
      ReadNothing(Push, id, r);
    } else {
      var head, tail := AnswerFrames(id, n, answers[n]), PlanFrames(id, answers, n + 1);
      if k >= |head| {
        assert frames[k..] == tail[k - |head|..];
        LostPrefix(id, r, answers, n + 1, k - |head|);
        Unplanned(answers, n, r, ReadMany(Push, id, r, frames[k..]));
      } else {
        assert frames[k..] == head[k..] + tail;
        ReadTorn(id, r, n, answers[n], k);
        ReadConcat(Push, id, r, head[k..], tail);
        var t := ReadMany(Push, id, r, head[k..]);
        if t.status.Refused? {
          ReadSettled(Push, id, t, tail);
        } else {
          ReadPlans(Push, id, t, answers, n + 1);
        }
      }
    }
  }

  lemma PlanFramesUnfold(id: nat, answers: seq<Answer>, n: nat)
    requires n <= |answers|
    ensures n == |answers| ==> PlanFrames(id, answers, n) == [P.PlanEnd(id)]
    ensures n < |answers| ==>
              PlanFrames(id, answers, n) == AnswerFrames(id, n, answers[n]) + PlanFrames(id, answers, n + 1)
  {
    hide AnswerFrames;
  }

  lemma ReadNothing(dir: Direction, id: nat, r: Reading)
    ensures ReadMany(dir, id, r, []) == r
  {
  }

  lemma Unplanned(answers: seq<Answer>, n: nat, r: Reading, t: Reading)
    requires n < |answers| == |r.table| && r.table[n] == UNPLANNED && SafeReading(answers, n + 1, r, t)
    ensures SafeReading(answers, n, r, t)
  {
  }

  /** Push is safe when the feedback drain swallowed the first frames. */
  lemma LostPrefixIsSafe(id: nat, answers: seq<Answer>, k: nat)
    requires k <= |PlanFrames(id, answers, 0)|
    ensures var t := ReadMany(Push, id, Reading(seq(|answers|, _ => UNPLANNED), Waiting),
                              PlanFrames(id, answers, 0)[k..]);
            t.status.Planned? ==>
              |t.table| == |answers| && forall i :: 0 <= i < |answers| ==> Harmless(t.table[i], answers[i])
  {
    LostPrefix(id, Reading(seq(|answers|, _ => UNPLANNED), Waiting), answers, 0, k);
  }
}
