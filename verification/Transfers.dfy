/** Plan phase and data phase together, with the real sender and receiver. */
module Transfers {
  import opened Bytes
  import P = Payloads
  import opened Receiving
  import opened Planning
  import opened Delivery
  import opened Sending
  import opened FileWriters
  import opened Signatures
  import opened Emitter

  /** One file of a transfer. */
  datatype Source = Source(content: Blob, dest: Path)

  function Contents(files: seq<Source>): (r: seq<Blob>)
    ensures |r| == |files|
    ensures forall n :: 0 <= n < |files| ==> r[n] == files[n].content
  {
    seq(|files|, n requires 0 <= n < |files| => files[n].content)
  }

  function AnswerTo(h: Hash, disk: Files, f: Source): Answer
  {
    AnswerFor(h, BaseIn(disk, f.dest), |f.content|, h(f.content))
  }

  function Answers(h: Hash, disk: Files, files: seq<Source>): (r: seq<Answer>)
    ensures |r| == |files|
    ensures forall n :: 0 <= n < |files| ==> r[n] == AnswerTo(h, disk, files[n])
  {
    seq(|files|, n requires 0 <= n < |files| => AnswerTo(h, disk, files[n]))
  }

  function TargetOf(h: Hash, f: Source, a: Answer): Target
  {
    Target(f.dest, |f.content|, h(f.content), a.plan)
  }

  /** The receiver's task once it has planned. */
  function TaskFor(h: Hash, dir: Direction, id: nat, files: seq<Source>, answers: seq<Answer>): (j: Task)
    requires |files| == |answers|
    ensures j.h == h && j.dir == dir && j.id == id && |j.targets| == |files|
    ensures forall n :: 0 <= n < |files| ==> j.targets[n] == TargetOf(h, files[n], answers[n])
  {
    Task(h, dir, id, seq(|files|, n requires 0 <= n < |files| => TargetOf(h, files[n], answers[n])))
  }

  function TotalBytes(files: seq<Source>, n: nat): nat
    requires n <= |files|
  {
    if n == 0 then 0 else TotalBytes(files, n - 1) + |files[n - 1].content|
  }

  /** What the transfer assumes about names, sizes and hashes. */
  ghost predicate Admissible(h: Hash, j: Task, disk: Files, files: seq<Source>)
  {
    && NoClash(j) && DistinctDests(j)
    && (forall n :: 0 <= n < |files| ==> Separable(h, disk, files[n]))
  }

  ghost predicate Separable(h: Hash, disk: Files, f: Source)
  {
    && h(f.content) != ZERO
    && Collisionless(h, BaseIn(disk, f.dest), f.content)
  }

  /** On the receiver block numbers lead to the right blocks. */
  ghost predicate Indexed(h: Hash, disk: Files, files: seq<Source>)
  {
    forall n :: 0 <= n < |files| ==>
      Storable(BaseIn(disk, files[n].dest)) && Found(h, BaseIn(disk, files[n].dest), files[n].content)
  }

  /** Sizes on the receiver are 64-bit numbers. */
  ghost predicate AllStorable(disk: Files, files: seq<Source>)
  {
    forall n :: 0 <= n < |files| ==> Storable(BaseIn(disk, files[n].dest))
  }

  lemma IndexedIsStorable(h: Hash, disk: Files, files: seq<Source>)
    requires Indexed(h, disk, files)
    ensures AllStorable(disk, files)
  {
    hide Found;
  }

  // ------------------------------------------------------------ plan phase

  /** The answer for one file and its frames. */
  method PlanOne(h: Hash, id: nat, n: nat, files: Files, f: Source) returns (a: Answer, frames: seq<P.Payload>)
    ensures a == AnswerTo(h, files, f)
    ensures frames == AnswerFrames(id, n, a)
  {
    hide AnswerFor, BaseIn, SameHash, DeltaPays, DescribesBase;
    a := PlanTarget(h, BaseIn(files, f.dest), |f.content|, h(f.content));
    var sigs := SendSigs(id, n, a.sigs);
    frames := [P.FilePlan(id, n, Action(a.plan), a.blockSize, a.blockCount)] + sigs;
  }

  /** The receiver's side of the plan phase. */
  method PlanAll(h: Hash, dir: Direction, id: nat, disk: Disk, files: seq<Source>)
    returns (answers: seq<Answer>, frames: seq<P.Payload>, reused: nat)
    ensures answers == Answers(h, disk.files, files)
    ensures frames == PlanFrames(id, answers, 0)
    ensures reused == CountedAtPlanning(dir, files, answers)
  {
    hide AnswerTo, AnswerFrames, SkippedBytes, FramesBefore, PlanFrames;
    assert FramesBefore(id, [], 0) == [] by { NoFramesYet(id); }
    answers, frames, reused := [], [], 0;
    assert SkippedBytes(files, [], 0) == 0 by { NothingSkipped(files); }
    for n := 0 to |files|
      invariant |answers| == n && forall i :: 0 <= i < n ==> answers[i] == AnswerTo(h, disk.files, files[i])
      invariant frames == FramesBefore(id, answers, n)
      invariant reused == if dir.Pull? then SkippedBytes(files, answers, n) else 0
    {
      var a, more := PlanOne(h, id, n, disk.files, files[n]);
      FramesSnoc(id, answers, a);
      SkippedSnoc(files, answers, a);
      if dir.Pull? && a.plan.Skip? {
        reused := reused + |files[n].content|;
      }
      answers := answers + [a];
      frames := frames + more;
    }
    FramesComplete(id, answers, |answers|);
    PlanFramesUnfold(id, answers, |answers|);
    frames := frames + [P.PlanEnd(id)];
  }

  /** Bytes of the files planned as "skip" among the first `n`. */
  function SkippedBytes(files: seq<Source>, answers: seq<Answer>, n: nat): nat
    requires n <= |files| && n <= |answers|
  {
    if n == 0 then 0
    else SkippedBytes(files, answers, n - 1) + if answers[n - 1].plan.Skip? then |files[n - 1].content| else 0
  }

  /** A pull counts identical files while it plans; a push receiver counts nothing. */
  function CountedAtPlanning(dir: Direction, files: seq<Source>, answers: seq<Answer>): nat
    requires |files| == |answers|
  {
    if dir.Pull? then SkippedBytes(files, answers, |files|) else 0
  }

  lemma NoFramesYet(id: nat)
    ensures FramesBefore(id, [], 0) == []
  {
  }

  lemma NothingSkipped(files: seq<Source>)
    ensures SkippedBytes(files, [], 0) == 0
  {
  }

  lemma {:induction false} SkippedPrefix(files: seq<Source>, answers: seq<Answer>, more: seq<Answer>, n: nat)
    requires n <= |files| && n <= |answers|
    ensures SkippedBytes(files, answers + more, n) == SkippedBytes(files, answers, n)
  {
    if n > 0 {
      SkippedPrefix(files, answers, more, n - 1);
    }
  }

  lemma SkippedSnoc(files: seq<Source>, answers: seq<Answer>, a: Answer)
    requires |answers| < |files|
    ensures var n := |answers|;
            SkippedBytes(files, answers + [a], n + 1) ==
            SkippedBytes(files, answers, n) + if a.plan.Skip? then |files[n].content| else 0
  {
    SkippedPrefix(files, answers, [a], |answers|);
  }

  /** What is not streamed was skipped: together they are all bytes. */
  lemma {:induction false} SkippedAndStreamed(h: Hash, dir: Direction, files: seq<Source>, answers: seq<Answer>,
                                              table: seq<Slot>, items: seq<Item>, n: nat)
    requires n <= |files| == |answers| == |table| == |items|
    requires forall i :: 0 <= i < |files| ==> table[i].plan == answers[i].plan
    requires AllSendable(h, dir, table, Contents(files), items, |files|)
    ensures StreamedBytes(Contents(files), items, n) + SkippedBytes(files, answers, n) == TotalBytes(files, n)
  {
    hide MaySend;
    if n > 0 {
      SkippedAndStreamed(h, dir, files, answers, table, items, n - 1);
      SkipSendsNothing(h, dir, table[n - 1], Contents(files)[n - 1], items[n - 1]);
    }
  }

  lemma SkipSendsNothing(h: Hash, dir: Direction, slot: Slot, src: Blob, item: Item)
    requires MaySend(h, dir, slot, src, item)
    ensures item.Nothing? <==> slot.plan.Skip?
  {
    hide IsWhole;
  }

  function FramesBefore(id: nat, answers: seq<Answer>, n: nat): seq<P.Payload>
    requires n <= |answers|
  {
    if n == 0 then [] else FramesBefore(id, answers, n - 1) + AnswerFrames(id, n - 1, answers[n - 1])
  }

  lemma {:induction false} FramesPrefix(id: nat, answers: seq<Answer>, more: seq<Answer>, n: nat)
    requires n <= |answers|
    ensures FramesBefore(id, answers + more, n) == FramesBefore(id, answers, n)
  {
    hide AnswerFrames;
    if n > 0 {
      FramesPrefix(id, answers, more, n - 1);
    }
  }

  lemma FramesSnoc(id: nat, answers: seq<Answer>, a: Answer)
    ensures var n := |answers|;
            FramesBefore(id, answers + [a], n + 1) == FramesBefore(id, answers, n) + AnswerFrames(id, n, a)
  {
    FramesPrefix(id, answers, [a], |answers|);
  }

  lemma {:induction false} FramesComplete(id: nat, answers: seq<Answer>, n: nat)
    requires n <= |answers|
    ensures FramesBefore(id, answers, n) + PlanFrames(id, answers, n) == PlanFrames(id, answers, 0)
    decreases n
  {
    hide AnswerFrames;
    if n > 0 {
      FramesComplete(id, answers, n - 1);
      var before, a, rest := FramesBefore(id, answers, n - 1), AnswerFrames(id, n - 1, answers[n - 1]),
          PlanFrames(id, answers, n);
      assert before + (a + rest) == (before + a) + rest;
    } else {
      assert [] + PlanFrames(id, answers, 0) == PlanFrames(id, answers, 0);
    }
  }

  // ------------------------------------------------------------ data phase

  /** `XferStats` of the sender. */
  datatype Stats = Stats(sent: nat, reused: nat, skipped: nat)

  ghost predicate AllSendable(h: Hash, dir: Direction, table: seq<Slot>, srcs: seq<Blob>, items: seq<Item>, n: nat)
    requires n <= |table| == |srcs| && n <= |items|
  {
    forall i :: 0 <= i < n ==> MaySend(h, dir, table[i], srcs[i], items[i])
  }

  /** The sender's side of the data phase. */
  method SendAll(j: Task, files: seq<Source>, table: seq<Slot>)
    returns (ok: bool, items: seq<Item>, events: seq<Event>, stats: Stats)
    requires |table| == |files| && forall n :: 0 <= n < |table| ==> SlotInRange(table[n])
    ensures ok <==> forall n :: 0 <= n < |table| ==> table[n].plan.Delta? ==> Indexable(j.dir, table[n])
    ensures ok ==> |items| == |files| && AllSendable(j.h, j.dir, table, Contents(files), items, |files|)
    ensures ok ==> events == Transmission(j, Contents(files), items)
    ensures ok ==> stats.sent + stats.reused == TotalBytes(files, |files|)
    ensures ok ==> stats.sent == WireSent(j, events) && stats.skipped == Skipped(items)
  {
    hide MaySend, FileEvents, WireSent, SentSoFar, SlotInRange, Indexable;
    items, events, stats := [], [], Stats(0, 0, 0);
    NothingSent(j, files);
    for n := 0 to |files|
      invariant |items| == n && AllSendable(j.h, j.dir, table, Contents(files), items, n)
      invariant SentSoFar(j, files, items, events, stats)
      invariant forall i :: 0 <= i < n ==> table[i].plan.Delta? ==> Indexable(j.dir, table[i])
    {
      var src := files[n].content;
      var r := SendFile(j.h, j.dir, table[n], src);
      if r.Err? {
        return false, items, events, stats;
      }
      SendConserves(j.h, j.dir, table[n], src, r.value);
      SentMore(j, files, items, events, stats, r.value);
      items := items + [r.value];
      events := events + ItemEvents(j, n, r.value, src);
      stats := Counted(stats, r.value, |src|);
    }
    ok := true;
    SentAll(j, files, items, events, stats);
    events := events + [Good(if j.dir.Push? then P.PushEnd(j.id) else P.TransferDone(j.id, true, [], [], 0, ZERO))];
  }

  /** What was sent for the first files, and counted. */
  ghost predicate SentSoFar(j: Task, files: seq<Source>, items: seq<Item>, events: seq<Event>, stats: Stats)
  {
    && |items| <= |files| && events == DataEvents(j, Contents(files), items, |items|)
    && stats.sent + stats.reused == TotalBytes(files, |items|)
    && stats.sent == WireSent(j, events) && stats.skipped == Skipped(items)
  }

  lemma NothingSent(j: Task, files: seq<Source>)
    ensures SentSoFar(j, files, [], [], Stats(0, 0, 0))
  {
  }

  lemma SentMore(j: Task, files: seq<Source>, items: seq<Item>, events: seq<Event>, stats: Stats, item: Item)
    requires SentSoFar(j, files, items, events, stats) && |items| < |files|
    requires ItemBytes(item, files[|items|].content) == |files[|items|].content|
    ensures var n, src := |items|, files[|items|].content;
            SentSoFar(j, files, items + [item], events + ItemEvents(j, n, item, src), Counted(stats, item, |src|))
  {
    hide WireSent, DataEvents, ItemEvents, LiteralBytes, CopiedBytes;
    var n, src := |items|, files[|items|].content;
    DataSnoc(j, Contents(files), items, item);
    WireOfItem(j, n, item, src);
    WireConcat(j, events, ItemEvents(j, n, item, src));
    assert (items + [item])[..n] == items;
  }

  lemma SentAll(j: Task, files: seq<Source>, items: seq<Item>, events: seq<Event>, stats: Stats)
    requires SentSoFar(j, files, items, events, stats) && |items| == |files|
    ensures var end := Good(if j.dir.Push? then P.PushEnd(j.id) else P.TransferDone(j.id, true, [], [], 0, ZERO));
      && events + [end] == Transmission(j, Contents(files), items)
      && stats.sent + stats.reused == TotalBytes(files, |files|)
      && stats.sent == WireSent(j, events + [end]) && stats.skipped == Skipped(items)
  {
    hide WireSent, DataEvents, TotalBytes, Skipped;
    WireSnoc(j, events, Good(if j.dir.Push? then P.PushEnd(j.id) else P.TransferDone(j.id, true, [], [], 0, ZERO)));
  }

  /** Files for which nothing was sent. */
  function Skipped(items: seq<Item>): nat
  {
    if items == [] then 0 else Skipped(items[..|items| - 1]) + if items[|items| - 1].Nothing? then 1 else 0
  }

  function Counted(s: Stats, item: Item, size: nat): Stats
  {
    match item
    case Nothing => Stats(s.sent, s.reused + size, s.skipped + 1)
    case Stream(ops) => Stats(s.sent + LiteralBytes(ops), s.reused + CopiedBytes(ops), s.skipped)
  }

  lemma {:induction false} DataPrefix(j: Task, srcs: seq<Blob>, items: seq<Item>, more: seq<Item>, n: nat)
    requires n <= |items| && n <= |srcs|
    ensures DataEvents(j, srcs, items + more, n) == DataEvents(j, srcs, items, n)
  {
    hide ItemEvents;
    if n > 0 {
      DataPrefix(j, srcs, items, more, n - 1);
    }
  }

  lemma DataSnoc(j: Task, srcs: seq<Blob>, items: seq<Item>, item: Item)
    requires |items| < |srcs|
    ensures var n := |items|;
            DataEvents(j, srcs, items + [item], n + 1) ==
            DataEvents(j, srcs, items, n) + ItemEvents(j, n, item, srcs[n])
  {
    DataPrefix(j, srcs, items, [item], |items|);
  }

  // ---------------------------------------------------------- correctness

  /** Each sender slot is the receiver's answer, or says "whole". */
  ghost predicate AllInformed(dir: Direction, table: seq<Slot>, answers: seq<Answer>)
  {
    |table| == |answers| && forall n :: 0 <= n < |table| ==> Informed(dir, table[n], answers[n])
  }

  lemma OneFaithful(h: Hash, dir: Direction, id: nat, disk: Files, files: seq<Source>, table: seq<Slot>,
                    items: seq<Item>, n: nat)
    requires var answers := Answers(h, disk, files);
             && AllInformed(dir, table, answers) && n < |files| == |items|
             && MaySend(h, dir, table[n], files[n].content, items[n])
             && Separable(h, disk, files[n]) && Indexed(h, disk, files)
    ensures Faithful(TaskFor(h, dir, id, files, Answers(h, disk, files)), disk, Contents(files), items, n)
  {
    hide MaySend, Collisionless, AnswerFor, Applicable, Told;
    var f, a := files[n], AnswerTo(h, disk, files[n]);
    SendIsFaithful(h, dir, BaseIn(disk, f.dest), table[n], f.content, items[n]);
    var j := TaskFor(h, dir, id, files, Answers(h, disk, files));
    assert j.targets[n] == TargetOf(h, f, a);
  }

  /** The outcome of a transfer: every destination equals its source, and no
      other file is touched (stale temporary files of the same name aside). */
  ghost predicate Complete(j: Task, before: Files, after: Files, files: seq<Source>)
  {
    && (forall n :: 0 <= n < |files| ==> files[n].dest in after && after[files[n].dest] == files[n].content)
    && (forall p :: !IsDest(j, p) ==> Unchanged(before, after, p) || (IsTmp(j, p) && p !in after))
  }

  /** Composed correctness, for any sender that is informed: after a lost prefix
      of the plan stream as much as after a complete one. */
  lemma TransferIsCorrect(h: Hash, dir: Direction, id: nat, disk: Files, files: seq<Source>, table: seq<Slot>,
                          items: seq<Item>, reused: nat)
    requires var answers := Answers(h, disk, files);
             && AllInformed(dir, table, answers) && |items| == |files|
             && AllSendable(h, dir, table, Contents(files), items, |files|)
             && Admissible(h, TaskFor(h, dir, id, files, answers), disk, files) && Indexed(h, disk, files)
    ensures var j := TaskFor(h, dir, id, files, Answers(h, disk, files));
            var start := State(disk, None, Active, 0, reused);
            && Sound(j, start)
            && var s := Run(j, start, Transmission(j, Contents(files), items));
               && s.phase.Done?
               && Complete(j, disk, s.files, files)
               && s.sent + s.reused == reused + StreamedBytes(Contents(files), items, |items|)
               && s.sent == WireSent(j, Transmission(j, Contents(files), items))
  {
    hide *;
    EveryFileFaithful(h, dir, id, disk, files, table, items);
    var j := TaskFor(h, dir, id, files, Answers(h, disk, files));
    var start := State(disk, None, Active, 0, reused);
    Delivered(j, start, Contents(files), items);
    CompleteIntro(h, dir, id, disk, files, Run(j, start, Transmission(j, Contents(files), items)).files);
  }

  lemma EveryFileFaithful(h: Hash, dir: Direction, id: nat, disk: Files, files: seq<Source>, table: seq<Slot>,
                          items: seq<Item>)
    requires var answers := Answers(h, disk, files);
             && AllInformed(dir, table, answers) && |items| == |files|
             && AllSendable(h, dir, table, Contents(files), items, |files|)
             && Admissible(h, TaskFor(h, dir, id, files, answers), disk, files) && Indexed(h, disk, files)
    ensures var j := TaskFor(h, dir, id, files, Answers(h, disk, files));
            AllFaithful(j, disk, Contents(files), items) && NoClash(j) && DistinctDests(j)
  {
    hide MaySend, Separable, NoClash, DistinctDests, Informed, Faithful, AnswerTo;
    var j := TaskFor(h, dir, id, files, Answers(h, disk, files));
    forall n | 0 <= n < |files| ensures Faithful(j, disk, Contents(files), items, n) {
      OneFaithful(h, dir, id, disk, files, table, items, n);
    }
  }

  lemma CompleteIntro(h: Hash, dir: Direction, id: nat, disk: Files, files: seq<Source>, after: Files)
    requires var j := TaskFor(h, dir, id, files, Answers(h, disk, files));
             && (forall n :: 0 <= n < |files| ==> j.Dest(n) in after && after[j.Dest(n)] == Contents(files)[n])
             && (forall p :: !IsDest(j, p) ==> Unchanged(disk, after, p) || (IsTmp(j, p) && p !in after))
    ensures Complete(TaskFor(h, dir, id, files, Answers(h, disk, files)), disk, after, files)
  {
    hide IsDest, IsTmp, Unchanged, AnswerTo;
    var j := TaskFor(h, dir, id, files, Answers(h, disk, files));
    forall n | 0 <= n < |files| ensures files[n].dest in after && after[files[n].dest] == files[n].content {
      assert j.Dest(n) == files[n].dest;
    }
  }

  lemma ToldIsInformed(dir: Direction, answers: seq<Answer>, table: seq<Slot>)
    requires |table| == |answers| && forall i :: 0 <= i < |answers| ==> table[i] == Told(dir, answers[i])
    ensures AllInformed(dir, table, answers)
  {
  }

  lemma HarmlessIsInformed(answers: seq<Answer>, table: seq<Slot>)
    requires |table| == |answers| && forall i :: 0 <= i < |answers| ==> Harmless(table[i], answers[i])
    ensures AllInformed(Push, table, answers)
  {
  }

  // ------------------------------------------- without any trust in hashes

  /** Each destination is as before, or has the size and hash of its source. */
  ghost predicate Checked(h: Hash, before: Files, after: Files, files: seq<Source>)
  {
    forall n :: 0 <= n < |files| ==>
      || Unchanged(before, after, files[n].dest)
      || (files[n].dest in after && |after[files[n].dest]| == |files[n].content|
          && h(after[files[n].dest]) == h(files[n].content))
  }

  /** Each destination has the hash of its source. */
  ghost predicate SameHashes(h: Hash, after: Files, files: seq<Source>)
  {
    forall n :: 0 <= n < |files| ==>
      files[n].dest in after && h(after[files[n].dest]) == h(files[n].content)
  }

  /** What the final check gives when nothing is assumed about collisions or the
      sizes of bases: a transfer that ends well leaves every destination with the
      hash of its source, the size too where it was streamed; one that does not
      leaves each with that or with what it held before. */
  lemma TransferIsChecked(h: Hash, dir: Direction, id: nat, disk: Files, files: seq<Source>, table: seq<Slot>,
                          items: seq<Item>, reused: nat)
    requires var answers := Answers(h, disk, files);
             && AllInformed(dir, table, answers) && |items| == |files|
             && AllSendable(h, dir, table, Contents(files), items, |files|)
             && var j := TaskFor(h, dir, id, files, answers); NoClash(j) && DistinctDests(j)
    ensures var j := TaskFor(h, dir, id, files, Answers(h, disk, files));
            var start := State(disk, None, Active, 0, reused);
            && Sound(j, start)
            && var s := Run(j, start, Transmission(j, Contents(files), items));
               && (s.phase.Done? || s.phase.Stopped?) && Checked(h, disk, s.files, files)
               && (s.phase.Done? ==> SameHashes(h, s.files, files))
  {
    hide Run, Transmission, NoClash, DistinctDests, MaySend, Informed, AnswerTo, Hashed, TmpName;
    var j := TaskFor(h, dir, id, files, Answers(h, disk, files));
    var start := State(disk, None, Active, 0, reused);
    var srcs := Contents(files);
    DeliveredHashed(j, start, srcs, items);
    var s := Run(j, start, Transmission(j, srcs, items));
    forall n | 0 <= n < |files|
      ensures j.Dest(n) == files[n].dest && j.h(srcs[n]) == h(files[n].content)
      ensures items[n].Nothing? ==> files[n].dest in disk && h(disk[files[n].dest]) == h(files[n].content)
      ensures Hashed(j, n, j.h(srcs[n]), s.files) ==>
                files[n].dest in s.files && |s.files[files[n].dest]| == |files[n].content|
                && h(s.files[files[n].dest]) == h(files[n].content)
    {
      HashedMeans(h, dir, id, disk, files, n, s.files);
      if items[n].Nothing? {
        SkippedHasHash(h, dir, disk, files[n], table[n], items[n]);
      }
    }
  }

  lemma HashedMeans(h: Hash, dir: Direction, id: nat, disk: Files, files: seq<Source>, n: nat, after: Files)
    requires n < |files|
    ensures var j := TaskFor(h, dir, id, files, Answers(h, disk, files));
            && j.Dest(n) == files[n].dest && j.h == h
            && (Hashed(j, n, h(files[n].content), after) ==>
                  files[n].dest in after && |after[files[n].dest]| == |files[n].content|
                  && h(after[files[n].dest]) == h(files[n].content))
  {
    hide AnswerTo;
    var answers := Answers(h, disk, files);
    assert TaskFor(h, dir, id, files, answers).targets[n] == TargetOf(h, files[n], answers[n]);
  }

  /** Nothing is sent only for a file the receiver holds under that hash. */
  lemma SkippedHasHash(h: Hash, dir: Direction, disk: Files, f: Source, slot: Slot, item: Item)
    requires Informed(dir, slot, AnswerTo(h, disk, f)) && MaySend(h, dir, slot, f.content, item) && item.Nothing?
    ensures f.dest in disk && h(disk[f.dest]) == h(f.content)
  {
    hide SigsOf, EncodeSigs, ChooseBlockSize, WorthDelta;
    ToldParts(dir, AnswerTo(h, disk, f));
    SkipSendsNothing(h, dir, slot, f.content, item);
  }

  /** A transfer from end to end.  `lost` frames at the front of the plan stream
      are swallowed before a push sender reads; a pull loses none.  `ok` is what
      the receiver says in the end; `stats` is the sender's account, `own` the
      receiver's.  With no assumption on hashes every destination is checked;
      where hashes decide, the result is complete or nothing has changed. */
  method Transfer(h: Hash, dir: Direction, id: nat, disk: Disk, files: seq<Source>, lost: nat)
    returns (ok: bool, stats: Stats, own: Account)
    requires dir.Pull? ==> lost == 0
    requires var answers := Answers(h, disk.files, files); var j := TaskFor(h, dir, id, files, answers);
             && NoClash(j) && DistinctDests(j) && AllStorable(disk.files, files)
             && lost <= |PlanFrames(id, answers, 0)|
    modifies disk
    ensures Checked(h, old(disk.files), disk.files, files)
    ensures ok ==> SameHashes(h, disk.files, files) && stats.sent + stats.reused == TotalBytes(files, |files|)
    ensures Trusted(h, dir, id, old(disk.files), files) ==>
              && (lost == 0 ==> ok)
              && (ok ==> Complete(TaskFor(h, dir, id, files, Answers(h, old(disk.files), files)),
                                  old(disk.files), disk.files, files))
              && (ok ==> own.sent == stats.sent)
              && (ok && dir.Pull? ==> own.sent + own.reused == TotalBytes(files, |files|))
              && (!ok ==> disk.files == old(disk.files))
  {
    hide Admissible, Indexed, Complete, AllInformed, AllSendable, SlotInRange, Indexable, Contents, Answers, TaskFor,
      ReadMany, PlanFrames, TotalBytes, Transmission, Run, StreamedBytes, SkippedBytes, WireSent, Checked, SameHashes,
      NoClash, DistinctDests, AllStorable;
    ghost var before := disk.files;
    NothingIsChecked(h, before, files);
    var answers, frames, reused := PlanAll(h, dir, id, disk, files);
    var reader := new PlanReader(dir, id, |files|);
    reader.ReadAll(frames[lost..]);
    PlanOutcome(h, dir, id, before, files, lost, Reading(reader.table, reader.status));
    if !reader.status.Planned? {
      return false, Stats(0, 0, 0), Account(0, 0);
    }
    var j := TaskFor(h, dir, id, files, answers);
    var sent, items, events;
    sent, items, events, stats := SendAll(j, files, reader.table);
    TransferIsChecked(h, dir, id, before, files, reader.table, items, reused);
    if Trusted(h, dir, id, before, files) {
      TransferIsCorrect(h, dir, id, before, files, reader.table, items, reused);
    }
    ok, own := RunReceiver(j, disk, reused, events);
    if lost == 0 {
      SkippedAndStreamed(h, dir, files, answers, reader.table, items, |files|);
    }
  }

  /** Hashes decide where the transfer relies on them, and block numbers fit. */
  ghost predicate Trusted(h: Hash, dir: Direction, id: nat, disk: Files, files: seq<Source>)
  {
    Admissible(h, TaskFor(h, dir, id, files, Answers(h, disk, files)), disk, files) && Indexed(h, disk, files)
  }

  lemma NothingIsChecked(h: Hash, disk: Files, files: seq<Source>)
    ensures Checked(h, disk, disk, files)
  {
  }

  /** What the receiver has counted. */
  datatype Account = Account(sent: nat, reused: nat)

  /** A fresh receiving loop on `disk`. */
  method RunReceiver(j: Task, disk: Disk, reused: nat, events: seq<Event>) returns (ok: bool, own: Account)
    modifies disk
    ensures var start := State(old(disk.files), None, Active, 0, reused);
            Sound(j, start) && var s := Run(j, start, events);
            disk.files == s.files && ok == s.phase.Done? && own == Account(s.sent, s.reused)
  {
    hide Run, Step;
    var receiver := new Receiver(j, disk, reused);
    receiver.Receive(events);
    ok, own := receiver.phase.Done?, Account(receiver.sent, receiver.reused);
  }

  lemma PlanOutcome(h: Hash, dir: Direction, id: nat, disk: Files, files: seq<Source>, lost: nat, t: Reading)
    requires (dir.Pull? ==> lost == 0) && AllStorable(disk, files)
    requires lost <= |PlanFrames(id, Answers(h, disk, files), 0)|
    requires t == ReadMany(dir, id, Reading(seq(|files|, _ => UNPLANNED), Waiting),
                           PlanFrames(id, Answers(h, disk, files), 0)[lost..])
    ensures lost == 0 ==> t.status.Planned?
    ensures lost == 0 ==> |t.table| == |files|
    ensures lost == 0 ==> forall n :: 0 <= n < |files| ==> t.table[n].plan == Answers(h, disk, files)[n].plan
    ensures t.status.Planned? ==> |t.table| == |files| && AllInformed(dir, t.table, Answers(h, disk, files))
    ensures t.status.Planned? ==>
              forall n :: 0 <= n < |t.table| ==>
                            SlotInRange(t.table[n]) && (t.table[n].plan.Delta? ==> Indexable(dir, t.table[n]))
  {
    hide *;
    var answers := Answers(h, disk, files);
    var start := Reading(seq(|files|, _ => UNPLANNED), Waiting);
    var frames := PlanFrames(id, answers, 0);
    if lost == 0 {
      assert frames[0..] == frames;
      NothingPlanned(|files|);
      ReadPlans(dir, id, start, answers, 0);
      ToldIsInformed(dir, answers, t.table);
      forall n | 0 <= n < |files| ensures t.table[n].plan == answers[n].plan { ToldParts(dir, answers[n]); }
    } else if t.status.Planned? {
      LostPrefixIsSafe(id, answers, lost);
      HarmlessIsInformed(answers, t.table);
    }
    if t.status.Planned? {
      forall n | 0 <= n < |t.table|
        ensures SlotInRange(t.table[n]) && (t.table[n].plan.Delta? ==> Indexable(dir, t.table[n]))
      {
        InformedSlot(h, dir, disk, files, t.table, n);
      }
    }
  }

  lemma NothingPlanned(n: nat)
    ensures UnplannedFrom(seq(n, _ => UNPLANNED), 0)
  {
  }

  lemma InformedSlot(h: Hash, dir: Direction, disk: Files, files: seq<Source>, table: seq<Slot>, n: nat)
    requires AllStorable(disk, files) && AllInformed(dir, table, Answers(h, disk, files)) && n < |files|
    ensures SlotInRange(table[n]) && (table[n].plan.Delta? ==> Indexable(dir, table[n]))
  {
    hide AnswerFor, SlotInRange, Indexable, Told, SigsOf;
    var f, slot := files[n], table[n];
    var base := BaseIn(disk, f.dest);
    assert Informed(dir, slot, AnswerTo(h, disk, f));
    WholeInRange(slot);
    if !slot.plan.Whole? {
      AnswerInRange(h, dir, base, |f.content|, h(f.content));
      ToldParts(dir, AnswerTo(h, disk, f));
      if slot.plan.Delta? {
        DeltaNeedsBase(h, base, |f.content|, h(f.content));
        AnswerIndex(h, dir, base.value, f.content, slot);
      }
    }
  }

  lemma WholeInRange(slot: Slot)
    ensures slot.plan.Whole? ==> SlotInRange(slot)
  {
  }

  lemma DeltaNeedsBase(h: Hash, base: Option<Blob>, size: nat, sha: Digest)
    ensures AnswerFor(h, base, size, sha).plan.Delta? ==> base.Some?
  {
  }
}
