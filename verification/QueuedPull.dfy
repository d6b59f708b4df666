/** The pull of `Transfers` carried by the queues of `PullFlow`: every complete
    run, in whatever interleaving, leaves each destination equal to its source. */
module QueuedPull {
  import opened Bytes
  import P = Payloads
  import opened Receiving
  import opened Planning
  import opened Delivery
  import opened Sending
  import opened Transfers
  import F = PullFlow
  import Emitter
  import Signatures

  /** The payloads of a list of frames, and the frames of a list of payloads. */
  function Carried(events: seq<Event>): (ps: seq<P.Payload>)
    ensures |ps| == |events|
  {
    seq(|events|, i requires 0 <= i < |events| => if events[i].Frame? then events[i].p else P.PlanEnd(0))
  }

  function Arrive(ps: seq<P.Payload>): (events: seq<Event>)
    ensures |events| == |ps|
  {
    seq(|ps|, i requires 0 <= i < |ps| => Good(ps[i]))
  }

  predicate Plain(e: Event)
  {
    e.Frame? && e.diskOk && !F.Ends(e.p)
  }

  predicate AllPlain(events: seq<Event>)
  {
    forall i :: 0 <= i < |events| ==> Plain(events[i])
  }

  lemma {:induction false} OpEventsPlain(id: nat, ops: seq<Emitter.Op>)
    ensures AllPlain(OpEvents(id, ops))
  {
    if ops != [] {
      OpEventsPlain(id, ops[..|ops| - 1]);
    }
  }

  lemma ItemPlain(j: Task, n: nat, item: Item, src: Blob)
    ensures AllPlain(ItemEvents(j, n, item, src))
  {
    hide OpEvents;
    if item.Stream? {
      OpEventsPlain(j.id, item.ops);
    }
  }

  lemma {:induction false} DataPlain(j: Task, srcs: seq<Blob>, items: seq<Item>, n: nat)
    requires n <= |items| && n <= |srcs|
    ensures AllPlain(DataEvents(j, srcs, items, n))
  {
    hide ItemEvents, Plain;
    if n > 0 {
      DataPlain(j, srcs, items, n - 1);
      ItemPlain(j, n - 1, items[n - 1], srcs[n - 1]);
    }
  }

  lemma PlainArrives(events: seq<Event>)
    requires AllPlain(events)
    ensures F.Quiet(Carried(events)) && Arrive(Carried(events)) == events
  {
  }

  lemma {:induction false} SigFramesQuiet(id: nat, n: nat, k: nat, blob: Blob)
    ensures F.Quiet(SigFrames(id, n, k, blob))
    decreases |blob|
  {
    if blob != [] {
      SigFramesQuiet(id, n, k + 1, blob[Min(Signatures.SIG_BATCH, |blob|)..]);
    }
  }

  lemma {:induction false} PlansQuiet(id: nat, answers: seq<Answer>, n: nat)
    requires n <= |answers|
    ensures F.Quiet(FramesBefore(id, answers, n))
  {
    hide SigFrames;
    if n > 0 {
      PlansQuiet(id, answers, n - 1);
      SigFramesQuiet(id, n - 1, 0, answers[n - 1].sigs);
    }
  }

  // ------------------------------------------------- what the ends have read

  /** A file the controller wants, as its entry describes it. */
  datatype Wanted = Wanted(dest: Path, size: nat, sha: Digest)

  const DIR := 0
  const FILE := 1
  const SYMLINK := 2

  /** The controller's manifest loop takes one payload; `place` decodes a
      relative path, checks it and joins it to the target directory. */
  function ReadEntry(place: Blob -> Option<Path>, ws: seq<Wanted>, e: P.Payload): Option<seq<Wanted>>
  {
    if !e.Entry? then Some(ws)
    else
      match place(e.rel)
      case None => None
      case Some(dest) =>
        if e.kind == DIR || e.kind == SYMLINK then Some(ws)
        else if e.kind == FILE && e.fileSeq == |ws| then Some(ws + [Wanted(dest, e.size, e.sha256)])
        else None
  }

  /** An entry is taken when its path is safe and it is a directory (0), a link
      (2), or a file (1) with the next number; only files are wanted, each with
      the size and the hash of its entry. */
  lemma EntryIsRead(place: Blob -> Option<Path>, ws: seq<Wanted>, e: P.Payload)
    requires e.Entry?
    ensures ReadEntry(place, ws, e).Some? <==>
      place(e.rel).Some? && (e.kind == 0 || e.kind == 2 || (e.kind == 1 && e.fileSeq == |ws|))
    ensures ReadEntry(place, ws, e).Some? ==>
      ReadEntry(place, ws, e).value ==
      ws + if e.kind == 1 then [Wanted(place(e.rel).value, e.size, e.sha256)] else []
  {
    assert ws + [] == ws;
  }

  function ReadEntries(place: Blob -> Option<Path>, es: seq<P.Payload>): Option<seq<Wanted>>
  {
    if es == [] then Some([])
    else
      match ReadEntries(place, es[..|es| - 1])
      case None => None
      case Some(ws) => ReadEntry(place, ws, es[|es| - 1])
  }

  function WantedOf(h: Hash, files: seq<Source>): (ws: seq<Wanted>)
    ensures |ws| == |files|
  {
    seq(|files|, n requires 0 <= n < |files| => Wanted(files[n].dest, |files[n].content|, h(files[n].content)))
  }

  /** The controller's answers to the entries it has read. */
  function AnswersTo(h: Hash, disk: Files, ws: seq<Wanted>): (r: seq<Answer>)
    ensures |r| == |ws|
  {
    seq(|ws|, n requires 0 <= n < |ws| => AnswerFor(h, BaseIn(disk, ws[n].dest), ws[n].size, ws[n].sha))
  }

  lemma AnswersAgree(h: Hash, disk: Files, files: seq<Source>)
    ensures AnswersTo(h, disk, WantedOf(h, files)) == Answers(h, disk, files)
  {
    hide AnswerFor;
  }

  /** Plan frames for the entries read. */
  function PlanFor(h: Hash, id: nat, disk: Files, place: Blob -> Option<Path>, es: seq<P.Payload>): seq<P.Payload>
  {
    match ReadEntries(place, es)
    case None => []
    case Some(ws) => FramesBefore(id, AnswersTo(h, disk, ws), |ws|)
  }

  /** What the agent knows after reading plan frames. */
  function TableFor(id: nat, n: nat, plans: seq<P.Payload>): seq<Slot>
  {
    ReadMany(Pull, id, Reading(seq(n, _ => UNPLANNED), Waiting), plans + [P.PlanEnd(id)]).table
  }

  /** Data frames for the plans read; `choose` is how the agent cuts each file. */
  function DataFor(h: Hash, id: nat, srcs: seq<Blob>, choose: seq<Slot> -> seq<Item>,
                   plans: seq<P.Payload>): seq<P.Payload>
  {
    var items := choose(TableFor(id, |srcs|, plans));
    if |items| == |srcs| then Carried(DataEvents(Task(h, Pull, id, []), srcs, items, |srcs|)) else []
  }

  /** What both ends say: each phase depends on what was read in the last. */
  function ScriptFor(h: Hash, id: nat, disk: Files, place: Blob -> Option<Path>, entries: seq<P.Payload>,
                     srcs: seq<Blob>, choose: seq<Slot> -> seq<Item>): F.Script
  {
    F.Script(entries, P.ManifestEnd(id, |srcs|),
             es => PlanFor(h, id, disk, place, es), P.PlanEnd(id),
             ps => DataFor(h, id, srcs, choose, ps), P.TransferDone(id, true, [], [], 0, ZERO))
  }

  predicate Roomy(net: F.Net)
  {
    && net.up != [] && net.down != []
    && (forall i :: 0 <= i < |net.up| ==> net.up[i] >= 1)
    && (forall i :: 0 <= i < |net.down| ==> net.down[i] >= 1)
  }

  lemma ScriptIsFine(h: Hash, id: nat, disk: Files, place: Blob -> Option<Path>, entries: seq<P.Payload>,
                     srcs: seq<Blob>, choose: seq<Slot> -> seq<Item>, net: F.Net)
    requires F.Quiet(entries) && Roomy(net)
    ensures F.Wf(ScriptFor(h, id, disk, place, entries, srcs, choose), net)
  {
    hide F.Quiet, PlanFor, DataFor;
    var plans := PlanFor(h, id, disk, place, entries);
    PlanIsQuiet(h, id, disk, place, entries);
    DataIsQuiet(h, id, srcs, choose, plans);
  }

  lemma PlanIsQuiet(h: Hash, id: nat, disk: Files, place: Blob -> Option<Path>, es: seq<P.Payload>)
    ensures F.Quiet(PlanFor(h, id, disk, place, es))
  {
    hide FramesBefore, ReadEntries, AnswersTo;
    if ReadEntries(place, es).Some? {
      var answers := AnswersTo(h, disk, ReadEntries(place, es).value);
      PlansQuiet(id, answers, |answers|);
    }
  }

  lemma DataIsQuiet(h: Hash, id: nat, srcs: seq<Blob>, choose: seq<Slot> -> seq<Item>, plans: seq<P.Payload>)
    ensures F.Quiet(DataFor(h, id, srcs, choose, plans))
  {
    hide AllPlain, DataEvents, Carried, Arrive, TableFor;
    var items := choose(TableFor(id, |srcs|, plans));
    if |items| == |srcs| {
      DataPlain(Task(h, Pull, id, []), srcs, items, |srcs|);
      PlainArrives(DataEvents(Task(h, Pull, id, []), srcs, items, |srcs|));
    }
  }

  /** Frames name the transfer and the hash, not the receiver's targets. */
  lemma {:induction false} SameEvents(j: Task, k: Task, srcs: seq<Blob>, items: seq<Item>, n: nat)
    requires j.id == k.id && j.h == k.h && n <= |items| && n <= |srcs|
    ensures DataEvents(j, srcs, items, n) == DataEvents(k, srcs, items, n)
  {
    hide FileEvents;
    if n > 0 {
      SameEvents(j, k, srcs, items, n - 1);
    }
  }

  lemma TransmissionArrives(j: Task, srcs: seq<Blob>, items: seq<Item>)
    requires |items| == |srcs| && j.dir.Pull?
    ensures Arrive(Carried(DataEvents(j, srcs, items, |items|)) + [P.TransferDone(j.id, true, [], [], 0, ZERO)])
         == Transmission(j, srcs, items)
  {
    hide AllPlain, DataEvents, Carried;
    var data := DataEvents(j, srcs, items, |items|);
    DataPlain(j, srcs, items, |items|);
    PlainArrives(data);
    ArriveSnoc(Carried(data), P.TransferDone(j.id, true, [], [], 0, ZERO));
  }

  lemma ArriveSnoc(ps: seq<P.Payload>, p: P.Payload)
    ensures Arrive(ps + [p]) == Arrive(ps) + [Good(p)]
  {
  }

  lemma PlansWithEnd(id: nat, answers: seq<Answer>)
    ensures FramesBefore(id, answers, |answers|) + [P.PlanEnd(id)] == PlanFrames(id, answers, 0)
  {
    hide FramesBefore, PlanFrames;
    FramesComplete(id, answers, |answers|);
    PlanFramesUnfold(id, answers, |answers|);
  }

  // --------------------------------------------------------- the whole pull

  /** The agent's choice, for the plans it gets, is one `SendFile` may make. */
  ghost predicate MayStream(h: Hash, id: nat, disk: Files, files: seq<Source>, items: seq<Item>)
  {
    var table := TableOf(h, id, disk, files);
    |items| == |table| == |files| && AllSendable(h, Pull, table, Contents(files), items, |files|)
  }

  /** The agent's table once it has read the answers to `files`. */
  function TableOf(h: Hash, id: nat, disk: Files, files: seq<Source>): seq<Slot>
  {
    var answers := Answers(h, disk, files);
    TableFor(id, |files|, FramesBefore(id, answers, |answers|))
  }

  /** `s` is the end of a run after which no step is possible. */
  ghost predicate EndsAt(script: F.Script, net: F.Net, moves: seq<F.Move>, s: F.Flow)
  {
    && F.Runs(script, net, F.Start(script, net), moves)
    && s == F.After(script, net, F.Start(script, net), moves)
    && forall m :: !F.Enabled(net, s, m)
  }

  /** A data loop from its start over some payloads. */
  function Fetch(j: Task, disk: Files, reused: nat, ps: seq<P.Payload>): State
  {
    Run(j, State(disk, None, Active, 0, reused), Arrive(ps))
  }

  /** The controller's state after its data loop over the frames it got. */
  function Received(h: Hash, id: nat, disk: Files, files: seq<Source>, script: F.Script, s: F.Flow): State
  {
    var answers := Answers(h, disk, files);
    Fetch(TaskFor(h, Pull, id, files, answers), disk, SkippedBytes(files, answers, |files|), s.received + [script.done])
  }

  /** A pull over queues of any capacity: when no step is left, the controller
      has read entries that describe exactly the files, the agent has read the
      answers to them, and what came back rebuilds every file and is counted
      right. */
  lemma PullOverQueues(h: Hash, id: nat, disk: Files, files: seq<Source>, place: Blob -> Option<Path>,
                       entries: seq<P.Payload>, choose: seq<Slot> -> seq<Item>, net: F.Net,
                       moves: seq<F.Move>, s: F.Flow)
    requires Roomy(net) && F.Quiet(entries) && Indexed(h, disk, files)
    requires ReadEntries(place, entries) == Some(WantedOf(h, files))
    ensures var script := ScriptFor(h, id, disk, place, entries, Contents(files), choose);
            var j := TaskFor(h, Pull, id, files, Answers(h, disk, files));
      && Admissible(h, j, disk, files)
      && MayStream(h, id, disk, files, choose(TableOf(h, id, disk, files))) && EndsAt(script, net, moves, s) ==>
        && ReadEntries(place, s.entries) == Some(WantedOf(h, files))
        && TableFor(id, |files|, s.plans) == TableOf(h, id, disk, files)
        && var t := Received(h, id, disk, files, script, s);
           Complete(j, disk, t.files, files) && t.sent + t.reused == TotalBytes(files, |files|)
  {
    hide *;
    var answers := Answers(h, disk, files);
    var j := TaskFor(h, Pull, id, files, answers);
    var srcs := Contents(files);
    var script := ScriptFor(h, id, disk, place, entries, srcs, choose);
    var items := choose(TableOf(h, id, disk, files));
    if Admissible(h, j, disk, files) && MayStream(h, id, disk, files, items) && EndsAt(script, net, moves, s) {
      ScriptIsFine(h, id, disk, place, entries, srcs, choose, net);
      EndIsFinished(script, net, moves, s);
      StreamsWell(h, id, disk, files, items);
      ScriptSays(h, id, disk, files, place, entries, choose, s);
      SameEvents(Task(h, Pull, id, []), j, srcs, items, |items|);
      TransmissionArrives(j, srcs, items);
      ReceivedIs(h, id, disk, files, script, s);
      FetchIs(j, disk, SkippedBytes(files, answers, |files|), s.received + [script.done], Transmission(j, srcs, items));
    }
  }

  lemma FetchIs(j: Task, disk: Files, reused: nat, ps: seq<P.Payload>, events: seq<Event>)
    requires Arrive(ps) == events
    ensures var start := State(disk, None, Active, 0, reused);
            Sound(j, start) && Fetch(j, disk, reused, ps) == Run(j, start, events)
  {
    hide Run, Arrive;
  }

  lemma ReceivedIs(h: Hash, id: nat, disk: Files, files: seq<Source>, script: F.Script, s: F.Flow)
    ensures var answers := Answers(h, disk, files);
            Received(h, id, disk, files, script, s) ==
            Fetch(TaskFor(h, Pull, id, files, answers), disk, SkippedBytes(files, answers, |files|),
                  s.received + [script.done])
  {
    hide Fetch, SkippedBytes, Answers, TaskFor;
  }

  lemma StreamsWell(h: Hash, id: nat, disk: Files, files: seq<Source>, items: seq<Item>)
    requires MayStream(h, id, disk, files, items) && Indexed(h, disk, files)
    requires Admissible(h, TaskFor(h, Pull, id, files, Answers(h, disk, files)), disk, files)
    ensures |items| == |files|
    ensures var answers := Answers(h, disk, files); var j := TaskFor(h, Pull, id, files, answers);
            var start := State(disk, None, Active, 0, SkippedBytes(files, answers, |files|));
      && Sound(j, start)
      && var t := Run(j, start, Transmission(j, Contents(files), items));
         Complete(j, disk, t.files, files) && t.sent + t.reused == TotalBytes(files, |files|)
  {
    hide Complete, Admissible, Indexed, AllSendable, ReadMany, PlanFrames, Transmission, Run, AllInformed, Answers,
      TaskFor, SkippedBytes, StreamedBytes, TotalBytes, WireSent, FramesBefore, AllStorable;
    var answers := Answers(h, disk, files);
    var t := ReadMany(Pull, id, Reading(seq(|files|, _ => UNPLANNED), Waiting), PlanFrames(id, answers, 0));
    assert PlanFrames(id, answers, 0)[0..] == PlanFrames(id, answers, 0);
    PlansWithEnd(id, answers);
    IndexedIsStorable(h, disk, files);
    PlanOutcome(h, Pull, id, disk, files, 0, t);
    TransferIsCorrect(h, Pull, id, disk, files, t.table, items, SkippedBytes(files, answers, |files|));
    SkippedAndStreamed(h, Pull, files, answers, t.table, items, |files|);
  }

  lemma EndIsFinished(script: F.Script, net: F.Net, moves: seq<F.Move>, s: F.Flow)
    requires F.Wf(script, net) && EndsAt(script, net, moves, s)
    ensures F.Finished(script, s)
  {
    hide F.Runs, F.After, F.Enabled, F.Finished, F.Start, F.Wf, F.Total;
    F.PullNeverDeadlocks(script, net, moves);
  }

  /** What each end has read in the end. */
  lemma ScriptSays(h: Hash, id: nat, disk: Files, files: seq<Source>, place: Blob -> Option<Path>,
                   entries: seq<P.Payload>, choose: seq<Slot> -> seq<Item>, s: F.Flow)
    requires ReadEntries(place, entries) == Some(WantedOf(h, files))
    requires F.Finished(ScriptFor(h, id, disk, place, entries, Contents(files), choose), s)
    requires |choose(TableOf(h, id, disk, files))| == |files|
    ensures var script := ScriptFor(h, id, disk, place, entries, Contents(files), choose);
            var items := choose(TableOf(h, id, disk, files));
      && script.done == P.TransferDone(id, true, [], [], 0, ZERO)
      && s.entries == entries
      && TableFor(id, |files|, s.plans) == TableOf(h, id, disk, files)
      && s.received == Carried(DataEvents(Task(h, Pull, id, []), Contents(files), items, |items|))
  {
    hide FramesBefore, DataEvents, Carried, ReadEntries, AnswersTo, WantedOf, Answers, TableFor;
    AnswersAgree(h, disk, files);
  }
}
