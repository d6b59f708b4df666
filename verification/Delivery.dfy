/** A fault-free data phase rebuilds every file. */
module Delivery {
  import opened Bytes
  import P = Payloads
  import opened Emitter
  import opened DeltaRebuild
  import opened Receiving

  /** Operations as they travel. */
  function OpFrame(id: nat, op: Op): P.Payload
  {
    match op
    case Copy(start, len) => P.Copy(id, start, len)
    case Data(bytes) => P.Data(id, bytes)
  }

  function Good(p: P.Payload): Event
  {
    Frame(p, true)
  }

  function OpEvents(id: nat, ops: seq<Op>): seq<Event>
  {
    if ops == [] then [] else OpEvents(id, ops[..|ops| - 1]) + [Good(OpFrame(id, ops[|ops| - 1]))]
  }

  function BaseBytes(base: Option<Blob>): Blob
  {
    if base.Some? then base.value else []
  }

  /** The operations can be applied: copies fit, and there are none without a base. */
  ghost predicate Applicable(base: Option<Blob>, ops: seq<Op>)
  {
    && CopiesFit(BaseBytes(base), ops)
    && (base.None? ==> forall k :: 0 <= k < |ops| ==> ops[k].Data?)
  }

  lemma {:induction false} BytesAddUp(base: Blob, ops: seq<Op>)
    requires CopiesFit(base, ops)
    ensures LiteralBytes(ops) + CopiedBytes(ops) == |Rebuild(base, ops)|
  {
    if ops != [] {
      BytesAddUp(base, ops[..|ops| - 1]);
    }
  }

  lemma {:induction false} RunConcat(j: Task, s: State, a: seq<Event>, b: seq<Event>)
    requires Sound(j, s)
    ensures Run(j, s, a + b) == Run(j, Run(j, s, a), b)
  {
    hide Step;
    if b == [] {
      assert a + b == a;
    } else {
      assert (a + b)[..|a + b| - 1] == a + b[..|b| - 1];
      RunConcat(j, s, a, b[..|b| - 1]);
    }
  }

  /** File `n` is open and holds `out`. */
  function Holding(j: Task, s: State, n: nat, base: Option<Blob>, out: Blob, sent: nat, reused: nat): State
    requires n < |j.targets|
  {
    State(s.files[j.Tmp(n) := out], Some(Writer(n, out, |out|, base)), Active, sent, reused)
  }

  lemma HoldingStep(j: Task, s: State, n: nat, base: Option<Blob>, out: Blob, sent: nat, reused: nat, op: Op)
    requires n < |j.targets| && Applicable(base, [op])
    requires |out| + |Piece(BaseBytes(base), op)| <= j.targets[n].size
    ensures var t := Holding(j, s, n, base, out, sent, reused);
            var piece := Piece(BaseBytes(base), op);
            && Sound(j, t)
            && Step(j, t, Good(OpFrame(j.id, op))) ==
               Holding(j, s, n, base, out + piece,
                       sent + (if op.Data? then |op.bytes| else 0), reused + (if op.Copy? then op.len else 0))
  {
    hide TmpName;
    assert [op][0] == op;
    if op.Copy? {
      assert InBase(BaseBytes(base), Range(op.start, op.len));
      if op.len == 0 {
        assert out + Piece(BaseBytes(base), op) == out;
      }
    }
  }

  lemma {:induction false} RunOps(j: Task, s: State, n: nat, base: Option<Blob>, ops: seq<Op>)
    requires n < |j.targets| && Applicable(base, ops)
    requires |Rebuild(BaseBytes(base), ops)| <= j.targets[n].size
    ensures var t := Holding(j, s, n, base, [], s.sent, s.reused);
            && Sound(j, t)
            && Run(j, t, OpEvents(j.id, ops)) ==
               Holding(j, s, n, base, Rebuild(BaseBytes(base), ops),
                       s.sent + LiteralBytes(ops), s.reused + CopiedBytes(ops))
  {
    hide Applicable, Step, Holding, Piece, Sound, OpEvents;
    HoldingSound(j, s, n, base, [], s.sent, s.reused);
    NoEvents(j.id);
    if ops != [] {
      var last := |ops| - 1;
      var init, op := ops[..last], ops[last];
      ApplicableParts(base, ops);
      LastEvent(j.id, ops);
      RunOps(j, s, n, base, init);
      HoldingStep(j, s, n, base, Rebuild(BaseBytes(base), init), s.sent + LiteralBytes(init),
                  s.reused + CopiedBytes(init), op);
    }
  }

  lemma HoldingSound(j: Task, s: State, n: nat, base: Option<Blob>, out: Blob, sent: nat, reused: nat)
    requires n < |j.targets|
    ensures Sound(j, Holding(j, s, n, base, out, sent, reused))
  {
    hide TmpName;
  }

  lemma ApplicableParts(base: Option<Blob>, ops: seq<Op>)
    requires Applicable(base, ops) && ops != []
    ensures Applicable(base, ops[..|ops| - 1]) && Applicable(base, [ops[|ops| - 1]])
  {
  }

  lemma NoEvents(id: nat)
    ensures OpEvents(id, []) == []
  {
  }

  lemma LastEvent(id: nat, ops: seq<Op>)
    requires ops != []
    ensures var events := OpEvents(id, ops);
            && events != []
            && events[..|events| - 1] == OpEvents(id, ops[..|ops| - 1])
            && events[|events| - 1] == Good(OpFrame(id, ops[|ops| - 1]))
  {
  }

  /** All frames of one file. */
  function FileEvents(id: nat, n: nat, ops: seq<Op>, sha: Digest): seq<Event>
  {
    [Good(P.FileStart(id, n))] + OpEvents(id, ops) + [Good(P.FileEnd(id, sha))]
  }

  /** The base the receiver opens for file `n`. */
  function BaseFor(j: Task, files: Files, n: nat): Option<Blob>
    requires n < |j.targets|
  {
    if j.targets[n].plan.Delta? && j.Dest(n) in files then Some(files[j.Dest(n)]) else None
  }

  function Published(j: Task, s: State, n: nat, content: Blob, ops: seq<Op>): State
    requires n < |j.targets|
  {
    State((s.files - {j.Tmp(n)})[j.Dest(n) := content], None, Active,
          s.sent + LiteralBytes(ops), s.reused + CopiedBytes(ops))
  }

  /** The frames of one file, received without faults, publish its content. */
  lemma RunFile(j: Task, s: State, n: nat, ops: seq<Op>, src: Blob)
    requires n < |j.targets| && s.phase.Active? && s.current.None? && NoClash(j)
    requires Applicable(BaseFor(j, s.files, n), ops) && Rebuild(BaseBytes(BaseFor(j, s.files, n)), ops) == src
    requires |src| == j.targets[n].size && j.h(src) != ZERO
    ensures Sound(j, s)
    ensures Run(j, s, FileEvents(j.id, n, ops, j.h(src))) == Published(j, s, n, src, ops)
  {
    hide Step, Holding, Applicable, Rebuild, Run, OpEvents, NoClash, BaseFor, BaseBytes,
      LiteralBytes, CopiedBytes, TmpName;
    var base := BaseFor(j, s.files, n);
    var start, body, end := [Good(P.FileStart(j.id, n))], OpEvents(j.id, ops), [Good(P.FileEnd(j.id, j.h(src)))];
    var u := Holding(j, s, n, base, src, s.sent + LiteralBytes(ops), s.reused + CopiedBytes(ops));
    StartStep(j, s, n);
    RunOne(j, s, start[0]);
    RunOps(j, s, n, base, ops);
    EndStep(j, s, n, base, src, s.sent + LiteralBytes(ops), s.reused + CopiedBytes(ops));
    RunConcat(j, s, start, body);
    RunConcat(j, s, start + body, end);
    RunOne(j, u, end[0]);
  }

  lemma StartStep(j: Task, s: State, n: nat)
    requires n < |j.targets| && s.phase.Active? && s.current.None? && NoClash(j)
    ensures Step(j, s, Good(P.FileStart(j.id, n))) ==
            Holding(j, s, n, BaseFor(j, s.files, n), [], s.sent, s.reused)
  {
    hide TmpName;
    assert j.Tmp(n) != j.Dest(n);
  }

  lemma EndStep(j: Task, s: State, n: nat, base: Option<Blob>, src: Blob, sent: nat, reused: nat)
    requires n < |j.targets| && |src| == j.targets[n].size && j.h(src) != ZERO
    ensures var u := Holding(j, s, n, base, src, sent, reused);
            && Sound(j, u)
            && Step(j, u, Good(P.FileEnd(j.id, j.h(src)))) ==
               State((s.files - {j.Tmp(n)})[j.Dest(n) := src], None, Active, sent, reused)
  {
    hide TmpName;
    assert s.files[j.Tmp(n) := src] - {j.Tmp(n)} == s.files - {j.Tmp(n)};
  }

  // ------------------------------------------------------------- all files

  /** What the sender does for one file. */
  datatype Item = Nothing | Stream(ops: seq<Op>)

  function ItemEvents(j: Task, n: nat, item: Item, src: Blob): seq<Event>
  {
    match item
    case Nothing => []
    case Stream(ops) => FileEvents(j.id, n, ops, j.h(src))
  }

  /** The data frames of the first `n` files. */
  function DataEvents(j: Task, srcs: seq<Blob>, items: seq<Item>, n: nat): seq<Event>
    requires n <= |items| && n <= |srcs|
  {
    if n == 0 then []
    else DataEvents(j, srcs, items, n - 1) + ItemEvents(j, n - 1, items[n - 1], srcs[n - 1])
  }

  /** The sender's choice for file `n` is right for the receiver's files. */
  ghost predicate Faithful(j: Task, start: Files, srcs: seq<Blob>, items: seq<Item>, n: nat)
    requires n < |j.targets| == |srcs| == |items|
  {
    && |srcs[n]| == j.targets[n].size
    && j.h(srcs[n]) != ZERO
    && (items[n].Nothing? ==> j.Dest(n) in start && start[j.Dest(n)] == srcs[n])
    && (items[n].Stream? ==>
          && Applicable(BaseFor(j, start, n), items[n].ops)
          && Rebuild(BaseBytes(BaseFor(j, start, n)), items[n].ops) == srcs[n])
  }

  ghost predicate AllFaithful(j: Task, start: Files, srcs: seq<Blob>, items: seq<Item>)
  {
    |j.targets| == |srcs| == |items| && forall n :: 0 <= n < |srcs| ==> Faithful(j, start, srcs, items, n)
  }

  ghost predicate DistinctDests(j: Task)
  {
    forall a, b :: 0 <= a < b < |j.targets| ==> j.Dest(a) != j.Dest(b)
  }

  /** Bytes of the streamed files among the first `n`. */
  function StreamedBytes(srcs: seq<Blob>, items: seq<Item>, n: nat): nat
    requires n <= |items| && n <= |srcs|
  {
    if n == 0 then 0
    else StreamedBytes(srcs, items, n - 1) + if items[n - 1].Stream? then |srcs[n - 1]| else 0
  }

  /** After the first `n` files: they are in place, the others are untouched. */
  ghost predicate UpTo(j: Task, start: State, srcs: seq<Blob>, items: seq<Item>, n: nat, s: State)
    requires |j.targets| == |srcs| == |items| && n <= |items|
  {
    && s.phase.Active? && s.current.None?
    && s.sent + s.reused == start.sent + start.reused + StreamedBytes(srcs, items, n)
    && (forall i :: 0 <= i < n ==> j.Dest(i) in s.files && s.files[j.Dest(i)] == srcs[i])
    && (forall i :: n <= i < |srcs| ==> Unchanged(start.files, s.files, j.Dest(i)))
    && (forall p :: !IsDest(j, p) ==> Unchanged(start.files, s.files, p) || (IsTmp(j, p) && p !in s.files))
  }

  lemma PublishUpTo(j: Task, start: State, srcs: seq<Blob>, items: seq<Item>, n: nat, s: State, ops: seq<Op>)
    requires |j.targets| == |srcs| == |items| && n < |items| && items[n] == Stream(ops)
    requires NoClash(j) && DistinctDests(j) && UpTo(j, start, srcs, items, n, s)
    requires LiteralBytes(ops) + CopiedBytes(ops) == |srcs[n]|
    ensures UpTo(j, start, srcs, items, n + 1, Published(j, s, n, srcs[n], ops))
  {
    hide TmpName, LiteralBytes, CopiedBytes, NoClash, DistinctDests, IsDest, IsTmp;
    var t := Published(j, s, n, srcs[n], ops);
    OtherDests(j, n);
    PublishElsewhere(j, s, n, srcs[n], ops);
  }

  lemma OtherDests(j: Task, n: nat)
    requires n < |j.targets| && NoClash(j) && DistinctDests(j)
    ensures forall i :: 0 <= i < |j.targets| && i != n ==> j.Dest(i) != j.Dest(n)
    ensures forall i :: 0 <= i < |j.targets| ==> j.Dest(i) != j.Tmp(n)
  {
    hide TmpName;
  }

  /** Apart from the destination and its temporary file nothing changes. */
  lemma PublishElsewhere(j: Task, s: State, n: nat, content: Blob, ops: seq<Op>)
    requires n < |j.targets|
    ensures var t := Published(j, s, n, content, ops);
            forall p :: !IsDest(j, p) ==> Unchanged(s.files, t.files, p) || (IsTmp(j, p) && p !in t.files)
  {
    hide TmpName, LiteralBytes, CopiedBytes;
    assert IsDest(j, j.Dest(n)) && IsTmp(j, j.Tmp(n));
  }

  lemma {:induction false} RunData(j: Task, start: State, srcs: seq<Blob>, items: seq<Item>, n: nat)
    requires NoClash(j) && DistinctDests(j) && AllFaithful(j, start.files, srcs, items) && n <= |items|
    requires start.phase.Active? && start.current.None?
    ensures Sound(j, start)
    ensures UpTo(j, start, srcs, items, n, Run(j, start, DataEvents(j, srcs, items, n)))
    decreases n
  {
    hide NoClash, DistinctDests, Run, DataEvents, UpTo, Faithful;
    DataUnfolds(j, srcs, items, n);
    if n == 0 {
      NothingYet(j, start, srcs, items);
    } else {
      var k := n - 1;
      RunData(j, start, srcs, items, k);
      var s := Run(j, start, DataEvents(j, srcs, items, k));
      RunConcat(j, start, DataEvents(j, srcs, items, k), ItemEvents(j, k, items[k], srcs[k]));
      assert Faithful(j, start.files, srcs, items, k);
      DataStep(j, start, srcs, items, k, s);
    }
  }

  lemma DataUnfolds(j: Task, srcs: seq<Blob>, items: seq<Item>, n: nat)
    requires n <= |items| && n <= |srcs|
    ensures n == 0 ==> DataEvents(j, srcs, items, n) == []
    ensures n > 0 ==>
              DataEvents(j, srcs, items, n) ==
              DataEvents(j, srcs, items, n - 1) + ItemEvents(j, n - 1, items[n - 1], srcs[n - 1])
  {
  }

  lemma NothingYet(j: Task, start: State, srcs: seq<Blob>, items: seq<Item>)
    requires |j.targets| == |srcs| == |items| && start.phase.Active? && start.current.None?
    ensures Sound(j, start) && UpTo(j, start, srcs, items, 0, Run(j, start, []))
  {
  }

  lemma DataStep(j: Task, start: State, srcs: seq<Blob>, items: seq<Item>, k: nat, s: State)
    requires |j.targets| == |srcs| == |items| && k < |items| && Faithful(j, start.files, srcs, items, k)
    requires NoClash(j) && DistinctDests(j) && UpTo(j, start, srcs, items, k, s)
    ensures Sound(j, s)
    ensures UpTo(j, start, srcs, items, k + 1, Run(j, s, ItemEvents(j, k, items[k], srcs[k])))
  {
    assert Unchanged(start.files, s.files, j.Dest(k));
    hide NoClash, DistinctDests, Step, LiteralBytes, CopiedBytes, FileEvents, Applicable, Rebuild, TmpName;
    match items[k]
    case Nothing =>
    case Stream(ops) =>
      assert BaseFor(j, s.files, k) == BaseFor(j, start.files, k);
      RunFile(j, s, k, ops, srcs[k]);
      ApplicableAddsUp(BaseFor(j, s.files, k), ops);
      hide UpTo;
      PublishUpTo(j, start, srcs, items, k, s, ops);
  }

  lemma ApplicableAddsUp(base: Option<Blob>, ops: seq<Op>)
    requires Applicable(base, ops)
    ensures LiteralBytes(ops) + CopiedBytes(ops) == |Rebuild(BaseBytes(base), ops)|
  {
    BytesAddUp(BaseBytes(base), ops);
  }

  /** The whole data phase with its closing frame. */
  function Transmission(j: Task, srcs: seq<Blob>, items: seq<Item>): seq<Event>
    requires |items| == |srcs|
  {
    DataEvents(j, srcs, items, |items|) +
    [Good(if j.dir.Push? then P.PushEnd(j.id) else P.TransferDone(j.id, true, [], [], 0, ZERO))]
  }

  /** The data phase ends well: every destination equals its source, nothing
      else changed, and every streamed byte was either sent or reused. */
  lemma Delivered(j: Task, start: State, srcs: seq<Blob>, items: seq<Item>)
    requires NoClash(j) && DistinctDests(j) && AllFaithful(j, start.files, srcs, items)
    requires start.phase.Active? && start.current.None?
    ensures Sound(j, start)
    ensures var s := Run(j, start, Transmission(j, srcs, items));
            && s.phase.Done? && s.current.None?
            && (forall n :: 0 <= n < |srcs| ==> j.Dest(n) in s.files && s.files[j.Dest(n)] == srcs[n])
            && (forall p :: !IsDest(j, p) ==> Unchanged(start.files, s.files, p) || (IsTmp(j, p) && p !in s.files))
            && s.sent + s.reused == start.sent + start.reused + StreamedBytes(srcs, items, |items|)
            && s.sent == start.sent + WireSent(j, Transmission(j, srcs, items))
  {
    hide NoClash, DistinctDests, IsDest, IsTmp, Unchanged, DataEvents, WireSent;
    RunData(j, start, srcs, items, |items|);
    var data := DataEvents(j, srcs, items, |items|);
    StatsAreExact(j, start, data);
    var last := Good(if j.dir.Push? then P.PushEnd(j.id) else P.TransferDone(j.id, true, [], [], 0, ZERO));
    RunConcat(j, start, data, [last]);
    RunOne(j, Run(j, start, data), last);
    WireSnoc(j, data, last);
  }

  lemma WireSnoc(j: Task, events: seq<Event>, e: Event)
    ensures WireSent(j, events + [e]) == WireSent(j, events) + SentIn(j, e)
  {
    assert (events + [e])[..|events|] == events;
  }

  lemma {:induction false} WireConcat(j: Task, a: seq<Event>, b: seq<Event>)
    ensures WireSent(j, a + b) == WireSent(j, a) + WireSent(j, b)
  {
    hide SentIn;
    if b == [] {
      assert a + b == a;
    } else {
      WireConcat(j, a, b[..|b| - 1]);
      assert (a + b)[..|a + b| - 1] == a + b[..|b| - 1];
    }
  }

  lemma {:induction false} WireOfOps(j: Task, ops: seq<Op>)
    ensures WireSent(j, OpEvents(j.id, ops)) == LiteralBytes(ops)
  {
    hide WireSent;
    if ops == [] {
      WireNothing(j);
    } else {
      WireOfOps(j, ops[..|ops| - 1]);
      WireSnoc(j, OpEvents(j.id, ops[..|ops| - 1]), Good(OpFrame(j.id, ops[|ops| - 1])));
    }
  }

  lemma WireNothing(j: Task)
    ensures WireSent(j, []) == 0
  {
  }

  /** What one file costs on the wire. */
  lemma WireOfItem(j: Task, n: nat, item: Item, src: Blob)
    ensures WireSent(j, ItemEvents(j, n, item, src)) == if item.Stream? then LiteralBytes(item.ops) else 0
  {
    hide WireSent, OpEvents, LiteralBytes;
    WireNothing(j);
    if item.Stream? {
      var start, end := Good(P.FileStart(j.id, n)), Good(P.FileEnd(j.id, j.h(src)));
      WireOfOps(j, item.ops);
      WireSnoc(j, [], start);
      assert [] + [start] == [start];
      WireConcat(j, [start], OpEvents(j.id, item.ops));
      WireSnoc(j, [start] + OpEvents(j.id, item.ops), end);
    }
  }

  // ------------------------------------------- whatever the frames rebuild

  /** While file `n` is under way: the loop has stopped, or its writer is open;
      nothing but its temporary file has changed. */
  ghost predicate Midway(j: Task, before: Files, n: nat, t: State)
    requires n < |j.targets|
  {
    && Sound(j, t)
    && (t.phase.Stopped? || (t.phase.Active? && t.current.Some?))
    && (t.current.Some? ==>
          var w := t.current.value;
          w.n == n && t.files[j.Tmp(n)] == w.hashed && |w.hashed| == w.received)
    && (forall p :: p != j.Tmp(n) ==> Unchanged(before, t.files, p))
  }

  /** Destination `n` has the announced size and hash. */
  ghost predicate Hashed(j: Task, n: nat, sha: Digest, files: Files)
    requires n < |j.targets|
  {
    j.Dest(n) in files && |files[j.Dest(n)]| == j.targets[n].size && j.h(files[j.Dest(n)]) == sha
  }

  /** After file `n`: published under its hash, or the loop has stopped. */
  ghost predicate Tried(j: Task, before: Files, n: nat, sha: Digest, t: State)
    requires n < |j.targets|
  {
    && t.current.None? && (t.phase.Stopped? || t.phase.Active?)
    && (forall p :: p != j.Tmp(n) && p != j.Dest(n) ==> Unchanged(before, t.files, p))
    && (if t.phase.Active? then Hashed(j, n, sha, t.files) else Unchanged(before, t.files, j.Dest(n)))
  }

  lemma StartTries(j: Task, s: State, n: nat)
    requires n < |j.targets| && s.phase.Active? && s.current.None?
    ensures Midway(j, s.files, n, Step(j, s, Good(P.FileStart(j.id, n))))
  {
    hide TmpName;
  }

  lemma WriteTries(j: Task, before: Files, n: nat, t: State, data: Blob)
    requires n < |j.targets| && Midway(j, before, n, t) && t.current.Some?
    ensures Midway(j, before, n, Write(j, t, data, true))
  {
    hide TmpName;
    var u := Write(j, t, data, true);
    forall p | p != j.Tmp(n) ensures Unchanged(before, u.files, p) {
      assert Unchanged(before, t.files, p);
    }
  }

  lemma CountTries(j: Task, before: Files, n: nat, t: State, sent: nat, reused: nat)
    requires n < |j.targets| && Midway(j, before, n, t)
    ensures Midway(j, before, n, t.(sent := sent, reused := reused))
    ensures Midway(j, before, n, Stop(j, t.(sent := sent, reused := reused)))
  {
    hide TmpName;
    var u := Stop(j, t.(sent := sent, reused := reused));
    forall p | p != j.Tmp(n) ensures Unchanged(before, u.files, p) {
      assert Unchanged(before, t.files, p);
    }
  }

  lemma OpTries(j: Task, before: Files, n: nat, t: State, op: Op)
    requires n < |j.targets| && Midway(j, before, n, t)
    ensures Midway(j, before, n, Step(j, t, Good(OpFrame(j.id, op))))
  {
    MidwaySound(j, before, n, t);
    hide TmpName, Write, Stop, Sound;
    if t.current.Some? {
      match op
      case Data(data) =>
        CountTries(j, before, n, t, t.sent + |data|, t.reused);
        WriteTries(j, before, n, t.(sent := t.sent + |data|), data);
      case Copy(start, len) =>
        var c, base := t.(reused := t.reused + len), t.current.value.base;
        CountTries(j, before, n, t, t.sent, t.reused + len);
        if base.Some? && start + len <= |base.value| {
          WriteTries(j, before, n, c, base.value[start..start + len]);
        }
    }
  }

  lemma EndTries(j: Task, before: Files, n: nat, t: State, sha: Digest)
    requires n < |j.targets| && Midway(j, before, n, t) && j.Tmp(n) != j.Dest(n)
    ensures Tried(j, before, n, sha, Step(j, t, Good(P.FileEnd(j.id, sha))))
  {
    hide TmpName;
    CountTries(j, before, n, t, t.sent, t.reused);
    var u := Step(j, t, Good(P.FileEnd(j.id, sha)));
    forall p | p != j.Tmp(n) && (p != j.Dest(n) || !u.phase.Active?)
      ensures Unchanged(before, u.files, p)
    {
      assert Unchanged(before, t.files, p);
    }
  }

  lemma {:induction false} OpsTry(j: Task, before: Files, n: nat, t: State, ops: seq<Op>)
    requires n < |j.targets| && Midway(j, before, n, t)
    ensures Midway(j, before, n, Run(j, t, OpEvents(j.id, ops)))
  {
    hide Midway, Step, OpFrame;
    assert Sound(j, t) by { MidwaySound(j, before, n, t); }
    if ops != [] {
      var last := |ops| - 1;
      var events := OpEvents(j.id, ops);
      OpsTry(j, before, n, t, ops[..last]);
      assert events[..|events| - 1] == OpEvents(j.id, ops[..last]);
      OpTries(j, before, n, Run(j, t, OpEvents(j.id, ops[..last])), ops[last]);
    }
  }

  lemma MidwaySound(j: Task, before: Files, n: nat, t: State)
    requires n < |j.targets| && Midway(j, before, n, t)
    ensures Sound(j, t)
  {
  }

  /** The frames of one file, whatever they rebuild. */
  lemma FileTries(j: Task, s: State, n: nat, ops: seq<Op>, sha: Digest)
    requires n < |j.targets| && s.phase.Active? && s.current.None? && j.Tmp(n) != j.Dest(n)
    ensures Sound(j, s) && Tried(j, s.files, n, sha, Run(j, s, FileEvents(j.id, n, ops, sha)))
  {
    hide Step, Run, OpEvents, Midway, Tried, TmpName;
    var start, body, end := [Good(P.FileStart(j.id, n))], OpEvents(j.id, ops), [Good(P.FileEnd(j.id, sha))];
    StartTries(j, s, n);
    RunOne(j, s, start[0]);
    RunConcat(j, s, start, body);
    var t := Run(j, s, start);
    OpsTry(j, s.files, n, t, ops);
    RunConcat(j, s, start + body, end);
    EndTries(j, s.files, n, Run(j, t, body), sha);
    RunOne(j, Run(j, t, body), end[0]);
  }

  /** After the first `n` files: each destination is as before or has the hash of
      its source; while the loop goes on, every streamed one has. */
  ghost predicate Checked(j: Task, start: Files, srcs: seq<Blob>, items: seq<Item>, n: nat, t: State)
    requires |j.targets| == |srcs| == |items|
  {
    && t.current.None? && (t.phase.Stopped? || t.phase.Active?)
    && (forall i :: 0 <= i < |srcs| ==>
          Unchanged(start, t.files, j.Dest(i)) || Hashed(j, i, j.h(srcs[i]), t.files))
    && (forall i :: 0 <= i < |srcs| && (i >= n || items[i].Nothing?) ==> Unchanged(start, t.files, j.Dest(i)))
    && (t.phase.Active? ==>
          forall i :: 0 <= i < n && i < |srcs| && items[i].Stream? ==> Hashed(j, i, j.h(srcs[i]), t.files))
    && (forall p :: !IsDest(j, p) && !IsTmp(j, p) ==> Unchanged(start, t.files, p))
  }

  lemma TriedChecks(j: Task, start: Files, srcs: seq<Blob>, items: seq<Item>, n: nat, s: State, t: State)
    requires |j.targets| == |srcs| == |items| && n < |srcs| && items[n].Stream?
    requires Checked(j, start, srcs, items, n, s) && s.phase.Active?
    requires NoClash(j) && DistinctDests(j) && Tried(j, s.files, n, j.h(srcs[n]), t)
    ensures Checked(j, start, srcs, items, n + 1, t)
  {
    hide TmpName, NoClash, DistinctDests;
    OtherDests(j, n);
    assert IsDest(j, j.Dest(n)) && IsTmp(j, j.Tmp(n));
    hide IsDest, IsTmp;
    forall i | 0 <= i < |srcs| && i != n ensures Unchanged(s.files, t.files, j.Dest(i)) {
    }
    forall p | !IsDest(j, p) && !IsTmp(j, p) ensures Unchanged(start, t.files, p) {
      assert p != j.Dest(n) && p != j.Tmp(n);
      assert Unchanged(s.files, t.files, p);
    }
  }

  lemma {:induction false} RunChecks(j: Task, start: State, srcs: seq<Blob>, items: seq<Item>, n: nat)
    requires |j.targets| == |srcs| == |items| && n <= |items| && NoClash(j) && DistinctDests(j)
    requires start.phase.Active? && start.current.None?
    ensures Sound(j, start)
    ensures Checked(j, start.files, srcs, items, n, Run(j, start, DataEvents(j, srcs, items, n)))
    decreases n
  {
    hide NoClash, DistinctDests, Run, DataEvents, Checked, FileEvents, Tried;
    DataUnfolds(j, srcs, items, n);
    if n == 0 {
      NothingChecked(j, start, srcs, items);
    } else {
      var k := n - 1;
      RunChecks(j, start, srcs, items, k);
      var s := Run(j, start, DataEvents(j, srcs, items, k));
      RunConcat(j, start, DataEvents(j, srcs, items, k), ItemEvents(j, k, items[k], srcs[k]));
      OneMoreChecked(j, start, srcs, items, k, s);
    }
  }

  lemma NothingChecked(j: Task, start: State, srcs: seq<Blob>, items: seq<Item>)
    requires |j.targets| == |srcs| == |items| && start.phase.Active? && start.current.None?
    ensures Sound(j, start) && Checked(j, start.files, srcs, items, 0, Run(j, start, []))
  {
  }

  lemma OneMoreChecked(j: Task, start: State, srcs: seq<Blob>, items: seq<Item>, k: nat, s: State)
    requires |j.targets| == |srcs| == |items| && k < |items| && NoClash(j) && DistinctDests(j)
    requires Checked(j, start.files, srcs, items, k, s) && Sound(j, s)
    ensures Checked(j, start.files, srcs, items, k + 1, Run(j, s, ItemEvents(j, k, items[k], srcs[k])))
  {
    hide FileEvents, Run, Tried, Checked, NoClash, DistinctDests;
    CheckedParts(j, start.files, srcs, items, k, s);
    if s.phase.Stopped? {
      StoppedStays(j, s, ItemEvents(j, k, items[k], srcs[k]));
      StoppedChecks(j, start.files, srcs, items, k, s);
    } else if items[k].Nothing? {
      RunNothing(j, s);
      SkippedChecks(j, start.files, srcs, items, k, s);
    } else {
      OtherDests(j, k);
      FileTries(j, s, k, items[k].ops, j.h(srcs[k]));
      TriedChecks(j, start.files, srcs, items, k, s, Run(j, s, ItemEvents(j, k, items[k], srcs[k])));
    }
  }

  lemma CheckedParts(j: Task, start: Files, srcs: seq<Blob>, items: seq<Item>, n: nat, t: State)
    requires |j.targets| == |srcs| == |items| && Checked(j, start, srcs, items, n, t)
    ensures t.current.None? && (t.phase.Stopped? || t.phase.Active?)
  {
  }

  lemma StoppedChecks(j: Task, start: Files, srcs: seq<Blob>, items: seq<Item>, n: nat, t: State)
    requires |j.targets| == |srcs| == |items| && Checked(j, start, srcs, items, n, t) && t.phase.Stopped?
    ensures Checked(j, start, srcs, items, n + 1, t)
  {
  }

  lemma SkippedChecks(j: Task, start: Files, srcs: seq<Blob>, items: seq<Item>, n: nat, t: State)
    requires |j.targets| == |srcs| == |items| && n < |items| && Checked(j, start, srcs, items, n, t)
    requires items[n].Nothing?
    ensures Checked(j, start, srcs, items, n + 1, t)
  {
  }

  lemma {:induction false} StoppedStays(j: Task, s: State, events: seq<Event>)
    requires Sound(j, s) && !s.phase.Active?
    ensures Run(j, s, events) == s
  {
    if events != [] {
      StoppedStays(j, s, events[..|events| - 1]);
    }
  }

  /** The data phase without any assumption on hashes: each destination is as
      before or has the size and hash of its source, and when the loop ends well
      every streamed one has. */
  lemma DeliveredHashed(j: Task, start: State, srcs: seq<Blob>, items: seq<Item>)
    requires |j.targets| == |srcs| == |items| && NoClash(j) && DistinctDests(j)
    requires start.phase.Active? && start.current.None?
    ensures Sound(j, start)
    ensures var s := Run(j, start, Transmission(j, srcs, items));
            && (s.phase.Done? || s.phase.Stopped?)
            && (forall n :: 0 <= n < |srcs| ==>
                  Unchanged(start.files, s.files, j.Dest(n)) || Hashed(j, n, j.h(srcs[n]), s.files))
            && (forall n :: 0 <= n < |srcs| && items[n].Nothing? ==> Unchanged(start.files, s.files, j.Dest(n)))
            && (s.phase.Done? ==>
                  forall n :: 0 <= n < |srcs| && items[n].Stream? ==> Hashed(j, n, j.h(srcs[n]), s.files))
            && (forall p :: !IsDest(j, p) && !IsTmp(j, p) ==> Unchanged(start.files, s.files, p))
  {
    hide NoClash, DistinctDests, IsDest, IsTmp, Unchanged, DataEvents, Hashed, Run, TmpName;
    RunChecks(j, start, srcs, items, |items|);
    var data := DataEvents(j, srcs, items, |items|);
    var last := Good(if j.dir.Push? then P.PushEnd(j.id) else P.TransferDone(j.id, true, [], [], 0, ZERO));
    RunConcat(j, start, data, [last]);
    RunOne(j, Run(j, start, data), last);
  }
}
