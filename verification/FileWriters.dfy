/** `FileWriter` and the receiving loop over it. */
module FileWriters {
  import opened Bytes
  import opened Payloads
  import opened Receiving

  /** The disk of the receiving machine. */
  class Disk {
    var files: Files

    constructor (content: Files)
      ensures files == content
    {
      files := content;
    }
  }

  /** `n` bytes of the base have been hashed and written. */
  ghost predicate Copying(base: Blob, start: nat, n: nat, from: Blob, hashed: Blob, first: Blob, written: Blob)
  {
    if n == 0 then hashed == from && written == first
    else start + n <= |base| && hashed == from + base[start..start + n] && written == first + base[start..start + n]
  }

  lemma CopyStarts(base: Blob, start: nat, from: Blob, first: Blob)
    ensures Copying(base, start, 0, from, from, first, first)
  {
  }

  lemma CopyInBase(base: Blob, start: nat, n: nat, from: Blob, hashed: Blob, first: Blob, written: Blob)
    requires Copying(base, start, n, from, hashed, first, written)
    ensures n > 0 ==> start + n <= |base|
  {
  }

  lemma CopyMore(base: Blob, start: nat, n: nat, more: nat, from: Blob, hashed: Blob, first: Blob, written: Blob)
    requires Copying(base, start, n, from, hashed, first, written) && start + n + more <= |base| && more > 0
    ensures var chunk := base[start + n..start + n + more];
            Copying(base, start, n + more, from, hashed + chunk, first, written + chunk)
  {
    assert base[start..start + n] + base[start + n..start + n + more] == base[start..start + n + more];
  }

  lemma CopyEnds(base: Blob, start: nat, n: nat, from: Blob, hashed: Blob, first: Blob, written: Blob)
    requires Copying(base, start, n, from, hashed, first, written)
    ensures n == 0 ==> hashed == from && written == first
    ensures n > 0 ==> start + n <= |base|
    ensures n > 0 ==> hashed == from + base[start..start + n] && written == first + base[start..start + n]
  {
  }

  /** No file but `tmp` differs, and the same files exist. */
  predicate OnlyOne(a: Files, b: Files, tmp: Path)
  {
    b.Keys == a.Keys && forall p :: p in b && p != tmp ==> b[p] == a[p]
  }

  lemma OnlySame(a: Files, tmp: Path)
    ensures OnlyOne(a, a, tmp)
  {
  }

  lemma OnlyTwice(a: Files, b: Files, c: Files, tmp: Path)
    requires OnlyOne(a, b, tmp) && OnlyOne(b, c, tmp)
    ensures OnlyOne(a, c, tmp)
  {
  }

  class FileWriter {
    const disk: Disk
    const tmp: Path
    const dest: Path
    const expected: nat
    const base: Option<Blob>
    var hashed: Blob
    var received: nat

    ghost predicate Valid()
      reads this, disk
    {
      tmp in disk.files
    }

    ghost function Value(n: nat): Writer
      reads this
    {
      Writer(n, hashed, received, base)
    }

    /** `FileWriter::create`, once the temporary file could be opened. */
    constructor (disk: Disk, dest: Path, useBase: bool, tmp: Path, expected: nat)
      modifies disk
      ensures Valid() && this.disk == disk && this.dest == dest && this.tmp == tmp && this.expected == expected
      ensures disk.files == old(disk.files)[tmp := []]
      ensures hashed == [] && received == 0
      ensures base == if useBase && dest in disk.files then Some(disk.files[dest]) else None
    {
      this.disk, this.tmp, this.dest, this.expected := disk, tmp, dest, expected;
      var files := disk.files[tmp := []];
      base := if useBase && dest in files then Some(files[dest]) else None;
      hashed, received := [], 0;
      new;
      disk.files := files;
    }

    method Abort()
      modifies disk
      ensures disk.files == old(disk.files) - {tmp}
    {
      disk.files := disk.files - {tmp};
    }

    /** Write a chunk; a failing disk may take any part of it first. */
    method Put(chunk: Blob, diskOk: bool)
      requires Valid()
      modifies disk
      ensures diskOk ==> disk.files == old(disk.files)[tmp := old(disk.files[tmp]) + chunk]
      ensures exists n :: 0 <= n <= |chunk| && disk.files == old(disk.files)[tmp := old(disk.files[tmp]) + chunk[..n]]
    {
      var n: nat := |chunk|;
      if !diskOk {
        n :| 0 <= n <= |chunk|;
      }
      assert chunk[..|chunk|] == chunk;
      disk.files := disk.files[tmp := disk.files[tmp] + chunk[..n]];
    }

    method WriteLiteral(data: Blob, diskOk: bool) returns (ok: bool)
      requires Valid()
      modifies this, disk
      ensures Valid() && (ok <==> received <= expected && diskOk)
      ensures received == old(received) + |data|
      ensures hashed == if received <= expected then old(hashed) + data else old(hashed)
      ensures OnlyOne(old(disk.files), disk.files, tmp)
      ensures received > expected ==> disk.files == old(disk.files)
      ensures ok ==> disk.files == old(disk.files)[tmp := old(disk.files[tmp]) + data]
      ensures received <= expected ==>
                exists n :: 0 <= n <= |data| && disk.files == old(disk.files)[tmp := old(disk.files[tmp]) + data[..n]]
    {
      received := received + |data|;
      if received > expected {
        return false;
      }
      hashed := hashed + data;
      Put(data, diskOk);
      return diskOk;
    }

    /** Reuse a range of the base, one buffer at a time.  After a failure the
        temporary file may hold a part of it. */
    method CopyFromBase(start: nat, len: nat, diskOk: bool) returns (ok: bool)
      requires Valid() && received <= expected
      modifies this, disk
      ensures Valid() && OnlyOne(old(disk.files), disk.files, tmp)
      ensures ok <==> base.Some? &&
                      (len == 0 || (start + len <= |base.value| && old(received) + len <= expected && diskOk))
      ensures ok && len == 0 ==> disk.files == old(disk.files) && Value(0) == old(Value(0))
      ensures ok && len > 0 ==> var part := base.value[start..start + len];
                                received == old(received) + len && hashed == old(hashed) + part
                                && disk.files == old(disk.files)[tmp := old(disk.files[tmp]) + part]
    {
      OnlySame(disk.files, tmp);
      if base.None? {
        return false;
      }
      ok := CopyParts(start, len, diskOk);
    }

    /** The loop over one range, buffer by buffer. */
    method CopyParts(start: nat, len: nat, diskOk: bool) returns (ok: bool)
      requires Valid() && received <= expected && base.Some?
      modifies this, disk
      ensures Valid() && OnlyOne(old(disk.files), disk.files, tmp)
      ensures ok <==> len == 0 || (start + len <= |base.value| && old(received) + len <= expected && diskOk)
      ensures ok ==> received == old(received) + len
      ensures ok && len == 0 ==> hashed == old(hashed) && disk.files == old(disk.files)
      ensures ok && len > 0 ==> var part := base.value[start..start + len];
                                hashed == old(hashed) + part
                                && disk.files == old(disk.files)[tmp := old(disk.files[tmp]) + part]
    {
      hide Copying, OnlyOne;
      ghost var files, written, from := disk.files, disk.files[tmp], hashed;
      var left: nat := len;
      assert files == files[tmp := written];
      CopyStarts(base.value, start, from, written);
      OnlySame(files, tmp);
      while left > 0
        invariant left <= len && Valid() && received == old(received) + (len - left) <= expected
        invariant left < len ==> diskOk
        invariant Copying(base.value, start, len - left, from, hashed, old(disk.files[tmp]), written)
        invariant disk.files == files[tmp := written] && OnlyOne(files, disk.files, tmp)
      {
        ghost var before := disk.files;
        CopyInBase(base.value, start, len - left, from, hashed, old(disk.files[tmp]), written);
        var want, at := Min(left, COPY_BUFFER), start + (len - left);
        if at + want > |base.value| {
          return false;
        }
        var chunk := base.value[at..at + want];
        CopyMore(base.value, start, len - left, want, from, hashed, old(disk.files[tmp]), written);
        ok := WriteLiteral(chunk, diskOk);
        OnlyTwice(files, before, disk.files, tmp);
        if !ok {
          return;
        }
        left, written := left - want, written + chunk;
      }
      CopyEnds(base.value, start, len, from, hashed, old(disk.files[tmp]), written);
      return true;
    }

    /** Verify size and hash, then publish.  The all-zero hash verifies nothing. */
    method Finish(h: Hash, sha: Digest, diskOk: bool) returns (ok: bool)
      requires Valid()
      modifies disk
      ensures ok <==> received == expected && (sha == ZERO || h(hashed) == sha) && diskOk
      ensures disk.files == if ok then (old(disk.files) - {tmp})[dest := old(disk.files[tmp])]
                            else old(disk.files) - {tmp}
    {
      if received != expected || (sha != ZERO && h(hashed) != sha) || !diskOk {
        Abort();
        return false;
      }
      var content := disk.files[tmp];
      disk.files := (disk.files - {tmp})[dest := content];
      return true;
    }
  }

  /** The state of the data phase of `run_push` and `pull`. */
  class Receiver {
    const task: Task
    const disk: Disk
    var current: FileWriter?
    var index: nat
    var phase: Phase
    var sent: nat
    var reused: nat

    ghost predicate Valid()
      reads this, disk, current
    {
      && (current != null ==>
            && current.disk == disk && phase.Active? && index < |task.targets|
            && current.tmp == task.Tmp(index) && current.dest == task.Dest(index)
            && current.expected == task.targets[index].size
            && current.Valid() && current.received <= current.expected)
      && Sound(task, Value())
    }

    ghost function Value(): State
      reads this, disk, current
    {
      State(disk.files, if current == null then None else Some(current.Value(index)), phase, sent, reused)
    }

    constructor (task: Task, disk: Disk, reused: nat)
      ensures Valid() && this.task == task && this.disk == disk
      ensures Value() == State(disk.files, None, Active, 0, reused) && current == null
    {
      this.task, this.disk, this.current, this.index := task, disk, null, 0;
      this.phase, this.sent, this.reused := Active, 0, reused;
    }

    /** Drop the open file, if any. */
    method AbortCurrent()
      requires Valid()
      modifies this, disk
      ensures Valid() && Value() == Abort(task, old(Value())) && current == null
    {
      hide TmpName;
      if current != null {
        current.Abort();
        current := null;
      }
    }

    method Fail()
      requires Valid()
      modifies this, disk
      ensures Valid() && Value() == Stop(task, old(Value())) && current == null
    {
      AbortCurrent();
      phase := Stopped;
    }

    method StartFile(n: nat, diskOk: bool)
      requires Valid() && phase.Active?
      modifies this, disk
      ensures Valid() && Value() == OnFileStart(task, old(Value()), n, diskOk)
      ensures current != null ==> fresh(current) || current == old(current)
    {
      hide TmpName;
      if n >= |task.targets| || current != null {
        Fail();
        return;
      }
      var t, tmp := task.targets[n], task.Tmp(n);
      if !diskOk {
        disk.files := disk.files - {tmp};
        phase := Stopped;
        return;
      }
      current := new FileWriter(disk, t.dest, t.plan.Delta?, tmp, t.size);
      index := n;
    }

    method TakeData(data: Blob, diskOk: bool)
      requires Valid() && phase.Active?
      modifies this, disk, current
      ensures Valid() && Value() == OnData(task, old(Value()), data, diskOk)
      ensures current == old(current) || current == null
    {
      hide TmpName;
      if current == null {
        Fail();
        return;
      }
      sent := sent + |data|;
      ghost var before := disk.files;
      var ok := current.WriteLiteral(data, diskOk);
      if !ok {
        current.Abort();
        assert disk.files == before - {current.tmp};
        current := null;
        phase := Stopped;
      }
    }

    method TakeCopy(start: nat, len: nat, diskOk: bool)
      requires Valid() && phase.Active?
      modifies this, disk, current
      ensures Valid() && Value() == OnCopy(task, old(Value()), start, len, diskOk)
      ensures current == old(current) || current == null
    {
      hide TmpName;
      if current == null {
        Fail();
        return;
      }
      ghost var before := disk.files;
      reused := reused + len;
      var ok := current.CopyFromBase(start, len, diskOk);
      if !ok {
        current.Abort();
        assert disk.files == before - {current.tmp};
        current := null;
        phase := Stopped;
      }
    }

    method EndFile(sha: Digest, diskOk: bool)
      requires Valid() && phase.Active?
      modifies this, disk
      ensures Valid() && Value() == OnFileEnd(task, old(Value()), sha, diskOk)
      ensures current == null
    {
      hide TmpName;
      if current == null || sha == ZERO {
        Fail();
        return;
      }
      var w := current;
      current := null;
      var ok := w.Finish(task.h, sha, diskOk);
      if !ok {
        phase := Stopped;
      }
    }

    method EndPush()
      requires Valid() && phase.Active?
      modifies this, disk
      ensures Valid() && Value() == OnPushEnd(task, old(Value()))
      ensures current == old(current) || current == null
    {
      if task.dir.Push? {
        if current != null {
          Fail();
        } else {
          phase := Done;
        }
      }
    }

    method EndPull(ok: bool)
      requires Valid() && phase.Active?
      modifies this, disk
      ensures Valid() && Value() == OnTransferDone(task, old(Value()), ok)
      ensures current == old(current) || current == null
    {
      if task.dir.Pull? {
        if !ok {
          Fail();
        } else {
          AbortCurrent();
          phase := Done;
        }
      }
    }

    method Control(p: Payload)
      requires Valid() && phase.Active?
      modifies this, disk
      ensures Valid() && Value() == OnControl(task, old(Value()), p)
      ensures current == old(current) || current == null
    {
      hide Valid, OnPushEnd, OnTransferDone, Stop;
      match p {
        case PushEnd(_) => EndPush();
        case TransferDone(_, ok, _, _, _, _) => EndPull(ok);
        case Error(_, _, _) => Fail();
        case _ =>
      }
    }

    /** One turn of the loop. */
    method Handle(e: Event)
      requires Valid() && phase.Active?
      modifies this, disk, current
      ensures Valid() && Value() == Step(task, old(Value()), e)
      ensures phase.Done? <==> EndsWell(task, old(current != null), e)
      ensures phase.Stopped? <==> GivesUp(task, old(Value()), e)
      ensures current != null ==> fresh(current) || current == old(current)
    {
      assert Sound(task, Value());
      hide OnFrame, Stop, Valid, EndsWell, GivesUp;
      StepEnds(task, Value(), e);
      match e {
        case Closed => Fail();
        case Frame(p, diskOk) =>
          if p.id == task.id {
            TakeFrame(p, diskOk);
          }
      }
    }

    method TakeFrame(p: Payload, diskOk: bool)
      requires Valid() && phase.Active?
      modifies this, disk, current
      ensures Valid() && Value() == OnFrame(task, old(Value()), p, diskOk)
      ensures current != null ==> fresh(current) || current == old(current)
    {
      hide OnFileStart, OnData, OnCopy, OnFileEnd, OnControl, Stop, Valid;
      match p {
        case FileStart(_, n) => StartFile(n, diskOk);
        case Data(_, _) => TakeContent(p, diskOk);
        case Copy(_, _, _) => TakeContent(p, diskOk);
        case FileEnd(_, sha) => EndFile(sha, diskOk);
        case _ => Control(p);
      }
    }

    method TakeContent(p: Payload, diskOk: bool)
      requires Valid() && phase.Active? && (p.Data? || p.Copy?)
      modifies this, disk, current
      ensures Valid() && Value() == OnFrame(task, old(Value()), p, diskOk)
      ensures current == old(current) || current == null
    {
      hide OnData, OnCopy, Valid;
      match p {
        case Data(_, data) => TakeData(data, diskOk);
        case Copy(_, start, len) => TakeCopy(start, len, diskOk);
      }
    }

    /** The receiving loop, up to the frame that ends it. */
    method Receive(events: seq<Event>)
      requires Valid()
      modifies this, disk, current
      ensures Valid() && Value() == Run(task, old(Value()), events)
      ensures old(phase).Active? ==> (phase.Done? <==> exists i :: EndsWellAt(task, old(Value()), events, i))
      ensures old(phase).Active? ==> (phase.Stopped? <==> exists i :: GivesUpAt(task, old(Value()), events, i))
    {
      hide Step, EndsWellAt, GivesUpAt;
      ghost var s := Value();
      if phase.Active? {
        RunEnds(task, s, events);
      }
      for i := 0 to |events|
        invariant Valid() && Value() == Run(task, s, events[..i])
        invariant current != null ==> fresh(current) || current == old(current)
      {
        assert events[..i + 1][..i] == events[..i];
        if !phase.Active? {
          RunStops(task, s, events, i);
          return;
        }
        Handle(events[i]);
      }
      assert events[..|events|] == events;
    }
  }

  /** Nothing happens after the loop has ended. */
  lemma {:induction false} RunStops(j: Task, s: State, events: seq<Event>, i: nat)
    requires Sound(j, s) && i <= |events| && !Run(j, s, events[..i]).phase.Active?
    ensures Run(j, s, events) == Run(j, s, events[..i])
    decreases |events|
  {
    if i < |events| {
      var last := |events| - 1;
      assert events[..last][..i] == events[..i];
      RunStops(j, s, events[..last], i);
    } else {
      assert events[..i] == events;
    }
  }
}
