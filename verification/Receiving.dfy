/** The receiving side of a transfer: files are rebuilt in temporary files and
    published only when size and hash agree. */
module Receiving {
  import opened Bytes
  import opened Payloads

  datatype Path = Path(dir: string, name: string)

  /** The regular files of the receiving machine. */
  type Files = map<Path, Blob>

  /** Who receives: the agent (push) or the controller (pull). */
  datatype Direction = Push | Pull

  datatype Plan = Whole | Skip | Delta

  /** One file of the manifest, with the plan the receiver made for it. */
  datatype Target = Target(dest: Path, size: nat, sha: Digest, plan: Plan)

  const COPY_BUFFER := 64 * 1024

  function Decimal(n: nat): string
  {
    if n < 10 then ["0123456789"[n]] else Decimal(n / 10) + ["0123456789"[n % 10]]
  }

  /** The number a string of digits stands for. */
  function DigitsValue(s: string): int
  {
    if s == "" then 0 else DigitsValue(s[..|s| - 1]) * 10 + (s[|s| - 1] as int - '0' as int)
  }

  lemma {:induction false} DecimalIs(n: nat)
    ensures DigitsValue(Decimal(n)) == n && Decimal(n) != ""
    ensures forall i :: 0 <= i < |Decimal(n)| ==> '0' <= Decimal(n)[i] <= '9'
  {
    DigitIs(n % 10);
    if n < 10 {
      assert Decimal(n)[..0] == "" && DigitsValue(Decimal(n)[..0]) == 0;
    } else {
      DecimalIs(n / 10);
      var s := Decimal(n);
      assert s[..|s| - 1] == Decimal(n / 10);
    }
  }

  lemma DigitIs(d: nat)
    requires d < 10
    ensures |"0123456789"| == 10 && '0' <= "0123456789"[d] <= '9' && "0123456789"[d] as int == '0' as int + d
  {
    assert "0123456789"[0] == '0' && "0123456789"[1] == '1' && "0123456789"[2] == '2' && "0123456789"[3] == '3';
    assert "0123456789"[4] == '4' && "0123456789"[5] == '5' && "0123456789"[6] == '6' && "0123456789"[7] == '7';
    assert "0123456789"[8] == '8' && "0123456789"[9] == '9';
  }

  function TmpName(dir: Direction, name: string, id: nat, n: nat): string
  {
    "." + name + (if dir.Push? then ".apb-" else ".apb-pull-") + Decimal(id) + "-" + Decimal(n) + ".tmp"
  }

  datatype Task = Task(h: Hash, dir: Direction, id: nat, targets: seq<Target>)
  {
    function Dest(n: nat): Path
      requires n < |targets|
    {
      targets[n].dest
    }

    /** A hidden file in the directory of the destination. */
    function Tmp(n: nat): Path
      requires n < |targets|
    {
      Path(Dest(n).dir, TmpName(dir, Dest(n).name, id, n))
    }
  }

  /** An open file: what was written and hashed, and the copy ranges' source. */
  datatype Writer = Writer(n: nat, hashed: Blob, received: nat, base: Option<Blob>)

  datatype Phase = Active | Done | Stopped

  /** `sent` and `reused` count content bytes that crossed the wire and that did not. */
  datatype State = State(files: Files, current: Option<Writer>, phase: Phase, sent: nat, reused: nat)

  /** What the receiving loop may see next.  `diskOk` is false when the disk
      operation this frame needs fails; `Closed` stands for a cancelled job, a
      broken connection, an undecodable payload or an expired deadline. */
  datatype Event = Frame(p: Payload, diskOk: bool) | Closed

  function Abort(j: Task, s: State): State
  {
    if s.current.Some? && s.current.value.n < |j.targets| then
      s.(files := s.files - {j.Tmp(s.current.value.n)}, current := None)
    else
      s.(current := None)
  }

  function Stop(j: Task, s: State): State
  {
    Abort(j, s).(phase := Stopped)
  }

  function OnFileStart(j: Task, s: State, n: nat, diskOk: bool): State
  {
    if n >= |j.targets| || s.current.Some? then Stop(j, s)
    else
      var t, tmp := j.targets[n], j.Tmp(n);
      if !diskOk then s.(files := s.files - {tmp}, phase := Stopped)
      else
        var files := s.files[tmp := []];
        var base := if t.plan.Delta? && t.dest in files then Some(files[t.dest]) else None;
        s.(files := files, current := Some(Writer(n, [], 0, base)))
  }

  /** Append to the open file; more bytes than announced are refused. */
  function Write(j: Task, s: State, data: Blob, diskOk: bool): State
    requires s.current.Some? && s.current.value.n < |j.targets| && j.Tmp(s.current.value.n) in s.files
  {
    var w := s.current.value;
    var tmp := j.Tmp(w.n);
    if w.received + |data| > j.targets[w.n].size || !diskOk then Stop(j, s)
    else
      s.(files := s.files[tmp := s.files[tmp] + data],
         current := Some(w.(hashed := w.hashed + data, received := w.received + |data|)))
  }

  /** The open file belongs to a target and its temporary file exists. */
  ghost predicate Sound(j: Task, s: State)
  {
    s.current.Some? ==> s.phase.Active? && s.current.value.n < |j.targets| && j.Tmp(s.current.value.n) in s.files
  }

  function OnData(j: Task, s: State, data: Blob, diskOk: bool): State
    requires Sound(j, s)
  {
    if s.current.None? then Stop(j, s) else Write(j, s.(sent := s.sent + |data|), data, diskOk)
  }

  /** `copy_from_base`: fails without a base, or when the base ends too early. */
  function OnCopy(j: Task, s: State, start: nat, len: nat, diskOk: bool): State
    requires Sound(j, s)
  {
    if s.current.None? then Stop(j, s)
    else
      var base, c := s.current.value.base, s.(reused := s.reused + len);
      if base.None? || (len > 0 && start + len > |base.value|) then Stop(j, c)
      else if len == 0 then c
      else Write(j, c, base.value[start..start + len], diskOk)
  }

  /** `FileWriter::finish` after the receiver refused an all-zero hash. */
  function OnFileEnd(j: Task, s: State, sha: Digest, diskOk: bool): State
    requires Sound(j, s)
  {
    if s.current.None? then Stop(j, s)
    else
      var w := s.current.value;
      var t, tmp := j.targets[w.n], j.Tmp(w.n);
      if sha == ZERO || w.received != t.size || j.h(w.hashed) != sha || !diskOk then Stop(j, s)
      else s.(files := (s.files - {tmp})[t.dest := s.files[tmp]], current := None)
  }

  /** Only the push receiver ends here, and not inside a file. */
  function OnPushEnd(j: Task, s: State): State
  {
    if j.dir.Pull? then s
    else if s.current.Some? then Stop(j, s)
    else s.(phase := Done)
  }

  /** Only the pull receiver ends here; a file that is still open is dropped. */
  function OnTransferDone(j: Task, s: State, ok: bool): State
  {
    if j.dir.Push? then s
    else if !ok then Stop(j, s)
    else Abort(j, s).(phase := Done)
  }

  /** The frames that end the stream. */
  function OnControl(j: Task, s: State, p: Payload): State
  {
    match p
    case PushEnd(_) => OnPushEnd(j, s)
    case TransferDone(_, ok, _, _, _, _) => OnTransferDone(j, s, ok)
    case Error(_, _, _) => Stop(j, s)
    case _ => s
  }

  function OnFrame(j: Task, s: State, p: Payload, diskOk: bool): State
    requires Sound(j, s) && s.phase.Active?
  {
    match p
    case FileStart(_, n) => OnFileStart(j, s, n, diskOk)
    case Data(_, data) => OnData(j, s, data, diskOk)
    case Copy(_, start, len) => OnCopy(j, s, start, len, diskOk)
    case FileEnd(_, sha) => OnFileEnd(j, s, sha, diskOk)
    case _ => OnControl(j, s, p)
  }

  /** One turn of the receiving loop. */
  function Step(j: Task, s: State, e: Event): State
    requires Sound(j, s)
  {
    if !s.phase.Active? then s
    else if e.Closed? then Stop(j, s)
    else if e.p.id != j.id then s
    else OnFrame(j, s, e.p, e.diskOk)
  }

  lemma StepSound(j: Task, s: State, e: Event)
    requires Sound(j, s)
    ensures Sound(j, Step(j, s, e))
  {
    hide TmpName;
  }

  /** A whole run of the loop. */
  function Run(j: Task, s: State, events: seq<Event>): (r: State)
    requires Sound(j, s)
    ensures Sound(j, r)
  {
    if events == [] then s
    else
      var last := |events| - 1;
      StepSound(j, Run(j, s, events[..last]), events[last]);
      Step(j, Run(j, s, events[..last]), events[last])
  }

  // -------------------------------------------------------------- statistics

  /** Content bytes a frame carries, and content bytes it only refers to. */
  function SentIn(j: Task, e: Event): nat
  {
    if e.Frame? && e.p.id == j.id && e.p.Data? then |e.p.data| else 0
  }

  function ReusedIn(j: Task, e: Event): nat
  {
    if e.Frame? && e.p.id == j.id && e.p.Copy? then e.p.len else 0
  }

  function WireSent(j: Task, events: seq<Event>): nat
  {
    if events == [] then 0 else WireSent(j, events[..|events| - 1]) + SentIn(j, events[|events| - 1])
  }

  function WireReused(j: Task, events: seq<Event>): nat
  {
    if events == [] then 0 else WireReused(j, events[..|events| - 1]) + ReusedIn(j, events[|events| - 1])
  }

  lemma StepCounts(j: Task, s: State, e: Event)
    requires Sound(j, s) && s.phase.Active? && !Step(j, s, e).phase.Stopped?
    ensures Step(j, s, e).sent == s.sent + SentIn(j, e)
    ensures Step(j, s, e).reused == s.reused + ReusedIn(j, e)
  {
    hide TmpName;
  }

  /** While the loop goes on, its statistics are the bytes that crossed the wire
      and the bytes it was told to copy, whatever else the stream held. */
  lemma {:induction false} StatsAreExact(j: Task, s: State, events: seq<Event>)
    requires Sound(j, s) && s.phase.Active? && Run(j, s, events).phase.Active?
    ensures Run(j, s, events).sent == s.sent + WireSent(j, events)
    ensures Run(j, s, events).reused == s.reused + WireReused(j, events)
  {
    hide Step, SentIn, ReusedIn;
    if events != [] {
      var last := |events| - 1;
      StillActive(j, Run(j, s, events[..last]), events[last]);
      StatsAreExact(j, s, events[..last]);
      StepCounts(j, Run(j, s, events[..last]), events[last]);
    }
  }

  /** The loop never resumes. */
  lemma StillActive(j: Task, s: State, e: Event)
    requires Sound(j, s) && Step(j, s, e).phase.Active?
    ensures s.phase.Active?
  {
  }

  // ------------------------------------------------------- how the loop ends

  /** The one kind of frame that ends the loop well: for a push its last frame,
      outside any file; for a pull the report that the sender is done. */
  predicate EndsWell(j: Task, open: bool, e: Event)
  {
    e.Frame? && e.p.id == j.id &&
    ((j.dir.Push? && e.p.PushEnd? && !open) || (j.dir.Pull? && e.p.TransferDone? && e.p.ok))
  }

  /** `more` bytes do not fit the open file. */
  predicate Overruns(j: Task, w: Writer, more: nat)
  {
    w.n < |j.targets| && w.received + more > j.targets[w.n].size
  }

  /** The open file does not have the size announced for it, or not the hash of this frame. */
  predicate Damaged(j: Task, w: Writer, sha: Digest)
  {
    w.n < |j.targets| && (sha == ZERO || w.received != j.targets[w.n].size || j.h(w.hashed) != sha)
  }

  /** What makes the receiver give up. */
  predicate GivesUp(j: Task, s: State, e: Event)
  {
    e.Closed? ||
    (e.p.id == j.id &&
     match e.p
     case FileStart(_, n) => n >= |j.targets| || s.current.Some? || !e.diskOk
     case Data(_, data) => s.current.None? || Overruns(j, s.current.value, |data|) || !e.diskOk
     case Copy(_, start, len) =>
       s.current.None? || s.current.value.base.None? ||
       (len > 0 && (start + len > |s.current.value.base.value| || Overruns(j, s.current.value, len) || !e.diskOk))
     case FileEnd(_, sha) => s.current.None? || Damaged(j, s.current.value, sha) || !e.diskOk
     case PushEnd(_) => j.dir.Push? && s.current.Some?
     case TransferDone(_, ok, _, _, _, _) => j.dir.Pull? && !ok
     case Error(_, _, _) => true
     case _ => false)
  }

  /** One turn ends the loop well, or badly, for exactly these causes. */
  lemma StepEnds(j: Task, s: State, e: Event)
    requires Sound(j, s) && s.phase.Active?
    ensures Step(j, s, e).phase.Done? <==> EndsWell(j, s.current.Some?, e)
    ensures Step(j, s, e).phase.Stopped? <==> GivesUp(j, s, e)
  {
    hide TmpName;
  }

  /** The content bytes of a frame, given the base of the open file. */
  function ContentOf(w: Writer, p: Payload): Blob
  {
    match p
    case Data(_, data) => data
    case Copy(_, start, len) =>
      if w.base.Some? && start + len <= |w.base.value| then w.base.value[start..start + len] else []
    case _ => []
  }

  /** What a turn does that does not end the loop: a start opens the next file
      with its base if the plan is a delta, content goes to the open file, an end
      moves it into place, and anything else changes nothing. */
  lemma StepContinues(j: Task, s: State, e: Event)
    requires Sound(j, s) && s.phase.Active? && !GivesUp(j, s, e) && !EndsWell(j, s.current.Some?, e)
    ensures var t := Step(j, s, e); var p := e.p;
      if e.p.id != j.id || !(p.FileStart? || p.Data? || p.Copy? || p.FileEnd?) then t == s
      else if p.FileStart? then
        var n := p.fileSeq;
        && n < |j.targets| && s.current.None? && t.files == s.files[j.Tmp(n) := []]
        && t.current.Some? && t.current.value.n == n && t.current.value.hashed == [] && t.current.value.received == 0
        && (t.current.value.base.Some? <==> j.targets[n].plan.Delta? && j.Dest(n) in t.files)
        && (t.current.value.base.Some? ==> t.current.value.base.value == t.files[j.Dest(n)])
      else
        s.current.Some? &&
        var w := s.current.value; var tmp := j.Tmp(w.n);
        if p.FileEnd? then t.current.None? && t.files == (s.files - {tmp})[j.Dest(w.n) := s.files[tmp]]
        else
          var c := ContentOf(w, p);
          && t.current == Some(Writer(w.n, w.hashed + c, w.received + |c|, w.base))
          && t.files == s.files[tmp := s.files[tmp] + c]
  {
    hide TmpName;
    if e.p.Copy? && e.p.len == 0 && e.p.id == j.id {
      var w := s.current.value;
      assert ContentOf(w, e.p) == [] && w.hashed + [] == w.hashed;
      assert s.files[j.Tmp(w.n)] + [] == s.files[j.Tmp(w.n)];
    }
  }

  /** Event `i` of the run finds the loop going on and ends it well. */
  ghost predicate EndsWellAt(j: Task, start: State, events: seq<Event>, i: int)
    requires Sound(j, start)
  {
    0 <= i < |events| && var s := Run(j, start, events[..i]);
    s.phase.Active? && EndsWell(j, s.current.Some?, events[i])
  }

  /** Event `i` of the run finds the loop going on and makes it give up. */
  ghost predicate GivesUpAt(j: Task, start: State, events: seq<Event>, i: int)
    requires Sound(j, start)
  {
    0 <= i < |events| && var s := Run(j, start, events[..i]); s.phase.Active? && GivesUp(j, s, events[i])
  }

  /** A run is done exactly when one of its events ended it well, and it has
      stopped exactly when one of them made it give up. */
  lemma {:induction false} RunEnds(j: Task, start: State, events: seq<Event>)
    requires Sound(j, start) && start.phase.Active?
    ensures Run(j, start, events).phase.Done? <==> exists i :: EndsWellAt(j, start, events, i)
    ensures Run(j, start, events).phase.Stopped? <==> exists i :: GivesUpAt(j, start, events, i)
  {
    hide Step, EndsWell, GivesUp, Run;
    if events == [] {
      RunNothing(j, start);
    } else {
      var last := |events| - 1;
      var before := events[..last];
      RunEnds(j, start, before);
      RunSnoc(j, start, events);
      forall i | 0 <= i < last
        ensures EndsWellAt(j, start, before, i) == EndsWellAt(j, start, events, i)
        ensures GivesUpAt(j, start, before, i) == GivesUpAt(j, start, events, i)
      {
        assert before[..i] == events[..i];
      }
      var s := Run(j, start, before);
      if s.phase.Active? {
        StepEnds(j, s, events[last]);
        assert EndsWellAt(j, start, events, last) == EndsWell(j, s.current.Some?, events[last]);
        assert GivesUpAt(j, start, events, last) == GivesUp(j, s, events[last]);
      } else {
        StepStays(j, s, events[last]);
      }
    }
  }

  lemma StepStays(j: Task, s: State, e: Event)
    requires Sound(j, s) && !s.phase.Active?
    ensures Step(j, s, e) == s
  {
  }

  // --------------------------------------------------------------- atomicity

  /** No temporary file can be mistaken for a destination. */
  ghost predicate NoClash(j: Task)
  {
    forall a, b :: 0 <= a < |j.targets| && 0 <= b < |j.targets| ==> j.Tmp(a) != j.Dest(b)
  }

  ghost predicate IsDest(j: Task, p: Path)
  {
    exists n :: 0 <= n < |j.targets| && j.Dest(n) == p
  }

  ghost predicate IsTmp(j: Task, p: Path)
  {
    exists n :: 0 <= n < |j.targets| && j.Tmp(n) == p
  }

  ghost predicate Unchanged(a: Files, b: Files, p: Path)
  {
    (p in a <==> p in b) && (p in a ==> a[p] == b[p])
  }

  /** In state `s` the frame `e` puts `content` in place at `p`: an undamaged
      end of the open file, which belongs to `p`, holds exactly what its writer
      received, has the size of the manifest and the hash of this very frame. */
  ghost predicate Publishes(j: Task, s: State, e: Event, p: Path, content: Blob)
  {
    && s.phase.Active? && s.current.Some? && s.current.value.n < |j.targets|
    && e.Frame? && e.diskOk && e.p.FileEnd? && e.p.id == j.id && e.p.sha256 != ZERO
    && var w := s.current.value;
       j.Dest(w.n) == p && content == w.hashed && |content| == j.targets[w.n].size && j.h(content) == e.p.sha256
  }

  /** Frame `i` of the run put `content` in place at `p`. */
  ghost predicate PublishedAt(j: Task, start: State, events: seq<Event>, i: int, p: Path, content: Blob)
    requires Sound(j, start)
  {
    0 <= i < |events| && Publishes(j, Run(j, start, events[..i]), events[i], p, content)
  }

  /** After the run, `p` is as it was or as one frame put it in place. */
  ghost predicate KeptOrPublished(j: Task, start: State, events: seq<Event>, p: Path)
    requires Sound(j, start)
  {
    var files := Run(j, start, events).files;
    Unchanged(start.files, files, p) || (p in files && exists i :: PublishedAt(j, start, events, i, p, files[p]))
  }

  /** What holds after every step, compared with the files at the start. */
  ghost predicate Atomic(j: Task, start: Files, s: State)
  {
    && Sound(j, s)
    && (s.current.Some? ==>
          var w := s.current.value;
          && s.files[j.Tmp(w.n)] == w.hashed
          && |w.hashed| == w.received <= j.targets[w.n].size)
    && (forall p :: IsTmp(j, p) && !(s.current.Some? && p == j.Tmp(s.current.value.n)) ==>
          p !in s.files || Unchanged(start, s.files, p))
    && (forall p :: !IsDest(j, p) && !IsTmp(j, p) ==> Unchanged(start, s.files, p))
  }

  lemma AtomicStart(j: Task, start: Files, sent: nat, reused: nat)
    ensures Atomic(j, start, State(start, None, Active, sent, reused))
  {
  }

  lemma PhaseOnly(j: Task, start: Files, s: State)
    requires Atomic(j, start, s) && s.current.None?
    ensures forall phase :: Atomic(j, start, s.(phase := phase))
  {
  }

  lemma StopAtomic(j: Task, start: Files, s: State, sent: nat, reused: nat)
    requires NoClash(j) && Atomic(j, start, s)
    ensures Atomic(j, start, Abort(j, s.(sent := sent, reused := reused)))
    ensures Abort(j, s).current.None?
  {
    hide TmpName;
    if s.current.Some? {
      var tmp := j.Tmp(s.current.value.n);
      assert IsTmp(j, tmp) && !IsDest(j, tmp);
    }
  }

  lemma FileStartAtomic(j: Task, start: Files, s: State, n: nat, diskOk: bool)
    requires NoClash(j) && Atomic(j, start, s) && s.phase.Active?
    ensures Atomic(j, start, OnFileStart(j, s, n, diskOk))
  {
    hide TmpName;
    if n >= |j.targets| || s.current.Some? {
      StopAtomic(j, start, s, s.sent, s.reused);
    } else {
      assert IsTmp(j, j.Tmp(n)) && !IsDest(j, j.Tmp(n));
    }
  }

  lemma WriteAtomic(j: Task, start: Files, s: State, data: Blob, diskOk: bool)
    requires NoClash(j) && Atomic(j, start, s) && s.phase.Active? && s.current.Some?
    ensures Atomic(j, start, Write(j, s, data, diskOk))
  {
    hide TmpName;
    var tmp := j.Tmp(s.current.value.n);
    if s.current.value.received + |data| > j.targets[s.current.value.n].size || !diskOk {
      StopAtomic(j, start, s, s.sent, s.reused);
    } else {
      assert IsTmp(j, tmp) && !IsDest(j, tmp);
    }
  }

  lemma FileEndAtomic(j: Task, start: Files, s: State, sha: Digest, diskOk: bool)
    requires NoClash(j) && Atomic(j, start, s) && s.phase.Active?
    ensures Atomic(j, start, OnFileEnd(j, s, sha, diskOk))
  {
    assert Sound(j, s);
    hide Atomic, NoClash, TmpName;
    ControlAtomic(j, start, s, Error(j.id, 0, []));
    if s.current.Some? {
      var w := s.current.value;
      if sha != ZERO && w.received == j.targets[w.n].size && j.h(w.hashed) == sha && diskOk {
        PublishAtomic(j, start, s, sha);
      }
    }
  }

  lemma PublishAtomic(j: Task, start: Files, s: State, sha: Digest)
    requires NoClash(j) && Atomic(j, start, s) && s.current.Some? && sha != ZERO
    requires s.current.value.received == j.targets[s.current.value.n].size && j.h(s.current.value.hashed) == sha
    ensures var w := s.current.value;
            var t := j.targets[w.n];
            Atomic(j, start,
                   s.(files := (s.files - {j.Tmp(w.n)})[t.dest := s.files[j.Tmp(w.n)]], current := None))
  {
    hide TmpName;
    var w := s.current.value;
    var t, tmp := j.targets[w.n], j.Tmp(w.n);
    assert j.Dest(w.n) == t.dest;
    assert IsTmp(j, tmp) && IsDest(j, t.dest);
    assert !IsDest(j, tmp) && !IsTmp(j, t.dest);
  }

  lemma CountersAtomic(j: Task, start: Files, s: State, sent: nat, reused: nat)
    requires Atomic(j, start, s)
    ensures Atomic(j, start, s.(sent := sent, reused := reused))
  {
  }

  lemma ControlAtomic(j: Task, start: Files, s: State, p: Payload)
    requires NoClash(j) && Atomic(j, start, s)
    ensures Atomic(j, start, OnControl(j, s, p)) && Atomic(j, start, Stop(j, s))
  {
    hide Atomic, NoClash;
    StopAtomic(j, start, s, s.sent, s.reused);
    PhaseOnly(j, start, Abort(j, s));
  }

  lemma StepAtomic(j: Task, start: Files, s: State, e: Event)
    requires NoClash(j) && Atomic(j, start, s)
    ensures Atomic(j, start, Step(j, s, e))
  {
    assert Sound(j, s);
    hide Atomic, NoClash, OnFileStart, Write, OnFileEnd, OnCopy, OnControl, Stop, Abort;
    if e.Closed? {
      ControlAtomic(j, start, s, PushEnd(j.id));
    } else if s.phase.Active? {
      FrameAtomic(j, start, s, e.p, e.diskOk);
    }
  }

  lemma FrameAtomic(j: Task, start: Files, s: State, p: Payload, diskOk: bool)
    requires NoClash(j) && Atomic(j, start, s) && s.phase.Active?
    ensures Atomic(j, start, OnFrame(j, s, p, diskOk))
  {
    assert Sound(j, s);
    hide Atomic, NoClash, OnFileStart, Write, OnFileEnd, OnCopy, OnControl, Stop, Abort;
    match p
    case FileStart(_, n) => FileStartAtomic(j, start, s, n, diskOk);
    case Data(_, data) => DataAtomic(j, start, s, data, diskOk);
    case Copy(_, from, len) => CopyAtomic(j, start, s, from, len, diskOk);
    case FileEnd(_, sha) => FileEndAtomic(j, start, s, sha, diskOk);
    case _ => ControlAtomic(j, start, s, p);
  }

  lemma DataAtomic(j: Task, start: Files, s: State, data: Blob, diskOk: bool)
    requires NoClash(j) && Atomic(j, start, s) && s.phase.Active?
    ensures Atomic(j, start, OnData(j, s, data, diskOk))
  {
    assert Sound(j, s);
    hide Atomic, NoClash, Write;
    ControlAtomic(j, start, s, Error(j.id, 0, []));
    if s.current.Some? {
      CountersAtomic(j, start, s, s.sent + |data|, s.reused);
      WriteAtomic(j, start, s.(sent := s.sent + |data|), data, diskOk);
    }
  }

  lemma CopyAtomic(j: Task, start: Files, s: State, from: nat, len: nat, diskOk: bool)
    requires NoClash(j) && Atomic(j, start, s) && s.phase.Active?
    ensures Atomic(j, start, OnCopy(j, s, from, len, diskOk))
  {
    assert Sound(j, s);
    hide Atomic, NoClash, Write;
    var c := s.(reused := s.reused + len);
    ControlAtomic(j, start, s, Error(j.id, 0, []));
    CountersAtomic(j, start, s, c.sent, c.reused);
    ControlAtomic(j, start, c, Error(j.id, 0, []));
    if s.current.Some? {
      var base := s.current.value.base;
      if base.Some? && len > 0 && from + len <= |base.value| {
        WriteAtomic(j, start, c, base.value[from..from + len], diskOk);
      }
    }
  }

  lemma {:induction false} RunAtomic(j: Task, start: Files, sent: nat, reused: nat, events: seq<Event>)
    requires NoClash(j)
    ensures Atomic(j, start, Run(j, State(start, None, Active, sent, reused), events))
  {
    hide Atomic, NoClash, Step;
    var s0 := State(start, None, Active, sent, reused);
    if events == [] {
      AtomicStart(j, start, sent, reused);
    } else {
      var last := |events| - 1;
      RunAtomic(j, start, sent, reused, events[..last]);
      StepAtomic(j, start, Run(j, s0, events[..last]), events[last]);
    }
  }

  /** No frame but the end of a file touches anything but temporary files. */
  lemma OnlyEndsPublish(j: Task, s: State, e: Event, p: Path)
    requires Sound(j, s) && !IsTmp(j, p) && !(e.Frame? && e.p.FileEnd?)
    ensures Unchanged(s.files, Step(j, s, e).files, p)
  {
    hide TmpName, IsTmp;
    assert forall n :: 0 <= n < |j.targets| ==> j.Tmp(n) != p by { NotTmp(j, p); }
  }

  lemma NotTmp(j: Task, p: Path)
    requires !IsTmp(j, p)
    ensures forall n :: 0 <= n < |j.targets| ==> j.Tmp(n) != p
  {
  }

  lemma EndPublishes(j: Task, s: State, e: Event, p: Path)
    requires Sound(j, s) && !IsTmp(j, p) && e.Frame? && e.p.FileEnd?
    requires s.current.Some? ==>
      var w := s.current.value; s.files[j.Tmp(w.n)] == w.hashed && |w.hashed| == w.received
    ensures var t := Step(j, s, e);
      Unchanged(s.files, t.files, p) || (p in t.files && Publishes(j, s, e, p, t.files[p]))
  {
    hide TmpName, IsTmp;
    assert forall n :: 0 <= n < |j.targets| ==> j.Tmp(n) != p by { NotTmp(j, p); }
  }

  lemma StepKeepsOrPublishes(j: Task, start: Files, s: State, e: Event, p: Path)
    requires Atomic(j, start, s) && !IsTmp(j, p)
    ensures var t := Step(j, s, e);
      Unchanged(s.files, t.files, p) || (p in t.files && Publishes(j, s, e, p, t.files[p]))
  {
    hide Step, Publishes;
    if e.Frame? && e.p.FileEnd? {
      EndPublishes(j, s, e, p);
    } else {
      OnlyEndsPublish(j, s, e, p);
    }
  }

  lemma {:induction false} RunKeepsOrPublishes(j: Task, start: Files, sent: nat, reused: nat, events: seq<Event>,
                                               p: Path)
    requires NoClash(j) && !IsTmp(j, p)
    ensures KeptOrPublished(j, State(start, None, Active, sent, reused), events, p)
  {
    hide Atomic, NoClash, Step, Publishes, IsTmp, Run;
    var s0 := State(start, None, Active, sent, reused);
    if events == [] {
      RunNothing(j, s0);
    } else {
      var last := |events| - 1;
      var before := events[..last];
      var s, t := Run(j, s0, before), Run(j, s0, events);
      RunKeepsOrPublishes(j, start, sent, reused, before, p);
      RunAtomic(j, start, sent, reused, before);
      RunSnoc(j, s0, events);
      StepKeepsOrPublishes(j, start, s, events[last], p);
      if Unchanged(s.files, t.files, p) {
        if !Unchanged(start, t.files, p) {
          var i :| PublishedAt(j, s0, before, i, p, s.files[p]);
          assert before[..i] == events[..i];
          assert PublishedAt(j, s0, events, i, p, t.files[p]);
        }
      } else {
        assert PublishedAt(j, s0, events, last, p, t.files[p]);
      }
    }
  }

  lemma RunNothing(j: Task, s: State)
    requires Sound(j, s)
    ensures Run(j, s, []) == s
  {
  }

  lemma RunSnoc(j: Task, s: State, events: seq<Event>)
    requires Sound(j, s) && events != []
    ensures var last := |events| - 1; Run(j, s, events) == Step(j, Run(j, s, events[..last]), events[last])
  {
    hide Step;
  }

  /** Receiver atomicity: whatever arrives and whatever fails, each destination
      is as before or as one end of its own file put it in place, with the size
      of the manifest and the hash of that frame; once the loop has ended no
      temporary file is left behind. */
  lemma ReceiverIsAtomic(j: Task, start: Files, sent: nat, reused: nat, events: seq<Event>)
    requires NoClash(j)
    ensures var s0 := State(start, None, Active, sent, reused); var s := Run(j, s0, events);
            && (forall p :: IsDest(j, p) ==> KeptOrPublished(j, s0, events, p))
            && (forall p :: IsTmp(j, p) && p in s.files && !Unchanged(start, s.files, p) ==>
                  s.phase.Active? && s.current.Some? && p == j.Tmp(s.current.value.n))
            && (forall p :: !IsDest(j, p) && !IsTmp(j, p) ==> Unchanged(start, s.files, p))
  {
    hide Run, KeptOrPublished, Step;
    RunAtomic(j, start, sent, reused, events);
    forall p | IsDest(j, p)
      ensures KeptOrPublished(j, State(start, None, Active, sent, reused), events, p)
    {
      RunKeepsOrPublishes(j, start, sent, reused, events, p);
    }
  }

  /** The destinations are kept or published, in one run. */
  ghost predicate KeepsDests(j: Task, start: Files, events: seq<Event>)
  {
    forall p :: IsDest(j, p) ==> KeptOrPublished(j, State(start, None, Active, 0, 0), events, p)
  }

  /** `NoClash` is exactly what atomicity of the destinations needs. */
  lemma AtomicIffNoClash(j: Task)
    ensures (forall start, events :: KeepsDests(j, start, events)) <==> NoClash(j)
  {
    hide Run, KeptOrPublished;
    if NoClash(j) {
      forall start, events ensures KeepsDests(j, start, events) {
        ReceiverIsAtomic(j, start, 0, 0, events);
      }
    } else {
      var a, b :| 0 <= a < |j.targets| && 0 <= b < |j.targets| && j.Tmp(a) == j.Dest(b);
      ClashBreaks(j, a, b);
    }
  }

  /** With a clash, opening one file already empties another destination. */
  lemma ClashBreaks(j: Task, a: nat, b: nat)
    requires a < |j.targets| && b < |j.targets| && j.Tmp(a) == j.Dest(b)
    ensures !KeepsDests(j, map[j.Dest(b) := [1]], [Frame(FileStart(j.id, a), true)])
  {
    hide TmpName;
    var start := map[j.Dest(b) := [1]];
    var e := Frame(FileStart(j.id, a), true);
    var s := State(start, None, Active, 0, 0);
    RunOne(j, s, e);
    assert Step(j, s, e).files[j.Dest(b)] == [];
    assert IsDest(j, j.Dest(b));
  }

  lemma RunOne(j: Task, s: State, e: Event)
    requires Sound(j, s)
    ensures Run(j, s, [e]) == Step(j, s, e)
  {
    hide Step;
    assert [e][..0] == [];
  }

  lemma TmpNames()
    ensures TmpName(Push, "a", 7, 0) == ".a.apb-7-0.tmp"
    ensures TmpName(Pull, "a", 7, 0) == ".a.apb-pull-7-0.tmp"
  {
    assert Decimal(7) == "7" && Decimal(0) == "0";
  }

  lemma ClashIs(j: Task, a: nat, b: nat)
    requires a < |j.targets| && b < |j.targets| && j.Tmp(a) == j.Dest(b)
    ensures !NoClash(j)
  {
    hide TmpName;
  }

  /** Two files in one directory, the second named like the temporary file of
      the first: such tasks do clash, in either direction. */
  lemma SomeTasksClash(h: Hash, dir: Direction)
    ensures var a := Path("d", "a");
            var b := Path("d", if dir.Push? then ".a.apb-7-0.tmp" else ".a.apb-pull-7-0.tmp");
      !NoClash(Task(h, dir, 7, [Target(a, 0, ZERO, Whole), Target(b, 0, ZERO, Whole)]))
  {
    hide TmpName, NoClash;
    TmpNames();
    var a, b := Path("d", "a"), Path("d", if dir.Push? then ".a.apb-7-0.tmp" else ".a.apb-pull-7-0.tmp");
    var j := Task(h, dir, 7, [Target(a, 0, ZERO, Whole), Target(b, 0, ZERO, Whole)]);
    assert j.Dest(0) == a && j.Dest(1) == b;
    ClashIs(j, 0, 1);
  }

  /** A name that ends like a temporary file. */
  predicate LooksTemporary(name: string)
  {
    |name| >= 4 && name[|name| - 4..] == ".tmp"
  }

  /** Destinations that do not look temporary never clash. */
  lemma OrdinaryNamesDoNotClash(j: Task)
    requires forall n :: 0 <= n < |j.targets| ==> !LooksTemporary(j.Dest(n).name)
    ensures NoClash(j)
  {
    forall a, b | 0 <= a < |j.targets| && 0 <= b < |j.targets|
      ensures j.Tmp(a) != j.Dest(b)
    {
      TmpLooksTemporary(j.dir, j.Dest(a).name, j.id, a);
    }
  }

  lemma TmpLooksTemporary(dir: Direction, name: string, id: nat, n: nat)
    ensures LooksTemporary(TmpName(dir, name, id, n))
  {
    var front := "." + name + (if dir.Push? then ".apb-" else ".apb-pull-") + Decimal(id) + "-" + Decimal(n);
    assert TmpName(dir, name, id, n) == front + ".tmp";
  }
}
