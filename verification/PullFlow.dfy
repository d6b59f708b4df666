/** A pull without faults, from the agent's worker to the controller and back,
    over chains of bounded queues of any capacity. */
module PullFlow {
  import opened Payloads
  import opened Pipes
  import Multiples

  /** What the two ends say: the agent's entries, the controller's plan frames
      for the entries it got, the agent's data frames for the plans it got, and
      the frame that closes each phase. */
  datatype Script = Script(
    entries: seq<Payload>, listEnd: Payload,
    plan: seq<Payload> -> seq<Payload>, planEnd: Payload,
    data: seq<Payload> -> seq<Payload>, done: Payload)

  /** Capacities of the queues towards the controller and towards the agent. */
  datatype Net = Net(up: seq<nat>, down: seq<nat>)

  /** Listing: the agent sends entries.  Planning: the controller sends plans.
      Streaming: the agent sends data. */
  datatype Phase = Listing | Planning | Streaming | Done

  datatype Flow = Flow(
    agentAt: Phase, agentTodo: seq<Payload>, plans: seq<Payload>,
    ctrlAt: Phase, ctrlTodo: seq<Payload>, entries: seq<Payload>, received: seq<Payload>,
    up: Pipe, down: Pipe)

  datatype Move = AgentSends | AgentReads | CtrlSends | CtrlReads | UpHop(i: nat) | DownHop(i: nat)

  predicate Ends(p: Payload)
  {
    p.ManifestEnd? || p.PlanEnd? || p.TransferDone?
  }

  predicate Quiet(ps: seq<Payload>)
  {
    forall i :: 0 <= i < |ps| ==> !Ends(ps[i])
  }

  function Plans(script: Script): seq<Payload>
  {
    script.plan(script.entries)
  }

  function Data(script: Script): seq<Payload>
  {
    script.data(Plans(script))
  }

  predicate Wf(script: Script, net: Net)
  {
    && script.listEnd.ManifestEnd? && script.planEnd.PlanEnd? && script.done.TransferDone?
    && Quiet(script.entries) && Quiet(Plans(script)) && Quiet(Data(script))
    && net.up != [] && net.down != []
    && (forall i :: 0 <= i < |net.up| ==> net.up[i] >= 1)
    && (forall i :: 0 <= i < |net.down| ==> net.down[i] >= 1)
  }

  function Start(script: Script, net: Net): Flow
  {
    Flow(Listing, script.entries + [script.listEnd], [], Listing, [], [], [],
         seq(|net.up|, _ => []), seq(|net.down|, _ => []))
  }

  /** The queue beyond has room; for a reader, there is something to read. */
  predicate Enabled(net: Net, s: Flow, m: Move)
  {
    |s.up| == |net.up| > 0 && |s.down| == |net.down| > 0 &&
    match m
    case AgentSends => (s.agentAt.Listing? || s.agentAt.Streaming?) && s.agentTodo != [] && |s.up[0]| < net.up[0]
    case AgentReads => s.agentAt.Planning? && s.down[|s.down| - 1] != []
    case CtrlSends => s.ctrlAt.Planning? && s.ctrlTodo != [] && |s.down[0]| < net.down[0]
    case CtrlReads => (s.ctrlAt.Listing? || s.ctrlAt.Streaming?) && s.up[|s.up| - 1] != []
    case UpHop(i) => i + 1 < |s.up| && s.up[i] != [] && |s.up[i + 1]| < net.up[i + 1]
    case DownHop(i) => i + 1 < |s.down| && s.down[i] != [] && |s.down[i + 1]| < net.down[i + 1]
  }

  function AgentSent(s: Flow): Flow
    requires s.agentTodo != [] && s.up != []
  {
    var next := if |s.agentTodo| > 1 then s.agentAt else if s.agentAt.Listing? then Planning else Done;
    s.(agentAt := next, agentTodo := s.agentTodo[1..], up := Push(s.up, s.agentTodo[0]))
  }

  function CtrlSent(s: Flow): Flow
    requires s.ctrlTodo != [] && s.down != []
  {
    var next := if |s.ctrlTodo| > 1 then s.ctrlAt else Streaming;
    s.(ctrlAt := next, ctrlTodo := s.ctrlTodo[1..], down := Push(s.down, s.ctrlTodo[0]))
  }

  function AgentRead(script: Script, s: Flow, p: Payload): Flow
  {
    if p.PlanEnd? then s.(agentAt := Streaming, agentTodo := script.data(s.plans) + [script.done])
    else s.(plans := s.plans + [p])
  }

  function CtrlRead(script: Script, s: Flow, p: Payload): Flow
  {
    if s.ctrlAt.Listing? then
      if p.ManifestEnd? then s.(ctrlAt := Planning, ctrlTodo := script.plan(s.entries) + [script.planEnd])
      else s.(entries := s.entries + [p])
    else if p.TransferDone? then s.(ctrlAt := Done)
    else s.(received := s.received + [p])
  }

  function Step(script: Script, net: Net, s: Flow, m: Move): Flow
    requires Enabled(net, s, m)
  {
    match m
    case AgentSends => AgentSent(s)
    case AgentReads => AgentRead(script, s.(down := Pop(s.down)), s.down[|s.down| - 1][0])
    case CtrlSends => CtrlSent(s)
    case CtrlReads => CtrlRead(script, s.(up := Pop(s.up)), s.up[|s.up| - 1][0])
    case UpHop(i) => s.(up := Hop(s.up, i))
    case DownHop(i) => s.(down := Hop(s.down, i))
  }

  // ------------------------------------------------------------ invariant

  /** While entries flow: what was read, what is under way and what is to be
      sent are the entries. */
  predicate ListingOk(script: Script, s: Flow)
  {
    && s.entries + (Flat(s.up) + s.agentTodo) == script.entries + [script.listEnd]
    && Flat(s.down) == [] && s.plans == [] && s.received == [] && s.ctrlTodo == []
    && ((s.agentAt.Listing? && s.agentTodo != []) || (s.agentAt.Planning? && s.agentTodo == []))
  }

  predicate PlanningOk(script: Script, s: Flow)
  {
    && s.plans + (Flat(s.down) + s.ctrlTodo) == Plans(script) + [script.planEnd]
    && Flat(s.up) == [] && s.entries == script.entries && s.received == []
    && s.agentAt.Planning? && s.agentTodo == []
  }

  predicate StreamingOk(script: Script, s: Flow)
  {
    && s.received + (Flat(s.up) + s.agentTodo) == Data(script) + [script.done]
    && Flat(s.down) == [] && s.entries == script.entries && s.plans == Plans(script) && s.ctrlTodo == []
    && ((s.agentAt.Streaming? && s.agentTodo != []) || (s.agentAt.Done? && s.agentTodo == []))
  }

  /** Both ends have all they were to get, and nothing is under way. */
  predicate Finished(script: Script, s: Flow)
  {
    && s.agentAt.Done? && s.agentTodo == [] && s.ctrlTodo == []
    && s.entries == script.entries && s.plans == Plans(script) && s.received == Data(script)
    && Flat(s.up) == [] && Flat(s.down) == []
  }

  /** Neither end has read past a closing frame. */
  predicate Calm(s: Flow)
  {
    Quiet(s.entries) && Quiet(s.plans) && Quiet(s.received)
  }

  predicate Fine(script: Script, net: Net, s: Flow)
  {
    && Pipes.Within(s.up, net.up) && Pipes.Within(s.down, net.down) && Calm(s)
    && match s.ctrlAt
       case Listing => ListingOk(script, s)
       case Planning => PlanningOk(script, s) && s.ctrlTodo != []
       case Streaming => (PlanningOk(script, s) && s.ctrlTodo == []) || StreamingOk(script, s)
       case Done => Finished(script, s)
  }

  /** Sending `n` frames over `hops` queues and reading them. */
  function Ahead(n: nat, hops: nat): nat
  {
    Multiples.Next(n, hops + 1);
    n * (hops + 1)
  }

  /** Steps still to be made: every frame not yet sent, with all its hops, and
      what is under way. */
  function Left(script: Script, s: Flow): nat
  {
    var agentRest := |s.agentTodo| + if s.agentAt.Listing? || s.agentAt.Planning? then |Data(script)| + 1 else 0;
    var ctrlRest := |s.ctrlTodo| + if s.ctrlAt.Listing? then |Plans(script)| + 1 else 0;
    Ahead(agentRest, |s.up|) + Cost(s.up) + Ahead(ctrlRest, |s.down|) + Cost(s.down)
  }

  // ------------------------------------------------------------- each step

  /** A stream that ends with `last`: its head is `last` only at the very end. */
  lemma HeadOfStream(got: seq<Payload>, x: Payload, rest: seq<Payload>, all: seq<Payload>, last: Payload)
    requires got + ([x] + rest) == all + [last]
    ensures |got| < |all| ==> x == all[|got|]
    ensures |got| == |all| ==> x == last && rest == [] && got == all
    ensures |got| <= |all|
  {
    var s := got + ([x] + rest);
    assert |s| == |got| + 1 + |rest|;
    assert s[|got|] == x;
    if |got| == |all| {
      assert s[..|got|] == got && (all + [last])[..|all|] == all;
    }
  }

  /** With only non-closing frames before, `x` closes exactly at the end. */
  lemma ClosesAtEnd(got: seq<Payload>, x: Payload, rest: seq<Payload>, all: seq<Payload>, last: Payload)
    requires got + ([x] + rest) == all + [last] && Quiet(all) && Ends(last)
    ensures Ends(x) <==> x == last && rest == [] && got == all
    ensures !Ends(x) ==> (got + [x]) + rest == all + [last]
  {
    HeadOfStream(got, x, rest, all, last);
    assert (got + [x]) + rest == got + ([x] + rest);
  }

  lemma QuietSnoc(got: seq<Payload>, x: Payload)
    requires Quiet(got) && !Ends(x)
    ensures Quiet(got + [x])
  {}

  lemma Regroup(got: seq<Payload>, a: seq<Payload>, x: Payload, b: seq<Payload>)
    ensures got + ((a + [x]) + b) == got + (a + ([x] + b))
    ensures got + (([x] + a) + b) == got + ([x] + (a + b))
  {
    assert (a + [x]) + b == a + ([x] + b);
    assert ([x] + a) + b == [x] + (a + b);
  }

  lemma UpHopKeeps(script: Script, net: Net, s: Flow, i: nat)
    requires Fine(script, net, s) && Enabled(net, s, UpHop(i))
    ensures Fine(script, net, Step(script, net, s, UpHop(i)))
    ensures Left(script, s) == Left(script, Step(script, net, s, UpHop(i))) + 1
  {
    hide Flat, Cost;
    HopKeeps(s.up, i);
  }

  lemma DownHopKeeps(script: Script, net: Net, s: Flow, i: nat)
    requires Fine(script, net, s) && Enabled(net, s, DownHop(i))
    ensures Fine(script, net, Step(script, net, s, DownHop(i)))
    ensures Left(script, s) == Left(script, Step(script, net, s, DownHop(i))) + 1
  {
    hide Flat, Cost;
    HopKeeps(s.down, i);
  }

  lemma AgentSendsKeeps(script: Script, net: Net, s: Flow)
    requires Fine(script, net, s) && Enabled(net, s, AgentSends)
    ensures Fine(script, net, Step(script, net, s, AgentSends))
    ensures Left(script, s) == Left(script, Step(script, net, s, AgentSends)) + 1
  {
    hide Flat, Cost;
    var x, todo := s.agentTodo[0], s.agentTodo[1..];
    PushAdds(s.up, x);
    assert s.agentTodo == [x] + todo;
    Regroup(s.entries, Flat(s.up), x, todo);
    Regroup(s.received, Flat(s.up), x, todo);
    AgentCost(script, s);
  }

  lemma AgentCost(script: Script, s: Flow)
    requires s.agentTodo != [] && s.up != [] && (s.agentAt.Listing? || s.agentAt.Streaming?)
    ensures Left(script, s) == Left(script, AgentSent(s)) + 1
  {
    hide Flat, Cost, Plans, Data;
    PushAdds(s.up, s.agentTodo[0]);
    var rest := |s.agentTodo[1..]| + if s.agentAt.Listing? then |Data(script)| + 1 else 0;
    Multiples.Next(rest, |s.up| + 1);
  }

  lemma CtrlCost(script: Script, s: Flow)
    requires s.ctrlTodo != [] && s.down != [] && s.ctrlAt.Planning?
    ensures Left(script, s) == Left(script, CtrlSent(s)) + 1
  {
    hide Flat, Cost, Plans, Data;
    PushAdds(s.down, s.ctrlTodo[0]);
    Multiples.Next(|s.ctrlTodo[1..]|, |s.down| + 1);
  }

  lemma CtrlSendsKeeps(script: Script, net: Net, s: Flow)
    requires Fine(script, net, s) && Enabled(net, s, CtrlSends)
    ensures Fine(script, net, Step(script, net, s, CtrlSends))
    ensures Left(script, s) == Left(script, Step(script, net, s, CtrlSends)) + 1
  {
    hide Flat, Cost;
    var x, todo := s.ctrlTodo[0], s.ctrlTodo[1..];
    PushAdds(s.down, x);
    assert s.ctrlTodo == [x] + todo;
    Regroup(s.plans, Flat(s.down), x, todo);
    CtrlCost(script, s);
  }

  lemma AgentReadsKeeps(script: Script, net: Net, s: Flow)
    requires Wf(script, net) && Fine(script, net, s) && Enabled(net, s, AgentReads)
    ensures Fine(script, net, Step(script, net, s, AgentReads))
    ensures Left(script, s) == Left(script, Step(script, net, s, AgentReads)) + 1
  {
    hide Flat, Cost, Quiet;
    var x, down := s.down[|s.down| - 1][0], Pop(s.down);
    PopTakes(s.down);
    assert PlanningOk(script, s);
    Regroup(s.plans, Flat(down), x, s.ctrlTodo);
    ClosesAtEnd(s.plans, x, Flat(down) + s.ctrlTodo, Plans(script), script.planEnd);
    if !Ends(x) {
      QuietSnoc(s.plans, x);
    } else {
      assert Flat(down) == [] && s.ctrlTodo == [];
      assert [] + (Flat(s.up) + (Data(script) + [script.done])) == Data(script) + [script.done];
    }
  }

  lemma CtrlReadsKeeps(script: Script, net: Net, s: Flow)
    requires Wf(script, net) && Fine(script, net, s) && Enabled(net, s, CtrlReads)
    ensures Fine(script, net, Step(script, net, s, CtrlReads))
    ensures Left(script, s) == Left(script, Step(script, net, s, CtrlReads)) + 1
  {
    hide Flat, Cost, Quiet;
    var x, up := s.up[|s.up| - 1][0], Pop(s.up);
    PopTakes(s.up);
    if !Ends(x) {
      QuietSnoc(s.entries, x);
      QuietSnoc(s.received, x);
    }
    if s.ctrlAt.Listing? {
      Regroup(s.entries, Flat(up), x, s.agentTodo);
      ClosesAtEnd(s.entries, x, Flat(up) + s.agentTodo, script.entries, script.listEnd);
      assert s.plans + (Flat(s.down) + (Plans(script) + [script.planEnd])) == Plans(script) + [script.planEnd];
    } else {
      assert StreamingOk(script, s);
      Regroup(s.received, Flat(up), x, s.agentTodo);
      ClosesAtEnd(s.received, x, Flat(up) + s.agentTodo, Data(script), script.done);
    }
  }

  /** Every step keeps the invariant and is one step less to make. */
  lemma StepKeeps(script: Script, net: Net, s: Flow, m: Move)
    requires Wf(script, net) && Fine(script, net, s) && Enabled(net, s, m)
    ensures Fine(script, net, Step(script, net, s, m))
    ensures Left(script, s) == Left(script, Step(script, net, s, m)) + 1
  {
    hide Step, Fine, Left, Wf, Enabled;
    match m
    case AgentSends => AgentSendsKeeps(script, net, s);
    case AgentReads => AgentReadsKeeps(script, net, s);
    case CtrlSends => CtrlSendsKeeps(script, net, s);
    case CtrlReads => CtrlReadsKeeps(script, net, s);
    case UpHop(i) => UpHopKeeps(script, net, s, i);
    case DownHop(i) => DownHopKeeps(script, net, s, i);
  }

  // -------------------------------------------------------------- progress

  lemma NotYetClosed(got: seq<Payload>, all: seq<Payload>, last: Payload)
    requires Ends(last) && got == all + [last]
    ensures !Quiet(got)
  {
    assert got[|all|] == last;
  }

  /** While the controller has not finished, some step is possible: there is no
      deadlock, whatever the capacities. */
  lemma NeverStuck(script: Script, net: Net, s: Flow) returns (m: Move)
    requires Wf(script, net) && Fine(script, net, s) && !s.ctrlAt.Done?
    ensures Enabled(net, s, m)
  {
    hide Flat, Cost, Quiet;
    if Flat(s.up) != [] {
      var i := SomethingMoves(s.up, net.up);
      m := if i + 1 < |s.up| then UpHop(i) else CtrlReads;
    } else if Flat(s.down) != [] {
      var i := SomethingMoves(s.down, net.down);
      m := if i + 1 < |s.down| then DownHop(i) else AgentReads;
    } else {
      EmptyIff(s.up);
      EmptyIff(s.down);
      if s.agentTodo != [] {
        m := AgentSends;
      } else if s.ctrlTodo != [] {
        m := CtrlSends;
      } else {
        m := AgentReads;
        NothingMore(script, net, s);
      }
    }
  }

  lemma NothingMore(script: Script, net: Net, s: Flow)
    requires Wf(script, net) && Fine(script, net, s)
    requires Flat(s.up) == [] && Flat(s.down) == [] && s.agentTodo == [] && s.ctrlTodo == []
    ensures s.ctrlAt.Done?
  {
    hide Flat, Cost, Quiet;
    assert forall got: seq<Payload> :: got + ([] + []) == got;
    if s.ctrlAt.Listing? {
      NotYetClosed(s.entries, script.entries, script.listEnd);
    } else if PlanningOk(script, s) {
      NotYetClosed(s.plans, Plans(script), script.planEnd);
    } else if StreamingOk(script, s) {
      NotYetClosed(s.received, Data(script), script.done);
    }
  }

  // ---------------------------------------------------------- whole runs

  /** `moves` can be made one after the other from `s`. */
  predicate Runs(script: Script, net: Net, s: Flow, moves: seq<Move>)
    decreases |moves|
  {
    moves == [] ||
    (Enabled(net, s, moves[0]) && Runs(script, net, Step(script, net, s, moves[0]), moves[1..]))
  }

  function After(script: Script, net: Net, s: Flow, moves: seq<Move>): Flow
    requires Runs(script, net, s, moves)
    decreases |moves|
  {
    if moves == [] then s else After(script, net, Step(script, net, s, moves[0]), moves[1..])
  }

  lemma {:induction false} RunKeeps(script: Script, net: Net, s: Flow, moves: seq<Move>)
    requires Wf(script, net) && Fine(script, net, s) && Runs(script, net, s, moves)
    ensures Fine(script, net, After(script, net, s, moves))
    ensures Left(script, s) == Left(script, After(script, net, s, moves)) + |moves|
    decreases |moves|
  {
    hide Step, Fine, Left, Wf, Enabled;
    if moves != [] {
      StepKeeps(script, net, s, moves[0]);
      RunKeeps(script, net, Step(script, net, s, moves[0]), moves[1..]);
    }
  }

  lemma StartIsFine(script: Script, net: Net)
    requires Wf(script, net)
    ensures Fine(script, net, Start(script, net)) && Left(script, Start(script, net)) == Total(script, net)
  {
    hide Flat, Cost;
    var s := Start(script, net);
    EmptyIff(s.up);
    EmptyIff(s.down);
    assert [] + ([] + s.agentTodo) == s.agentTodo;
  }

  /** Every frame makes every hop of its way, is sent once and read once. */
  function Total(script: Script, net: Net): nat
  {
    Ahead(|script.entries| + |Data(script)| + 2, |net.up|) + Ahead(|Plans(script)| + 1, |net.down|)
  }

  lemma DoneIff(script: Script, net: Net, s: Flow)
    requires Wf(script, net) && Fine(script, net, s)
    ensures Left(script, s) == 0 <==> s.ctrlAt.Done?
  {
    hide Flat, Cost, Quiet, Plans, Data;
    EmptyIff(s.up);
    EmptyIff(s.down);
    if s.ctrlAt.Done? {
      assert Finished(script, s);
    } else {
      var m := NeverStuck(script, net, s);
      StepKeeps(script, net, s, m);
    }
  }

  /** In every run, whatever the capacities and the interleaving: it has at most
      `Total` steps; as long as it has fewer, another step is possible; and after
      `Total` steps both ends have exactly what the other sent. */
  lemma PullNeverDeadlocks(script: Script, net: Net, moves: seq<Move>)
    requires Wf(script, net) && Runs(script, net, Start(script, net), moves)
    ensures |moves| <= Total(script, net)
    ensures |moves| < Total(script, net) <==> exists m :: Enabled(net, After(script, net, Start(script, net), moves), m)
    ensures |moves| == Total(script, net) ==> Finished(script, After(script, net, Start(script, net), moves))
  {
    hide Left, Wf, Enabled, Runs, After, Total, Start, Finished, Step;
    var s := After(script, net, Start(script, net), moves);
    StartIsFine(script, net);
    RunKeeps(script, net, Start(script, net), moves);
    DoneIff(script, net, s);
    if |moves| < Total(script, net) {
      var m := NeverStuck(script, net, s);
    } else {
      assert Finished(script, s);
      forall m ensures !Enabled(net, s, m) {
        if Enabled(net, s, m) {
          StepKeeps(script, net, s, m);
        }
      }
    }
  }
}
