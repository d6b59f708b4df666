/** What becomes of one request at the relay server: which agent it reaches, on
    which route, and what its results leave behind. */
module Relays {
  import opened Bytes
  import opened Routes
  import Codec
  import WireLayout

  // -------------------------------------------------- the choice of an agent

  /** `name` serves a request for `target` when `names` are registered: the agent
      asked for by name, or without a name the only one. */
  predicate Grants(names: set<string>, target: string, name: string)
  {
    if target == "" then names == {name} else name == target && name in names
  }

  lemma OnlyMember(names: set<string>, name: string)
    ensures (|names| == 1 && name in names) <==> names == {name}
  {
    if |names| == 1 && name in names {
      assert |names - {name}| == 0;
      assert names == {name} + (names - {name});
    }
  }

  lemma PickIsGrant(s: Server, target: string)
    ensures var p := PickAgent(s, target);
      && (p.Some? ==> Grants(s.agents.Keys, target, p.value))
      && (forall name :: Grants(s.agents.Keys, target, name) ==> p == Some(name))
  {
    var p := PickAgent(s, target);
    assert |s.agents| == |s.agents.Keys|;
    if p.Some? {
      OnlyMember(s.agents.Keys, p.value);
    }
    forall name | Grants(s.agents.Keys, target, name)
      ensures p == Some(name)
    {
      OnlyMember(s.agents.Keys, name);
    }
  }

  lemma PcAfterGoto(s: Server, c: Conn, pc: Pc)
    ensures PcOf(Goto(s, c, pc), c) == pc
  {
  }

  /** At the choice a request gets the agent it asked for, if that agent is
      registered at this moment; without a name it gets the only agent there is.
      Otherwise it ends here, and in no case does anything else change. */
  lemma ChoiceIsExact(s: Server, c: Conn, sendOk: bool)
    requires PcOf(s, c).Choose?
    ensures var pc := PcOf(s, c); var t := Step(s, c, Advance(sendOk));
      && (forall name :: Grants(s.agents.Keys, pc.target, name) ==> t == Goto(s, c, Chosen(pc.req, name)))
      && ((forall name :: !Grants(s.agents.Keys, pc.target, name)) ==> t == Goto(s, c, CtrlIdle))
  {
    hide PickAgent, Grants, Goto, PcOf;
    PickIsGrant(s, PcOf(s, c).target);
  }

  /** An agent that is asked for by name and not registered gets no substitute. */
  lemma UnknownNameEnds(s: Server, c: Conn, sendOk: bool)
    requires PcOf(s, c).Choose? && PcOf(s, c).target != "" && PcOf(s, c).target !in s.agents
    ensures Step(s, c, Advance(sendOk)) == Goto(s, c, CtrlIdle)
  {
    hide Step, Goto, PcOf;
    ChoiceIsExact(s, c, sendOk);
  }

  /** How a thread gets to the stages between a request and its route. */
  ghost predicate Follows(s: Server, c: Conn, a: Act, pc: Pc, next: Pc)
  {
    next == pc ||
    match next
    case LookUp(req, target) => pc.CtrlIdle? && a == Request(req, target)
    case Found(req, target, _) => pc == LookUp(req, target)
    case Choose(req, target) => pc == LookUp(req, target) || (pc.Found? && pc.req == req && pc.target == target)
    case Chosen(req, name) => pc.Choose? && a.Advance? && pc.req == req && Grants(s.agents.Keys, pc.target, name)
    case Allocate(req, name, _) => pc == Chosen(req, name)
    case Insert(req, name, _, _) => pc.Allocate? && pc.req == req && pc.name == name
    case _ => true
  }

  /** Any stage but those few may follow any other. */
  predicate Free(pc: Pc)
  {
    !pc.LookUp? && !pc.Found? && !pc.Choose? && !pc.Chosen? && !pc.Allocate? && !pc.Insert?
  }

  lemma FreeFollows(s: Server, c: Conn, a: Act, pc: Pc, next: Pc)
    requires Free(next)
    ensures Follows(s, c, a, pc, next)
  {
  }

  lemma GotoFollows(s: Server, t: Server, c: Conn, a: Act, pc: Pc, next: Pc)
    requires Free(next)
    ensures Follows(s, c, a, pc, PcOf(Goto(t, c, next), c))
  {
    hide Follows, Goto, PcOf, Free;
    PcAfterGoto(t, c, next);
    FreeFollows(s, c, a, pc, next);
  }

  lemma RemoveFollows(s: Server, c: Conn, a: Act, pc: Pc, route: RouteId, name: string)
    ensures Follows(s, c, a, pc, PcOf(RemoveRoute(s, c, route, AgentIdle(name), k => FinishUnbind(name, k)), c))
  {
    hide Follows, Goto, PcOf;
    GotoFollows(s, s, c, a, pc, AgentIdle(name));
    if route in s.routes {
      GotoFollows(s, s.(routes := s.routes - {route}), c, a, pc,
                  FinishUnbind(name, Key(s.routes[route].ctrl, s.routes[route].req)));
    }
  }

  lemma SweepFollows(s: Server, c: Conn, a: Act, pc: Pc, doomed: set<RouteId>)
    ensures Follows(s, c, a, pc, PcOf(Sweep(s, c, doomed), c))
  {
    hide Follows, Goto, PcOf, KeysOf;
    GotoFollows(s, s.(routes := s.routes - doomed), c, a, pc, SweepUnbind(KeysOf(s.routes, doomed)));
  }

  lemma AgentSectionFollows(s: Server, c: Conn, a: Act, sendOk: bool)
    requires !OfCtrlThread(PcOf(s, c)) && !PcOf(s, c).Fresh?
    ensures Follows(s, c, a, PcOf(s, c), PcOf(AgentSection(s, c, PcOf(s, c), sendOk), c))
  {
    hide Follows, Goto, PcOf, Sweep, RemoveRoute;
    var pc := PcOf(s, c);
    SameFollows(s, c, a, pc);
    match pc
    case Forward(name, route, entry, final) =>
      GotoFollows(s, if sendOk then s.(log := s.log + [Forwarded(route, c, entry.ctrl, final)]) else s, c, a, pc,
                  if final then Finish(name, route) else AgentIdle(name));
    case Finish(name, route) => RemoveFollows(s, c, a, pc, route, name);
    case FinishUnbind(name, key) => GotoFollows(s, s.(byReq := s.byReq - {key}), c, a, pc, AgentIdle(name));
    case AgentLeave(name) =>
      GotoFollows(s, if name in s.agents && s.agents[name] == c then s.(agents := s.agents - {name}) else s, c, a, pc,
                  AgentSweep(name));
    case AgentSweep(name) => SweepFollows(s, c, a, pc, OfAgent(s.routes, name));
    case _ =>
  }

  lemma SameFollows(s: Server, c: Conn, a: Act, pc: Pc)
    ensures Follows(s, c, a, pc, pc)
  {
  }

  lemma PcsAfterGoto()
    ensures forall s: Server, c, pc :: PcOf(Goto(s, c, pc), c) == pc
  {
  }

  lemma CtrlSectionFollows(s: Server, c: Conn, sendOk: bool)
    requires OfCtrlThread(PcOf(s, c))
    ensures Follows(s, c, Advance(sendOk), PcOf(s, c), PcOf(CtrlSection(s, c, PcOf(s, c), sendOk), c))
  {
    hide Goto, PcOf, Sweep, RemoveRoute, Grants, PickAgent;
    PcsAfterGoto();
    var pc, a := PcOf(s, c), Advance(sendOk);
    match pc
    case CtrlSweep => SweepFollows(s, c, a, pc, OfCtrl(s.routes, c));
    case Drop(route) => DropFollows(s, c, a, pc, route);
    case Choose(_, target) => PickIsGrant(s, target);
    case _ =>
  }

  lemma DropFollows(s: Server, c: Conn, a: Act, pc: Pc, route: RouteId)
    ensures Follows(s, c, a, pc, PcOf(RemoveRoute(s, c, route, CtrlIdle, k => Unbind(k)), c))
  {
    hide Follows, Goto, PcOf;
    GotoFollows(s, s, c, a, pc, CtrlIdle);
    if route in s.routes {
      GotoFollows(s, s.(routes := s.routes - {route}), c, a, pc,
                  Unbind(Key(s.routes[route].ctrl, s.routes[route].req)));
    }
  }

  lemma GreetFollows(s: Server, c: Conn, a: Act)
    requires PcOf(s, c).Fresh?
    ensures Follows(s, c, a, PcOf(s, c), PcOf(Greet(s, c, a), c))
  {
    hide Follows, Goto, PcOf, ValidName;
    var pc := PcOf(s, c);
    SameFollows(s, c, a, pc);
    GotoFollows(s, s, c, a, pc, Closed);
    GotoFollows(s, s, c, a, pc, CtrlIdle);
    if a.HelloAgent? {
      GotoFollows(s, s.(agents := s.agents[a.name := c], joined := s.joined[c := a.name]), c, a, pc, AgentIdle(a.name));
    }
  }

  /** A waiting thread: a controller's, an agent's, or one that clears bindings. */
  lemma WaitingFollows(s: Server, c: Conn, a: Act)
    requires var pc := PcOf(s, c); pc.CtrlIdle? || pc.AgentIdle? || pc.SweepUnbind?
    ensures Follows(s, c, a, PcOf(s, c), PcOf(Step(s, c, a), c))
  {
    hide AgentSection, CtrlSection, Greet, Grants, IsLast;
  }

  lemma StepFollows(s: Server, c: Conn, a: Act)
    ensures Follows(s, c, a, PcOf(s, c), PcOf(Step(s, c, a), c))
  {
    hide AgentSection, CtrlSection, Greet, Follows, Goto, PcOf, IsLast;
    var pc := PcOf(s, c);
    if pc.Fresh? {
      GreetFollows(s, c, a);
    } else if pc.CtrlIdle? || pc.AgentIdle? || pc.SweepUnbind? {
      WaitingFollows(s, c, a);
    } else if !a.Advance? {
      SameFollows(s, c, a, pc);
    } else if OfCtrlThread(pc) {
      CtrlSectionFollows(s, c, a.sendOk);
    } else {
      AgentSectionFollows(s, c, a, a.sendOk);
    }
  }

  // ------------------------------------------------------- over whole runs

  /** Move `j` of the run is a request of the idle controller `c`. */
  ghost predicate AskedAt(first: RouteId, moves: seq<Move>, j: int, c: Conn, req: ReqId, target: string)
  {
    0 <= j < |moves| && moves[j] == Move(c, Request(req, target)) && PcOf(Run(first, moves[..j]), c).CtrlIdle?
  }

  ghost predicate Asked(first: RouteId, moves: seq<Move>, c: Conn, req: ReqId, target: string)
  {
    exists j :: AskedAt(first, moves, j, c, req, target)
  }

  /** At move `i` the controller's thread chose for a request it had been sent;
      the agents registered at this very moment decided. */
  ghost predicate GrantedAt(first: RouteId, moves: seq<Move>, i: int, target: string, r: Route)
  {
    0 <= i < |moves| && moves[i].c == r.ctrl && moves[i].a.Advance? &&
    var s := Run(first, moves[..i]);
    && PcOf(s, r.ctrl) == Choose(r.req, target)
    && Grants(s.agents.Keys, target, r.agent)
    && Asked(first, moves[..i], r.ctrl, r.req, target)
  }

  ghost predicate Granted(first: RouteId, moves: seq<Move>, r: Route)
  {
    exists i, target :: GrantedAt(first, moves, i, target, r)
  }

  lemma AskedLater(first: RouteId, moves: seq<Move>, m: Move, c: Conn, req: ReqId, target: string)
    requires Asked(first, moves, c, req, target)
    ensures Asked(first, moves + [m], c, req, target)
  {
    hide Run, PcOf;
    var j :| AskedAt(first, moves, j, c, req, target);
    assert (moves + [m])[..j] == moves[..j];
    assert AskedAt(first, moves + [m], j, c, req, target);
  }

  lemma GrantedLater(first: RouteId, moves: seq<Move>, m: Move, r: Route)
    requires Granted(first, moves, r)
    ensures Granted(first, moves + [m], r)
  {
    hide Run, PcOf, Grants, Asked;
    var i, target :| GrantedAt(first, moves, i, target, r);
    assert (moves + [m])[..i] == moves[..i];
    assert GrantedAt(first, moves + [m], i, target, r);
  }

  /** The history behind a thread's place. */
  ghost predicate Justified(first: RouteId, moves: seq<Move>, c: Conn, pc: Pc)
  {
    match pc
    case LookUp(req, target) => Asked(first, moves, c, req, target)
    case Found(req, target, _) => Asked(first, moves, c, req, target)
    case Choose(req, target) => Asked(first, moves, c, req, target)
    case Chosen(req, name) => Granted(first, moves, Route(c, name, req))
    case Allocate(req, name, _) => Granted(first, moves, Route(c, name, req))
    case Insert(req, name, _, _) => Granted(first, moves, Route(c, name, req))
    case _ => true
  }

  lemma JustifiedLater(first: RouteId, moves: seq<Move>, m: Move, c: Conn, pc: Pc)
    requires Justified(first, moves, c, pc)
    ensures Justified(first, moves + [m], c, pc)
  {
    hide Asked, Granted;
    match pc
    case LookUp(req, target) => AskedLater(first, moves, m, c, req, target);
    case Found(req, target, _) => AskedLater(first, moves, m, c, req, target);
    case Choose(req, target) => AskedLater(first, moves, m, c, req, target);
    case Chosen(req, name) => GrantedLater(first, moves, m, Route(c, name, req));
    case Allocate(req, name, _) => GrantedLater(first, moves, m, Route(c, name, req));
    case Insert(req, name, _, _) => GrantedLater(first, moves, m, Route(c, name, req));
    case _ =>
  }

  /** The thread that moves stays justified. */
  lemma MoverJustified(first: RouteId, moves: seq<Move>, m: Move, pc: Pc, next: Pc)
    requires pc == PcOf(Run(first, moves), m.c) && Justified(first, moves, m.c, pc)
    requires Follows(Run(first, moves), m.c, m.a, pc, next)
    ensures Justified(first, moves + [m], m.c, next)
  {
    hide Run, PcOf, Asked, Granted, Grants;
    JustifiedLater(first, moves, m, m.c, pc);
    if next != pc && next.LookUp? {
      NowAsked(first, moves, m);
    } else if next != pc && next.Chosen? {
      NowGranted(first, moves, m, pc.req, pc.target, next.name);
    }
  }

  lemma NowAsked(first: RouteId, moves: seq<Move>, m: Move)
    requires PcOf(Run(first, moves), m.c).CtrlIdle? && m.a.Request?
    ensures Asked(first, moves + [m], m.c, m.a.req, m.a.target)
  {
    hide Run, PcOf;
    assert (moves + [m])[..|moves|] == moves;
    assert AskedAt(first, moves + [m], |moves|, m.c, m.a.req, m.a.target);
  }

  lemma NowGranted(first: RouteId, moves: seq<Move>, m: Move, req: ReqId, target: string, name: string)
    requires PcOf(Run(first, moves), m.c) == Choose(req, target) && m.a.Advance?
    requires Asked(first, moves, m.c, req, target) && Grants(Run(first, moves).agents.Keys, target, name)
    ensures Granted(first, moves + [m], Route(m.c, name, req))
  {
    hide Run, PcOf, Asked, Grants;
    assert (moves + [m])[..|moves|] == moves;
    assert GrantedAt(first, moves + [m], |moves|, target, Route(m.c, name, req));
  }

  /** All threads and all routes have a request and a choice behind them. */
  ghost predicate AllJustified(first: RouteId, moves: seq<Move>)
  {
    && (forall c :: Justified(first, moves, c, PcOf(Run(first, moves), c)))
    && (forall r :: r in Run(first, moves).created ==> Granted(first, moves, Run(first, moves).created[r]))
  }

  lemma StepJustified(first: RouteId, moves: seq<Move>, m: Move)
    requires AllJustified(first, moves)
    ensures AllJustified(first, moves + [m])
  {
    hide Run, Step, PcOf, Justified, Granted, Follows;
    var s := Run(first, moves);
    RunSnoc(first, moves, m);
    StepIsConfined(s, m.c, m.a);
    StepFollows(s, m.c, m.a);
    var t := Run(first, moves + [m]);
    forall c ensures Justified(first, moves + [m], c, PcOf(t, c)) {
      if c == m.c {
        MoverJustified(first, moves, m, PcOf(s, c), PcOf(t, c));
      } else {
        JustifiedLater(first, moves, m, c, PcOf(s, c));
      }
    }
    forall r | r in t.created ensures Granted(first, moves + [m], t.created[r]) {
      if r in s.created && t.created[r] == s.created[r] {
        GrantedLater(first, moves, m, s.created[r]);
      } else {
        InsertGranted(first, moves, m);
      }
    }
  }

  lemma InsertGranted(first: RouteId, moves: seq<Move>, m: Move)
    requires var pc := PcOf(Run(first, moves), m.c); pc.Insert? && Justified(first, moves, m.c, pc)
    ensures var pc := PcOf(Run(first, moves), m.c); Granted(first, moves + [m], Route(m.c, pc.name, pc.req))
  {
    hide Run, PcOf, Granted;
    var pc := PcOf(Run(first, moves), m.c);
    GrantedLater(first, moves, m, Route(m.c, pc.name, pc.req));
  }

  lemma {:induction false} RunJustified(first: RouteId, moves: seq<Move>)
    ensures AllJustified(first, moves)
  {
    hide AllJustified;
    if moves == [] {
      NothingJustified(first);
    } else {
      var last := |moves| - 1;
      RunJustified(first, moves[..last]);
      StepJustified(first, moves[..last], moves[last]);
      assert moves[..last] + [moves[last]] == moves;
    }
  }

  lemma NothingJustified(first: RouteId)
    ensures AllJustified(first, [])
  {
    forall c ensures PcOf(Start(first), c) == Fresh {}
    assert forall c :: Justified(first, [], c, Fresh);
  }

  /** Every route that was ever created answers a request that its controller had
      sent with that id: its agent is the one asked for by name, registered when
      the choice was made, or, when no name was given, the only one registered
      at that moment. */
  lemma RoutesWereGranted(first: RouteId, moves: seq<Move>, r: RouteId)
    requires r in Run(first, moves).created
    ensures Granted(first, moves, Run(first, moves).created[r])
  {
    hide Run, Granted, Justified;
    RunJustified(first, moves);
  }

  /** So every frame delivered, the first and all continuations, goes to a
      connection registered under the name the request was granted. */
  lemma DeliveriesWereGranted(first: RouteId, moves: seq<Move>, i: nat)
    requires i < |Run(first, moves).log| && Run(first, moves).log[i].Delivered?
    ensures var s := Run(first, moves); var e := s.log[i];
      e.to in s.joined && Granted(first, moves, Route(e.ctrl, s.joined[e.to], e.req))
  {
    hide Run, Granted;
    ContinuationsStick(first, moves, i);
    var s := Run(first, moves);
    var e := s.log[i];
    RoutesWereGranted(first, moves, e.route);
    assert s.created[e.route] == Route(e.ctrl, s.joined[e.to], e.req);
  }

  // ------------------------------------------- a request that is not disturbed

  /** Thread `c` goes on alone for `n` steps. */
  ghost function Alone(s: Server, c: Conn, n: nat): Server
  {
    if n == 0 then s else Step(Alone(s, c, n - 1), c, Advance(true))
  }

  lemma GotoTwice(s: Server, c: Conn, p: Pc, q: Pc)
    ensures Goto(Goto(s, c, p), c, q) == Goto(s, c, q)
  {
    assert s.threads[c := p][c := q] == s.threads[c := q];
  }

  lemma OneMore(s: Server, c: Conn, n: nat)
    ensures Alone(s, c, n + 1) == Step(Alone(s, c, n), c, Advance(true)) && Alone(s, c, 0) == s
  {
    hide Step;
  }

  /** The step of a controller's thread that stands at `pc`. */
  lemma CtrlAdvance(s: Server, c: Conn, pc: Pc, sendOk: bool)
    requires OfCtrlThread(pc)
    ensures Step(Goto(s, c, pc), c, Advance(sendOk)) == CtrlSection(Goto(s, c, pc), c, pc, sendOk)
  {
    hide CtrlSection, AgentSection, Greet, Goto;
    PcAfterGoto(s, c, pc);
  }

  lemma AgentAdvance(s: Server, c: Conn, pc: Pc, sendOk: bool)
    requires pc.Forward? || pc.Finish? || pc.FinishUnbind?
    ensures Step(Goto(s, c, pc), c, Advance(sendOk)) == AgentSection(Goto(s, c, pc), c, pc, sendOk)
  {
    hide CtrlSection, AgentSection, Greet, Goto;
    PcAfterGoto(s, c, pc);
  }

  /** From the look-up to the route of an earlier frame, or to the choice. */
  lemma LookUpMoves(s: Server, c: Conn, req: ReqId, target: string)
    ensures var t := Step(Goto(s, c, LookUp(req, target)), c, Advance(true));
      t == Goto(s, c, if Key(c, req) in s.byReq then Found(req, target, s.byReq[Key(c, req)]) else Choose(req, target))
  {
    hide Step;
    CtrlAdvance(s, c, LookUp(req, target), true);
    GotoTwice(s, c, LookUp(req, target), Choose(req, target));
    if Key(c, req) in s.byReq {
      GotoTwice(s, c, LookUp(req, target), Found(req, target, s.byReq[Key(c, req)]));
    }
  }

  lemma FoundMoves(s: Server, c: Conn, req: ReqId, target: string, route: RouteId)
    ensures var t := Step(Goto(s, c, Found(req, target, route)), c, Advance(true));
      t == Goto(s, c, if route in s.routes then Continue(req, route, s.routes[route].agent) else Choose(req, target))
  {
    hide Step;
    var pc := Found(req, target, route);
    CtrlAdvance(s, c, pc, true);
    GotoTwice(s, c, pc, Choose(req, target));
    if route in s.routes {
      GotoTwice(s, c, pc, Continue(req, route, s.routes[route].agent));
    }
  }

  lemma ContinueMoves(s: Server, c: Conn, req: ReqId, route: RouteId, name: string)
    ensures var t := Step(Goto(s, c, Continue(req, route, name)), c, Advance(true));
      t == Goto(s, c, if name in s.agents then Deliver(req, route, name, s.agents[name]) else Drop(route))
  {
    hide Step;
    var pc := Continue(req, route, name);
    CtrlAdvance(s, c, pc, true);
    GotoTwice(s, c, pc, Drop(route));
    if name in s.agents {
      GotoTwice(s, c, pc, Deliver(req, route, name, s.agents[name]));
    }
  }

  lemma DeliverMoves(s: Server, c: Conn, req: ReqId, route: RouteId, name: string, to: Conn, sendOk: bool)
    ensures var t := Step(Goto(s, c, Deliver(req, route, name, to)), c, Advance(sendOk));
      t == if sendOk then Goto(s.(log := s.log + [Delivered(route, c, req, to)]), c, CtrlIdle)
           else Goto(s, c, Drop(route))
  {
    hide Step;
    var pc := Deliver(req, route, name, to);
    CtrlAdvance(s, c, pc, sendOk);
    GotoTwice(s, c, pc, Drop(route));
    GotoTwice(s.(log := s.log + [Delivered(route, c, req, to)]), c, pc, CtrlIdle);
  }

  /** The first step after a request. */
  lemma RequestMoves(s: Server, c: Conn, req: ReqId, target: string)
    requires PcOf(s, c).CtrlIdle?
    ensures Step(s, c, Request(req, target)) == Goto(s, c, LookUp(req, target))
  {
    hide CtrlSection, AgentSection, Greet, Goto;
  }

  /** A further frame of a request whose route is alive goes to the agent of that
      route, whatever target it names and whoever else is registered. */
  lemma RelayContinues(s: Server, c: Conn, req: ReqId, target: string)
    requires PcOf(s, c).CtrlIdle? && Key(c, req) in s.byReq && s.byReq[Key(c, req)] in s.routes
    requires s.routes[s.byReq[Key(c, req)]].agent in s.agents
    ensures var route := s.byReq[Key(c, req)]; var to := s.agents[s.routes[route].agent];
      Alone(Step(s, c, Request(req, target)), c, 4) ==
      Goto(s.(log := s.log + [Delivered(route, c, req, to)]), c, CtrlIdle)
  {
    hide Step, Goto, PcOf, Alone;
    var route := s.byReq[Key(c, req)];
    var name := s.routes[route].agent;
    RequestMoves(s, c, req, target);
    LookUpMoves(s, c, req, target);
    FoundMoves(s, c, req, target, route);
    ContinueMoves(s, c, req, route, name);
    DeliverMoves(s, c, req, route, name, s.agents[name], true);
    var s0 := Step(s, c, Request(req, target));
    OneMore(s0, c, 0);
    OneMore(s0, c, 1);
    OneMore(s0, c, 2);
    OneMore(s0, c, 3);
  }

  /** A request without a live route: nothing is bound, or the binding is dead. */
  predicate IsNew(s: Server, c: Conn, req: ReqId)
  {
    Key(c, req) in s.byReq ==> s.byReq[Key(c, req)] !in s.routes
  }

  /** Steps from a request to the choice. */
  function ToChoice(s: Server, c: Conn, req: ReqId): nat
  {
    if Key(c, req) in s.byReq then 2 else 1
  }

  lemma ReachesChoice(s: Server, c: Conn, req: ReqId, target: string)
    requires PcOf(s, c).CtrlIdle? && IsNew(s, c, req)
    ensures Alone(Step(s, c, Request(req, target)), c, ToChoice(s, c, req)) == Goto(s, c, Choose(req, target))
  {
    hide Step, Goto, PcOf, Alone;
    var s0 := Step(s, c, Request(req, target));
    RequestMoves(s, c, req, target);
    LookUpMoves(s, c, req, target);
    OneMore(s0, c, 0);
    OneMore(s0, c, 1);
    if Key(c, req) in s.byReq {
      FoundMoves(s, c, req, target, s.byReq[Key(c, req)]);
    }
  }

  lemma ChooseMoves(s: Server, c: Conn, req: ReqId, target: string)
    ensures forall name :: Grants(s.agents.Keys, target, name) ==>
      Step(Goto(s, c, Choose(req, target)), c, Advance(true)) == Goto(s, c, Chosen(req, name))
    ensures (forall name :: !Grants(s.agents.Keys, target, name)) ==>
      Step(Goto(s, c, Choose(req, target)), c, Advance(true)) == Goto(s, c, CtrlIdle)
  {
    hide Step, Grants, PcOf;
    var s1 := Goto(s, c, Choose(req, target));
    PcAfterGoto(s, c, Choose(req, target));
    assert s1.agents == s.agents;
    hide Goto;
    ChoiceIsExact(s1, c, true);
    GotoTwice(s, c, Choose(req, target), CtrlIdle);
    forall name | Grants(s.agents.Keys, target, name)
      ensures Step(s1, c, Advance(true)) == Goto(s, c, Chosen(req, name))
    {
      GotoTwice(s, c, Choose(req, target), Chosen(req, name));
    }
  }

  /** A new request that no registered agent is granted leaves no trace. */
  lemma RelayRefuses(s: Server, c: Conn, req: ReqId, target: string)
    requires PcOf(s, c).CtrlIdle? && IsNew(s, c, req)
    requires forall name :: !Grants(s.agents.Keys, target, name)
    ensures Alone(Step(s, c, Request(req, target)), c, ToChoice(s, c, req) + 1) == Goto(s, c, CtrlIdle)
  {
    hide Step, Goto, PcOf, Alone, Grants, IsNew;
    var s0 := Step(s, c, Request(req, target));
    ReachesChoice(s, c, req, target);
    ChooseMoves(s, c, req, target);
    OneMore(s0, c, ToChoice(s, c, req));
  }

  /** The tables once a route was created and its first frame delivered. */
  function WithRoute(s: Server, c: Conn, req: ReqId, name: string): Server
    requires name in s.agents
  {
    var route, entry := s.nextRoute, Route(c, name, req);
    s.(routes := s.routes[route := entry], created := s.created[route := entry],
       byReq := s.byReq[Key(c, req) := route], nextRoute := route + 1,
       log := s.log + [Delivered(route, c, req, s.agents[name])])
  }

  lemma ChosenMoves(s: Server, c: Conn, req: ReqId, name: string)
    requires name in s.agents
    ensures Step(Goto(s, c, Chosen(req, name)), c, Advance(true)) == Goto(s, c, Allocate(req, name, s.agents[name]))
  {
    hide Step;
    CtrlAdvance(s, c, Chosen(req, name), true);
    GotoTwice(s, c, Chosen(req, name), Allocate(req, name, s.agents[name]));
  }

  lemma AllocateMoves(s: Server, c: Conn, req: ReqId, name: string, to: Conn)
    ensures Step(Goto(s, c, Allocate(req, name, to)), c, Advance(true)) ==
            Goto(s.(nextRoute := s.nextRoute + 1), c, Insert(req, name, to, s.nextRoute))
  {
    hide Step;
    CtrlAdvance(s, c, Allocate(req, name, to), true);
    GotoTwice(s.(nextRoute := s.nextRoute + 1), c, Allocate(req, name, to), Insert(req, name, to, s.nextRoute));
  }

  lemma InsertMoves(s: Server, c: Conn, req: ReqId, name: string, to: Conn, route: RouteId)
    ensures var entry := Route(c, name, req);
      Step(Goto(s, c, Insert(req, name, to, route)), c, Advance(true)) ==
      Goto(s.(routes := s.routes[route := entry], created := s.created[route := entry]), c, Bind(req, name, to, route))
  {
    hide Step;
    var entry := Route(c, name, req);
    CtrlAdvance(s, c, Insert(req, name, to, route), true);
    GotoTwice(s.(routes := s.routes[route := entry], created := s.created[route := entry]), c,
              Insert(req, name, to, route), Bind(req, name, to, route));
  }

  lemma BindMoves(s: Server, c: Conn, req: ReqId, name: string, to: Conn, route: RouteId)
    requires route in s.routes
    ensures Step(Goto(s, c, Bind(req, name, to, route)), c, Advance(true)) ==
            Goto(s.(byReq := s.byReq[Key(c, req) := route]), c, Deliver(req, route, name, to))
  {
    hide Step;
    CtrlAdvance(s, c, Bind(req, name, to, route), true);
    assert s.late + {} == s.late;
    GotoTwice(s.(byReq := s.byReq[Key(c, req) := route]), c, Bind(req, name, to, route),
              Deliver(req, route, name, to));
  }

  /** From the chosen name to the delivered frame. */
  lemma CreatesRoute(s: Server, c: Conn, req: ReqId, name: string)
    requires name in s.agents
    ensures Alone(Goto(s, c, Chosen(req, name)), c, 5) == Goto(WithRoute(s, c, req, name), c, CtrlIdle)
  {
    hide Step, Goto, Alone;
    var to, route, entry := s.agents[name], s.nextRoute, Route(c, name, req);
    var s0 := Goto(s, c, Chosen(req, name));
    ChosenMoves(s, c, req, name);
    AllocateMoves(s, c, req, name, to);
    var s1 := s.(nextRoute := route + 1);
    InsertMoves(s1, c, req, name, to, route);
    var s2 := s1.(routes := s.routes[route := entry], created := s.created[route := entry]);
    BindMoves(s2, c, req, name, to, route);
    var s3 := s2.(byReq := s.byReq[Key(c, req) := route]);
    DeliverMoves(s3, c, req, route, name, to, true);
    OneMore(s0, c, 0);
    OneMore(s0, c, 1);
    OneMore(s0, c, 2);
    OneMore(s0, c, 3);
    OneMore(s0, c, 4);
  }

  lemma {:induction false} AloneLater(s: Server, c: Conn, m: nat, n: nat)
    ensures Alone(Alone(s, c, m), c, n) == Alone(s, c, m + n)
  {
    hide Step;
    if n > 0 {
      AloneLater(s, c, m, n - 1);
    }
  }

  /** A new request that an agent is granted gets a route of its own, with a new
      number, that names this controller, this agent and this request; it is
      bound and its first frame goes to the agent's connection. */
  lemma RelayCreates(s: Server, c: Conn, req: ReqId, target: string, name: string)
    requires PcOf(s, c).CtrlIdle? && IsNew(s, c, req) && Grants(s.agents.Keys, target, name)
    ensures name in s.agents
    ensures Alone(Step(s, c, Request(req, target)), c, ToChoice(s, c, req) + 6) ==
            Goto(WithRoute(s, c, req, name), c, CtrlIdle)
  {
    hide *;
    GrantedIsRegistered(s, target, name);
    var s0, n := Step(s, c, Request(req, target)), ToChoice(s, c, req);
    ReachesChoice(s, c, req, target);
    ChooseGranted(s, c, req, target, name);
    OneMore(s0, c, n);
    CreatesRoute(s, c, req, name);
    AloneLater(s0, c, n + 1, 5);
  }

  lemma ChooseGranted(s: Server, c: Conn, req: ReqId, target: string, name: string)
    requires Grants(s.agents.Keys, target, name)
    ensures Step(Goto(s, c, Choose(req, target)), c, Advance(true)) == Goto(s, c, Chosen(req, name))
  {
    hide *;
    ChooseMoves(s, c, req, target);
  }

  lemma GrantedIsRegistered(s: Server, target: string, name: string)
    requires Grants(s.agents.Keys, target, name)
    ensures name in s.agents
  {
    assert name in s.agents.Keys;
  }

  // ------------------------------------------------------- the end of a route

  /** The tables without a route and its binding. */
  function Without(s: Server, route: RouteId): Server
    requires route in s.routes
  {
    s.(routes := s.routes - {route}, byReq := s.byReq - {Key(s.routes[route].ctrl, s.routes[route].req)})
  }

  lemma DropMoves(s: Server, c: Conn, route: RouteId)
    requires route in s.routes
    ensures Alone(Goto(s, c, Drop(route)), c, 2) == Goto(Without(s, route), c, CtrlIdle)
  {
    hide Step;
    var key := Key(s.routes[route].ctrl, s.routes[route].req);
    var s1 := s.(routes := s.routes - {route});
    CtrlAdvance(s, c, Drop(route), true);
    GotoTwice(s1, c, Drop(route), Unbind(key));
    CtrlAdvance(s1, c, Unbind(key), true);
    GotoTwice(Without(s, route), c, Unbind(key), CtrlIdle);
    OneMore(Goto(s, c, Drop(route)), c, 0);
    OneMore(Goto(s, c, Drop(route)), c, 1);
  }

  /** A frame that cannot be handed to the agent ends the route. */
  lemma FailedDeliveryEnds(s: Server, c: Conn, req: ReqId, route: RouteId, name: string, to: Conn)
    requires route in s.routes && PcOf(s, c) == Deliver(req, route, name, to)
    ensures Alone(Step(s, c, Advance(false)), c, 2) == Goto(Without(s, route), c, CtrlIdle)
  {
    StandsAt(s, c, Deliver(req, route, name, to));
    hide Step, Goto, PcOf, Alone;
    DeliverMoves(s, c, req, route, name, to, false);
    DropMoves(s, c, route);
  }

  lemma StandsAt(s: Server, c: Conn, pc: Pc)
    requires PcOf(s, c) == pc && !pc.Fresh?
    ensures Goto(s, c, pc) == s
  {
    assert s.threads[c := pc] == s.threads;
  }

  /** So does a further frame for an agent that has left. */
  lemma AbsentAgentEnds(s: Server, c: Conn, req: ReqId, target: string)
    requires PcOf(s, c).CtrlIdle? && Key(c, req) in s.byReq && s.byReq[Key(c, req)] in s.routes
    requires s.routes[s.byReq[Key(c, req)]].agent !in s.agents
    ensures Alone(Step(s, c, Request(req, target)), c, 5) == Goto(Without(s, s.byReq[Key(c, req)]), c, CtrlIdle)
  {
    hide Step, Goto, PcOf, Alone, Without;
    var route := s.byReq[Key(c, req)];
    RequestMoves(s, c, req, target);
    LookUpMoves(s, c, req, target);
    FoundMoves(s, c, req, target, route);
    ContinueMoves(s, c, req, route, s.routes[route].agent);
    DropMoves(s, c, route);
    var s0 := Step(s, c, Request(req, target));
    OneMore(s0, c, 0);
    OneMore(s0, c, 1);
    OneMore(s0, c, 2);
    AloneLater(s0, c, 3, 2);
  }

  /** An agent's result goes to the route's controller; after the payload that
      decodes as the last one, route and binding are gone. */
  lemma ResultReturns(s: Server, c: Conn, name: string, route: RouteId, payload: Blob)
    requires PcOf(s, c) == AgentIdle(name) && route in s.routes
    ensures var e := Forwarded(route, c, s.routes[route].ctrl, IsLast(payload));
            var t := s.(log := s.log + [e]);
      Alone(Step(s, c, Result(route, payload)), c, if IsLast(payload) then 3 else 1) ==
      Goto(if IsLast(payload) then Without(t, route) else t, c, AgentIdle(name))
  {
    hide Step, IsLast;
    var final := IsLast(payload);
    var forward := Forward(name, route, s.routes[route], final);
    var t := s.(log := s.log + [Forwarded(route, c, s.routes[route].ctrl, final)]);
    var s0 := Step(s, c, Result(route, payload));
    assert s0 == Goto(s, c, forward) by { ResultMoves(s, c, route, payload); }
    AgentAdvance(s, c, forward, true);
    GotoTwice(t, c, forward, if final then Finish(name, route) else AgentIdle(name));
    OneMore(s0, c, 0);
    if final {
      FinishMoves(t, c, name, route);
      AloneLater(s0, c, 1, 2);
    }
  }

  /** A payload ends its route when it decodes and has one of four tags. */
  lemma LastIs(payload: Blob)
    ensures IsLast(payload) <==> Codec.DecodePayload(payload).Ok? && payload[0] in [3, 4, 18, 31]
  {
    hide Codec.DecodePayload;
    if Codec.DecodePayload(payload).Ok? {
      WireLayout.FinalTags(payload);
    } else {
      RefusedIsNotLast(payload);
    }
  }

  lemma RefusedIsNotLast(payload: Blob)
    requires Codec.DecodePayload(payload).Err?
    ensures !IsLast(payload)
  {
    hide Codec.DecodePayload;
  }

  lemma ResultMoves(s: Server, c: Conn, route: RouteId, payload: Blob)
    requires PcOf(s, c).AgentIdle? && route in s.routes
    ensures Step(s, c, Result(route, payload)) ==
            Goto(s, c, Forward(PcOf(s, c).name, route, s.routes[route], IsLast(payload)))
  {
    hide CtrlSection, AgentSection, Greet, Goto, IsLast;
  }

  lemma FinishMoves(s: Server, c: Conn, name: string, route: RouteId)
    requires route in s.routes
    ensures Alone(Goto(s, c, Finish(name, route)), c, 2) == Goto(Without(s, route), c, AgentIdle(name))
  {
    hide Step;
    var key := Key(s.routes[route].ctrl, s.routes[route].req);
    var s1 := s.(routes := s.routes - {route});
    AgentAdvance(s, c, Finish(name, route), true);
    GotoTwice(s1, c, Finish(name, route), FinishUnbind(name, key));
    AgentAdvance(s1, c, FinishUnbind(name, key), true);
    GotoTwice(Without(s, route), c, FinishUnbind(name, key), AgentIdle(name));
    OneMore(Goto(s, c, Finish(name, route)), c, 0);
    OneMore(Goto(s, c, Finish(name, route)), c, 1);
  }

  /** A sweep removes exactly the routes of its controller, or of its agent's
      name, and the thread is then to clear exactly their bindings. */
  lemma SweepsAreExact(s: Server, c: Conn, sendOk: bool)
    requires PcOf(s, c).CtrlSweep? || PcOf(s, c).AgentSweep?
    ensures var pc := PcOf(s, c); var t := Step(s, c, Advance(sendOk));
      && t.byReq == s.byReq && PcOf(t, c).SweepUnbind?
      && (forall r :: r in t.routes ==> r in s.routes && t.routes[r] == s.routes[r])
      && (forall r :: r in s.routes ==>
            var mine := if pc.CtrlSweep? then s.routes[r].ctrl == c else s.routes[r].agent == pc.name;
            (r !in t.routes <==> mine) && (mine ==> Key(s.routes[r].ctrl, s.routes[r].req) in PcOf(t, c).keys))
      && (forall k :: k in PcOf(t, c).keys ==>
            exists r :: r in s.routes && r !in t.routes && k == Key(s.routes[r].ctrl, s.routes[r].req))
  {
  }

  /** A name belongs to the connection that registered it until that very
      connection leaves; names are free and well formed when they are taken. */
  lemma NamesAreKept(s: Server, c: Conn, a: Act, name: string)
    ensures var t := Step(s, c, a);
      && (name in s.agents && !(PcOf(s, c) == AgentLeave(name) && s.agents[name] == c) ==>
            name in t.agents && t.agents[name] == s.agents[name])
      && (name in t.agents && name !in s.agents ==>
            PcOf(s, c).Fresh? && a == HelloAgent(name) && ValidName(name) && t.agents[name] == c)
  {
    hide CtrlSection, AgentSection, Greet, OfCtrlThread, Goto, PcOf, IsLast;
    GotoSameNames();
    var pc := PcOf(s, c);
    if pc.Fresh? {
      GreetKeepsNames(s, c, a, name);
    } else if a.Advance? {
      CtrlSameNames(s, c, pc, a.sendOk);
      AgentSameNames(s, c, pc, a.sendOk);
    }
  }

  lemma GotoSameNames()
    ensures forall s: Server, c, pc :: Goto(s, c, pc).agents == s.agents
  {
  }

  lemma GreetKeepsNames(s: Server, c: Conn, a: Act, name: string)
    ensures var t := Greet(s, c, a);
      && (name in s.agents ==> name in t.agents && t.agents[name] == s.agents[name])
      && (name in t.agents && name !in s.agents ==> a == HelloAgent(name) && ValidName(name) && t.agents[name] == c)
  {
    hide Goto, ValidName;
    GotoSameNames();
  }

  lemma CtrlSameNames(s: Server, c: Conn, pc: Pc, sendOk: bool)
    ensures CtrlSection(s, c, pc, sendOk).agents == s.agents
  {
    hide Goto, PickAgent, KeysOf, OfCtrl;
    GotoSameNames();
  }

  lemma AgentSameNames(s: Server, c: Conn, pc: Pc, sendOk: bool)
    ensures var t := AgentSection(s, c, pc, sendOk);
      t.agents == if pc.AgentLeave? && pc.name in s.agents && s.agents[pc.name] == c then s.agents - {pc.name}
                  else s.agents
  {
    hide KeysOf, OfAgent;
  }

  /** 1 to 128 letters, digits and a few marks. */
  predicate WellFormed(name: string)
  {
    1 <= |name| <= 128 && forall i :: 0 <= i < |name| ==> NameChar(name[i])
  }

  predicate NameChar(c: char)
  {
    'a' <= c <= 'z' || 'A' <= c <= 'Z' || '0' <= c <= '9' ||
    c == '.' || c == '_' || c == '-' || c == '@' || c == ':' || c == '+' || c == '~'
  }

  /** A connection becomes an agent exactly when its name is well formed and free;
      otherwise it is closed, and nothing else changes. */
  lemma JoiningIsExact(s: Server, c: Conn, name: string)
    requires PcOf(s, c).Fresh?
    ensures var t := Step(s, c, HelloAgent(name));
      if WellFormed(name) && name !in s.agents then
        t == Goto(s.(agents := s.agents[name := c], joined := s.joined[c := name]), c, AgentIdle(name))
      else t == Goto(s, c, Closed)
  {
    hide Goto, PcOf;
    assert ValidName(name) <==> WellFormed(name);
  }

  lemma {:induction false} NamesAreWellFormed(first: RouteId, moves: seq<Move>, name: string)
    requires name in Run(first, moves).agents
    ensures WellFormed(name)
  {
    hide Step, WellFormed;
    if moves != [] {
      var last := |moves| - 1;
      var s := Run(first, moves[..last]);
      NamesAreKept(s, moves[last].c, moves[last].a, name);
      if name in s.agents {
        NamesAreWellFormed(first, moves[..last], name);
      } else {
        ValidIsWellFormed(name);
      }
    }
  }

  lemma ValidIsWellFormed(name: string)
    ensures ValidName(name) <==> WellFormed(name)
  {
  }
}
