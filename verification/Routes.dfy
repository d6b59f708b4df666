/** The relay server: route tables shared by one thread per connection.  Each
    critical section, and each frame handed to a connection, is one step. */
module Routes {
  import opened Bytes
  import P = Payloads
  import Codec

  type Conn = nat
  type RouteId = nat
  type ReqId = nat

  /** `RouteEntry`: who asked, which agent serves, under which request id. */
  datatype Route = Route(ctrl: Conn, agent: string, req: ReqId)

  datatype Key = Key(ctrl: Conn, req: ReqId)

  /** Where a connection thread stands between two steps. */
  datatype Pc =
    | Fresh
    // a controller's thread
    | CtrlIdle
    | LookUp(req: ReqId, target: string)
    | Found(req: ReqId, target: string, route: RouteId)
    | Continue(req: ReqId, route: RouteId, name: string)
    | Deliver(req: ReqId, route: RouteId, name: string, to: Conn)
    | Choose(req: ReqId, target: string)
    | Chosen(req: ReqId, name: string)
    | Allocate(req: ReqId, name: string, to: Conn)
    | Insert(req: ReqId, name: string, to: Conn, route: RouteId)
    | Bind(req: ReqId, name: string, to: Conn, route: RouteId)
    | Drop(route: RouteId)
    | Unbind(key: Key)
    | CtrlSweep
    // an agent's thread
    | AgentIdle(name: string)
    | Forward(name: string, route: RouteId, entry: Route, final: bool)
    | Finish(name: string, route: RouteId)
    | FinishUnbind(name: string, key: Key)
    | AgentLeave(name: string)
    | AgentSweep(name: string)
    // both
    | SweepUnbind(keys: set<Key>)
    | Closed

  /** What the server did, oldest first. */
  datatype Event =
    | Delivered(route: RouteId, ctrl: Conn, req: ReqId, to: Conn)
    | Forwarded(route: RouteId, via: Conn, to: Conn, final: bool)

  /** The shared state, the threads, and four histories: the routes created, the
      name each agent connection registered under, the routes that were already
      gone when their binding was inserted, the frames sent. */
  datatype Server = Server(
    agents: map<string, Conn>,
    routes: map<RouteId, Route>,
    byReq: map<Key, RouteId>,
    nextRoute: RouteId,
    threads: map<Conn, Pc>,
    created: map<RouteId, Route>,
    joined: map<Conn, string>,
    late: set<RouteId>,
    log: seq<Event>)

  /** Route ids count up from `first`, which the clock chooses. */
  function Start(first: RouteId): Server
  {
    Server(map[], map[], map[], first, map[], map[], map[], {}, [])
  }

  /** What a thread's environment decides. */
  datatype Act =
    | HelloAgent(name: string)
    | HelloCtrl
    | Request(req: ReqId, target: string)
    | Result(route: RouteId, payload: Blob)
    | HangUp
    | Advance(sendOk: bool)
    | UnbindOne(key: Key)

  function PcOf(s: Server, c: Conn): Pc
  {
    if c in s.threads then s.threads[c] else Fresh
  }

  function Goto(s: Server, c: Conn, pc: Pc): Server
  {
    s.(threads := s.threads[c := pc])
  }

  /** Routes of a controller, or of an agent name. */
  function OfCtrl(routes: map<RouteId, Route>, c: Conn): set<RouteId>
  {
    set r | r in routes && routes[r].ctrl == c
  }

  function OfAgent(routes: map<RouteId, Route>, name: string): set<RouteId>
  {
    set r | r in routes && routes[r].agent == name
  }

  function KeysOf(routes: map<RouteId, Route>, doomed: set<RouteId>): set<Key>
  {
    set r | r in doomed && r in routes :: Key(routes[r].ctrl, routes[r].req)
  }

  /** `choose_agent`: the named one, or the only one. */
  ghost function PickAgent(s: Server, target: string): Option<string>
  {
    if target != "" then
      if target in s.agents then Some(target) else None
    else if |s.agents| == 1 then
      assert s.agents.Keys != {};
      var name :| name in s.agents;
      Some(name)
    else None
  }

  /** Remove one route; `next` is where the thread goes to clear `by_req`. */
  function RemoveRoute(s: Server, c: Conn, route: RouteId, gone: Pc, next: Key -> Pc): Server
  {
    if route in s.routes then
      Goto(s.(routes := s.routes - {route}), c, next(Key(s.routes[route].ctrl, s.routes[route].req)))
    else
      Goto(s, c, gone)
  }

  function Sweep(s: Server, c: Conn, doomed: set<RouteId>): Server
  {
    Goto(s.(routes := s.routes - doomed), c, SweepUnbind(KeysOf(s.routes, doomed)))
  }

  /** The payload an agent sends last for a route; what does not decode is not. */
  predicate IsLast(payload: Blob)
  {
    var p := Codec.DecodePayload(payload);
    p.Ok? && p.value.IsFinal()
  }

  /** One step of thread `c`. */
  ghost function Step(s: Server, c: Conn, a: Act): Server
  {
    var pc := PcOf(s, c);
    if pc.Fresh? then Greet(s, c, a)
    else if pc.CtrlIdle? then
      if a.Request? then Goto(s, c, LookUp(a.req, a.target))
      else if a.HangUp? then Goto(s, c, CtrlSweep)
      else s
    else if pc.AgentIdle? then
      if a.Result? then
        if a.route in s.routes then Goto(s, c, Forward(pc.name, a.route, s.routes[a.route], IsLast(a.payload))) else s
      else if a.HangUp? then Goto(s, c, AgentLeave(pc.name))
      else s
    else if pc.SweepUnbind? then
      if a.UnbindOne? then
        if a.key in pc.keys then Goto(s.(byReq := s.byReq - {a.key}), c, SweepUnbind(pc.keys - {a.key})) else s
      else if a.Advance? && pc.keys == {} then Goto(s, c, Closed)
      else s
    else if a.Advance? then
      if OfCtrlThread(pc) then CtrlSection(s, c, pc, a.sendOk) else AgentSection(s, c, pc, a.sendOk)
    else s
  }

  predicate ValidName(name: string)
  {
    0 < |name| <= 128 &&
    forall i :: 0 <= i < |name| ==>
      var b := name[i]; 'a' <= b <= 'z' || 'A' <= b <= 'Z' || '0' <= b <= '9' || b in "._-@:+~"
  }

  /** Registration: an agent's name must be well formed and free. */
  function Greet(s: Server, c: Conn, a: Act): Server
  {
    if a.HelloAgent? then
      if a.name in s.agents || !ValidName(a.name) then Goto(s, c, Closed)
      else Goto(s.(agents := s.agents[a.name := c], joined := s.joined[c := a.name]), c, AgentIdle(a.name))
    else if a.HelloCtrl? then Goto(s, c, CtrlIdle)
    else s
  }

  predicate OfCtrlThread(pc: Pc)
  {
    pc.LookUp? || pc.Found? || pc.Continue? || pc.Deliver? || pc.Choose? || pc.Chosen? || pc.Allocate? ||
    pc.Insert? || pc.Bind? || pc.Drop? || pc.Unbind? || pc.CtrlSweep?
  }

  /** The critical section or send a controller's thread stands before. */
  ghost function CtrlSection(s: Server, c: Conn, pc: Pc, sendOk: bool): Server
  {
    match pc
    case LookUp(req, target) =>
      Goto(s, c, if Key(c, req) in s.byReq then Found(req, target, s.byReq[Key(c, req)]) else Choose(req, target))
    case Found(req, target, route) =>
      Goto(s, c, if route in s.routes then Continue(req, route, s.routes[route].agent) else Choose(req, target))
    case Continue(req, route, name) =>
      Goto(s, c, if name in s.agents then Deliver(req, route, name, s.agents[name]) else Drop(route))
    case Deliver(req, route, name, to) =>
      if sendOk then Goto(s.(log := s.log + [Delivered(route, c, req, to)]), c, CtrlIdle)
      else Goto(s, c, Drop(route))
    case Choose(req, target) =>
      var p := PickAgent(s, target);
      Goto(s, c, if p.Some? then Chosen(req, p.value) else CtrlIdle)
    case Chosen(req, name) =>
      Goto(s, c, if name in s.agents then Allocate(req, name, s.agents[name]) else CtrlIdle)
    case Allocate(req, name, to) =>
      Goto(s.(nextRoute := s.nextRoute + 1), c, Insert(req, name, to, s.nextRoute))
    case Insert(req, name, to, route) =>
      var r := Route(c, name, req);
      Goto(s.(routes := s.routes[route := r], created := s.created[route := r]), c, Bind(req, name, to, route))
    case Bind(req, name, to, route) =>
      var late := if route in s.routes then {} else {route};
      Goto(s.(byReq := s.byReq[Key(c, req) := route], late := s.late + late), c, Deliver(req, route, name, to))
    case Drop(route) => RemoveRoute(s, c, route, CtrlIdle, k => Unbind(k))
    case Unbind(key) => Goto(s.(byReq := s.byReq - {key}), c, CtrlIdle)
    case CtrlSweep => Sweep(s, c, OfCtrl(s.routes, c))
    case _ => s
  }

  /** The critical section or send an agent's thread stands before. */
  function AgentSection(s: Server, c: Conn, pc: Pc, sendOk: bool): Server
  {
    match pc
    case Forward(name, route, entry, final) =>
      var s' := if sendOk then s.(log := s.log + [Forwarded(route, c, entry.ctrl, final)]) else s;
      Goto(s', c, if final then Finish(name, route) else AgentIdle(name))
    case Finish(name, route) => RemoveRoute(s, c, route, AgentIdle(name), k => FinishUnbind(name, k))
    case FinishUnbind(name, key) => Goto(s.(byReq := s.byReq - {key}), c, AgentIdle(name))
    case AgentLeave(name) =>
      var s' := if name in s.agents && s.agents[name] == c then s.(agents := s.agents - {name}) else s;
      Goto(s', c, AgentSweep(name))
    case AgentSweep(name) => Sweep(s, c, OfAgent(s.routes, name))
    case _ => s
  }

  /** A run: which thread moved, and what its environment decided. */
  datatype Move = Move(c: Conn, a: Act)

  ghost function Run(first: RouteId, moves: seq<Move>): Server
  {
    if moves == [] then Start(first)
    else var last := |moves| - 1; Step(Run(first, moves[..last]), moves[last].c, moves[last].a)
  }

  // -------------------------------------------------------------- invariant

  /** `to` is a connection that registered under `name`. */
  predicate Joined(s: Server, to: Conn, name: string)
  {
    to in s.joined && s.joined[to] == name
  }

  predicate Made(s: Server, route: RouteId, entry: Route)
  {
    route in s.created && s.created[route] == entry
  }

  /** A thread's local variables agree with the routes that were created. */
  predicate PcOk(s: Server, c: Conn, pc: Pc)
  {
    match pc
    case Found(req, _, route) =>
      route in s.created && s.created[route].ctrl == c && s.created[route].req == req
    case Continue(req, route, name) => Made(s, route, Route(c, name, req))
    case Deliver(req, route, name, to) => Made(s, route, Route(c, name, req)) && Joined(s, to, name)
    case Allocate(_, name, to) => Joined(s, to, name)
    case Insert(_, name, to, route) => route < s.nextRoute && route !in s.created && Joined(s, to, name)
    case Bind(req, name, to, route) => Made(s, route, Route(c, name, req)) && Joined(s, to, name)
    case Forward(_, route, entry, _) => Made(s, route, entry)
    case Finish(_, route) => route in s.created
    case _ => true
  }

  /** A controller's thread that has not swept its routes yet. */
  predicate Serving(pc: Pc)
  {
    pc.CtrlIdle? || OfCtrlThread(pc)
  }

  /** The final payload of `r` went out: the thread is about to remove the
      route, or the route is gone and the thread no longer holds its entry. */
  predicate Settled(s: Server, c: Conn, r: RouteId)
  {
    r in s.created &&
    var pc := PcOf(s, c);
    (pc.Finish? && pc.route == r) || (r !in s.routes && !(pc.Forward? && pc.route == r))
  }

  predicate TablesOk(s: Server)
  {
    && (forall r :: r in s.routes ==> Made(s, r, s.routes[r]))
    && (forall r :: r in s.created ==> r < s.nextRoute)
    && (forall k :: k in s.byReq ==>
          s.byReq[k] in s.created && s.created[s.byReq[k]].ctrl == k.ctrl && s.created[s.byReq[k]].req == k.req)
    && (forall n :: n in s.agents ==> Joined(s, s.agents[n], n))
    && (forall c :: c in s.joined ==> !PcOf(s, c).Fresh?)
  }

  ghost predicate ThreadsOk(s: Server)
  {
    && (forall c :: PcOk(s, c, PcOf(s, c)))
    && (forall c, d :: c != d && PcOf(s, c).Insert? && PcOf(s, d).Insert? ==> PcOf(s, c).route != PcOf(s, d).route)
    && (forall r :: r in s.routes ==> Serving(PcOf(s, s.routes[r].ctrl)))
  }

  predicate EventOk(s: Server, e: Event)
  {
    match e
    case Delivered(route, ctrl, req, to) =>
      to in s.joined && Made(s, route, Route(ctrl, s.joined[to], req))
    case Forwarded(route, via, to, final) =>
      route in s.created && s.created[route].ctrl == to && (final ==> Settled(s, via, route))
  }

  predicate IsForward(e: Event, via: Conn, route: RouteId)
  {
    e.Forwarded? && e.via == via && e.route == route
  }

  /** Thread `via` has forwarded the last payload of `route`. */
  predicate Finished(log: seq<Event>, via: Conn, route: RouteId)
  {
    exists k :: 0 <= k < |log| && IsForward(log[k], via, route) && log[k].final
  }

  predicate LogOk(s: Server)
  {
    && (forall k :: 0 <= k < |s.log| ==> EventOk(s, s.log[k]))
    && (forall k, l :: 0 <= k < l < |s.log| && s.log[k].Forwarded? && s.log[k].final ==>
                         !IsForward(s.log[l], s.log[k].via, s.log[k].route))
  }

  ghost predicate Inv(s: Server)
  {
    TablesOk(s) && ThreadsOk(s) && LogOk(s)
  }

  lemma StartIsFine(first: RouteId)
    ensures Inv(Start(first))
  {
    forall c ensures PcOf(Start(first), c) == Fresh {}
  }

  // ------------------------------------------------- what each change keeps

  /** Thread `c` may move on to `pc`. */
  ghost predicate CanGo(s: Server, c: Conn, pc: Pc)
  {
    && PcOk(s, c, pc)
    && !pc.Fresh?
    && (pc.Insert? ==> forall d :: d != c && PcOf(s, d).Insert? ==> PcOf(s, d).route != pc.route)
    && (Serving(PcOf(s, c)) && !Serving(pc) ==> forall r :: r in s.routes ==> s.routes[r].ctrl != c)
    && (PcOf(s, c).Finish? ==> PcOf(s, c).route !in s.routes)
    && (pc.Forward? ==> pc.route in s.routes)
  }

  lemma GotoKeepsTables(s: Server, c: Conn, pc: Pc)
    requires Inv(s) && CanGo(s, c, pc)
    ensures TablesOk(Goto(s, c, pc))
  {
    hide PcOk, ThreadsOk, LogOk;
    var s' := Goto(s, c, pc);
    assert forall d :: PcOf(s', d) == if d == c then pc else PcOf(s, d);
  }

  lemma GotoKeepsThreads(s: Server, c: Conn, pc: Pc)
    requires Inv(s) && CanGo(s, c, pc)
    ensures ThreadsOk(Goto(s, c, pc))
  {
    hide TablesOk, LogOk;
    var s' := Goto(s, c, pc);
    assert forall d :: PcOf(s', d) == if d == c then pc else PcOf(s, d);
    assert forall d, p :: PcOk(s, d, p) ==> PcOk(s', d, p);
  }

  lemma GotoKeepsLog(s: Server, c: Conn, pc: Pc)
    requires Inv(s) && CanGo(s, c, pc)
    ensures LogOk(Goto(s, c, pc))
  {
    hide PcOk, ThreadsOk, TablesOk, Serving;
    var s' := Goto(s, c, pc);
    assert forall d :: PcOf(s', d) == if d == c then pc else PcOf(s, d);
    assert forall d, r :: Settled(s, d, r) ==> Settled(s', d, r);
    assert forall e :: EventOk(s, e) ==> EventOk(s', e);
  }

  lemma GotoKeeps(s: Server, c: Conn, pc: Pc)
    requires Inv(s) && CanGo(s, c, pc)
    ensures Inv(Goto(s, c, pc))
  {
    hide *;
    assert Inv(Goto(s, c, pc)) by {
      GotoKeepsTables(s, c, pc);
      GotoKeepsThreads(s, c, pc);
      GotoKeepsLog(s, c, pc);
      Whole(Goto(s, c, pc));
    }
  }

  lemma Whole(s: Server)
    ensures Inv(s) <==> TablesOk(s) && ThreadsOk(s) && LogOk(s)
  {}

  /** The history stands while no route comes back. */
  lemma SameHistory(s: Server, t: Server)
    requires t.threads == s.threads && t.created == s.created && t.joined == s.joined && t.log == s.log
    requires t.routes.Keys <= s.routes.Keys
    ensures LogOk(s) ==> LogOk(t)
  {
    assert forall d :: PcOf(t, d) == PcOf(s, d);
    assert forall d, r :: Settled(s, d, r) ==> Settled(t, d, r);
    assert forall e :: EventOk(s, e) ==> EventOk(t, e);
  }

  /** So do the threads' locals. */
  lemma SameThreads(s: Server, t: Server)
    requires t.threads == s.threads && t.created == s.created && t.joined == s.joined && t.nextRoute == s.nextRoute
    requires t.routes.Keys <= s.routes.Keys && forall r :: r in t.routes ==> t.routes[r] == s.routes[r]
    ensures ThreadsOk(s) ==> ThreadsOk(t)
  {
    hide Serving;
    assert forall d :: PcOf(t, d) == PcOf(s, d);
    assert forall d, p :: PcOk(s, d, p) ==> PcOk(t, d, p);
  }

  lemma DroppingKeeps(s: Server, gone: set<RouteId>)
    requires Inv(s)
    ensures Inv(s.(routes := s.routes - gone))
  {
    hide LogOk, ThreadsOk;
    var s' := s.(routes := s.routes - gone);
    assert forall d :: PcOf(s', d) == PcOf(s, d);
    SameThreads(s, s');
    SameHistory(s, s');
  }

  lemma BindingKeeps(s: Server, byReq: map<Key, RouteId>)
    requires Inv(s)
    requires forall k :: k in byReq ==>
      (k in s.byReq && s.byReq[k] == byReq[k]) ||
      (byReq[k] in s.created && s.created[byReq[k]].ctrl == k.ctrl && s.created[byReq[k]].req == k.req)
    ensures Inv(s.(byReq := byReq))
  {
    hide LogOk, ThreadsOk;
    var s' := s.(byReq := byReq);
    assert forall d :: PcOf(s', d) == PcOf(s, d);
    SameThreads(s, s');
    SameHistory(s, s');
  }

  lemma LateKeeps(s: Server, late: set<RouteId>)
    requires Inv(s)
    ensures Inv(s.(late := late))
  {
    hide LogOk, ThreadsOk;
    var s' := s.(late := late);
    assert forall d :: PcOf(s', d) == PcOf(s, d);
    SameThreads(s, s');
    SameHistory(s, s');
  }

  lemma CountingKeeps(s: Server)
    requires Inv(s)
    ensures Inv(s.(nextRoute := s.nextRoute + 1))
  {
    hide LogOk;
    var s' := s.(nextRoute := s.nextRoute + 1);
    assert forall d :: PcOf(s', d) == PcOf(s, d);
    assert forall d, p :: PcOk(s, d, p) ==> PcOk(s', d, p);
    SameHistory(s, s');
  }

  lemma LeavingKeeps(s: Server, name: string)
    requires Inv(s)
    ensures Inv(s.(agents := s.agents - {name}))
  {
    hide LogOk, ThreadsOk;
    var s' := s.(agents := s.agents - {name});
    assert forall d :: PcOf(s', d) == PcOf(s, d);
    SameThreads(s, s');
    SameHistory(s, s');
  }

  lemma JoiningKeeps(s: Server, name: string, c: Conn)
    requires Inv(s) && c !in s.joined && !PcOf(s, c).Fresh?
    ensures Inv(s.(agents := s.agents[name := c], joined := s.joined[c := name]))
  {
    hide LogOk, ThreadsOk;
    JoiningKeepsThreads(s, name, c);
    JoiningKeepsLog(s, name, c);
    var s' := s.(agents := s.agents[name := c], joined := s.joined[c := name]);
    assert forall d :: PcOf(s', d) == PcOf(s, d);
  }

  lemma JoiningKeepsThreads(s: Server, name: string, c: Conn)
    requires ThreadsOk(s) && c !in s.joined
    ensures ThreadsOk(s.(agents := s.agents[name := c], joined := s.joined[c := name]))
  {
    var s' := s.(agents := s.agents[name := c], joined := s.joined[c := name]);
    assert forall d :: PcOf(s', d) == PcOf(s, d);
    assert forall d, p :: PcOk(s, d, p) ==> PcOk(s', d, p);
  }

  lemma JoiningKeepsLog(s: Server, name: string, c: Conn)
    requires LogOk(s) && c !in s.joined
    ensures LogOk(s.(agents := s.agents[name := c], joined := s.joined[c := name]))
  {
    var s' := s.(agents := s.agents[name := c], joined := s.joined[c := name]);
    assert forall d :: PcOf(s', d) == PcOf(s, d);
    assert forall d, r :: Settled(s, d, r) ==> Settled(s', d, r);
    assert forall e :: EventOk(s, e) ==> EventOk(s', e);
  }

  /** A new route: its number is fresh and its controller is still serving. */
  lemma CreatingKeeps(s: Server, route: RouteId, entry: Route)
    requires Inv(s) && route < s.nextRoute && route !in s.created && Serving(PcOf(s, entry.ctrl))
    requires forall d :: PcOf(s, d).Insert? ==> PcOf(s, d).route != route
    ensures Inv(s.(routes := s.routes[route := entry], created := s.created[route := entry]))
  {
    hide *;
    Whole(s);
    CreatingKeepsTables(s, route, entry);
    CreatingKeepsThreads(s, route, entry);
    CreatingKeepsLog(s, route, entry);
    Whole(s.(routes := s.routes[route := entry], created := s.created[route := entry]));
  }

  lemma CreatingKeepsTables(s: Server, route: RouteId, entry: Route)
    requires TablesOk(s) && route < s.nextRoute && route !in s.created
    ensures TablesOk(s.(routes := s.routes[route := entry], created := s.created[route := entry]))
  {
    var s' := s.(routes := s.routes[route := entry], created := s.created[route := entry]);
    assert forall d :: PcOf(s', d) == PcOf(s, d);
  }

  lemma CreatingKeepsThreads(s: Server, route: RouteId, entry: Route)
    requires ThreadsOk(s) && route !in s.created && Serving(PcOf(s, entry.ctrl))
    requires forall d :: PcOf(s, d).Insert? ==> PcOf(s, d).route != route
    ensures ThreadsOk(s.(routes := s.routes[route := entry], created := s.created[route := entry]))
  {
    hide Serving, Joined;
    var s' := s.(routes := s.routes[route := entry], created := s.created[route := entry]);
    assert forall d :: PcOf(s', d) == PcOf(s, d);
    assert forall d :: PcOk(s, d, PcOf(s, d)) ==> PcOk(s', d, PcOf(s', d)) by {
      forall d, n | Joined(s, d, n) ensures Joined(s', d, n) { JoinedSame(s, s', d, n); }
    }
  }

  lemma JoinedSame(s: Server, s': Server, to: Conn, name: string)
    requires s'.joined == s.joined
    ensures Joined(s, to, name) == Joined(s', to, name)
  {}

  lemma CreatingKeepsLog(s: Server, route: RouteId, entry: Route)
    requires LogOk(s) && route !in s.created
    ensures LogOk(s.(routes := s.routes[route := entry], created := s.created[route := entry]))
  {
    var s' := s.(routes := s.routes[route := entry], created := s.created[route := entry]);
    assert forall d :: PcOf(s', d) == PcOf(s, d);
    assert forall d, r :: Settled(s, d, r) ==> Settled(s', d, r);
    assert forall e :: EventOk(s, e) ==> EventOk(s', e);
  }

  /** One more frame sent. */
  lemma SendingKeeps(s: Server, e: Event)
    requires Inv(s) && EventOk(s, e)
    requires e.Forwarded? ==> !Finished(s.log, e.via, e.route)
    ensures Inv(s.(log := s.log + [e]))
  {
    hide LogOk, ThreadsOk, EventOk, Finished;
    var s' := s.(log := s.log + [e]);
    assert forall d :: PcOf(s', d) == PcOf(s, d);
    SameThreads(s, s');
    SendingKeepsLog(s, e);
  }

  lemma SendingKeepsLog(s: Server, e: Event)
    requires LogOk(s) && EventOk(s, e)
    requires e.Forwarded? ==> !Finished(s.log, e.via, e.route)
    ensures LogOk(s.(log := s.log + [e]))
  {
    var s' := s.(log := s.log + [e]);
    assert forall d :: PcOf(s', d) == PcOf(s, d);
    assert forall d, r :: Settled(s, d, r) ==> Settled(s', d, r);
    assert forall x :: EventOk(s, x) ==> EventOk(s', x);
  }

  // ---------------------------------------------------------- each step

  lemma GreetKeeps(s: Server, c: Conn, a: Act)
    requires Inv(s) && PcOf(s, c).Fresh?
    ensures Inv(Greet(s, c, a))
  {
    hide EventOk, LogOk, ThreadsOk, Settled;
    if a.HelloAgent? {
      if a.name in s.agents || !ValidName(a.name) {
        GotoKeeps(s, c, Closed);
      } else {
        GotoKeeps(s, c, AgentIdle(a.name));
        JoiningKeeps(Goto(s, c, AgentIdle(a.name)), a.name, c);
      }
    } else if a.HelloCtrl? {
      GotoKeeps(s, c, CtrlIdle);
    }
  }

  /** What the invariant says of one thread. */
  lemma ThreadFacts(s: Server, c: Conn)
    requires Inv(s)
    ensures PcOk(s, c, PcOf(s, c))
    ensures forall r :: r in s.routes ==> Made(s, r, s.routes[r])
    ensures forall r :: r in s.created ==> r < s.nextRoute
    ensures !Serving(PcOf(s, c)) ==> forall r :: r in s.routes ==> s.routes[r].ctrl != c
  {
    hide LogOk, Settled, EventOk;
  }

  /** From the look-up to the choice of an agent. */
  lemma LookUpKeeps(s: Server, c: Conn, sendOk: bool)
    requires Inv(s)
    requires var pc := PcOf(s, c); pc.LookUp? || pc.Found? || pc.Continue? || pc.Choose? || pc.Chosen?
    ensures Inv(CtrlSection(s, c, PcOf(s, c), sendOk))
  {
    hide LogOk, ThreadsOk, Settled, EventOk, PickAgent;
    ThreadFacts(s, c);
    var pc := PcOf(s, c);
    if pc.LookUp? {
      var key := Key(c, pc.req);
      GotoKeeps(s, c, if key in s.byReq then Found(pc.req, pc.target, s.byReq[key]) else Choose(pc.req, pc.target));
    } else if pc.Found? {
      GotoKeeps(s, c, if pc.route in s.routes then Continue(pc.req, pc.route, s.routes[pc.route].agent)
                      else Choose(pc.req, pc.target));
    } else if pc.Continue? {
      GotoKeeps(s, c, if pc.name in s.agents then Deliver(pc.req, pc.route, pc.name, s.agents[pc.name])
                      else Drop(pc.route));
    } else if pc.Choose? {
      var p := PickAgent(s, pc.target);
      GotoKeeps(s, c, if p.Some? then Chosen(pc.req, p.value) else CtrlIdle);
    } else {
      GotoKeeps(s, c, if pc.name in s.agents then Allocate(pc.req, pc.name, s.agents[pc.name]) else CtrlIdle);
    }
  }

  /** The next route number is nobody's yet. */
  lemma NextIsFresh(s: Server, c: Conn)
    requires Inv(s)
    ensures s.nextRoute !in s.created
    ensures forall d :: PcOf(s, d).Insert? ==> PcOf(s, d).route < s.nextRoute
    ensures PcOk(s, c, PcOf(s, c))
  {
    hide LogOk, Serving, Made;
    forall d | PcOf(s, d).Insert? ensures PcOf(s, d).route < s.nextRoute {
      assert PcOk(s, d, PcOf(s, d));
    }
  }

  lemma AllocateKeeps(s: Server, c: Conn)
    requires Inv(s) && PcOf(s, c).Allocate?
    ensures Inv(CtrlSection(s, c, PcOf(s, c), true))
  {
    hide Inv;
    NextIsFresh(s, c);
    var pc := PcOf(s, c);
    CountingKeeps(s);
    var s1 := s.(nextRoute := s.nextRoute + 1);
    assert forall d :: PcOf(s1, d) == PcOf(s, d);
    GotoKeeps(s1, c, Insert(pc.req, pc.name, pc.to, s.nextRoute));
  }

  /** No two threads are about to insert the same route. */
  lemma InsertFacts(s: Server, c: Conn)
    requires Inv(s) && PcOf(s, c).Insert?
    ensures PcOk(s, c, PcOf(s, c))
    ensures forall d :: d != c && PcOf(s, d).Insert? ==> PcOf(s, d).route != PcOf(s, c).route
  {
    hide LogOk, TablesOk, PcOk;
  }

  lemma InsertKeeps(s: Server, c: Conn)
    requires Inv(s) && PcOf(s, c).Insert?
    ensures Inv(CtrlSection(s, c, PcOf(s, c), true))
  {
    hide Inv;
    InsertFacts(s, c);
    var pc := PcOf(s, c);
    GotoKeeps(s, c, CtrlIdle);
    var s1 := Goto(s, c, CtrlIdle);
    assert forall d :: PcOf(s1, d) == if d == c then CtrlIdle else PcOf(s, d);
    var r := Route(c, pc.name, pc.req);
    CreatingKeeps(s1, pc.route, r);
    var s2 := s1.(routes := s.routes[pc.route := r], created := s.created[pc.route := r]);
    assert PcOf(s2, c) == CtrlIdle;
    var next := Bind(pc.req, pc.name, pc.to, pc.route);
    assert PcOk(s2, c, next);
    GotoKeeps(s2, c, next);
    assert Goto(s2, c, next).threads == s.threads[c := next];
  }

  lemma BindKeeps(s: Server, c: Conn)
    requires Inv(s) && PcOf(s, c).Bind?
    ensures Inv(CtrlSection(s, c, PcOf(s, c), true))
  {
    hide LogOk, ThreadsOk, Settled, EventOk;
    ThreadFacts(s, c);
    var pc := PcOf(s, c);
    var byReq := s.byReq[Key(c, pc.req) := pc.route];
    BindingKeeps(s, byReq);
    var late := if pc.route in s.routes then {} else {pc.route};
    LateKeeps(s.(byReq := byReq), s.late + late);
    GotoKeeps(s.(byReq := byReq, late := s.late + late), c, Deliver(pc.req, pc.route, pc.name, pc.to));
  }

  lemma DeliverKeeps(s: Server, c: Conn, sendOk: bool)
    requires Inv(s) && PcOf(s, c).Deliver?
    ensures Inv(CtrlSection(s, c, PcOf(s, c), sendOk))
  {
    hide LogOk, ThreadsOk, Settled;
    ThreadFacts(s, c);
    var pc := PcOf(s, c);
    if sendOk {
      var e := Delivered(pc.route, c, pc.req, pc.to);
      SendingKeeps(s, e);
      GotoKeeps(s.(log := s.log + [e]), c, CtrlIdle);
    } else {
      GotoKeeps(s, c, Drop(pc.route));
    }
  }

  lemma RemovalKeeps(s: Server, c: Conn, route: RouteId, gone: Pc, next: Key -> Pc)
    requires Inv(s)
    requires PcOf(s, c).Finish? ==> PcOf(s, c).route == route
    requires forall k :: CanGo(s, c, gone) ==> CanGo(s, c, next(k))
    requires PcOk(s, c, gone) && !gone.Fresh? && !gone.Insert? && !gone.Forward? && Serving(PcOf(s, c)) == Serving(gone)
    requires forall k :: PcOk(s, c, next(k)) && !next(k).Fresh? && !next(k).Insert? && !next(k).Forward?
                         && Serving(PcOf(s, c)) == Serving(next(k))
    ensures Inv(RemoveRoute(s, c, route, gone, next))
  {
    hide LogOk, ThreadsOk, Settled, EventOk, TablesOk;
    if route in s.routes {
      DroppingKeeps(s, {route});
      var s1 := s.(routes := s.routes - {route});
      var pc := next(Key(s.routes[route].ctrl, s.routes[route].req));
      assert PcOf(s1, c) == PcOf(s, c) && PcOk(s1, c, pc);
      GotoKeeps(s1, c, pc);
    } else {
      GotoKeeps(s, c, gone);
    }
  }

  lemma UnbindKeeps(s: Server, c: Conn, key: Key, pc: Pc)
    requires Inv(s) && CanGo(s, c, pc)
    ensures Inv(Goto(s.(byReq := s.byReq - {key}), c, pc))
  {
    hide LogOk, ThreadsOk, Settled, EventOk, TablesOk;
    BindingKeeps(s, s.byReq - {key});
    var s1 := s.(byReq := s.byReq - {key});
    assert forall d :: PcOf(s1, d) == PcOf(s, d);
    assert PcOk(s1, c, pc);
    GotoKeeps(s1, c, pc);
  }

  lemma SweepKeeps(s: Server, c: Conn, doomed: set<RouteId>)
    requires Inv(s)
    requires PcOf(s, c).CtrlSweep? || PcOf(s, c).AgentSweep?
    requires PcOf(s, c).CtrlSweep? ==> doomed == OfCtrl(s.routes, c)
    ensures Inv(Sweep(s, c, doomed))
  {
    hide LogOk, ThreadsOk, Settled, EventOk, TablesOk;
    ThreadFacts(s, c);
    DroppingKeeps(s, doomed);
    var s1 := s.(routes := s.routes - doomed);
    assert PcOf(s1, c) == PcOf(s, c);
    GotoKeeps(s1, c, SweepUnbind(KeysOf(s.routes, doomed)));
  }

  lemma CtrlSectionKeeps(s: Server, c: Conn, sendOk: bool)
    requires Inv(s) && OfCtrlThread(PcOf(s, c))
    ensures Inv(CtrlSection(s, c, PcOf(s, c), sendOk))
  {
    hide Inv, RemoveRoute, Sweep, PcOk, PickAgent;
    var pc := PcOf(s, c);
    match pc
    case Allocate(_, _, _) => AllocateKeeps(s, c);
    case Insert(_, _, _, _) => InsertKeeps(s, c);
    case Bind(_, _, _, _) => BindKeeps(s, c);
    case Deliver(_, _, _, _) => DeliverKeeps(s, c, sendOk);
    case Drop(route) => DropKeeps(s, c, sendOk);
    case Unbind(key) => UnbindCtrlKeeps(s, c, sendOk);
    case CtrlSweep => SweepKeeps(s, c, OfCtrl(s.routes, c));
    case _ => LookUpKeeps(s, c, sendOk);
  }

  lemma DropKeeps(s: Server, c: Conn, sendOk: bool)
    requires Inv(s) && PcOf(s, c).Drop?
    ensures Inv(CtrlSection(s, c, PcOf(s, c), sendOk))
  {
    hide Inv, RemoveRoute;
    RemovalKeeps(s, c, PcOf(s, c).route, CtrlIdle, k => Unbind(k));
  }

  lemma UnbindCtrlKeeps(s: Server, c: Conn, sendOk: bool)
    requires Inv(s) && PcOf(s, c).Unbind?
    ensures Inv(CtrlSection(s, c, PcOf(s, c), sendOk))
  {
    hide Inv;
    UnbindKeeps(s, c, PcOf(s, c).key, CtrlIdle);
  }

  /** A result for a route whose last payload this thread has sent is not
      forwarded: the thread no longer holds the entry. */
  lemma ForwardIsNew(s: Server, c: Conn)
    requires Inv(s) && PcOf(s, c).Forward?
    ensures !Finished(s.log, c, PcOf(s, c).route)
  {
    hide ThreadsOk, TablesOk;
    var route := PcOf(s, c).route;
    forall k | 0 <= k < |s.log| && IsForward(s.log[k], c, route)
      ensures !s.log[k].final
    {
      assert EventOk(s, s.log[k]);
    }
  }

  lemma ForwardKeeps(s: Server, c: Conn, sendOk: bool)
    requires Inv(s) && PcOf(s, c).Forward?
    ensures Inv(AgentSection(s, c, PcOf(s, c), sendOk))
  {
    hide LogOk, ThreadsOk, Finished, TablesOk;
    ThreadFacts(s, c);
    ForwardIsNew(s, c);
    var pc := PcOf(s, c);
    var next := if pc.final then Finish(pc.name, pc.route) else AgentIdle(pc.name);
    GotoKeeps(s, c, next);
    var s1 := Goto(s, c, next);
    assert PcOf(s1, c) == next;
    if sendOk {
      var e := Forwarded(pc.route, c, pc.entry.ctrl, pc.final);
      assert EventOk(s1, e);
      SendingKeeps(s1, e);
    }
  }

  lemma AgentSectionKeeps(s: Server, c: Conn, sendOk: bool)
    requires Inv(s)
    requires var pc := PcOf(s, c); pc.Forward? || pc.Finish? || pc.FinishUnbind? || pc.AgentLeave? || pc.AgentSweep?
    ensures Inv(AgentSection(s, c, PcOf(s, c), sendOk))
  {
    hide Inv, RemoveRoute, Sweep;
    var pc := PcOf(s, c);
    if pc.Forward? {
      ForwardKeeps(s, c, sendOk);
    } else if pc.Finish? {
      RemovalKeeps(s, c, pc.route, AgentIdle(pc.name), k => FinishUnbind(pc.name, k));
    } else if pc.FinishUnbind? {
      UnbindKeeps(s, c, pc.key, AgentIdle(pc.name));
    } else if pc.AgentLeave? {
      GotoKeeps(s, c, AgentSweep(pc.name));
      LeavingKeeps(Goto(s, c, AgentSweep(pc.name)), pc.name);
    } else {
      SweepKeeps(s, c, OfAgent(s.routes, pc.name));
    }
  }

  /** Every step keeps the invariant. */
  lemma StepKeeps(s: Server, c: Conn, a: Act)
    requires Inv(s)
    ensures Inv(Step(s, c, a))
  {
    hide LogOk, ThreadsOk, TablesOk, CtrlSection, AgentSection, Greet, Settled, EventOk;
    ThreadFacts(s, c);
    var pc := PcOf(s, c);
    if pc.Fresh? {
      GreetKeeps(s, c, a);
    } else if pc.CtrlIdle? {
      if a.Request? { GotoKeeps(s, c, LookUp(a.req, a.target)); } else if a.HangUp? { GotoKeeps(s, c, CtrlSweep); }
    } else if pc.AgentIdle? {
      if a.Result? && a.route in s.routes {
        GotoKeeps(s, c, Forward(pc.name, a.route, s.routes[a.route], IsLast(a.payload)));
      } else if a.HangUp? {
        GotoKeeps(s, c, AgentLeave(pc.name));
      }
    } else if pc.SweepUnbind? {
      if a.UnbindOne? && a.key in pc.keys {
        UnbindKeeps(s, c, a.key, SweepUnbind(pc.keys - {a.key}));
      } else if a.Advance? && pc.keys == {} {
        GotoKeeps(s, c, Closed);
      }
    } else if a.Advance? && OfCtrlThread(pc) {
      CtrlSectionKeeps(s, c, a.sendOk);
    } else if a.Advance? && !pc.Closed? {
      AgentSectionKeeps(s, c, a.sendOk);
    } else if a.Advance? {
      assert AgentSection(s, c, pc, a.sendOk) == s by { ClosedStays(s, c, a.sendOk); }
    }
  }

  lemma ClosedStays(s: Server, c: Conn, sendOk: bool)
    ensures AgentSection(s, c, Closed, sendOk) == s
  {}

  // ----------------------------------------------------------- whole runs

  lemma RunSnoc(first: RouteId, moves: seq<Move>, m: Move)
    ensures Run(first, moves + [m]) == Step(Run(first, moves), m.c, m.a)
  {
    hide Step;
    assert (moves + [m])[..|moves|] == moves;
  }

  lemma {:induction false} RunKeeps(first: RouteId, moves: seq<Move>)
    ensures Inv(Run(first, moves))
  {
    hide Inv, Step;
    if moves == [] {
      StartIsFine(first);
    } else {
      var last := |moves| - 1;
      RunKeeps(first, moves[..last]);
      StepKeeps(Run(first, moves[..last]), moves[last].c, moves[last].a);
    }
  }

  /** Routes, names and frames once recorded stay as they are. */
  predicate Grows(s: Server, t: Server)
  {
    && (forall r :: r in s.created ==> r in t.created && t.created[r] == s.created[r])
    && (forall c :: c in s.joined ==> c in t.joined && t.joined[c] == s.joined[c])
    && s.log <= t.log
  }

  /** What thread `c` alone can do in one step. */
  ghost predicate Confined(s: Server, t: Server, c: Conn)
  {
    && (forall d :: d != c ==> PcOf(t, d) == PcOf(s, d))
    && (t.created == s.created || (Inserts(s, c, t) && t.log == s.log))
    && (forall d :: d in s.joined && (d != c || !PcOf(s, c).Fresh?) ==> d in t.joined && t.joined[d] == s.joined[d])
    && s.log <= t.log
    && (Left(s, c) ==> Left(t, c))
  }

  /** The step that records a route: the thread is its controller's. */
  predicate Inserts(s: Server, c: Conn, t: Server)
  {
    var pc := PcOf(s, c);
    pc.Insert? && t.created == s.created[pc.route := Route(c, pc.name, pc.req)]
  }

  /** A thread that has left: neither fresh nor serving a controller. */
  predicate Left(s: Server, c: Conn)
  {
    !PcOf(s, c).Fresh? && !Serving(PcOf(s, c))
  }

  /** Changing tables other than `created`, sending, and moving on. */
  lemma GotoIsConfined(s: Server, t: Server, c: Conn, pc: Pc)
    requires t.threads == s.threads && t.created == s.created && s.log <= t.log
    requires t.joined == s.joined || (PcOf(s, c).Fresh? && exists n :: Joined(t, c, n) && t.joined == s.joined[c := n])
    requires Left(s, c) ==> !pc.Fresh? && !Serving(pc)
    ensures Confined(s, Goto(t, c, pc), c)
  {
    hide Serving, Inserts, Left;
    assert forall d :: PcOf(Goto(t, c, pc), d) == if d == c then pc else PcOf(s, d);
    LeftAfter(t, c, pc);
  }

  lemma LeftAfter(t: Server, c: Conn, pc: Pc)
    ensures Left(Goto(t, c, pc), c) <==> !pc.Fresh? && !Serving(pc)
  {}

  lemma StayIsConfined(s: Server, c: Conn)
    ensures Confined(s, s, c)
  {}

  lemma GreetIsConfined(s: Server, c: Conn, a: Act)
    requires PcOf(s, c).Fresh?
    ensures Confined(s, Greet(s, c, a), c)
  {
    hide Confined, Goto;
    StayIsConfined(s, c);
    if a.HelloAgent? {
      if a.name in s.agents || !ValidName(a.name) {
        GotoIsConfined(s, s, c, Closed);
      } else {
        var t := s.(agents := s.agents[a.name := c], joined := s.joined[c := a.name]);
        assert Joined(t, c, a.name);
        GotoIsConfined(s, t, c, AgentIdle(a.name));
      }
    } else if a.HelloCtrl? {
      GotoIsConfined(s, s, c, CtrlIdle);
    }
  }

  lemma RemoveIsConfined(s: Server, c: Conn, route: RouteId, gone: Pc, next: Key -> Pc)
    requires Left(s, c) ==> !gone.Fresh? && !Serving(gone)
    requires Left(s, c) ==> forall k :: !next(k).Fresh? && !Serving(next(k))
    ensures Confined(s, RemoveRoute(s, c, route, gone, next), c)
  {
    hide Confined, Goto, Left, Serving, PcOf;
    if route in s.routes {
      var pc := next(Key(s.routes[route].ctrl, s.routes[route].req));
      GotoIsConfined(s, s.(routes := s.routes - {route}), c, pc);
    } else {
      GotoIsConfined(s, s, c, gone);
    }
  }

  lemma SweepIsConfined(s: Server, c: Conn, doomed: set<RouteId>)
    ensures Confined(s, Sweep(s, c, doomed), c)
  {
    hide Confined, Goto, Left, PcOf, KeysOf;
    GotoIsConfined(s, s.(routes := s.routes - doomed), c, SweepUnbind(KeysOf(s.routes, doomed)));
  }

  lemma AgentSectionIsConfined(s: Server, c: Conn, sendOk: bool)
    requires !OfCtrlThread(PcOf(s, c)) && !PcOf(s, c).Fresh?
    ensures Confined(s, AgentSection(s, c, PcOf(s, c), sendOk), c)
  {
    hide Confined, Goto, Left, PcOf, Sweep, RemoveRoute;
    StayIsConfined(s, c);
    match PcOf(s, c)
    case Forward(name, route, entry, final) =>
      GotoIsConfined(s, if sendOk then s.(log := s.log + [Forwarded(route, c, entry.ctrl, final)]) else s, c,
                     if final then Finish(name, route) else AgentIdle(name));
    case Finish(name, route) => RemoveIsConfined(s, c, route, AgentIdle(name), k => FinishUnbind(name, k));
    case FinishUnbind(name, key) => GotoIsConfined(s, s.(byReq := s.byReq - {key}), c, AgentIdle(name));
    case AgentLeave(name) =>
      GotoIsConfined(s, if name in s.agents && s.agents[name] == c then s.(agents := s.agents - {name}) else s, c,
                     AgentSweep(name));
    case AgentSweep(name) => SweepIsConfined(s, c, OfAgent(s.routes, name));
    case _ =>
  }

  lemma InsertIsConfined(s: Server, c: Conn)
    requires PcOf(s, c).Insert?
    ensures Confined(s, CtrlSection(s, c, PcOf(s, c), true), c)
  {}

  lemma CtrlSectionIsConfined(s: Server, c: Conn, sendOk: bool)
    requires OfCtrlThread(PcOf(s, c))
    ensures Confined(s, CtrlSection(s, c, PcOf(s, c), sendOk), c)
  {
    hide Confined, Goto, PcOf, Sweep, RemoveRoute, PickAgent;
    var pc := PcOf(s, c);
    assert !Left(s, c);
    match pc
    case Insert(_, _, _, _) => InsertIsConfined(s, c);
    case CtrlSweep => SweepIsConfined(s, c, OfCtrl(s.routes, c));
    case Drop(route) => RemoveIsConfined(s, c, route, CtrlIdle, k => Unbind(k));
    case Unbind(key) => GotoIsConfined(s, s.(byReq := s.byReq - {key}), c, CtrlIdle);
    case Allocate(req, name, to) =>
      GotoIsConfined(s, s.(nextRoute := s.nextRoute + 1), c, Insert(req, name, to, s.nextRoute));
    case Bind(req, name, to, route) =>
      var late := if route in s.routes then {} else {route};
      GotoIsConfined(s, s.(byReq := s.byReq[Key(c, req) := route], late := s.late + late), c,
                     Deliver(req, route, name, to));
    case Deliver(req, route, name, to) =>
      GotoIsConfined(s, if sendOk then s.(log := s.log + [Delivered(route, c, req, to)]) else s, c,
                     if sendOk then CtrlIdle else Drop(route));
    case Choose(req, target) =>
      var p := PickAgent(s, target);
      GotoIsConfined(s, s, c, if p.Some? then Chosen(req, p.value) else CtrlIdle);
    case LookUp(req, target) =>
      GotoIsConfined(s, s, c, if Key(c, req) in s.byReq then Found(req, target, s.byReq[Key(c, req)])
                              else Choose(req, target));
    case Found(req, target, route) =>
      GotoIsConfined(s, s, c, if route in s.routes then Continue(req, route, s.routes[route].agent)
                              else Choose(req, target));
    case Continue(req, route, name) =>
      GotoIsConfined(s, s, c, if name in s.agents then Deliver(req, route, name, s.agents[name]) else Drop(route));
    case Chosen(req, name) =>
      GotoIsConfined(s, s, c, if name in s.agents then Allocate(req, name, s.agents[name]) else CtrlIdle);
  }

  lemma StepIsConfined(s: Server, c: Conn, a: Act)
    ensures Confined(s, Step(s, c, a), c)
  {
    hide Greet, AgentSection, CtrlSection, Confined, Goto;
    var pc := PcOf(s, c);
    StayIsConfined(s, c);
    if pc.Fresh? {
      GreetIsConfined(s, c, a);
    } else if pc.CtrlIdle? {
      GotoIsConfined(s, s, c, if a.Request? then LookUp(a.req, a.target) else CtrlSweep);
    } else if pc.AgentIdle? {
      if a.Result? && a.route in s.routes {
        GotoIsConfined(s, s, c, Forward(pc.name, a.route, s.routes[a.route], IsLast(a.payload)));
      } else {
        GotoIsConfined(s, s, c, AgentLeave(pc.name));
      }
    } else if pc.SweepUnbind? {
      if a.UnbindOne? {
        GotoIsConfined(s, s.(byReq := s.byReq - {a.key}), c, SweepUnbind(pc.keys - {a.key}));
      } else {
        GotoIsConfined(s, s, c, Closed);
      }
    } else if a.Advance? && OfCtrlThread(pc) {
      CtrlSectionIsConfined(s, c, a.sendOk);
    } else if a.Advance? {
      AgentSectionIsConfined(s, c, a.sendOk);
    }
  }

  lemma StepGrows(s: Server, c: Conn, a: Act)
    requires Inv(s)
    ensures Grows(s, Step(s, c, a))
  {
    hide Step, LogOk;
    StepIsConfined(s, c, a);
    assert PcOk(s, c, PcOf(s, c));
    assert c in s.joined ==> !PcOf(s, c).Fresh?;
  }

  lemma {:induction false} RunGrows(first: RouteId, moves: seq<Move>, more: seq<Move>)
    ensures Grows(Run(first, moves), Run(first, moves + more))
  {
    hide Step, Inv;
    if more == [] {
      assert moves + more == moves;
    } else {
      var last := |more| - 1;
      RunGrows(first, moves, more[..last]);
      RunKeeps(first, moves + more[..last]);
      StepGrows(Run(first, moves + more[..last]), more[last].c, more[last].a);
      RunSnoc(first, moves + more[..last], more[last]);
      assert moves + more == moves + more[..last] + [more[last]];
    }
  }

  /** A route is created only by the thread of the controller it names, for the
      request that thread is serving, and is never recorded twice. */
  lemma OnlyItsControllerCreates(s: Server, c: Conn, a: Act, r: RouteId)
    requires r in Step(s, c, a).created && r !in s.created
    ensures PcOf(s, c).Insert? && PcOf(s, c).route == r
    ensures Step(s, c, a).created[r] == Route(c, PcOf(s, c).name, PcOf(s, c).req)
    ensures Step(s, c, a).created == s.created[r := Step(s, c, a).created[r]]
  {
    hide Step;
    StepIsConfined(s, c, a);
  }

  /** In every interleaving: a binding leads to a route created by that
      controller for that request, so distinct keys never share a route. */
  lemma BindingsAreExact(first: RouteId, moves: seq<Move>, k: Key, l: Key)
    requires k in Run(first, moves).byReq
    ensures var s := Run(first, moves); var route := s.byReq[k];
      && route in s.created && s.created[route].ctrl == k.ctrl && s.created[route].req == k.req
      && (route in s.routes ==> s.routes[route] == s.created[route])
      && (l in s.byReq && l != k ==> s.byReq[l] != route)
  {
    hide Run, ThreadsOk, LogOk;
    RunKeeps(first, moves);
  }

  /** A result leaves only towards the controller that created the route. */
  lemma ResultsGoHome(first: RouteId, moves: seq<Move>, i: nat)
    requires i < |Run(first, moves).log| && Run(first, moves).log[i].Forwarded?
    ensures var s := Run(first, moves); var e := s.log[i];
      e.route in s.created && s.created[e.route].ctrl == e.to
  {
    hide Run, ThreadsOk, TablesOk, Settled;
    RunKeeps(first, moves);
    assert EventOk(Run(first, moves), Run(first, moves).log[i]);
  }

  /** Every frame delivered on a route, the first and all continuations, goes to
      a connection registered under the agent name chosen at creation, and
      carries the request the route was created for. */
  lemma ContinuationsStick(first: RouteId, moves: seq<Move>, i: nat)
    requires i < |Run(first, moves).log| && Run(first, moves).log[i].Delivered?
    ensures var s := Run(first, moves); var e := s.log[i];
      && e.route in s.created && s.created[e.route].ctrl == e.ctrl && s.created[e.route].req == e.req
      && e.to in s.joined && s.joined[e.to] == s.created[e.route].agent
  {
    hide Run, ThreadsOk, TablesOk, Settled;
    RunKeeps(first, moves);
    assert EventOk(Run(first, moves), Run(first, moves).log[i]);
  }

  /** Once an agent's thread has forwarded a final payload for a route, it
      forwards nothing more for it, however the run goes on. */
  lemma FinalIsLast(first: RouteId, moves: seq<Move>, more: seq<Move>, via: Conn, route: RouteId, i: nat)
    requires Finished(Run(first, moves).log, via, route)
    requires |Run(first, moves).log| <= i < |Run(first, moves + more).log|
    ensures !IsForward(Run(first, moves + more).log[i], via, route)
  {
    hide Run, ThreadsOk, TablesOk, EventOk;
    RunKeeps(first, moves + more);
    RunGrows(first, moves, more);
    var s, t := Run(first, moves), Run(first, moves + more);
    var k :| 0 <= k < |s.log| && IsForward(s.log[k], via, route) && s.log[k].final;
    assert s.log[k] == t.log[k];
  }

  lemma LeftStays(s: Server, c: Conn, d: Conn, a: Act)
    requires Left(s, c)
    ensures Left(Step(s, d, a), c)
  {
    hide Step;
    StepIsConfined(s, d, a);
  }

  lemma {:induction false} LeftForever(first: RouteId, moves: seq<Move>, c: Conn, more: seq<Move>)
    requires Left(Run(first, moves), c)
    ensures Left(Run(first, moves + more), c)
  {
    hide Step, Left;
    if more == [] {
      assert moves + more == moves;
    } else {
      var last := |more| - 1;
      LeftForever(first, moves, c, more[..last]);
      RunSnoc(first, moves + more[..last], more[last]);
      LeftStays(Run(first, moves + more[..last]), c, more[last].c, more[last].a);
      assert moves + more == moves + more[..last] + [more[last]];
    }
  }

  /** Once `cleanup_ctrl` has swept the routes of controller `c`, no later state
      contains a route of `c`. */
  lemma NoRouteAfterCleanup(first: RouteId, moves: seq<Move>, c: Conn, more: seq<Move>)
    requires PcOf(Run(first, moves), c).CtrlSweep?
    ensures OfCtrl(Run(first, moves + [Move(c, Advance(true))] + more).routes, c) == {}
  {
    hide Step, Run, Inv;
    var swept := moves + [Move(c, Advance(true))];
    RunSnoc(first, moves, Move(c, Advance(true)));
    SweepLeaves(Run(first, moves), c);
    LeftForever(first, swept, c, more);
    RunKeeps(first, swept + more);
    ThreadFacts(Run(first, swept + more), c);
  }

  lemma SweepLeaves(s: Server, c: Conn)
    requires PcOf(s, c).CtrlSweep?
    ensures Left(Step(s, c, Advance(true)), c)
  {}

  // ------------------------------------------------------ stale bindings

  /** This thread is going to clear the binding of `k`. */
  predicate Clears(pc: Pc, k: Key)
  {
    (pc.Unbind? && pc.key == k) || (pc.FinishUnbind? && pc.key == k) || (pc.SweepUnbind? && k in pc.keys)
  }

  /** A binding leads to a live route, or some thread is about to clear it, or
      its route was gone before it was inserted. */
  ghost predicate Tracked(s: Server)
  {
    forall k :: k in s.byReq ==>
      s.byReq[k] in s.routes || s.byReq[k] in s.late || exists c :: Clears(PcOf(s, c), k)
  }

  /** Thread `c` alone moved, and answers for every binding it leaves dead. */
  ghost predicate Tidy(s: Server, t: Server, c: Conn)
  {
    && (forall d :: d != c ==> PcOf(t, d) == PcOf(s, d))
    && s.late <= t.late
    && (forall k :: k in t.byReq ==>
          || t.byReq[k] in t.routes
          || t.byReq[k] in t.late
          || Clears(PcOf(t, c), k)
          || (k in s.byReq && t.byReq[k] == s.byReq[k] && s.byReq[k] !in s.routes && !Clears(PcOf(s, c), k)))
  }

  lemma TidyTracks(s: Server, t: Server, c: Conn)
    requires Tracked(s) && Tidy(s, t, c)
    ensures Tracked(t)
  {
    hide Clears;
    forall k | k in t.byReq && t.byReq[k] !in t.routes && t.byReq[k] !in t.late
      ensures exists d :: Clears(PcOf(t, d), k)
    {
      if !Clears(PcOf(t, c), k) {
        var d :| Clears(PcOf(s, d), k);
        assert Clears(PcOf(t, d), k);
      }
    }
  }

  /** No route and no binding goes, and the thread had nothing to clear. */
  lemma GotoIsTidy(s: Server, t: Server, c: Conn, pc: Pc)
    requires t.threads == s.threads && s.late <= t.late && s.routes.Keys <= t.routes.Keys
    requires forall k :: k in t.byReq ==>
      (k in s.byReq && t.byReq[k] == s.byReq[k]) || t.byReq[k] in t.routes || t.byReq[k] in t.late
    requires !PcOf(s, c).Unbind? && !PcOf(s, c).FinishUnbind? && (PcOf(s, c).SweepUnbind? ==> PcOf(s, c).keys == {})
    ensures Tidy(s, Goto(t, c, pc), c)
  {
    assert forall d :: PcOf(Goto(t, c, pc), d) == if d == c then pc else PcOf(s, d);
  }

  /** A removed route's key is the only one bound to it. */
  lemma RemovalIsTidy(s: Server, c: Conn, doomed: set<RouteId>, pc: Pc)
    requires TablesOk(s)
    requires !PcOf(s, c).Unbind? && !PcOf(s, c).FinishUnbind? && !PcOf(s, c).SweepUnbind?
    requires forall r :: r in doomed && r in s.routes ==> Clears(pc, Key(s.routes[r].ctrl, s.routes[r].req))
    ensures Tidy(s, Goto(s.(routes := s.routes - doomed), c, pc), c)
  {
    var t := Goto(s.(routes := s.routes - doomed), c, pc);
    assert forall d :: PcOf(t, d) == if d == c then pc else PcOf(s, d);
    forall k | k in t.byReq && s.byReq[k] in s.routes && s.byReq[k] in doomed
      ensures Clears(PcOf(t, c), k)
    {
      assert k == Key(s.routes[s.byReq[k]].ctrl, s.routes[s.byReq[k]].req);
    }
  }

  lemma RemoveRouteIsTidy(s: Server, c: Conn, route: RouteId, gone: Pc, next: Key -> Pc)
    requires TablesOk(s)
    requires !PcOf(s, c).Unbind? && !PcOf(s, c).FinishUnbind? && !PcOf(s, c).SweepUnbind?
    requires forall k :: Clears(next(k), k)
    ensures Tidy(s, RemoveRoute(s, c, route, gone, next), c)
  {
    hide Tidy, TablesOk, Clears, Goto, PcOf;
    if route in s.routes {
      RemovalIsTidy(s, c, {route}, next(Key(s.routes[route].ctrl, s.routes[route].req)));
    } else {
      GotoIsTidy(s, s, c, gone);
    }
  }

  lemma SweepIsTidy(s: Server, c: Conn, doomed: set<RouteId>)
    requires TablesOk(s)
    requires !PcOf(s, c).Unbind? && !PcOf(s, c).FinishUnbind? && !PcOf(s, c).SweepUnbind?
    ensures Tidy(s, Sweep(s, c, doomed), c)
  {
    hide Tidy, TablesOk, Goto, PcOf;
    RemovalIsTidy(s, c, doomed, SweepUnbind(KeysOf(s.routes, doomed)));
  }

  /** Clearing one binding; what else the thread clears stays to do. */
  lemma UnbindIsTidy(s: Server, c: Conn, key: Key, pc: Pc)
    requires forall k :: Clears(PcOf(s, c), k) && k != key ==> Clears(pc, k)
    ensures Tidy(s, Goto(s.(byReq := s.byReq - {key}), c, pc), c)
  {
    hide Clears;
    assert forall d :: PcOf(Goto(s.(byReq := s.byReq - {key}), c, pc), d) == if d == c then pc else PcOf(s, d);
  }

  lemma StayIsTidy(s: Server, c: Conn)
    ensures Tidy(s, s, c)
  {}

  lemma AgentSectionIsTidy(s: Server, c: Conn, sendOk: bool)
    requires TablesOk(s) && !OfCtrlThread(PcOf(s, c)) && !PcOf(s, c).SweepUnbind?
    ensures Tidy(s, AgentSection(s, c, PcOf(s, c), sendOk), c)
  {
    hide Tidy, Goto, PcOf, Sweep, RemoveRoute, TablesOk;
    StayIsTidy(s, c);
    match PcOf(s, c)
    case Forward(name, route, entry, final) =>
      GotoIsTidy(s, if sendOk then s.(log := s.log + [Forwarded(route, c, entry.ctrl, final)]) else s, c,
                 if final then Finish(name, route) else AgentIdle(name));
    case Finish(name, route) => RemoveRouteIsTidy(s, c, route, AgentIdle(name), k => FinishUnbind(name, k));
    case FinishUnbind(name, key) => UnbindIsTidy(s, c, key, AgentIdle(name));
    case AgentLeave(name) =>
      GotoIsTidy(s, if name in s.agents && s.agents[name] == c then s.(agents := s.agents - {name}) else s, c,
                 AgentSweep(name));
    case AgentSweep(name) => SweepIsTidy(s, c, OfAgent(s.routes, name));
    case _ =>
  }

  lemma CtrlSectionIsTidy(s: Server, c: Conn, sendOk: bool)
    requires TablesOk(s) && OfCtrlThread(PcOf(s, c))
    ensures Tidy(s, CtrlSection(s, c, PcOf(s, c), sendOk), c)
  {
    hide Tidy, Goto, PcOf, Sweep, RemoveRoute, PickAgent, TablesOk;
    var pc := PcOf(s, c);
    match pc
    case CtrlSweep => SweepIsTidy(s, c, OfCtrl(s.routes, c));
    case Drop(route) => RemoveRouteIsTidy(s, c, route, CtrlIdle, k => Unbind(k));
    case Unbind(key) => UnbindIsTidy(s, c, key, CtrlIdle);
    case Insert(req, name, to, route) =>
      var r := Route(c, name, req);
      GotoIsTidy(s, s.(routes := s.routes[route := r], created := s.created[route := r]), c,
                 Bind(req, name, to, route));
    case Allocate(req, name, to) =>
      GotoIsTidy(s, s.(nextRoute := s.nextRoute + 1), c, Insert(req, name, to, s.nextRoute));
    case Bind(req, name, to, route) =>
      var late := if route in s.routes then {} else {route};
      GotoIsTidy(s, s.(byReq := s.byReq[Key(c, req) := route], late := s.late + late), c,
                 Deliver(req, route, name, to));
    case Deliver(req, route, name, to) =>
      GotoIsTidy(s, if sendOk then s.(log := s.log + [Delivered(route, c, req, to)]) else s, c,
                 if sendOk then CtrlIdle else Drop(route));
    case Choose(req, target) =>
      var p := PickAgent(s, target);
      GotoIsTidy(s, s, c, if p.Some? then Chosen(req, p.value) else CtrlIdle);
    case LookUp(req, target) =>
      GotoIsTidy(s, s, c, if Key(c, req) in s.byReq then Found(req, target, s.byReq[Key(c, req)])
                          else Choose(req, target));
    case Found(req, target, route) =>
      GotoIsTidy(s, s, c, if route in s.routes then Continue(req, route, s.routes[route].agent)
                          else Choose(req, target));
    case Continue(req, route, name) =>
      GotoIsTidy(s, s, c, if name in s.agents then Deliver(req, route, name, s.agents[name]) else Drop(route));
    case Chosen(req, name) =>
      GotoIsTidy(s, s, c, if name in s.agents then Allocate(req, name, s.agents[name]) else CtrlIdle);
  }

  lemma StepIsTidy(s: Server, c: Conn, a: Act)
    requires TablesOk(s)
    ensures Tidy(s, Step(s, c, a), c)
  {
    hide AgentSection, CtrlSection, Tidy, Goto, TablesOk, ValidName, IsLast;
    var pc := PcOf(s, c);
    StayIsTidy(s, c);
    if pc.Fresh? {
      if a.HelloAgent? {
        GotoIsTidy(s, s, c, Closed);
        GotoIsTidy(s, s.(agents := s.agents[a.name := c], joined := s.joined[c := a.name]), c, AgentIdle(a.name));
      } else {
        GotoIsTidy(s, s, c, CtrlIdle);
      }
    } else if pc.CtrlIdle? {
      GotoIsTidy(s, s, c, if a.Request? then LookUp(a.req, a.target) else CtrlSweep);
    } else if pc.AgentIdle? {
      if a.Result? && a.route in s.routes {
        GotoIsTidy(s, s, c, Forward(pc.name, a.route, s.routes[a.route], IsLast(a.payload)));
      } else {
        GotoIsTidy(s, s, c, AgentLeave(pc.name));
      }
    } else if pc.SweepUnbind? {
      if a.UnbindOne? {
        UnbindIsTidy(s, c, a.key, SweepUnbind(pc.keys - {a.key}));
      } else if pc.keys == {} {
        GotoIsTidy(s, s, c, Closed);
      }
    } else if a.Advance? && OfCtrlThread(pc) {
      CtrlSectionIsTidy(s, c, a.sendOk);
    } else if a.Advance? {
      AgentSectionIsTidy(s, c, a.sendOk);
    }
  }

  lemma {:induction false} RunTracks(first: RouteId, moves: seq<Move>)
    ensures Tracked(Run(first, moves))
  {
    hide Inv, Step, Tracked;
    if moves == [] {
      StartTracks(first);
    } else {
      var last := |moves| - 1;
      var s := Run(first, moves[..last]);
      RunTracks(first, moves[..last]);
      RunKeeps(first, moves[..last]);
      assert TablesOk(s) by { Whole(s); }
      StepIsTidy(s, moves[last].c, moves[last].a);
      TidyTracks(s, Run(first, moves), moves[last].c);
    }
  }

  lemma StartTracks(first: RouteId)
    ensures Tracked(Start(first))
  {}

  /** A late route was created and is gone. */
  predicate LateOk(s: Server)
  {
    forall r :: r in s.late ==> r in s.created && r !in s.routes
  }

  /** No route comes up and none is found late. */
  predicate Shrinks(s: Server, t: Server)
  {
    t.routes.Keys <= s.routes.Keys && t.late == s.late
  }

  lemma AgentSectionShrinks(s: Server, c: Conn, pc: Pc, sendOk: bool)
    ensures Shrinks(s, AgentSection(s, c, pc, sendOk))
  {
    hide KeysOf, OfAgent;
  }

  lemma CtrlSectionShrinks(s: Server, c: Conn, pc: Pc, sendOk: bool)
    requires !pc.Insert? && !pc.Bind?
    ensures Shrinks(s, CtrlSection(s, c, pc, sendOk))
  {
    hide KeysOf, OfCtrl, PickAgent;
  }

  lemma GotoShrinks(s: Server, t: Server, c: Conn, pc: Pc)
    requires t.routes.Keys <= s.routes.Keys && t.late == s.late
    ensures Shrinks(s, Goto(t, c, pc))
  {
  }

  lemma GreetShrinks(s: Server, c: Conn, a: Act)
    ensures Shrinks(s, Greet(s, c, a))
  {
    hide ValidName;
  }

  lemma StepShrinks(s: Server, c: Conn, a: Act)
    requires !PcOf(s, c).Insert? && !PcOf(s, c).Bind?
    ensures Shrinks(s, Step(s, c, a))
  {
    hide AgentSection, CtrlSection, Greet, OfCtrlThread, Goto, IsLast;
    GreetShrinks(s, c, a);
    forall pc ensures Shrinks(s, Goto(s, c, pc)) { GotoShrinks(s, s, c, pc); }
    if a.Advance? {
      AgentSectionShrinks(s, c, PcOf(s, c), a.sendOk);
      CtrlSectionShrinks(s, c, PcOf(s, c), a.sendOk);
    } else if a.UnbindOne? && PcOf(s, c).SweepUnbind? {
      GotoShrinks(s, s.(byReq := s.byReq - {a.key}), c, SweepUnbind(PcOf(s, c).keys - {a.key}));
    }
  }

  /** The two steps that matter: an inserted route is new, and a route is found
      late only when it is gone. */
  lemma InsertsKeepLate(s: Server, c: Conn, sendOk: bool)
    requires LateOk(s) && PcOk(s, c, PcOf(s, c)) && (PcOf(s, c).Insert? || PcOf(s, c).Bind?)
    ensures LateOk(CtrlSection(s, c, PcOf(s, c), sendOk))
  {
  }

  lemma ShrinkingKeepsLate(s: Server, t: Server)
    requires LateOk(s) && Shrinks(s, t) && Grows(s, t)
    ensures LateOk(t)
  {
  }

  lemma StepKeepsLate(s: Server, c: Conn, a: Act)
    requires Inv(s) && LateOk(s)
    ensures LateOk(Step(s, c, a))
  {
    hide Inv, LateOk, Grows, AgentSection, CtrlSection, PcOk;
    if PcOf(s, c).Insert? || PcOf(s, c).Bind? {
      ThreadFacts(s, c);
      if a.Advance? {
        InsertsKeepLate(s, c, a.sendOk);
      }
    } else {
      StepShrinks(s, c, a);
      StepGrows(s, c, a);
      ShrinkingKeepsLate(s, Step(s, c, a));
    }
  }

  lemma {:induction false} RunKeepsLate(first: RouteId, moves: seq<Move>)
    ensures LateOk(Run(first, moves))
  {
    hide Inv, Step;
    if moves != [] {
      var last := |moves| - 1;
      var s := Run(first, moves[..last]);
      RunKeeps(first, moves[..last]);
      RunKeepsLate(first, moves[..last]);
      StepKeepsLate(s, moves[last].c, moves[last].a);
    }
  }

  /** When no thread is about to clear a binding, it is dead exactly when its
      route was removed between the two inserts of its creation. */
  lemma DeadIffLate(first: RouteId, moves: seq<Move>, k: Key)
    requires var s := Run(first, moves); k in s.byReq && forall c :: !Clears(PcOf(s, c), k)
    ensures var s := Run(first, moves); s.byReq[k] !in s.routes <==> s.byReq[k] in s.late
  {
    hide Run;
    RunTracks(first, moves);
    RunKeepsLate(first, moves);
  }

  // ------------------------------------------- what does not hold, by a run

  const KEY := Key(2, 7)
  const ROUTE := Route(2, "a", 7)
  const GO := Move(2, Advance(true))

  lemma Then(moves: seq<Move>, m: Move) returns (longer: seq<Move>)
    ensures Run(1, longer) == Step(Run(1, moves), m.c, m.a)
  {
    hide Step;
    longer := moves + [m];
    RunSnoc(1, moves, m);
  }

  /** Agent 1 is registered, controller 2 has no route yet. */
  function Asking(ctrl: Pc, next: RouteId): Server
  {
    Server(map["a" := 1], map[], map[], next, map[1 := AgentIdle("a"), 2 := ctrl], map[], map[1 := "a"], {}, [])
  }

  /** The route was created and not yet bound. */
  function Created(agents: map<string, Conn>, routes: map<RouteId, Route>, agent: Pc, ctrl: Pc): Server
  {
    Server(agents, routes, map[], 2, map[1 := agent, 2 := ctrl], map[1 := ROUTE], map[1 := "a"], {}, [])
  }

  /** The route is gone and bound. */
  function Stale(ctrl: Pc, log: seq<Event>): Server
  {
    Server(map[], map[], map[KEY := 1], 2, map[1 := Closed, 2 := ctrl], map[1 := ROUTE], map[1 := "a"], {1}, log)
  }

  /** Agent 1 registers as "a"; controller 2 asks for it. */
  lemma StaleAsk(moves: seq<Move>) returns (longer: seq<Move>)
    requires Run(1, moves) == Start(1)
    ensures Run(1, longer) == Asking(Choose(7, "a"), 1)
  {
    hide Run, Inv;
    longer := moves;
    longer := Then(longer, Move(1, HelloAgent("a")));
    assert Run(1, longer) ==
           Server(map["a" := 1], map[], map[], 1, map[1 := AgentIdle("a")], map[], map[1 := "a"], {}, []);
    longer := Then(longer, Move(2, HelloCtrl));
    assert Run(1, longer) == Asking(CtrlIdle, 1);
    longer := Then(longer, Move(2, Request(7, "a")));
    assert Run(1, longer) == Asking(LookUp(7, "a"), 1);
    longer := Then(longer, GO);
    assert Run(1, longer) == Asking(Choose(7, "a"), 1);
  }

  /** The agent is found. */
  lemma StaleChoose(moves: seq<Move>) returns (longer: seq<Move>)
    requires Run(1, moves) == Asking(Choose(7, "a"), 1)
    ensures Run(1, longer) == Asking(Allocate(7, "a", 1), 1)
  {
    hide Run, Inv;
    longer := moves;
    longer := Then(longer, GO);
    assert Run(1, longer) == Asking(Chosen(7, "a"), 1);
    longer := Then(longer, GO);
    assert Run(1, longer) == Asking(Allocate(7, "a", 1), 1);
  }

  /** The controller's thread creates the route and stands before its second insert. */
  lemma StaleCreate(moves: seq<Move>) returns (longer: seq<Move>)
    requires Run(1, moves) == Asking(Choose(7, "a"), 1)
    ensures Run(1, longer) == Created(map["a" := 1], map[1 := ROUTE], AgentIdle("a"), Bind(7, "a", 1, 1))
  {
    hide Run, Inv;
    longer := StaleChoose(moves);
    longer := Then(longer, GO);
    assert Run(1, longer) == Asking(Insert(7, "a", 1, 1), 2);
    longer := Then(longer, GO);
    assert Run(1, longer) == Created(map["a" := 1], map[1 := ROUTE], AgentIdle("a"), Bind(7, "a", 1, 1));
  }

  lemma OneRoute()
    ensures OfAgent(map[1 := ROUTE], "a") == {1}
    ensures KeysOf(map[1 := ROUTE], {1}) == {KEY}
  {
    assert 1 in OfAgent(map[1 := ROUTE], "a");
    assert Key(ROUTE.ctrl, ROUTE.req) in KeysOf(map[1 := ROUTE], {1});
  }

  /** Agent 1 hangs up; then it is no longer registered. */
  lemma StaleHangUp(moves: seq<Move>) returns (longer: seq<Move>)
    requires Run(1, moves) == Created(map["a" := 1], map[1 := ROUTE], AgentIdle("a"), Bind(7, "a", 1, 1))
    ensures Run(1, longer) == Created(map["a" := 1], map[1 := ROUTE], AgentLeave("a"), Bind(7, "a", 1, 1))
  {
    hide Run, Inv;
    longer := Then(moves, Move(1, HangUp));
  }

  lemma StaleLeave(moves: seq<Move>) returns (longer: seq<Move>)
    requires Run(1, moves) == Created(map["a" := 1], map[1 := ROUTE], AgentLeave("a"), Bind(7, "a", 1, 1))
    ensures Run(1, longer) == Created(map[], map[1 := ROUTE], AgentSweep("a"), Bind(7, "a", 1, 1))
  {
    hide Run, Inv;
    longer := Then(moves, Move(1, Advance(true)));
  }

  /** Its cleanup removes the route. */
  lemma StaleCleanup(moves: seq<Move>) returns (longer: seq<Move>)
    requires Run(1, moves) == Created(map[], map[1 := ROUTE], AgentSweep("a"), Bind(7, "a", 1, 1))
    ensures Run(1, longer) == Created(map[], map[], SweepUnbind({}), Bind(7, "a", 1, 1))
  {
    hide Run, Inv;
    OneRoute();
    longer := moves;
    longer := Then(longer, Move(1, Advance(true)));
    assert Run(1, longer) == Created(map[], map[], SweepUnbind({KEY}), Bind(7, "a", 1, 1));
    assert {KEY} - {KEY} == {};
    longer := Then(longer, Move(1, UnbindOne(KEY)));
    assert Run(1, longer) == Created(map[], map[], SweepUnbind({}), Bind(7, "a", 1, 1));
  }

  /** The controller's thread goes on: it binds a route that is gone. */
  lemma StaleBind(moves: seq<Move>) returns (longer: seq<Move>)
    requires Run(1, moves) == Created(map[], map[], SweepUnbind({}), Bind(7, "a", 1, 1))
    ensures Run(1, longer) == Stale(CtrlIdle, [Delivered(1, 2, 7, 1)])
  {
    hide Run, Inv;
    longer := moves;
    longer := Then(longer, Move(1, Advance(true)));
    assert Run(1, longer) == Created(map[], map[], Closed, Bind(7, "a", 1, 1));
    longer := Then(longer, GO);
    assert Run(1, longer) == Stale(Deliver(7, 1, "a", 1), []);
    longer := Then(longer, GO);
    assert Run(1, longer) == Stale(CtrlIdle, [Delivered(1, 2, 7, 1)]);
  }

  /** A binding can be left behind: every thread is idle or gone, and `by_req`
      still leads to a route that was removed. */
  lemma StaleBinding() returns (moves: seq<Move>)
    ensures var s := Run(1, moves);
      PcOf(s, 1).Closed? && PcOf(s, 2).CtrlIdle? && KEY in s.byReq && s.byReq[KEY] !in s.routes
  {
    hide Step;
    moves := StaleAsk([]);
    moves := StaleCreate(moves);
    moves := StaleHangUp(moves);
    moves := StaleLeave(moves);
    moves := StaleCleanup(moves);
    moves := StaleBind(moves);
  }
}
