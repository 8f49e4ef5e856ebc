/** Each connection of a gateway run is a run of its own: whatever the other connections do, it keeps
    what `GatewaySafety` proves of a single one.
 */
module ConnectionRuns {
  import opened Wrappers
  import opened Config
  import opened Session
  import opened Login
  import opened LoginSafety
  import opened GatewayRuns
  import Gateway
  import GatewaySafety

  /** The transport's rules, for every connection. */
  predicate LawfulRun(sys: System, events: seq<Event>, setup: Setup)
    decreases |events|
  {
    events != [] ==>
      && (events[0].Channel? && events[0].id in sys.connections ==>
            GatewaySafety.Lawful(sys.connections[events[0].id].conn, events[0].cb))
      && LawfulRun(Advance(sys, events[0], setup).0, events[1..], setup)
  }

  /** What an event is to connection `id`. */
  function Share(sys: System, event: Event, id: ConnectionId, setup: Setup): seq<GatewaySafety.Event> {
    if id !in sys.connections then []
    else match event
      case Keyboard(other, input) =>
        if other != id then []
        else [GatewaySafety.Event(Gateway.Authenticate(sys.w, input, setup.env), DirectoryOf(sys.w, setup))]
      case Channel(other, cb) =>
        if other != id || cb.Authenticate? then [] else [GatewaySafety.Event(cb, DirectoryOf(sys.w, setup))]
      case _ => []
  }

  /** The part of connection `id` in a run. */
  function ShareOf(sys: System, events: seq<Event>, id: ConnectionId, setup: Setup): seq<GatewaySafety.Event>
    decreases |events|
  {
    if events == [] then []
    else Share(sys, events[0], id, setup) + ShareOf(Advance(sys, events[0], setup).0, events[1..], id, setup)
  }

  function After(c: Gateway.Conn, events: seq<GatewaySafety.Event>): Gateway.Conn
    decreases |events|
  {
    if events == [] then c else After(Gateway.Advance(c, events[0].cb, events[0].dir).0, events[1..])
  }

  /** The address that the connection was opened from. */
  function AddressOf(events: seq<Event>, id: ConnectionId): Option<IpAddr> {
    if events == [] then None
    else if events[0].Open? && events[0].id == id then Some(events[0].ip)
    else AddressOf(events[1..], id)
  }

  function NewConnection(ip: IpAddr): Gateway.Conn {
    Gateway.Conn(NewHandler(ip), multiset{}, 0)
  }

  lemma ShareStep(sys: System, event: Event, id: ConnectionId, setup: Setup)
    requires id in sys.connections
    ensures var share, connections := Share(sys, event, id, setup), Advance(sys, event, setup).0.connections;
            && id in connections
            && connections[id].conn == if share == [] then sys.connections[id].conn
                                       else Gateway.Advance(sys.connections[id].conn, share[0].cb, share[0].dir).0
  {
  }

  /** From its state on, a connection goes through its own part of the run. */
  lemma {:induction false} ConnectionFollows(sys: System, events: seq<Event>, id: ConnectionId, setup: Setup)
    requires id in sys.connections
    ensures var c, share := sys.connections[id].conn, ShareOf(sys, events, id, setup);
            var connections := Run(sys, events, setup).connections;
            && id in connections && connections[id].conn == After(c, share)
            && (LawfulRun(sys, events, setup) ==> GatewaySafety.Follows(c, share, setup.perUserPerServer))
    decreases |events|
  {
    if events == [] {
    } else {
      var next := Advance(sys, events[0], setup).0;
      var first, rest := Share(sys, events[0], id, setup), ShareOf(next, events[1..], id, setup);
      ShareStep(sys, events[0], id, setup);
      ConnectionFollows(next, events[1..], id, setup);
      if first == [] {
        assert first + rest == rest;
      } else {
        assert (first + rest)[0] == first[0] && (first + rest)[1..] == rest;
      }
    }
  }

  lemma OpenStep(sys: System, event: Event, id: ConnectionId, setup: Setup)
    requires id !in sys.connections
    ensures var connections := Advance(sys, event, setup).0.connections;
            && Share(sys, event, id, setup) == [] && (id in connections <==> event.Open? && event.id == id)
            && (id in connections ==> connections[id].conn == NewConnection(event.ip))
  {
  }

  lemma {:induction false} OpenedFollows(sys: System, events: seq<Event>, id: ConnectionId, setup: Setup)
    requires id !in sys.connections && id in Run(sys, events, setup).connections
    ensures AddressOf(events, id).Some?
    ensures var c, share := NewConnection(AddressOf(events, id).value), ShareOf(sys, events, id, setup);
            && Run(sys, events, setup).connections[id].conn == After(c, share)
            && (LawfulRun(sys, events, setup) ==> GatewaySafety.Follows(c, share, setup.perUserPerServer))
    decreases |events|
  {
    if events == [] {
    } else {
      var next := Advance(sys, events[0], setup).0;
      var rest := ShareOf(next, events[1..], id, setup);
      OpenStep(sys, events[0], id, setup);
      assert ShareOf(sys, events, id, setup) == [] + rest == rest;
      if id in next.connections {
        ConnectionFollows(next, events[1..], id, setup);
      } else {
        OpenedFollows(next, events[1..], id, setup);
      }
    }
  }

  lemma {:induction false} AfterKeepsInv(c: Gateway.Conn, events: seq<GatewaySafety.Event>, perUserPerServer: bool)
    requires GatewaySafety.Inv(c, perUserPerServer) && GatewaySafety.Follows(c, events, perUserPerServer)
    ensures GatewaySafety.Inv(After(c, events), perUserPerServer)
    decreases |events|
  {
    if events == [] {
    } else {
      GatewaySafety.AdvanceKeeps(c, events[0].cb, events[0].dir);
      AfterKeepsInv(Gateway.Advance(c, events[0].cb, events[0].dir).0, events[1..], perUserPerServer);
    }
  }

  /** In every run from no connections every connection keeps policy and backend in lockstep and each
      channel with the menu or the backend, and is safe exactly when its part has no forbidden replay;
      it has none when each of its channels carries one request or its client is orderly. */
  lemma ConnectionsAreSafe(start: System, events: seq<Event>, setup: Setup, id: ConnectionId)
    requires start.connections == map[] && LawfulRun(start, events, setup)
    requires id in Run(start, events, setup).connections
    ensures AddressOf(events, id).Some?
    ensures var c, share := NewConnection(AddressOf(events, id).value), ShareOf(start, events, id, setup);
            var conn, each := Run(start, events, setup).connections[id].conn, setup.perUserPerServer;
            && conn == After(c, share) && GatewaySafety.Inv(conn, each)
            && (GatewaySafety.Safe(c, share, each) <==> GatewaySafety.NoForbiddenReplay(c, share))
            && (GatewaySafety.OneRequestEach(c, share) || GatewaySafety.Orderly(c, share, {}) ==>
                  GatewaySafety.Safe(c, share, each))
  {
    OpenedFollows(start, events, id, setup);
    var ip, share := AddressOf(events, id).value, ShareOf(start, events, id, setup);
    AfterKeepsInv(NewConnection(ip), share, setup.perUserPerServer);
    GatewaySafety.RunsAreSafe(ip, share, setup.perUserPerServer);
  }

  /** The policy resolved for the user and target of the current proxy session permits what is asked of
      its backend; that user has passed both factors and selected that target. */
  ghost predicate PermittedAndEarned(connection: Connection, e: Gateway.Effect, dir: Gateway.Directory)
    requires e.OnBackend?
  {
    var Connection(conn, log) := connection;
    && conn.h.proxy.Some? && e.proxyId == conn.h.proxy.value.id
    && var ProxySession(_, name, target, config, _, _) := conn.h.proxy.value;
    && var policy := ResolveEffectiveAuthorizationPolicy(config, name, target.name, dir.perUserPerServer);
    && policy.Some? && Gateway.Permits(policy.value, e.op, dir)
    && Completed(log, name) && SelectedFor(log, name, target)
  }

  lemma GuardedEarns(connection: Connection, cb: Gateway.Callback, dir: Gateway.Directory, e: Gateway.Effect)
    requires ConnectionInv(connection) && GatewaySafety.Inv(connection.conn, dir.perUserPerServer)
    requires !cb.Authenticate? && GatewaySafety.Lawful(connection.conn, cb)
    requires e in Gateway.Advance(connection.conn, cb, dir).1 && e.OnBackend? && Gateway.Guarded(e.op)
    requires !GatewaySafety.CallbackReplaysForbidden(connection.conn, cb, dir)
    ensures var log := connection.log + ChannelLog(connection.conn, cb, dir);
            PermittedAndEarned(Connection(Gateway.Advance(connection.conn, cb, dir).0, log), e, dir)
  {
    GatewaySafety.AdvanceKeeps(connection.conn, cb, dir);
    GatewaySafety.AdvancePermittedExactly(connection.conn, cb, dir);
    ChannelEarns(connection, cb, dir);
  }

  /** In every run, a guarded operation that reaches a backend, other than by a forbidden replay, is
      permitted by the policy of the user and target that the backend session is for, and earned. */
  lemma GuardedEffectsAreEarned(w: World, events: seq<Event>, setup: Setup, id: ConnectionId,
                                cb: Gateway.Callback, e: Gateway.Effect)
    requires ValidConfig(w.config, w.servers, setup.checks) && !cb.Authenticate?
    requires LawfulRun(System(w, map[]), events, setup)
    requires var sys := Run(System(w, map[]), events, setup);
             && id in sys.connections && GatewaySafety.Lawful(sys.connections[id].conn, cb)
             && e in Gateway.Advance(sys.connections[id].conn, cb, DirectoryOf(sys.w, setup)).1
             && e.OnBackend? && Gateway.Guarded(e.op)
             && !GatewaySafety.CallbackReplaysForbidden(sys.connections[id].conn, cb, DirectoryOf(sys.w, setup))
    ensures var before := Run(System(w, map[]), events, setup);
            var sys := Run(System(w, map[]), events + [Channel(id, cb)], setup);
            id in sys.connections && PermittedAndEarned(sys.connections[id], e, DirectoryOf(before.w, setup))
  {
    var before := Run(System(w, map[]), events, setup);
    RunKeepsInv(System(w, map[]), events, setup);
    ConnectionsAreSafe(System(w, map[]), events, setup, id);
    GuardedEarns(before.connections[id], cb, DirectoryOf(before.w, setup), e);
    RunSnoc(System(w, map[]), events, Channel(id, cb), setup);
    ChannelStep(before, id, cb, setup);
  }
}
