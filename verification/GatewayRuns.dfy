/** Runs of the whole gateway: any number of connections, each with its login and its channels, in any
    interleaving with configuration reloads, over one limiter, one abuse tracker and one
    configuration.
 */
module GatewayRuns {
  import opened Wrappers
  import opened Text
  import opened Config
  import opened RateLimit
  import opened Abuse
  import opened Session
  import opened Login
  import opened LoginSafety
  import Relay
  import LineEditor
  import Gateway
  import GatewaySafety

  type ConnectionId = nat

  datatype Connection = Connection(conn: Gateway.Conn, log: Log)

  datatype System = System(w: World, connections: map<ConnectionId, Connection>)

  datatype Event =
    | Open(id: ConnectionId, ip: IpAddr)
    | Keyboard(id: ConnectionId, input: Input)
    | OtherMethod(id: ConnectionId, input: Input)
    | Channel(id: ConnectionId, cb: Gateway.Callback)
    | Reload(config: ConfigFile, servers: Servers)
    | TrackerReload(op: Op)

  /** A configuration is taken over only when it validates. */
  datatype Setup = Setup(env: Env, checks: Checks, perUserPerServer: bool,
                         decode: Relay.Bytes -> Option<string>)

  function DirectoryOf(w: World, setup: Setup): Gateway.Directory {
    Gateway.Directory(w.config, w.servers, setup.perUserPerServer, setup.decode)
  }

  /** What a callback of the channel side puts on record. */
  function ChannelLog(c: Gateway.Conn, cb: Gateway.Callback, dir: Gateway.Directory): Log {
    if cb.ClientData? && Gateway.MenuOwns(c.h, cb.channel) then
      var target := GatewaySafety.SelectedBy(c, cb.channel, cb.data, dir);
      if target.Some? then [MenuSelected(c.h.username.value, target.value)] else []
    else []
  }

  function Applied(sys: System, id: ConnectionId, step: Login.Step): (System, Log)
    requires id in sys.connections
  {
    var Connection(conn, log) := sys.connections[id];
    (System(step.w, sys.connections[id := Connection(conn.(h := step.h), log + step.log)]), step.log)
  }

  /** Logins have their own events. */
  function ChannelApplied(sys: System, id: ConnectionId, cb: Gateway.Callback, setup: Setup): (System, Log)
    requires id in sys.connections
  {
    var Connection(conn, log), dir := sys.connections[id], DirectoryOf(sys.w, setup);
    if cb.Authenticate? then (sys, [])
    else
      var more := ChannelLog(conn, cb, dir);
      (sys.(connections := sys.connections[id := Connection(Gateway.Advance(conn, cb, dir).0, log + more)]), more)
  }

  function Advance(sys: System, event: Event, setup: Setup): (System, Log) {
    match event
    case Open(id, ip) =>
      (if id in sys.connections then sys
       else
         var conn := Gateway.Conn(NewHandler(ip), multiset{}, 0);
         sys.(connections := sys.connections[id := Connection(conn, [])]), [])
    case Keyboard(id, input) =>
      if id !in sys.connections then (sys, [])
      else Applied(sys, id, AuthKeyboardInteractive(sys.connections[id].conn.h, sys.w, input, setup.env))
    case OtherMethod(id, input) =>
      if id !in sys.connections then (sys, [])
      else Applied(sys, id, AuthOtherMethod(sys.connections[id].conn.h, sys.w, input, setup.env))
    case Channel(id, cb) =>
      if id !in sys.connections then (sys, []) else ChannelApplied(sys, id, cb, setup)
    case Reload(config, servers) =>
      (if ValidConfig(config, servers, setup.checks) then sys.(w := sys.w.(config := config, servers := servers))
       else sys, [])
    case TrackerReload(op) =>
      (sys.(w := sys.w.(disk := Abuse.Step(sys.w.disk, op.(call := Abuse.Reload), setup.env.abuse).0)), [])
  }

  function Run(sys: System, events: seq<Event>, setup: Setup): System
    decreases |events|
  {
    if events == [] then sys else Run(Advance(sys, events[0], setup).0, events[1..], setup)
  }

  // ---------------------------------------------------------------------------
  // What every run keeps

  ghost predicate SelectedFor(log: Log, name: string, target: SelectedTarget) {
    Accepted(name, target) in log || MenuSelected(name, target) in log
  }

  /** The identity, its pending target and the backend session come from selections of that user. */
  ghost predicate Entitled(h: Handler, log: Log) {
    && (h.username.Some? <==> h.pendingTarget.Some?)
    && (h.username.Some? ==> SelectedFor(log, h.username.value, h.pendingTarget.value))
    && (h.proxy.Some? ==>
          && WasAccepted(log, h.proxy.value.username)
          && SelectedFor(log, h.proxy.value.username, h.proxy.value.target))
  }

  ghost predicate ConnectionInv(connection: Connection) {
    SessionInv(connection.conn.h, connection.log) && Entitled(connection.conn.h, connection.log)
  }

  ghost predicate SystemInv(sys: System) {
    UniqueNames(sys.w.config.users) && forall id <- sys.connections :: ConnectionInv(sys.connections[id])
  }

  lemma UpdateKeepsNames(users: seq<UserRecord>, name: string, update: Update)
    requires UniqueNames(users)
    ensures UniqueNames(UpdatedUsers(users, name, update))
  {
  }

  lemma EnrollmentKeepsNames(h: Handler, w: World, context: PendingAuthContext, secret: string, code: string,
                             input: Input, env: Env)
    requires UniqueNames(w.config.users)
    ensures UniqueNames(HandleEnrollmentResponse(h, w, context, secret, code, input, env).w.config.users)
  {
    UpdateKeepsNames(w.config.users, context.user.name,
                     Update(context.newPasswordHash, Some(secret), Some(false)));
    EnrollmentRecords(h, w, context, secret, code, input, env);
  }

  lemma RespondKeepsNames(h: Handler, w: World, state: KeyboardAuthState, text: string, input: Input, env: Env)
    requires UniqueNames(w.config.users)
    ensures UniqueNames(Respond(h, w, state, text, input, env).w.config.users)
  {
    match state
    case AwaitEnrollmentTotp(context, secret) => EnrollmentKeepsNames(h, w, context, secret, text, input, env);
    case AwaitPassword(name) => PasswordRecords(h, w, name, text, input, env);
    case AwaitExistingTotp(name, password) => ExistingTotpRecords(h, w, name, password, text, input, env);
    case AwaitNewPassword(context, policy) =>
    case AwaitConfirmPassword(context, policy, candidate) =>
    case AwaitSelection(context) =>
  }

  lemma CallbackKeepsNames(h: Handler, w: World, input: Input, env: Env)
    requires UniqueNames(w.config.users)
    ensures UniqueNames(AuthKeyboardInteractive(h, w, input, env).w.config.users)
  {
    var text := if input.response.Some? && input.response.value != [] then input.response.value[0] else "";
    RespondKeepsNames(h.(keyboard := None), PreAuth(h, w, input, env).0,
                      OrElse(h.keyboard, AwaitPassword(Trim(input.user))), text, input, env);
  }

  lemma SelectedMore(log: Log, more: Log, name: string, target: SelectedTarget)
    ensures SelectedFor(log, name, target) ==> SelectedFor(log + more, name, target)
  {
  }

  lemma EntitledMore(h: Handler, log: Log, more: Log)
    requires Entitled(h, log)
    ensures Entitled(h, log + more)
  {
    if h.username.Some? {
      SelectedMore(log, more, h.username.value, h.pendingTarget.value);
    }
    if h.proxy.Some? {
      AcceptedMore(log, more, h.proxy.value.username);
      SelectedMore(log, more, h.proxy.value.username, h.proxy.value.target);
    }
  }

  lemma SelectionEntitles(h: Handler, w: World, context: PendingAuthContext, text: string, log: Log)
    requires Entitled(h, log)
    ensures var step := HandleSelectionResponse(h, w, context, text); Entitled(step.h, log + step.log)
  {
    var step := HandleSelectionResponse(h, w, context, text);
    EntitledMore(h, log, step.log);
    if step.reply == Accept {
      assert step.log[0] in log + step.log;
    }
  }

  /** A phase leaves identity and target alone, clears both, or records the selection of both. */
  lemma RespondEntitles(h: Handler, w: World, state: KeyboardAuthState, text: string, input: Input, env: Env, log: Log)
    requires Entitled(h, log)
    ensures var step := Respond(h, w, state, text, input, env); Entitled(step.h, log + step.log)
  {
    var step := Respond(h, w, state, text, input, env);
    EntitledMore(h, log, step.log);
    match state
    case AwaitPassword(name) => PasswordRecords(h, w, name, text, input, env);
    case AwaitExistingTotp(name, password) => ExistingTotpRecords(h, w, name, password, text, input, env);
    case AwaitEnrollmentTotp(context, secret) => EnrollmentRecords(h, w, context, secret, text, input, env);
    case AwaitNewPassword(context, policy) =>
    case AwaitConfirmPassword(context, policy, candidate) =>
    case AwaitSelection(context) => SelectionEntitles(h, w, context, text, log);
  }

  lemma CallbackEntitles(h: Handler, w: World, input: Input, env: Env, log: Log)
    requires Entitled(h, log)
    ensures var step := AuthKeyboardInteractive(h, w, input, env); Entitled(step.h, log + step.log)
  {
    EntitledMore(h, log, []);
    var w1 := PreAuth(h, w, input, env).0;
    if input.response.Some? {
      var text := if input.response.value == [] then "" else input.response.value[0];
      RespondEntitles(h.(keyboard := None), w1, OrElse(h.keyboard, AwaitPassword(Trim(input.user))), text,
                      input, env, log);
    }
  }

  /** Login state and identity are as before; a new backend session is for the user, and for the
      pending target or the target just selected. */
  predicate LoginUntouched(h: Handler, h': Handler, selected: Option<SelectedTarget>) {
    && h'.keyboard == h.keyboard && h'.username == h.username && h'.pendingTarget == h.pendingTarget
    && h'.peerIp == h.peerIp
    && (h'.proxy.Some? ==>
          || (h.proxy.Some? && h'.proxy.value.username == h.proxy.value.username
              && h'.proxy.value.target == h.proxy.value.target)
          || (h.username == Some(h'.proxy.value.username)
              && (h.pendingTarget == Some(h'.proxy.value.target) || selected == Some(h'.proxy.value.target))))
  }

  lemma MenuChanges(c: Gateway.Conn, channel: ChannelId, data: seq<LineEditor.Byte>,
                    connectOk: bool, openOk: bool, relayOk: bool, dir: Gateway.Directory)
    requires Gateway.MenuOwns(c.h, channel)
    ensures LoginUntouched(c.h, Gateway.HandleMenuInput(c, channel, data, connectOk, openOk, relayOk, dir).0.h,
                           GatewaySafety.SelectedBy(c, channel, data, dir))
  {
    GatewaySafety.MenuInputCases(c, channel, data, connectOk, openOk, relayOk, dir);
  }

  lemma RequestsChange(c: Gateway.Conn, cb: Gateway.Callback, dir: Gateway.Directory)
    requires cb.ShellRequest? || cb.ExecRequest? || cb.SubsystemRequest?
    ensures LoginUntouched(c.h, Gateway.Advance(c, cb, dir).0.h, None)
  {
  }

  lemma RelayEndChanges(c: Gateway.Conn, relay: Gateway.LiveRelay, aborted: bool)
    ensures LoginUntouched(c.h, Gateway.HandleRelayEnd(c, relay, aborted).h, None)
  {
  }

  lemma ChannelOpensChange(c: Gateway.Conn, cb: Gateway.Callback, dir: Gateway.Directory)
    requires cb.AuthSucceeded? || cb.ChannelOpenSession? || cb.DirectTcpip? || cb.BackendOpens? || cb.ChannelClose?
    ensures LoginUntouched(c.h, Gateway.Advance(c, cb, dir).0.h, None)
  {
  }

  lemma ChannelChanges(c: Gateway.Conn, cb: Gateway.Callback, dir: Gateway.Directory)
    requires !cb.Authenticate?
    ensures var log := ChannelLog(c, cb, dir);
            LoginUntouched(c.h, Gateway.Advance(c, cb, dir).0.h, if log == [] then None else Some(log[0].target))
  {
    match cb
    case ClientData(channel, data, connectOk, openOk, relayOk) =>
      if Gateway.MenuOwns(c.h, channel) {
        MenuChanges(c, channel, data, connectOk, openOk, relayOk, dir);
      }
    case RelayEnded(relay, aborted) => RelayEndChanges(c, relay, aborted);
    case TcpipForward(_) =>
    case CancelTcpipForward(_) =>
    case _ =>
      if cb.ShellRequest? || cb.ExecRequest? || cb.SubsystemRequest? {
        RequestsChange(c, cb, dir);
      } else {
        ChannelOpensChange(c, cb, dir);
      }
  }

  lemma ChannelKeeps(connection: Connection, cb: Gateway.Callback, dir: Gateway.Directory)
    requires ConnectionInv(connection) && !cb.Authenticate?
    ensures var more := ChannelLog(connection.conn, cb, dir);
            ConnectionInv(Connection(Gateway.Advance(connection.conn, cb, dir).0, connection.log + more))
  {
    var Connection(conn, log) := connection;
    var more := ChannelLog(conn, cb, dir);
    var h' := Gateway.Advance(conn, cb, dir).0.h;
    ChannelChanges(conn, cb, dir);
    if conn.h.keyboard.Some? {
      PhaseMore(conn.h.keyboard.value, log, more);
    }
    InvAfter(conn.h, h', log, more);
    EntitledMore(conn.h, log, more);
    if more != [] {
      assert more[0] in log + more;
    }
  }

  lemma KeyboardKeeps(connection: Connection, w: World, input: Input, env: Env)
    requires ConnectionInv(connection) && UniqueNames(w.config.users)
    ensures var step := AuthKeyboardInteractive(connection.conn.h, w, input, env);
            && ConnectionInv(Connection(connection.conn.(h := step.h), connection.log + step.log))
            && UniqueNames(step.w.config.users)
  {
    CallbackKeeps(connection.conn.h, w, input, env, connection.log);
    CallbackKeepsNames(connection.conn.h, w, input, env);
    CallbackEntitles(connection.conn.h, w, input, env, connection.log);
  }

  lemma AdvanceKeepsInv(sys: System, event: Event, setup: Setup)
    requires SystemInv(sys)
    ensures SystemInv(Advance(sys, event, setup).0)
  {
    match event
    case Keyboard(id, input) =>
      if id in sys.connections {
        KeyboardKeeps(sys.connections[id], sys.w, input, setup.env);
      }
    case OtherMethod(id, input) =>
      if id in sys.connections {
        assert sys.connections[id].log + [] == sys.connections[id].log;
      }
    case Channel(id, cb) =>
      if id in sys.connections && !cb.Authenticate? {
        ChannelKeeps(sys.connections[id], cb, DirectoryOf(sys.w, setup));
      }
    case _ =>
  }

  lemma {:induction false} RunKeepsInv(sys: System, events: seq<Event>, setup: Setup)
    requires SystemInv(sys)
    ensures SystemInv(Run(sys, events, setup))
    decreases |events|
  {
    if events == [] {
    } else {
      AdvanceKeepsInv(sys, events[0], setup);
      RunKeepsInv(Advance(sys, events[0], setup).0, events[1..], setup);
    }
  }

  // ---------------------------------------------------------------------------
  // Both factors precede every acceptance

  lemma AcceptedCompletes(log: Log, name: string)
    requires AcceptsJustified(log) && WasAccepted(log, name)
    ensures Completed(log, name)
  {
    var i :| 0 <= i < |log| && log[i].Accepted? && log[i].name == name;
    assert log[..i] + log[i..] == log;
    CompletedMore(log[..i], log[i..], name);
  }

  /** In every run from a valid configuration without connections, each acceptance on record is
      preceded, for the same user name, by a verified password and a verified code: one for the
      stored secret, or one for a fresh secret that was then committed (with the confirmed new
      password, when the record demanded a change).  Every session is in a proper phase. */
  lemma AcceptanceIsEarned(w: World, events: seq<Event>, setup: Setup, id: ConnectionId, i: nat)
    requires ValidConfig(w.config, w.servers, setup.checks)
    requires id in Run(System(w, map[]), events, setup).connections
    ensures var Connection(conn, log) := Run(System(w, map[]), events, setup).connections[id];
            && (conn.h.keyboard.Some? ==> PhaseOk(conn.h.keyboard.value, log))
            && (i < |log| && log[i].Accepted? ==> Completed(log[..i], log[i].name))
            && (conn.h.username.Some? ==> WasAccepted(log, conn.h.username.value))
  {
    RunKeepsInv(System(w, map[]), events, setup);
  }

  lemma ChannelGenuine(c: Gateway.Conn, cb: Gateway.Callback, w: World, setup: Setup)
    ensures forall e <- ChannelLog(c, cb, DirectoryOf(w, setup)) :: Genuine(e, w, w, setup.env.crypto)
  {
    var dir := DirectoryOf(w, setup);
    if ChannelLog(c, cb, dir) != [] {
      GatewaySafety.SelectionConnects(c, cb.channel, cb.data, true, dir);
    }
  }

  /** What an event puts on record stands for a fact of the moment: the password or code was right by
      the configuration then in memory, the commit changed that configuration, and the accepted or
      selected target was known and among the user's allowed servers. */
  lemma AdvanceIsGenuine(sys: System, event: Event, setup: Setup)
    ensures var (sys', log) := Advance(sys, event, setup);
            AllGenuine(log, sys.w, sys'.w, setup.env.crypto)
  {
    if event.Keyboard? && event.id in sys.connections {
      EventsAreGenuine(sys.connections[event.id].conn.h, sys.w, event.input, setup.env);
    } else if event.Channel? && event.id in sys.connections {
      ChannelGenuine(sys.connections[event.id].conn, event.cb, sys.w, setup);
    }
  }

  lemma {:induction false} RunSnoc(sys: System, events: seq<Event>, event: Event, setup: Setup)
    ensures Run(sys, events + [event], setup) == Advance(Run(sys, events, setup), event, setup).0
    decreases |events|
  {
    if events == [] {
      assert (events + [event])[1..] == [];
    } else {
      assert (events + [event])[1..] == events[1..] + [event];
      RunSnoc(Advance(sys, events[0], setup).0, events[1..], event, setup);
    }
  }

  /** The `k`-th event of the run has recorded `e`, which was a fact then. */
  ghost predicate HappenedAt(start: System, events: seq<Event>, setup: Setup, k: nat, e: AuthEvent)
    requires k < |events|
  {
    var before := Run(start, events[..k], setup);
    var (after, log) := Advance(before, events[k], setup);
    e in log && Genuine(e, before.w, after.w, setup.env.crypto)
  }

  ghost predicate Happened(start: System, events: seq<Event>, setup: Setup, e: AuthEvent) {
    exists k: nat :: k < |events| && HappenedAt(start, events, setup, k, e)
  }

  lemma HappenedMore(start: System, events: seq<Event>, more: Event, setup: Setup, e: AuthEvent)
    requires Happened(start, events, setup, e)
    ensures Happened(start, events + [more], setup, e)
  {
    var k: nat :| k < |events| && HappenedAt(start, events, setup, k, e);
    assert (events + [more])[..k] == events[..k] && (events + [more])[k] == events[k];
    assert HappenedAt(start, events + [more], setup, k, e);
  }

  /** A record grows only by what its events record. */
  lemma LogGrows(sys: System, event: Event, setup: Setup, id: ConnectionId, e: AuthEvent)
    requires id in Advance(sys, event, setup).0.connections
    requires e in Advance(sys, event, setup).0.connections[id].log
    ensures (id in sys.connections && e in sys.connections[id].log) || e in Advance(sys, event, setup).1
  {
  }

  /** Everything on record, at the end of a run from no connections, was a fact when it was recorded. */
  lemma {:induction false} RunsAreGenuine(start: System, events: seq<Event>, setup: Setup, id: ConnectionId,
                                          e: AuthEvent)
    requires start.connections == map[]
    requires id in Run(start, events, setup).connections && e in Run(start, events, setup).connections[id].log
    ensures Happened(start, events, setup, e)
    decreases |events|
  {
    if events == [] {
    } else {
      var before, event := Init(events), Last(events);
      assert before + [event] == events && events[..|before|] == before;
      RunSnoc(start, before, event, setup);
      var sys := Run(start, before, setup);
      LogGrows(sys, event, setup, id, e);
      if id in sys.connections && e in sys.connections[id].log {
        RunsAreGenuine(start, before, setup, id, e);
        HappenedMore(start, before, event, setup, e);
      } else {
        AdvanceIsGenuine(sys, event, setup);
        assert HappenedAt(start, events, setup, |before|, e);
      }
    }
  }

  lemma AcceptIsEarned(connection: Connection, w: World, input: Input, env: Env)
    requires ConnectionInv(connection) && UniqueNames(w.config.users)
    ensures var step := AuthKeyboardInteractive(connection.conn.h, w, input, env);
            var log := connection.log + step.log;
            step.reply == Accept ==>
              && step.h.username.Some? && step.h.pendingTarget.Some?
              && Completed(log, step.h.username.value)
              && SelectedFor(log, step.h.username.value, step.h.pendingTarget.value)
  {
    var step := AuthKeyboardInteractive(connection.conn.h, w, input, env);
    KeyboardKeeps(connection, w, input, env);
    if step.reply == Accept {
      AcceptMeans(connection.conn.h, w, input, env);
      AcceptedCompletes(connection.log + step.log, step.h.username.value);
    }
  }

  /** Whatever the client did before: a callback that answers `Accept` does so for a user who has
      passed both factors and for a target that user selected, and each of these was a fact of the
      moment it was recorded in. */
  lemma AcceptRepliesAreEarned(w: World, events: seq<Event>, setup: Setup, id: ConnectionId, input: Input)
    requires ValidConfig(w.config, w.servers, setup.checks)
    requires var sys := Run(System(w, map[]), events, setup);
             id in sys.connections
             && AuthKeyboardInteractive(sys.connections[id].conn.h, sys.w, input, setup.env).reply == Accept
    ensures var all := events + [Keyboard(id, input)];
            var sys := Run(System(w, map[]), all, setup);
            && id in sys.connections
            && var Connection(conn, log) := sys.connections[id];
            && conn.h.username.Some? && conn.h.pendingTarget.Some?
            && Completed(log, conn.h.username.value)
            && SelectedFor(log, conn.h.username.value, conn.h.pendingTarget.value)
            && forall e <- log :: Happened(System(w, map[]), all, setup, e)
  {
    var start, all := System(w, map[]), events + [Keyboard(id, input)];
    var before, sys := Run(start, events, setup), Run(start, all, setup);
    RunSnoc(start, events, Keyboard(id, input), setup);
    RunKeepsInv(start, all, setup);
    RunKeepsInv(start, events, setup);
    AcceptIsEarned(before.connections[id], before.w, input, setup.env);
    var log := sys.connections[id].log;
    forall e <- log ensures Happened(start, all, setup, e) {
      RunsAreGenuine(start, all, setup, id, e);
    }
  }

  // ---------------------------------------------------------------------------
  // Nothing reaches a backend without a login

  lemma MenuEffectsOnCurrent(c: Gateway.Conn, channel: ChannelId, data: seq<LineEditor.Byte>,
                             connectOk: bool, openOk: bool, relayOk: bool, dir: Gateway.Directory)
    requires Gateway.MenuOwns(c.h, channel)
    ensures var (c', effects) := Gateway.HandleMenuInput(c, channel, data, connectOk, openOk, relayOk, dir);
            forall e <- effects :: e.OnBackend? ==> c'.h.proxy.Some? && e.proxyId == c'.h.proxy.value.id
  {
    GatewaySafety.MenuInputCases(c, channel, data, connectOk, openOk, relayOk, dir);
  }

  lemma EffectsOnCurrent(c: Gateway.Conn, cb: Gateway.Callback, dir: Gateway.Directory)
    ensures var (c', effects) := Gateway.Advance(c, cb, dir);
            forall e <- effects :: e.OnBackend? ==> c'.h.proxy.Some? && e.proxyId == c'.h.proxy.value.id
  {
    match cb
    case ClientData(channel, data, connectOk, openOk, relayOk) =>
      if Gateway.MenuOwns(c.h, channel) {
        MenuEffectsOnCurrent(c, channel, data, connectOk, openOk, relayOk, dir);
      }
    case _ =>
  }

  /** What the backend is asked comes from a user who has passed both factors and selected its target. */
  ghost predicate EffectsEarned(h: Handler, effects: seq<Gateway.Effect>, log: Log) {
    forall e <- effects :: e.OnBackend? ==>
      && h.proxy.Some? && e.proxyId == h.proxy.value.id
      && Completed(log, h.proxy.value.username)
      && SelectedFor(log, h.proxy.value.username, h.proxy.value.target)
  }

  lemma ChannelStep(sys: System, id: ConnectionId, cb: Gateway.Callback, setup: Setup)
    requires id in sys.connections && !cb.Authenticate?
    ensures var Connection(conn, log), dir := sys.connections[id], DirectoryOf(sys.w, setup);
            var connections := Advance(sys, Channel(id, cb), setup).0.connections;
            id in connections
            && connections[id] == Connection(Gateway.Advance(conn, cb, dir).0, log + ChannelLog(conn, cb, dir))
  {
  }

  lemma ChannelEarns(connection: Connection, cb: Gateway.Callback, dir: Gateway.Directory)
    requires ConnectionInv(connection) && !cb.Authenticate?
    ensures var (c', effects) := Gateway.Advance(connection.conn, cb, dir);
            EffectsEarned(c'.h, effects, connection.log + ChannelLog(connection.conn, cb, dir))
  {
    var (c', effects) := Gateway.Advance(connection.conn, cb, dir);
    var log := connection.log + ChannelLog(connection.conn, cb, dir);
    ChannelKeeps(connection, cb, dir);
    EffectsOnCurrent(connection.conn, cb, dir);
    if c'.h.proxy.Some? {
      AcceptedCompletes(log, c'.h.proxy.value.username);
    }
  }

  /** In every run, what a callback asks of a backend it asks of the current proxy session, whose user
      has passed both factors and has selected its target, allowed and known at that moment. */
  lemma BackendEffectsAreEarned(w: World, events: seq<Event>, setup: Setup, id: ConnectionId,
                                cb: Gateway.Callback, e: Gateway.Effect)
    requires ValidConfig(w.config, w.servers, setup.checks) && !cb.Authenticate?
    requires var sys := Run(System(w, map[]), events, setup);
             id in sys.connections
             && e in Gateway.Advance(sys.connections[id].conn, cb, DirectoryOf(sys.w, setup)).1 && e.OnBackend?
    ensures var all := events + [Channel(id, cb)];
            var sys := Run(System(w, map[]), all, setup);
            && id in sys.connections
            && var Connection(conn, log) := sys.connections[id];
            && EffectsEarned(conn.h, [e], log)
            && forall event <- log :: Happened(System(w, map[]), all, setup, event)
  {
    var start, all := System(w, map[]), events + [Channel(id, cb)];
    var before, sys := Run(start, events, setup), Run(start, all, setup);
    RunSnoc(start, events, Channel(id, cb), setup);
    ChannelStep(before, id, cb, setup);
    RunKeepsInv(start, events, setup);
    ChannelEarns(before.connections[id], cb, DirectoryOf(before.w, setup));
    var log := sys.connections[id].log;
    forall event <- log ensures Happened(start, all, setup, event) {
      RunsAreGenuine(start, all, setup, id, event);
    }
  }

  // ---------------------------------------------------------------------------
  // Every login-password check is paid for

  predicate TimelyEvents(events: seq<Event>, start: real) {
    events != [] ==>
      if events[0].Keyboard? then
        && start <= events[0].input.mono && events[0].input.seen <= events[0].input.mono
        && TimelyEvents(events[1..], events[0].input.mono)
      else TimelyEvents(events[1..], start)
  }

  /** The limiter requests that a log contains: at most the first event is one. */
  function RequestsIn(log: Log): seq<Request> {
    if log != [] && log[0].TokenConsumed? then [log[0].request] else []
  }

  function Requests(sys: System, events: seq<Event>, setup: Setup): seq<Request>
    decreases |events|
  {
    if events == [] then []
    else
      var (sys', log) := Advance(sys, events[0], setup);
      RequestsIn(log) + Requests(sys', events[1..], setup)
  }

  function ChecksIn(log: Log, payer: Payer, from: real, until: real): nat {
    if log == [] then 0
    else (if log[0].PasswordChecked? && payer.Pays(log[0].request) && from <= log[0].request.now <= until then 1 else 0)
         + ChecksIn(log[1..], payer, from, until)
  }

  /** Login-password checks over all connections, of one payer, with a time in [from, until]. */
  function Checks(sys: System, events: seq<Event>, setup: Setup, payer: Payer, from: real, until: real): nat
    decreases |events|
  {
    if events == [] then 0
    else
      var (sys', log) := Advance(sys, events[0], setup);
      ChecksIn(log, payer, from, until) + Checks(sys', events[1..], setup, payer, from, until)
  }

  predicate NoCheck(log: Log) {
    forall e <- log :: !e.PasswordChecked?
  }

  /** The three shapes of a step's log, as far as payment goes. */
  ghost predicate PaysFirst(log: Log, input: Input, before: Limiter, after: Limiter) {
    if log != [] && log[0].TokenConsumed? then
      var request := log[0].request;
      && request.now == input.mono && request.seen == input.seen
      && (after, log[0].ok) == ConsumeRateLimitToken(before, request)
      && (if log[0].ok then |log| > 1 && log[1] == PasswordChecked(request) && NoCheck(log[2..]) else NoCheck(log[1..]))
    else after == before && NoCheck(log)
  }

  lemma {:induction false} NoCheckCounts(log: Log, payer: Payer, from: real, until: real)
    requires NoCheck(log)
    ensures ChecksIn(log, payer, from, until) == 0
  {
    if log == [] {
    } else {
      assert forall e <- log[1..] :: e in log;
      assert log[0] in log;
      NoCheckCounts(log[1..], payer, from, until);
    }
  }

  lemma ChecksPay(step: Login.Step, h: Handler, w: World, request: Request, verified: Log, input: Input)
    requires ChecksLogin(step, h, w, request, verified) && NoCheck(verified)
    requires request.now == input.mono && request.seen == input.seen
    ensures PaysFirst(step.log, input, w.limiter, step.w.limiter)
  {
    var paid := [TokenConsumed(request, true), PasswordChecked(request)];
    assert (paid + verified)[2..] == verified;
  }

  lemma PasswordPays(h: Handler, w: World, name: string, password: string, input: Input, env: Env)
    ensures var step := HandlePasswordResponse(h, w, name, password, input, env);
            PaysFirst(step.log, input, w.limiter, step.w.limiter)
  {
    PasswordRecords(h, w, name, password, input, env);
    var step := HandlePasswordResponse(h, w, name, password, input, env);
    if step.log != [] {
      var user := CheckPaidPassword(h, w, name, password, input, env).user;
      var verified := if user.Some? then FactorsOf(user.value, password, None, input.wall) + IssuedTo(user.value, input)
                      else [];
      ChecksPay(step, h, w, RequestOf(h, name, input), verified, input);
    }
  }

  lemma ExistingTotpPays(h: Handler, w: World, name: string, password: string, code: string, input: Input, env: Env)
    ensures var step := HandleExistingTotpResponse(h, w, name, password, code, input, env);
            PaysFirst(step.log, input, w.limiter, step.w.limiter)
  {
    ExistingTotpRecords(h, w, name, password, code, input, env);
    var step := HandleExistingTotpResponse(h, w, name, password, code, input, env);
    var factors := PaidFactors(h, w, name, password, Trim(code), input, env);
    ChecksPay(step, h, w, RequestOf(h, name, input), factors, input);
  }

  lemma PaidThenFree(paid: Log, rest: Log, log: Log)
    requires |paid| == 2 && log == paid + rest && NoCheck(rest)
    ensures log[0] == paid[0] && log[1] == paid[1] && NoCheck(log[2..])
  {
    assert log[2..] == rest;
  }

  lemma StagedPays(h: Handler, w: World, context: PendingAuthContext, secret: string, input: Input, env: Env,
                   matched: Log)
    requires context.loginPassword.Some? && NoCheck(matched)
    ensures var step := CheckStagedPassword(h, w, context, secret, input, env, matched);
            PaysFirst(step.log, input, w.limiter, step.w.limiter)
  {
    StagedRecords(h, w, context, secret, input, env, matched);
    var step := CheckStagedPassword(h, w, context, secret, input, env, matched);
    var request := RequestOf(h, context.user.name, input);
    var committed := [Committed(context.user.name, Update(context.newPasswordHash, Some(secret), Some(false)))];
    if step.log[0].ok {
      var paid := [TokenConsumed(request, true), PasswordChecked(request)];
      assert paid + [] == paid && paid + matched + committed == paid + (matched + committed);
      var rest := if step.log == paid then [] else if step.log == paid + matched then matched else matched + committed;
      PaidThenFree(paid, rest, step.log);
    }
  }

  lemma EnrollmentPays(h: Handler, w: World, context: PendingAuthContext, secret: string, code: string,
                       input: Input, env: Env)
    ensures var step := HandleEnrollmentResponse(h, w, context, secret, code, input, env);
            PaysFirst(step.log, input, w.limiter, step.w.limiter)
  {
    if env.crypto.codeMatches(secret, Trim(code), input.wall) {
      var matched := [FreshCodeVerified(context.user.name, secret, Trim(code), input.wall)];
      if context.loginPassword.Some? {
        StagedPays(h, w, context, secret, input, env, matched);
      } else {
        CommitRecords(h, Succeeded(h, w, input, env), context, secret, input, matched);
      }
    }
  }

  lemma PhasePays(h: Handler, w: World, state: KeyboardAuthState, text: string, input: Input, env: Env)
    ensures var step := Respond(h, w, state, text, input, env);
            PaysFirst(step.log, input, w.limiter, step.w.limiter)
  {
    match state
    case AwaitPassword(name) => PasswordPays(h, w, name, text, input, env);
    case AwaitExistingTotp(name, password) => ExistingTotpPays(h, w, name, password, text, input, env);
    case AwaitEnrollmentTotp(context, secret) => EnrollmentPays(h, w, context, secret, text, input, env);
    case AwaitNewPassword(context, policy) =>
    case AwaitConfirmPassword(context, policy, candidate) =>
    case AwaitSelection(context) =>
  }

  lemma CallbackPays(h: Handler, w: World, input: Input, env: Env)
    ensures var step := AuthKeyboardInteractive(h, w, input, env);
            PaysFirst(step.log, input, w.limiter, step.w.limiter)
  {
    var w1 := PreAuth(h, w, input, env).0;
    var text := if input.response.Some? && input.response.value != [] then input.response.value[0] else "";
    PhasePays(h.(keyboard := None), w1, OrElse(h.keyboard, AwaitPassword(Trim(input.user))), text, input, env);
  }

  /** A callback leaves the limiter sound for the next one. */
  lemma LimiterStaysSound(h: Handler, w: World, input: Input, env: Env, clock: real)
    requires LimiterOk(w.limiter, clock) && clock <= input.mono && input.seen <= input.mono
    ensures LimiterOk(w.limiter, input.mono)
    ensures LimiterOk(AuthKeyboardInteractive(h, w, input, env).w.limiter, input.mono)
  {
    var log := AuthKeyboardInteractive(h, w, input, env).log;
    CallbackPays(h, w, input, env);
    if log != [] && log[0].TokenConsumed? {
      LimiterStaysOk(w.limiter, log[0].request, clock);
    }
  }

  lemma AdvancePays(sys: System, event: Event, setup: Setup, payer: Payer, from: real, until: real)
    ensures var (sys', log) := Advance(sys, event, setup);
            var before, after := sys.w.limiter, sys'.w.limiter;
            if RequestsIn(log) == [] then after == before && ChecksIn(log, payer, from, until) == 0
            else
              var request := RequestsIn(log)[0];
              && event.Keyboard? && request.now == event.input.mono && request.seen == event.input.seen
              && after == ConsumeRateLimitToken(before, request).0
              && ChecksIn(log, payer, from, until)
                 <= (if payer.Pays(request) && ConsumeRateLimitToken(before, request).1
                        && from <= request.now <= until then 1 else 0)
  {
    var (sys', log) := Advance(sys, event, setup);
    if event.Keyboard? && event.id in sys.connections {
      CallbackPays(sys.connections[event.id].conn.h, sys.w, event.input, setup.env);
      if RequestsIn(log) == [] {
        NoCheckCounts(log, payer, from, until);
      } else if log[0].ok {
        assert log[1..][1..] == log[2..];
        NoCheckCounts(log[2..], payer, from, until);
      } else {
        NoCheckCounts(log[1..], payer, from, until);
      }
    }
  }

  lemma PassedCons(l: Limiter, request: Request, rest: seq<Request>, payer: Payer,
                   start: real, from: real, until: real)
    ensures var (l', ok) := ConsumeRateLimitToken(l, request);
            Passed(l, [request] + rest, payer, from, until)
            == (if payer.Pays(request) && ok && from <= request.now <= until then 1 else 0)
               + Passed(l', rest, payer, from, until)
    ensures start <= request.now && request.seen <= request.now && TimelyRequests(rest, request.now) ==>
      TimelyRequests([request] + rest, start)
  {
    var all := [request] + rest;
    assert all[0] == request && all[1..] == rest;
  }

  lemma TimelyFromEarlier(requests: seq<Request>, start: real, later: real)
    requires start <= later && TimelyRequests(requests, later)
    ensures TimelyRequests(requests, start)
  {
  }

  function NextTime(event: Event, start: real): real {
    if event.Keyboard? then event.input.mono else start
  }

  /** What one event checks is among what its request, if any, adds to those that pass. */
  lemma StepIsPaid(sys: System, event: Event, setup: Setup, rest: seq<Request>, payer: Payer,
                   start: real, from: real, until: real)
    requires event.Keyboard? ==> start <= event.input.mono && event.input.seen <= event.input.mono
    requires TimelyRequests(rest, NextTime(event, start))
    ensures var (sys', log) := Advance(sys, event, setup);
            && TimelyRequests(RequestsIn(log) + rest, start)
            && ChecksIn(log, payer, from, until) + Passed(sys'.w.limiter, rest, payer, from, until)
               <= Passed(sys.w.limiter, RequestsIn(log) + rest, payer, from, until)
  {
    var first := RequestsIn(Advance(sys, event, setup).1);
    AdvancePays(sys, event, setup, payer, from, until);
    if first == [] {
      assert first + rest == rest;
      TimelyFromEarlier(rest, start, NextTime(event, start));
    } else {
      assert first == [first[0]];
      PassedCons(sys.w.limiter, first[0], rest, payer, start, from, until);
    }
  }

  lemma {:induction false} ChecksArePaid(sys: System, events: seq<Event>, setup: Setup, payer: Payer,
                                         start: real, from: real, until: real)
    requires TimelyEvents(events, start)
    ensures TimelyRequests(Requests(sys, events, setup), start)
    ensures Checks(sys, events, setup, payer, from, until)
         <= Passed(sys.w.limiter, Requests(sys, events, setup), payer, from, until)
    decreases |events|
  {
    if events == [] {
    } else {
      var sys' := Advance(sys, events[0], setup).0;
      var next := NextTime(events[0], start);
      ChecksArePaid(sys', events[1..], setup, payer, next, from, until);
      StepIsPaid(sys, events[0], setup, Requests(sys', events[1..], setup), payer, start, from, until);
    }
  }

  /** Across any number of connections and any interleaving, the login passwords checked for one
      address in an interval number at most 30 + length, and for one address and user name, letter
      case ignored, at most 10 + length / 30. */
  lemma PasswordChecksBounded(sys: System, events: seq<Event>, setup: Setup, payer: Payer,
                              start: real, from: real, until: real)
    requires LimiterOk(sys.w.limiter, start) && TimelyEvents(events, start) && from <= until
    ensures Checks(sys, events, setup, payer, from, until) as real <= payer.Budget(until - from)
  {
    ChecksArePaid(sys, events, setup, payer, start, from, until);
    PassedBound(sys.w.limiter, Requests(sys, events, setup), payer, start, from, until);
  }
}
