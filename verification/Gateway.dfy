/** The channel side of one connection (src/ssh/mod.rs and src/ssh/proxy.rs): connecting to a
    target, the policy-guarded requests, the in-band menu and the reconnect it leads to.

    Relays are the tasks that copy one backend channel to the frontend; they end on their own
    and may outlive the proxy session they were started for.
 */
module Gateway {
  import opened Wrappers
  import opened Config
  import opened Relay
  import opened LineEditor
  import opened Session
  import opened Tokenizer
  import Login

  datatype LiveRelay = LiveRelay(channel: ChannelId, proxyId: nat, dropToMenu: bool)

  datatype Conn = Conn(h: Handler, relays: multiset<LiveRelay>, nextProxy: nat)

  /** The configuration a callback sees, and how it decodes bytes as UTF-8. */
  datatype Directory = Directory(config: ConfigFile, servers: Servers, perUserPerServer: bool,
                                 decode: Bytes -> Option<string>)

  /** What the gateway asks of a backend. */
  datatype Operation =
    | OpenSession(channel: ChannelId)
    | RequestShell
    | RequestExec(command: Bytes)
    | RequestSubsystem(name: string)
    | OpenDirectTcpip
    | StartForward
    | CancelForward
    | SendData(channel: ChannelId, data: seq<Byte>)

  /** `Closed` closes a channel of the client, `Disconnected` the whole connection. */
  datatype Effect = OnBackend(proxyId: nat, op: Operation) | Closed(channel: ChannelId) | Disconnected | Failed

  /** Client callbacks with the outcomes of the calls they make, a forwarded or X11 channel that a
      backend opens, and the end of a relay. */
  datatype Callback =
    | AuthSucceeded(connectOk: bool)
    | ChannelOpenSession(channel: ChannelId, openOk: bool)
    | ShellRequest(channel: ChannelId, relayOk: bool)
    | ExecRequest(channel: ChannelId, command: Bytes, relayOk: bool)
    | SubsystemRequest(channel: ChannelId, name: string, relayOk: bool)
    | DirectTcpip(channel: ChannelId, openOk: bool)
    | BackendOpens(channel: ChannelId, proxyId: nat)
    | TcpipForward(relayOk: bool)
    | CancelTcpipForward(relayOk: bool)
    | ClientData(channel: ChannelId, data: seq<Byte>, connectOk: bool, openOk: bool, relayOk: bool)
    | ChannelClose(channel: ChannelId)
    | RelayEnded(relay: LiveRelay, aborted: bool)
    | Authenticate(w: Login.World, input: Login.Input, env: Login.Env)

  // ---------------------------------------------------------------------------
  // Policy

  /** The guards of the callbacks. */
  predicate Permits(policy: EffectiveAuthorizationPolicy, op: Operation, dir: Directory) {
    match op
    case OpenDirectTcpip => policy.allowLocalForwarding
    case StartForward => policy.allowRemoteForwarding
    case CancelForward => policy.allowRemoteForwarding
    case RequestSubsystem(name) => name != "sftp" || policy.allowSftp
    case RequestExec(command) => policy.allowScp || ScpModeOf(dir.decode(command)).None?
    case _ => true
  }

  predicate Guarded(op: Operation) {
    !op.OpenSession? && !op.RequestShell? && !op.SendData?
  }

  // ---------------------------------------------------------------------------
  // Steps

  function ChannelOf(h: Handler, channel: ChannelId): ChannelState {
    if channel in h.channels then h.channels[channel] else NEW_CHANNEL
  }

  function WithRequest(h: Handler, channel: ChannelId, request: SessionRequest): Handler {
    h.(channels := h.channels[channel := ChannelOf(h, channel).(request := request)])
  }

  /** `connect_selected_target`: policy and proxy session are replaced together. The flag tells
      that the callback goes on. */
  function ConnectSelectedTarget(c: Conn, name: string, target: SelectedTarget, connectOk: bool, dir: Directory)
    : (Conn, seq<Effect>, bool)
  {
    var policy := ResolveEffectiveAuthorizationPolicy(dir.config, name, target.name, dir.perUserPerServer);
    if policy.None? then (c, [Failed], false)
    else if connectOk then
      var proxy := ProxySession(c.nextProxy, name, target, dir.config, {}, {});
      (Conn(c.h.(policy := policy, proxy := Some(proxy)), c.relays, c.nextProxy + 1), [], true)
    else (c.(h := c.h.(policy := None)), [Disconnected], true)
  }

  /** `open_session_channel_by_id` on the current proxy session. */
  function OpenSessionChannel(c: Conn, channel: ChannelId): Conn
    requires c.h.proxy.Some?
  {
    var proxy := c.h.proxy.value;
    var dropToMenu := OrElse(proxy.config.sections.settings.dropToMenu, false);
    c.(h := c.h.(proxy := Some(proxy.(sessions := proxy.sessions + {channel}))),
       relays := c.relays + multiset{LiveRelay(channel, proxy.id, dropToMenu)})
  }

  /** A request on a channel reaches the backend only through the proxy's channel maps; one that does not
      closes the channel. */
  function RelayRequest(c: Conn, channel: ChannelId, op: Operation, relayOk: bool): (Conn, seq<Effect>)
    requires c.h.proxy.Some?
  {
    (c, if c.h.proxy.value.Reaches(channel) && relayOk then [OnBackend(c.h.proxy.value.id, op)] else [Closed(channel)])
  }

  function HandleExecRequest(c: Conn, channel: ChannelId, command: Bytes, relayOk: bool, dir: Directory)
    : (Conn, seq<Effect>)
  {
    if c.h.proxy.None? then (c, [])
    else
      var c1 := c.(h := WithRequest(c.h, channel, Exec(command)));
      if c.h.policy.None? then (c1, [])
      else if !Permits(c.h.policy.value, RequestExec(command), dir) then (c1, [Disconnected])
      else RelayRequest(c1, channel, RequestExec(command), relayOk)
  }

  function HandleSubsystemRequest(c: Conn, channel: ChannelId, name: string, relayOk: bool, dir: Directory)
    : (Conn, seq<Effect>)
  {
    if c.h.proxy.None? then (c, [])
    else
      var c1 := c.(h := WithRequest(c.h, channel, Subsystem(name)));
      if c.h.policy.None? then (c1, [])
      else if !Permits(c.h.policy.value, RequestSubsystem(name), dir) then (c1, [Disconnected])
      else RelayRequest(c1, channel, RequestSubsystem(name), relayOk)
  }

  function WithRaw(h: Handler, channel: ChannelId): Handler
    requires h.proxy.Some?
  {
    h.(proxy := Some(h.proxy.value.(raw := h.proxy.value.raw + {channel})))
  }

  /** `channel_open_direct_tcpip`. */
  function HandleDirectTcpip(c: Conn, channel: ChannelId, openOk: bool, dir: Directory): (Conn, seq<Effect>) {
    if c.h.proxy.None? || c.h.policy.None? || !Permits(c.h.policy.value, OpenDirectTcpip, dir) || !openOk then (c, [])
    else (c.(h := WithRaw(c.h, channel)), [OnBackend(c.h.proxy.value.id, OpenDirectTcpip)])
  }

  /** The backend of the current proxy session opens a channel; an earlier backend's does not matter. */
  function HandleBackendOpens(c: Conn, channel: ChannelId, proxyId: nat): Conn {
    if c.h.proxy.Some? && c.h.proxy.value.id == proxyId then c.(h := WithRaw(c.h, channel)) else c
  }

  /** Requests that concern the whole connection: relayed when the policy in force permits them. */
  function HandleGlobalRequest(c: Conn, op: Operation, ok: bool, dir: Directory): (Conn, seq<Effect>) {
    (c, if c.h.proxy.Some? && c.h.policy.Some? && Permits(c.h.policy.value, op, dir) && ok
        then [OnBackend(c.h.proxy.value.id, op)] else [])
  }

  function TextOf(line: seq<Byte>): string {
    seq(|line|, i requires 0 <= i < |line| => line[i] as char)
  }

  function ReplayOf(request: SessionRequest): Option<Operation> {
    match request
    case NoRequest => None
    case Shell => Some(RequestShell)
    case Exec(command) => Some(RequestExec(command))
    case Subsystem(name) => Some(RequestSubsystem(name))
  }

  function LeftMenu(c: Conn, channel: ChannelId): Conn
    requires channel in c.h.channels
  {
    var state := c.h.channels[channel].(menuActive := false, escape := Normal);
    c.(h := c.h.(channels := c.h.channels[channel := state]))
  }

  /** The selection has been made: leave the menu, connect, reopen the channel, replay its request. */
  function Reconnect(c: Conn, channel: ChannelId, name: string, target: SelectedTarget,
                     connectOk: bool, openOk: bool, relayOk: bool, dir: Directory): (Conn, seq<Effect>)
    requires channel in c.h.channels
  {
    var (c1, effects, goesOn) := ConnectSelectedTarget(LeftMenu(c, channel), name, target, connectOk, dir);
    if !goesOn || c1.h.proxy.None? then (c1, effects)
    else if !openOk then (c1, effects + [Failed])
    else
      var id := c1.h.proxy.value.id;
      var begun := effects + [OnBackend(id, OpenSession(channel))];
      var replay := ReplayOf(c.h.channels[channel].request);
      (OpenSessionChannel(c1, channel),
       if replay.None? then begun
       else if relayOk then begun + [OnBackend(id, replay.value)]
       else begun + [Failed])
  }

  predicate MenuOwns(h: Handler, channel: ChannelId) {
    h.username.Some? && channel in h.channels && h.channels[channel].menuActive
  }

  function Edited(c: Conn, channel: ChannelId, fed: Line): Conn
    requires channel in c.h.channels
  {
    var state := c.h.channels[channel].(inputBuffer := fed.buffer, escape := fed.state);
    c.(h := c.h.(channels := c.h.channels[channel := state]))
  }

  /** `handle_menu_channel_input` for a channel that the menu owns. */
  function HandleMenuInput(c: Conn, channel: ChannelId, data: seq<Byte>, connectOk: bool, openOk: bool,
                           relayOk: bool, dir: Directory): (Conn, seq<Effect>)
    requires MenuOwns(c.h, channel)
  {
    var state, name := c.h.channels[channel], c.h.username.value;
    var fed := Feed(state.inputBuffer, state.escape, data);
    var c1 := Edited(c, channel, fed);
    if fed.submitted.None? then (c1, [])
    else if IsQuit(TextOf(fed.submitted.value)) then (c1, [Disconnected])
    else match AllowedServerEntries(dir.config.users, dir.servers, name)
      case None => (c1, [Failed])
      case Some(entries) =>
        match ParseSelection(TextOf(fed.submitted.value), |entries|)
        case None => (c1, [])
        case Some(i) =>
          Reconnect(c1, channel, name, SelectedTarget(entries[i].0, entries[i].1), connectOk, openOk, relayOk, dir)
  }

  function HandleData(c: Conn, channel: ChannelId, data: seq<Byte>, connectOk: bool, openOk: bool,
                      relayOk: bool, dir: Directory): (Conn, seq<Effect>)
  {
    if MenuOwns(c.h, channel) then HandleMenuInput(c, channel, data, connectOk, openOk, relayOk, dir)
    else if c.h.proxy.None? then (c, [])
    else if c.h.proxy.value.Reaches(channel) && relayOk then
      (c, [OnBackend(c.h.proxy.value.id, SendData(channel, data))])
    else (c, [Disconnected])
  }

  function ForgetSession(h: Handler, channel: ChannelId): Handler {
    if h.proxy.None? then h
    else h.(proxy := Some(h.proxy.value.(sessions := h.proxy.value.sessions - {channel})))
  }

  /** `ProxySession::channel_close`: the session channel if there is one, else the raw one. */
  function CloseBackend(h: Handler, channel: ChannelId): Handler {
    if h.proxy.None? || channel in h.proxy.value.sessions then ForgetSession(h, channel)
    else h.(proxy := Some(h.proxy.value.(raw := h.proxy.value.raw - {channel})))
  }

  function HandleChannelClose(c: Conn, channel: ChannelId): Conn {
    var h := if channel in c.h.channels && !c.h.channels[channel].menuActive
             then c.h.(channels := c.h.channels - {channel}) else c.h;
    c.(h := CloseBackend(h, channel))
  }

  /** A relay returns.  Unless it aborts, its proxy session forgets the channel, and a shell
      channel goes to the menu when the relay was started with `drop_to_menu`. */
  function HandleRelayEnd(c: Conn, relay: LiveRelay, aborted: bool): Conn {
    if relay !in c.relays then c
    else
      var c1 := c.(relays := c.relays - multiset{relay});
      if aborted then c1
      else
        var h := if c.h.proxy.Some? && c.h.proxy.value.id == relay.proxyId
                 then ForgetSession(c.h, relay.channel) else c.h;
        if relay.channel in h.channels
           && ShouldReuseMenu(Some(h.channels[relay.channel].request), relay.dropToMenu)
        then
          var state := h.channels[relay.channel].(menuActive := true, inputBuffer := []);
          c1.(h := h.(channels := h.channels[relay.channel := state]))
        else c1.(h := h)
  }

  function HandleAuthSucceeded(c: Conn, connectOk: bool, dir: Directory): (Conn, seq<Effect>) {
    if c.h.username.None? || c.h.pendingTarget.None? then (c, [Disconnected])
    else
      var (c1, effects, _) := ConnectSelectedTarget(c, c.h.username.value, c.h.pendingTarget.value, connectOk, dir);
      (c1, effects)
  }

  function HandleChannelOpen(c: Conn, channel: ChannelId, openOk: bool): (Conn, seq<Effect>) {
    var c1 := c.(h := c.h.(channels := c.h.channels[channel := ChannelOf(c.h, channel)]));
    if c.h.proxy.None? || !openOk then (c1, [])
    else (OpenSessionChannel(c1, channel), [OnBackend(c.h.proxy.value.id, OpenSession(channel))])
  }

  function HandleShellRequest(c: Conn, channel: ChannelId, relayOk: bool): (Conn, seq<Effect>) {
    var c1 := c.(h := WithRequest(c.h, channel, Shell));
    if c.h.proxy.None? then (c1, []) else RelayRequest(c1, channel, RequestShell, relayOk)
  }

  function Advance(c: Conn, cb: Callback, dir: Directory): (Conn, seq<Effect>) {
    match cb
    case AuthSucceeded(connectOk) => HandleAuthSucceeded(c, connectOk, dir)
    case ChannelOpenSession(channel, openOk) => HandleChannelOpen(c, channel, openOk)
    case ShellRequest(channel, relayOk) => HandleShellRequest(c, channel, relayOk)
    case ExecRequest(channel, command, relayOk) => HandleExecRequest(c, channel, command, relayOk, dir)
    case SubsystemRequest(channel, name, relayOk) => HandleSubsystemRequest(c, channel, name, relayOk, dir)
    case DirectTcpip(channel, openOk) => HandleDirectTcpip(c, channel, openOk, dir)
    case BackendOpens(channel, proxyId) => (HandleBackendOpens(c, channel, proxyId), [])
    case TcpipForward(relayOk) => HandleGlobalRequest(c, StartForward, relayOk, dir)
    case CancelTcpipForward(relayOk) => HandleGlobalRequest(c, CancelForward, relayOk, dir)
    case ClientData(channel, data, connectOk, openOk, relayOk) =>
      HandleData(c, channel, data, connectOk, openOk, relayOk, dir)
    case ChannelClose(channel) => (HandleChannelClose(c, channel), [])
    case RelayEnded(relay, aborted) => (HandleRelayEnd(c, relay, aborted), [])
    case Authenticate(w, input, env) => (c.(h := Login.AuthKeyboardInteractive(c.h, w, input, env).h), [])
  }
}
