/** Policy lockstep and menu handover, over every run of a connection. */
module GatewaySafety {
  import opened Wrappers
  import opened Text
  import opened Config
  import opened Relay
  import opened LineEditor
  import opened Session
  import opened Gateway
  import Login
  import LoginSafety

  // ---------------------------------------------------------------------------
  // Invariants

  /** A policy in force is the one resolved for the authenticated user and the target that the
      current backend is connected to, under the configuration of that connection. */
  predicate Lockstep(h: Handler, perUserPerServer: bool) {
    && (h.proxy.Some? ==> h.username == Some(h.proxy.value.username))
    && (h.policy.Some? ==>
          && h.proxy.Some?
          && var proxy := h.proxy.value;
             h.policy == ResolveEffectiveAuthorizationPolicy(proxy.config, proxy.username, proxy.target.name,
                                                             perUserPerServer))
  }

  predicate HasRelay(c: Conn, channel: ChannelId) {
    exists r <- c.relays :: r.channel == channel
  }

  /** Each channel has at most one live relay, and the current proxy session knows a channel with a
      live relay only as a session channel whose relay is its own. */
  predicate RelaysOk(c: Conn) {
    && (forall r <- c.relays :: c.relays[r] == 1 && r.proxyId < c.nextProxy)
    && (forall r, r' :: r in c.relays && r' in c.relays && r.channel == r'.channel ==> r == r')
    && (c.h.proxy.Some? ==>
          && c.h.proxy.value.id < c.nextProxy
          && forall r <- c.relays ::
               && r.channel !in c.h.proxy.value.raw
               && (r.channel in c.h.proxy.value.sessions ==> r.proxyId == c.h.proxy.value.id))
  }

  /** A channel that the menu owns has no backend; any other is outside escape sequences. */
  predicate HandoverOk(c: Conn) {
    forall channel <- c.h.channels ::
      if c.h.channels[channel].menuActive then
        !HasRelay(c, channel) && (c.h.proxy.Some? ==> !c.h.proxy.value.Reaches(channel))
      else c.h.channels[channel].escape == Normal
  }

  /** Relays and active menus come only after a first connect. */
  predicate ConnectedOk(c: Conn) {
    c.h.proxy.None? ==>
      && c.relays == multiset{}
      && forall channel <- c.h.channels :: !c.h.channels[channel].menuActive
  }

  predicate Inv(c: Conn, perUserPerServer: bool) {
    Lockstep(c.h, perUserPerServer) && RelaysOk(c) && HandoverOk(c) && ConnectedOk(c)
  }

  predicate Unused(c: Conn, channel: ChannelId) {
    && channel !in c.h.channels && !HasRelay(c, channel)
    && (c.h.proxy.Some? ==> !c.h.proxy.value.Reaches(channel))
  }

  /** The transport opens a channel under an identifier that is not in use. */
  predicate Lawful(c: Conn, cb: Callback) {
    cb.ChannelOpenSession? || cb.DirectTcpip? || cb.BackendOpens? ==> Unused(c, cb.channel)
  }

  // ---------------------------------------------------------------------------
  // Preservation

  /** A new session of the user, with the policy resolved for its target and without channels. */
  lemma InstallKeeps(c: Conn, proxy: ProxySession, policy: Option<EffectiveAuthorizationPolicy>,
                     perUserPerServer: bool)
    requires Inv(c, perUserPerServer) && c.h.username == Some(proxy.username)
    requires proxy.id == c.nextProxy && proxy.sessions == {} && proxy.raw == {}
    requires policy
          == ResolveEffectiveAuthorizationPolicy(proxy.config, proxy.username, proxy.target.name, perUserPerServer)
    ensures Inv(Conn(c.h.(policy := policy, proxy := Some(proxy)), c.relays, c.nextProxy + 1), perUserPerServer)
  {
    var c' := Conn(c.h.(policy := policy, proxy := Some(proxy)), c.relays, c.nextProxy + 1);
    assert forall other :: HasRelay(c', other) == HasRelay(c, other);
  }

  lemma SameChannelsSameHandover(c: Conn, c': Conn)
    requires RelaysOk(c) && HandoverOk(c)
    requires c'.relays == c.relays && c'.nextProxy == c.nextProxy
    requires c'.h.channels == c.h.channels && c'.h.proxy == c.h.proxy
    ensures RelaysOk(c') && HandoverOk(c') && (ConnectedOk(c) ==> ConnectedOk(c'))
  {
    assert forall other :: HasRelay(c', other) == HasRelay(c, other);
  }

  lemma ConnectKeeps(c: Conn, name: string, target: SelectedTarget, connectOk: bool, dir: Directory)
    requires Inv(c, dir.perUserPerServer) && c.h.username == Some(name)
    ensures var (c', _, _) := ConnectSelectedTarget(c, name, target, connectOk, dir);
            && Inv(c', dir.perUserPerServer) && c'.relays == c.relays
            && c'.h.channels == c.h.channels && c'.h.username == c.h.username
  {
    var (c', effects, goesOn) := ConnectSelectedTarget(c, name, target, connectOk, dir);
    if goesOn && connectOk {
      InstallKeeps(c, c'.h.proxy.value, c'.h.policy, dir.perUserPerServer);
    } else {
      SameChannelsSameHandover(c, c');
    }
  }

  /** Opening a channel that is out of the menu and has no relay. */
  lemma OpenKeeps(c: Conn, channel: ChannelId, perUserPerServer: bool)
    requires Inv(c, perUserPerServer) && c.h.proxy.Some? && !HasRelay(c, channel)
    requires channel in c.h.channels ==> !c.h.channels[channel].menuActive
    requires channel !in c.h.proxy.value.raw
    ensures Inv(OpenSessionChannel(c, channel), perUserPerServer)
  {
    var c' := OpenSessionChannel(c, channel);
    var relay := LiveRelay(channel, c.h.proxy.value.id,
                           OrElse(c.h.proxy.value.config.sections.settings.dropToMenu, false));
    assert forall r <- c'.relays :: r in c.relays || r == relay;
    assert relay !in c.relays;
  }

  lemma LeaveMenuKeeps(c: Conn, channel: ChannelId, perUserPerServer: bool)
    requires Inv(c, perUserPerServer) && channel in c.h.channels && c.h.channels[channel].menuActive
    ensures Inv(LeftMenu(c, channel), perUserPerServer) && !HasRelay(LeftMenu(c, channel), channel)
  {
    var left := LeftMenu(c, channel);
    assert forall other <- left.h.channels :: other != channel ==> left.h.channels[other] == c.h.channels[other];
    assert forall other :: HasRelay(left, other) == HasRelay(c, other);
  }

  lemma ReconnectKeeps(c: Conn, channel: ChannelId, name: string, target: SelectedTarget,
                       connectOk: bool, openOk: bool, relayOk: bool, dir: Directory)
    requires Inv(c, dir.perUserPerServer) && c.h.username == Some(name)
    requires channel in c.h.channels && c.h.channels[channel].menuActive
    ensures Inv(Reconnect(c, channel, name, target, connectOk, openOk, relayOk, dir).0, dir.perUserPerServer)
  {
    var left := LeftMenu(c, channel);
    LeaveMenuKeeps(c, channel, dir.perUserPerServer);
    ConnectKeeps(left, name, target, connectOk, dir);
    var (c1, effects, goesOn) := ConnectSelectedTarget(left, name, target, connectOk, dir);
    if goesOn && c1.h.proxy.Some? && openOk {
      assert !HasRelay(c1, channel);
      OpenKeeps(c1, channel, dir.perUserPerServer);
    }
  }

  /** The target that the bytes of a menu channel select, if they complete a valid choice. */
  function SelectedBy(c: Conn, channel: ChannelId, data: seq<Byte>, dir: Directory): Option<SelectedTarget>
    requires MenuOwns(c.h, channel)
  {
    var line := Feed(c.h.channels[channel].inputBuffer, c.h.channels[channel].escape, data).submitted;
    var entries := AllowedServerEntries(dir.config.users, dir.servers, c.h.username.value);
    if line.None? || IsQuit(TextOf(line.value)) || entries.None? then None
    else match ParseSelection(TextOf(line.value), |entries.value|)
      case None => None
      case Some(i) => Some(SelectedTarget(entries.value[i].0, entries.value[i].1))
  }

  /** Input to the menu edits its line, and reconnects when it makes a selection. */
  lemma MenuInputCases(c: Conn, channel: ChannelId, data: seq<Byte>, connectOk: bool, openOk: bool,
                       relayOk: bool, dir: Directory)
    requires MenuOwns(c.h, channel)
    ensures var (c', effects) := HandleMenuInput(c, channel, data, connectOk, openOk, relayOk, dir);
            var fed := Feed(c.h.channels[channel].inputBuffer, c.h.channels[channel].escape, data);
            var edited := Edited(c, channel, fed);
            match SelectedBy(c, channel, data, dir)
            case None => c' == edited && (effects == [] || effects == [Failed] || effects == [Disconnected])
            case Some(target) =>
              (c', effects) == Reconnect(edited, channel, c.h.username.value, target, connectOk, openOk, relayOk, dir)
  {
  }

  lemma EditKeeps(c: Conn, channel: ChannelId, fed: Line, perUserPerServer: bool)
    requires Inv(c, perUserPerServer) && channel in c.h.channels && c.h.channels[channel].menuActive
    ensures Inv(Edited(c, channel, fed), perUserPerServer)
  {
    assert forall other :: HasRelay(Edited(c, channel, fed), other) == HasRelay(c, other);
  }

  lemma MenuInputKeeps(c: Conn, channel: ChannelId, data: seq<Byte>, connectOk: bool, openOk: bool,
                       relayOk: bool, dir: Directory)
    requires Inv(c, dir.perUserPerServer) && MenuOwns(c.h, channel)
    ensures Inv(HandleMenuInput(c, channel, data, connectOk, openOk, relayOk, dir).0, dir.perUserPerServer)
  {
    var fed := Feed(c.h.channels[channel].inputBuffer, c.h.channels[channel].escape, data);
    EditKeeps(c, channel, fed, dir.perUserPerServer);
    MenuInputCases(c, channel, data, connectOk, openOk, relayOk, dir);
    var target := SelectedBy(c, channel, data, dir);
    if target.Some? {
      ReconnectKeeps(Edited(c, channel, fed), channel, c.h.username.value, target.value,
                     connectOk, openOk, relayOk, dir);
    }
  }

  lemma RequestKeeps(c: Conn, channel: ChannelId, request: SessionRequest, perUserPerServer: bool)
    requires Inv(c, perUserPerServer)
    ensures Inv(c.(h := WithRequest(c.h, channel, request)), perUserPerServer)
  {
    var c' := c.(h := WithRequest(c.h, channel, request));
    assert forall other :: HasRelay(c', other) == HasRelay(c, other);
  }

  /** When a live relay is gone, its channel has none. */
  lemma RelayGone(c: Conn, relay: LiveRelay, perUserPerServer: bool)
    requires Inv(c, perUserPerServer) && relay in c.relays
    ensures var gone := c.(relays := c.relays - multiset{relay});
            && Inv(gone, perUserPerServer) && !HasRelay(gone, relay.channel)
  {
    var gone := c.(relays := c.relays - multiset{relay});
    assert forall r :: r in gone.relays <==> r in c.relays && r != relay;
    forall other | HasRelay(gone, other) ensures HasRelay(c, other) {
      var r :| r in gone.relays && r.channel == other;
      assert r in c.relays;
    }
  }

  lemma ForgetKeeps(c: Conn, channel: ChannelId, perUserPerServer: bool)
    requires Inv(c, perUserPerServer)
    ensures Inv(c.(h := ForgetSession(c.h, channel)), perUserPerServer)
  {
    var c' := c.(h := ForgetSession(c.h, channel));
    assert forall other :: HasRelay(c', other) == HasRelay(c, other);
  }

  lemma ActivateKeeps(c: Conn, channel: ChannelId, perUserPerServer: bool)
    requires Inv(c, perUserPerServer) && !HasRelay(c, channel) && channel in c.h.channels
    requires c.h.proxy.Some? && !c.h.proxy.value.Reaches(channel)
    ensures var state := c.h.channels[channel].(menuActive := true, inputBuffer := []);
            Inv(c.(h := c.h.(channels := c.h.channels[channel := state])), perUserPerServer)
  {
    var state := c.h.channels[channel].(menuActive := true, inputBuffer := []);
    var c' := c.(h := c.h.(channels := c.h.channels[channel := state]));
    assert forall other :: HasRelay(c', other) == HasRelay(c, other);
  }

  lemma RelayEndKeeps(c: Conn, relay: LiveRelay, aborted: bool, perUserPerServer: bool)
    requires Inv(c, perUserPerServer)
    ensures Inv(HandleRelayEnd(c, relay, aborted), perUserPerServer)
  {
    if relay in c.relays {
      RelayGone(c, relay, perUserPerServer);
      var gone := c.(relays := c.relays - multiset{relay});
      if !aborted {
        var own := c.h.proxy.Some? && c.h.proxy.value.id == relay.proxyId;
        var forgot := if own then gone.(h := ForgetSession(c.h, relay.channel)) else gone;
        ForgetKeeps(gone, relay.channel, perUserPerServer);
        assert !HasRelay(forgot, relay.channel);
        if relay.channel in forgot.h.channels {
          ActivateKeeps(forgot, relay.channel, perUserPerServer);
        }
      }
    }
  }

  lemma CloseKeeps(c: Conn, channel: ChannelId, perUserPerServer: bool)
    requires Inv(c, perUserPerServer)
    ensures Inv(HandleChannelClose(c, channel), perUserPerServer)
  {
    var c' := HandleChannelClose(c, channel);
    assert forall other :: HasRelay(c', other) == HasRelay(c, other);
  }

  lemma RespondLeaves(h: Handler, w: Login.World, state: KeyboardAuthState, text: string,
                      input: Login.Input, env: Login.Env)
    ensures var h' := Login.Respond(h, w, state, text, input, env).h;
            && h'.proxy == h.proxy && h'.channels == h.channels && h'.peerIp == h.peerIp
            && (h'.policy == h.policy || h'.policy.None?)
  {
    match state
    case AwaitPassword(name) => LoginSafety.PasswordRecords(h, w, name, text, input, env);
    case AwaitExistingTotp(name, password) =>
      LoginSafety.ExistingTotpRecords(h, w, name, password, text, input, env);
    case AwaitEnrollmentTotp(context, secret) =>
      LoginSafety.EnrollmentRecords(h, w, context, secret, text, input, env);
    case AwaitNewPassword(context, policy) =>
    case AwaitConfirmPassword(context, policy, candidate) =>
    case AwaitSelection(context) =>
  }

  /** The login side never touches a connected session, and otherwise can only drop the policy. */
  lemma LoginLeavesConnected(h: Handler, w: Login.World, input: Login.Input, env: Login.Env)
    ensures var h' := Login.AuthKeyboardInteractive(h, w, input, env).h;
            && h'.proxy == h.proxy && h'.channels == h.channels && h'.peerIp == h.peerIp
            && (h'.policy == h.policy || h'.policy.None?)
            && (h.proxy.Some? && h.username.Some? ==> h' == h)
  {
    var w1 := Login.PreAuth(h, w, input, env).0;
    var text := if input.response.Some? && input.response.value != [] then input.response.value[0] else "";
    RespondLeaves(h.(keyboard := None), w1, OrElse(h.keyboard, AwaitPassword(Trim(input.user))), text, input, env);
  }

  lemma ChannelOpenKeeps(c: Conn, channel: ChannelId, openOk: bool, perUserPerServer: bool)
    requires Inv(c, perUserPerServer) && Lawful(c, ChannelOpenSession(channel, openOk))
    ensures Inv(HandleChannelOpen(c, channel, openOk).0, perUserPerServer)
  {
    var c1 := c.(h := c.h.(channels := c.h.channels[channel := NEW_CHANNEL]));
    assert forall other :: HasRelay(c1, other) == HasRelay(c, other);
    assert Inv(c1, perUserPerServer);
    if c.h.proxy.Some? && openOk {
      OpenKeeps(c1, channel, perUserPerServer);
    }
  }

  lemma AuthenticateKeeps(c: Conn, w: Login.World, input: Login.Input, env: Login.Env, perUserPerServer: bool)
    requires Inv(c, perUserPerServer)
    ensures Inv(c.(h := Login.AuthKeyboardInteractive(c.h, w, input, env).h), perUserPerServer)
  {
    LoginLeavesConnected(c.h, w, input, env);
    var c' := c.(h := Login.AuthKeyboardInteractive(c.h, w, input, env).h);
    SameChannelsSameHandover(c, c');
  }

  lemma RawKeeps(c: Conn, channel: ChannelId, perUserPerServer: bool)
    requires Inv(c, perUserPerServer) && Unused(c, channel) && c.h.proxy.Some?
    ensures Inv(c.(h := WithRaw(c.h, channel)), perUserPerServer)
  {
    var c' := c.(h := WithRaw(c.h, channel));
    assert forall other :: HasRelay(c', other) == HasRelay(c, other);
  }

  lemma AuthSucceededKeeps(c: Conn, connectOk: bool, dir: Directory)
    requires Inv(c, dir.perUserPerServer)
    ensures Inv(HandleAuthSucceeded(c, connectOk, dir).0, dir.perUserPerServer)
  {
    if c.h.username.Some? && c.h.pendingTarget.Some? {
      ConnectKeeps(c, c.h.username.value, c.h.pendingTarget.value, connectOk, dir);
    }
  }

  lemma ClientDataKeeps(c: Conn, channel: ChannelId, data: seq<Byte>, connectOk: bool, openOk: bool, relayOk: bool,
                        dir: Directory)
    requires Inv(c, dir.perUserPerServer)
    ensures Inv(HandleData(c, channel, data, connectOk, openOk, relayOk, dir).0, dir.perUserPerServer)
  {
    if MenuOwns(c.h, channel) {
      MenuInputKeeps(c, channel, data, connectOk, openOk, relayOk, dir);
    }
  }

  lemma RequestsKeep(c: Conn, cb: Callback, dir: Directory)
    requires Inv(c, dir.perUserPerServer) && (cb.ShellRequest? || cb.ExecRequest? || cb.SubsystemRequest?)
    ensures Inv(Advance(c, cb, dir).0, dir.perUserPerServer)
  {
    match cb
    case ShellRequest(channel, relayOk) => RequestKeeps(c, channel, Shell, dir.perUserPerServer);
    case ExecRequest(channel, command, relayOk) => RequestKeeps(c, channel, Exec(command), dir.perUserPerServer);
    case SubsystemRequest(channel, name, relayOk) => RequestKeeps(c, channel, Subsystem(name), dir.perUserPerServer);
  }

  lemma ForwardsKeep(c: Conn, cb: Callback, dir: Directory)
    requires Inv(c, dir.perUserPerServer) && Lawful(c, cb)
    requires cb.DirectTcpip? || cb.BackendOpens? || cb.TcpipForward? || cb.CancelTcpipForward?
    ensures Inv(Advance(c, cb, dir).0, dir.perUserPerServer)
  {
    if (cb.DirectTcpip? || cb.BackendOpens?) && c.h.proxy.Some? {
      RawKeeps(c, cb.channel, dir.perUserPerServer);
    }
  }

  /** Lockstep and handover hold after every callback, whatever succeeds or fails in it. */
  lemma AdvanceKeeps(c: Conn, cb: Callback, dir: Directory)
    requires Inv(c, dir.perUserPerServer) && Lawful(c, cb)
    ensures Inv(Advance(c, cb, dir).0, dir.perUserPerServer)
  {
    match cb
    case AuthSucceeded(connectOk) => AuthSucceededKeeps(c, connectOk, dir);
    case ChannelOpenSession(channel, openOk) => ChannelOpenKeeps(c, channel, openOk, dir.perUserPerServer);
    case ClientData(channel, data, connectOk, openOk, relayOk) =>
      ClientDataKeeps(c, channel, data, connectOk, openOk, relayOk, dir);
    case ChannelClose(channel) => CloseKeeps(c, channel, dir.perUserPerServer);
    case RelayEnded(relay, aborted) => RelayEndKeeps(c, relay, aborted, dir.perUserPerServer);
    case Authenticate(w, input, env) => AuthenticateKeeps(c, w, input, env, dir.perUserPerServer);
    case _ =>
      if cb.ShellRequest? || cb.ExecRequest? || cb.SubsystemRequest? {
        RequestsKeep(c, cb, dir);
      } else {
        ForwardsKeep(c, cb, dir);
      }
  }

  /** A selection that connects puts the chosen target, its policy and the reopened channel in place. */
  lemma SelectionConnects(c: Conn, channel: ChannelId, data: seq<Byte>, relayOk: bool, dir: Directory)
    requires MenuOwns(c.h, channel) && SelectedBy(c, channel, data, dir).Some?
    ensures var target := SelectedBy(c, channel, data, dir).value;
            var h := HandleMenuInput(c, channel, data, true, true, relayOk, dir).0.h;
            && h.proxy.Some? && h.proxy.value.target == target && h.proxy.value.username == c.h.username.value
            && h.policy == ResolveEffectiveAuthorizationPolicy(dir.config, c.h.username.value, target.name,
                                                               dir.perUserPerServer)
            && channel in h.channels && !h.channels[channel].menuActive && channel in h.proxy.value.sessions
    ensures var target := SelectedBy(c, channel, data, dir).value;
            && FindUser(dir.config.users, c.h.username.value).Some?
            && target.name in dir.config.users[FindUser(dir.config.users, c.h.username.value).value].allowedServers
            && target.name in dir.servers && dir.servers[target.name] == target.host
  {
    MenuInputCases(c, channel, data, true, true, relayOk, dir);
    var entries := AllowedServerEntries(dir.config.users, dir.servers, c.h.username.value);
    var name, host := SelectedBy(c, channel, data, dir).value.name, SelectedBy(c, channel, data, dir).value.host;
    assert (name, host) in entries.value;
  }

  /** The end of a relay activates the menu exactly for a shell channel whose relay had `drop_to_menu`,
      takes the channel from the relay's own proxy session only, and touches no other channel. */
  lemma RelayEndExactly(c: Conn, relay: LiveRelay, aborted: bool, channel: ChannelId)
    requires relay in c.relays
    ensures var h := HandleRelayEnd(c, relay, aborted).h;
            && h.channels.Keys == c.h.channels.Keys && h.policy == c.h.policy && h.username == c.h.username
            && (channel in c.h.channels ==>
                  (h.channels[channel].menuActive <==>
                     || c.h.channels[channel].menuActive
                     || (channel == relay.channel && !aborted && relay.dropToMenu
                         && c.h.channels[channel].request.Shell?)))
            && (channel in c.h.channels && channel != relay.channel ==> h.channels[channel] == c.h.channels[channel])
            && (c.h.proxy.Some? ==>
                  && h.proxy.Some? && h.proxy.value.id == c.h.proxy.value.id
                  && (channel in h.proxy.value.sessions <==>
                        channel in c.h.proxy.value.sessions
                        && !(channel == relay.channel && !aborted && relay.proxyId == c.h.proxy.value.id)))
  {
  }

  /** The gateway's end of a relay leaves the channel as the relay itself leaves it: the menu's or not,
      and with or without its session. */
  lemma RelayEndMatches(c: Conn, relay: LiveRelay, backend: Backend, room: nat)
    requires relay in c.relays && c.h.proxy.Some? && c.h.proxy.value.id == relay.proxyId
    requires backend.RequestAtStop()
          == if relay.channel in c.h.channels then Some(c.h.channels[relay.channel].request) else None
    ensures var aborted := backend.Aborts(relay.dropToMenu, room);
            var h, h' := c.h, HandleRelayEnd(c, relay, aborted).h;
            && h'.proxy.Some?
            && (relay.channel in h'.proxy.value.sessions
                <==> backend.SessionAfter(relay.channel in h.proxy.value.sessions, aborted))
            && (relay.channel in h.channels ==>
                  relay.channel in h'.channels
                  && (h'.channels[relay.channel].menuActive
                      <==> backend.MenuAfter(h.channels[relay.channel].menuActive, aborted, relay.dropToMenu)))
  {
  }

  // ---------------------------------------------------------------------------
  // No guarded operation without a policy that permits it

  /** Section 6.5 of RFC 4254: at most one shell, exec or subsystem request per channel. */
  predicate OneRequest(c: Conn, cb: Callback) {
    cb.ShellRequest? || cb.ExecRequest? || cb.SubsystemRequest? ==> ChannelOf(c.h, cb.channel).request.NoRequest?
  }

  predicate MenuIsShell(h: Handler) {
    forall channel <- h.channels :: h.channels[channel].menuActive ==> h.channels[channel].request.Shell?
  }

  /** Guarded operations go to the backend of the proxy session in place, and the policy in force,
      which `Lockstep` ties to that backend, permits them. */
  predicate EffectsPermitted(h: Handler, effects: seq<Effect>, dir: Directory) {
    forall e <- effects :: e.OnBackend? && Guarded(e.op) ==>
      && h.proxy.Some? && e.proxyId == h.proxy.value.id
      && h.policy.Some? && Permits(h.policy.value, e.op, dir)
  }

  lemma RelayEndStaysShell(c: Conn, relay: LiveRelay, aborted: bool)
    requires MenuIsShell(c.h)
    ensures MenuIsShell(HandleRelayEnd(c, relay, aborted).h)
  {
  }

  lemma ReconnectLeavesMenu(c: Conn, channel: ChannelId, name: string, target: SelectedTarget,
                            connectOk: bool, openOk: bool, relayOk: bool, dir: Directory)
    requires channel in c.h.channels
    ensures Reconnect(c, channel, name, target, connectOk, openOk, relayOk, dir).0.h.channels
         == LeftMenu(c, channel).h.channels
  {
  }

  lemma MenuInputStaysShell(c: Conn, channel: ChannelId, data: seq<Byte>, connectOk: bool, openOk: bool,
                            relayOk: bool, dir: Directory)
    requires MenuIsShell(c.h) && MenuOwns(c.h, channel)
    ensures MenuIsShell(HandleMenuInput(c, channel, data, connectOk, openOk, relayOk, dir).0.h)
  {
    MenuInputCases(c, channel, data, connectOk, openOk, relayOk, dir);
    var target := SelectedBy(c, channel, data, dir);
    if target.Some? {
      var fed := Feed(c.h.channels[channel].inputBuffer, c.h.channels[channel].escape, data);
      ReconnectLeavesMenu(Edited(c, channel, fed), channel, c.h.username.value, target.value,
                          connectOk, openOk, relayOk, dir);
    }
  }

  lemma RequestStaysShell(c: Conn, cb: Callback, dir: Directory)
    requires MenuIsShell(c.h) && OneRequest(c, cb) && (cb.ShellRequest? || cb.ExecRequest? || cb.SubsystemRequest?)
    ensures MenuIsShell(Advance(c, cb, dir).0.h)
  {
  }

  lemma OpeningStaysShell(c: Conn, cb: Callback, dir: Directory)
    requires MenuIsShell(c.h)
    requires cb.AuthSucceeded? || cb.ChannelOpenSession? || cb.ChannelClose? || cb.DirectTcpip? || cb.BackendOpens?
    ensures MenuIsShell(Advance(c, cb, dir).0.h)
  {
  }

  lemma MenuIsShellKept(c: Conn, cb: Callback, dir: Directory)
    requires MenuIsShell(c.h) && OneRequest(c, cb)
    ensures MenuIsShell(Advance(c, cb, dir).0.h)
  {
    match cb
    case Authenticate(w, input, env) => LoginLeavesConnected(c.h, w, input, env);
    case ClientData(channel, data, connectOk, openOk, relayOk) =>
      if MenuOwns(c.h, channel) {
        MenuInputStaysShell(c, channel, data, connectOk, openOk, relayOk, dir);
      }
    case RelayEnded(relay, aborted) => RelayEndStaysShell(c, relay, aborted);
    case TcpipForward(_) =>
    case CancelTcpipForward(_) =>
    case _ =>
      if cb.ShellRequest? || cb.ExecRequest? || cb.SubsystemRequest? {
        RequestStaysShell(c, cb, dir);
      } else {
        OpeningStaysShell(c, cb, dir);
      }
  }

  /** The reconnect replays a guarded request that the policy then in force does not permit: the
      new target's policy forbids it, or the connect has failed and the old backend gets it. */
  predicate ReplayForbidden(c: Conn, channel: ChannelId, name: string, target: SelectedTarget,
                            connectOk: bool, openOk: bool, relayOk: bool, dir: Directory)
    requires channel in c.h.channels
  {
    var policy := ResolveEffectiveAuthorizationPolicy(dir.config, name, target.name, dir.perUserPerServer);
    var replay := ReplayOf(c.h.channels[channel].request);
    && policy.Some? && openOk && relayOk && replay.Some? && Guarded(replay.value)
    && (if connectOk then !Permits(policy.value, replay.value, dir) else c.h.proxy.Some?)
  }

  predicate CallbackReplaysForbidden(c: Conn, cb: Callback, dir: Directory) {
    cb.ClientData? && MenuOwns(c.h, cb.channel)
    && var target := SelectedBy(c, cb.channel, cb.data, dir);
       target.Some?
       && ReplayForbidden(c, cb.channel, c.h.username.value, target.value, cb.connectOk, cb.openOk, cb.relayOk, dir)
  }

  /** The replay repeats the channel's stored request without asking the policy. */
  lemma ReplayPermittedExactly(c: Conn, channel: ChannelId, name: string, target: SelectedTarget,
                               connectOk: bool, openOk: bool, relayOk: bool, dir: Directory)
    requires channel in c.h.channels
    ensures var (c', effects) := Reconnect(c, channel, name, target, connectOk, openOk, relayOk, dir);
            EffectsPermitted(c'.h, effects, dir)
            <==> !ReplayForbidden(c, channel, name, target, connectOk, openOk, relayOk, dir)
  {
    var (c', effects) := Reconnect(c, channel, name, target, connectOk, openOk, relayOk, dir);
    var replay := ReplayOf(c.h.channels[channel].request);
    if ReplayForbidden(c, channel, name, target, connectOk, openOk, relayOk, dir) {
      var sent := Last(effects);
      assert sent in effects && sent.op == replay.value;
    } else if replay.Some? {
      assert forall e <- effects :: e.OnBackend? && Guarded(e.op) ==>
               e.op == replay.value && e.proxyId == c'.h.proxy.value.id;
    }
  }

  lemma MenuInputPermittedExactly(c: Conn, channel: ChannelId, data: seq<Byte>, connectOk: bool, openOk: bool,
                                  relayOk: bool, dir: Directory)
    requires MenuOwns(c.h, channel)
    ensures var (c', effects) := HandleMenuInput(c, channel, data, connectOk, openOk, relayOk, dir);
            var target := SelectedBy(c, channel, data, dir);
            EffectsPermitted(c'.h, effects, dir)
            <==> !(target.Some? && ReplayForbidden(c, channel, c.h.username.value, target.value,
                                                   connectOk, openOk, relayOk, dir))
  {
    MenuInputCases(c, channel, data, connectOk, openOk, relayOk, dir);
    var target := SelectedBy(c, channel, data, dir);
    if target.Some? {
      var fed := Feed(c.h.channels[channel].inputBuffer, c.h.channels[channel].escape, data);
      ReplayPermittedExactly(Edited(c, channel, fed), channel, c.h.username.value, target.value,
                             connectOk, openOk, relayOk, dir);
    }
  }

  /** Every callback asks the policy before it relays a guarded operation, with one exception: the
      replay after a menu selection.  So it is permitted exactly when it is not a forbidden replay. */
  lemma AdvancePermittedExactly(c: Conn, cb: Callback, dir: Directory)
    ensures var (c', effects) := Advance(c, cb, dir);
            EffectsPermitted(c'.h, effects, dir) <==> !CallbackReplaysForbidden(c, cb, dir)
  {
    match cb
    case ClientData(channel, data, connectOk, openOk, relayOk) =>
      if MenuOwns(c.h, channel) {
        MenuInputPermittedExactly(c, channel, data, connectOk, openOk, relayOk, dir);
      }
    case _ =>
  }

  /** The guarded operation that a callback asks for, and whether the backend could take it. */
  function RequestOf(h: Handler, cb: Callback): Option<(Operation, bool)> {
    match cb
    case ExecRequest(channel, command, relayOk) =>
      Some((RequestExec(command), relayOk && h.proxy.Some? && h.proxy.value.Reaches(channel)))
    case SubsystemRequest(channel, name, relayOk) =>
      Some((RequestSubsystem(name), relayOk && h.proxy.Some? && h.proxy.value.Reaches(channel)))
    case DirectTcpip(_, openOk) => Some((OpenDirectTcpip, openOk && h.proxy.Some?))
    case TcpipForward(relayOk) => Some((StartForward, relayOk && h.proxy.Some?))
    case CancelTcpipForward(relayOk) => Some((CancelForward, relayOk && h.proxy.Some?))
    case _ => None
  }

  /** A guarded request reaches the current backend exactly when the policy in force permits it and the
      backend takes it; a denied exec or subsystem request disconnects the client, and one that the
      backend does not take closes its channel. */
  lemma RequestsRelayedExactly(c: Conn, cb: Callback, dir: Directory)
    requires RequestOf(c.h, cb).Some?
    ensures var (op, takes) := RequestOf(c.h, cb).value;
            var effects := Advance(c, cb, dir).1;
            var permitted := c.h.policy.Some? && Permits(c.h.policy.value, op, dir);
            && ((exists e <- effects :: e.OnBackend?) <==> takes && permitted)
            && (takes && permitted ==> effects == [OnBackend(c.h.proxy.value.id, op)])
            && (Disconnected in effects <==>
                  (cb.ExecRequest? || cb.SubsystemRequest?) && c.h.proxy.Some? && c.h.policy.Some? && !permitted)
            && (cb.ExecRequest? || cb.SubsystemRequest? ==>
                  (Closed(cb.channel) in effects <==> c.h.proxy.Some? && permitted && !takes))
  {
    var (op, takes) := RequestOf(c.h, cb).value;
    var effects := Advance(c, cb, dir).1;
    if takes && c.h.policy.Some? && Permits(c.h.policy.value, op, dir) {
      assert effects[0] == OnBackend(c.h.proxy.value.id, op);
    }
  }

  // ---------------------------------------------------------------------------
  // Runs

  datatype Event = Event(cb: Callback, dir: Directory)

  /** What the transport guarantees in a run; configuration may change between any two events. */
  predicate Follows(c: Conn, events: seq<Event>, perUserPerServer: bool)
    decreases |events|
  {
    events != [] ==>
      && events[0].dir.perUserPerServer == perUserPerServer && Lawful(c, events[0].cb)
      && Follows(Advance(c, events[0].cb, events[0].dir).0, events[1..], perUserPerServer)
  }

  predicate NoForbiddenReplay(c: Conn, events: seq<Event>)
    decreases |events|
  {
    events != [] ==>
      && !CallbackReplaysForbidden(c, events[0].cb, events[0].dir)
      && NoForbiddenReplay(Advance(c, events[0].cb, events[0].dir).0, events[1..])
  }

  predicate OneRequestEach(c: Conn, events: seq<Event>)
    decreases |events|
  {
    events != [] ==>
      && OneRequest(c, events[0].cb)
      && OneRequestEach(Advance(c, events[0].cb, events[0].dir).0, events[1..])
  }

  /** Before and after each callback of the run the invariants hold, and what the callback asks of
      the backend is permitted. */
  predicate Safe(c: Conn, events: seq<Event>, perUserPerServer: bool)
    decreases |events|
  {
    && Inv(c, perUserPerServer)
    && (events != [] ==>
          var (c', effects) := Advance(c, events[0].cb, events[0].dir);
          EffectsPermitted(c'.h, effects, events[0].dir) && Safe(c', events[1..], perUserPerServer))
  }

  lemma {:induction false} SafeExactly(c: Conn, events: seq<Event>, perUserPerServer: bool)
    requires Inv(c, perUserPerServer) && Follows(c, events, perUserPerServer)
    ensures Safe(c, events, perUserPerServer) <==> NoForbiddenReplay(c, events)
    decreases |events|
  {
    if events == [] {
    } else {
      var Event(cb, dir) := events[0];
      AdvanceKeeps(c, cb, dir);
      AdvancePermittedExactly(c, cb, dir);
      SafeExactly(Advance(c, cb, dir).0, events[1..], perUserPerServer);
    }
  }

  lemma {:induction false} OneRequestSuffices(c: Conn, events: seq<Event>)
    requires MenuIsShell(c.h) && OneRequestEach(c, events)
    ensures NoForbiddenReplay(c, events)
    decreases |events|
  {
    if events == [] {
    } else {
      var Event(cb, dir) := events[0];
      MenuIsShellKept(c, cb, dir);
      OneRequestSuffices(Advance(c, cb, dir).0, events[1..]);
    }
  }

  // The client's part: nothing is delivered for a channel that the gateway has closed, nor after a
  // disconnect.

  function ClosedBy(effects: seq<Effect>): set<ChannelId> {
    set e | e in effects && e.Closed? :: e.channel
  }

  function ClosedAfter(closed: set<ChannelId>, cb: Callback, effects: seq<Effect>): set<ChannelId> {
    (if cb.ChannelOpenSession? then closed - {cb.channel} else closed) + ClosedBy(effects)
  }

  predicate Touches(cb: Callback, closed: set<ChannelId>) {
    (cb.ShellRequest? || cb.ExecRequest? || cb.SubsystemRequest? || cb.ClientData?) && cb.channel in closed
  }

  predicate OnlyRelayEnds(events: seq<Event>) {
    forall i :: 0 <= i < |events| ==> events[i].cb.RelayEnded?
  }

  predicate Orderly(c: Conn, events: seq<Event>, closed: set<ChannelId>)
    decreases |events|
  {
    events != [] ==>
      var (c', effects) := Advance(c, events[0].cb, events[0].dir);
      && !Touches(events[0].cb, closed)
      && (if Disconnected in effects then OnlyRelayEnds(events[1..])
          else Orderly(c', events[1..], ClosedAfter(closed, events[0].cb, effects)))
  }

  /** A menu channel that is not closed replays at most a shell, and there is a policy to ask. */
  predicate ReplaysShell(h: Handler, closed: set<ChannelId>) {
    && (h.proxy.Some? ==> h.policy.Some?)
    && forall channel <- h.channels ::
         h.channels[channel].menuActive && channel !in closed ==> h.channels[channel].request.Shell?
  }

  /** A request is remembered on its own channel and gives nothing to the menu. */
  lemma RequestRemembered(c: Conn, cb: Callback, dir: Directory)
    requires cb.ShellRequest? || cb.ExecRequest? || cb.SubsystemRequest?
    ensures var h' := Advance(c, cb, dir).0.h;
            && h'.proxy == c.h.proxy && h'.policy == c.h.policy
            && forall other <- h'.channels ::
                 if other != cb.channel then other in c.h.channels && h'.channels[other] == c.h.channels[other]
                 else h'.channels[other].menuActive ==> other in c.h.channels && c.h.channels[other].menuActive
  {
  }

  /** A request on a menu channel, which no backend knows, closes the channel or the connection. */
  lemma MenuRequestCloses(c: Conn, cb: Callback, dir: Directory)
    requires Inv(c, dir.perUserPerServer) && c.h.policy.Some?
    requires cb.ShellRequest? || cb.ExecRequest? || cb.SubsystemRequest?
    requires cb.channel in c.h.channels && c.h.channels[cb.channel].menuActive
    ensures var effects := Advance(c, cb, dir).1; effects == [Disconnected] || effects == [Closed(cb.channel)]
  {
  }

  lemma RequestReplaysShell(c: Conn, cb: Callback, dir: Directory, closed: set<ChannelId>)
    requires Inv(c, dir.perUserPerServer) && ReplaysShell(c.h, closed)
    requires cb.ShellRequest? || cb.ExecRequest? || cb.SubsystemRequest?
    ensures var (c', effects) := Advance(c, cb, dir);
            Disconnected in effects || ReplaysShell(c'.h, ClosedAfter(closed, cb, effects))
  {
    var effects := Advance(c, cb, dir).1;
    RequestRemembered(c, cb, dir);
    if cb.channel in c.h.channels && c.h.channels[cb.channel].menuActive {
      MenuRequestCloses(c, cb, dir);
      assert effects[0] in effects;
      assert effects == [Closed(cb.channel)] ==> cb.channel in ClosedBy(effects);
    }
  }

  lemma ReconnectReplaysShell(c: Conn, channel: ChannelId, name: string, target: SelectedTarget,
                              connectOk: bool, openOk: bool, relayOk: bool, dir: Directory, closed: set<ChannelId>)
    requires ReplaysShell(c.h, closed) && channel in c.h.channels
    ensures var (c', effects) := Reconnect(c, channel, name, target, connectOk, openOk, relayOk, dir);
            Disconnected in effects || (ReplaysShell(c'.h, closed) && ClosedBy(effects) == {})
  {
    ReconnectLeavesMenu(c, channel, name, target, connectOk, openOk, relayOk, dir);
    var (c', effects) := Reconnect(c, channel, name, target, connectOk, openOk, relayOk, dir);
    if !connectOk && ResolveEffectiveAuthorizationPolicy(dir.config, name, target.name, dir.perUserPerServer).Some? {
      assert effects[0] == Disconnected;
    }
  }

  lemma MenuReplaysShell(c: Conn, channel: ChannelId, data: seq<Byte>, connectOk: bool, openOk: bool, relayOk: bool,
                         dir: Directory, closed: set<ChannelId>)
    requires ReplaysShell(c.h, closed) && MenuOwns(c.h, channel) && channel !in closed
    ensures var cb := ClientData(channel, data, connectOk, openOk, relayOk);
            var (c', effects) := HandleMenuInput(c, channel, data, connectOk, openOk, relayOk, dir);
            && !CallbackReplaysForbidden(c, cb, dir)
            && (Disconnected in effects || ReplaysShell(c'.h, ClosedAfter(closed, cb, effects)))
  {
    MenuInputCases(c, channel, data, connectOk, openOk, relayOk, dir);
    var fed := Feed(c.h.channels[channel].inputBuffer, c.h.channels[channel].escape, data);
    var target := SelectedBy(c, channel, data, dir);
    if target.Some? {
      ReconnectReplaysShell(Edited(c, channel, fed), channel, c.h.username.value, target.value,
                            connectOk, openOk, relayOk, dir, closed);
    }
  }

  lemma RelayEndReplaysShell(c: Conn, relay: LiveRelay, aborted: bool, closed: set<ChannelId>)
    requires ReplaysShell(c.h, closed)
    ensures ReplaysShell(HandleRelayEnd(c, relay, aborted).h, closed)
  {
  }

  lemma OpeningReplaysShell(c: Conn, cb: Callback, dir: Directory, closed: set<ChannelId>)
    requires ReplaysShell(c.h, closed) && Lawful(c, cb)
    requires cb.AuthSucceeded? || cb.ChannelOpenSession? || cb.ChannelClose? || cb.DirectTcpip? || cb.BackendOpens?
    ensures var (c', effects) := Advance(c, cb, dir);
            Disconnected in effects || ReplaysShell(c'.h, ClosedAfter(closed, cb, effects))
  {
    if cb.AuthSucceeded? && c.h.username.Some? && c.h.pendingTarget.Some? && !cb.connectOk
       && ResolveEffectiveAuthorizationPolicy(dir.config, c.h.username.value, c.h.pendingTarget.value.name,
                                              dir.perUserPerServer).Some?
    {
      assert Advance(c, cb, dir).1 == [Disconnected];
    }
  }

  lemma OrderlyStep(c: Conn, cb: Callback, dir: Directory, closed: set<ChannelId>)
    requires Inv(c, dir.perUserPerServer) && Lawful(c, cb) && ReplaysShell(c.h, closed) && !Touches(cb, closed)
    ensures var (c', effects) := Advance(c, cb, dir);
            && !CallbackReplaysForbidden(c, cb, dir)
            && (Disconnected in effects || ReplaysShell(c'.h, ClosedAfter(closed, cb, effects)))
  {
    match cb
    case Authenticate(w, input, env) => LoginLeavesConnected(c.h, w, input, env);
    case ClientData(channel, data, connectOk, openOk, relayOk) =>
      if MenuOwns(c.h, channel) {
        MenuReplaysShell(c, channel, data, connectOk, openOk, relayOk, dir, closed);
      }
    case RelayEnded(relay, aborted) => RelayEndReplaysShell(c, relay, aborted, closed);
    case TcpipForward(_) =>
    case CancelTcpipForward(_) =>
    case _ =>
      if cb.ShellRequest? || cb.ExecRequest? || cb.SubsystemRequest? {
        RequestReplaysShell(c, cb, dir, closed);
      } else {
        OpeningReplaysShell(c, cb, dir, closed);
      }
  }

  lemma {:induction false} RelayEndsReplayNothing(c: Conn, events: seq<Event>)
    requires OnlyRelayEnds(events)
    ensures NoForbiddenReplay(c, events)
    decreases |events|
  {
    if events == [] {
    } else {
      RelayEndsReplayNothing(Advance(c, events[0].cb, events[0].dir).0, events[1..]);
    }
  }

  /** A request on a menu channel closes the channel or the connection, so an orderly run replays none. */
  lemma {:induction false} OrderlySuffices(c: Conn, events: seq<Event>, closed: set<ChannelId>, perUserPerServer: bool)
    requires Inv(c, perUserPerServer) && Follows(c, events, perUserPerServer)
    requires ReplaysShell(c.h, closed) && Orderly(c, events, closed)
    ensures NoForbiddenReplay(c, events)
    decreases |events|
  {
    if events == [] {
    } else {
      var Event(cb, dir) := events[0];
      var (c', effects) := Advance(c, cb, dir);
      OrderlyStep(c, cb, dir, closed);
      AdvanceKeeps(c, cb, dir);
      if Disconnected in effects {
        RelayEndsReplayNothing(c', events[1..]);
      } else {
        OrderlySuffices(c', events[1..], ClosedAfter(closed, cb, effects), perUserPerServer);
      }
    }
  }

  /** A run of a fresh connection, over any number of logins, connects, failed connects, disconnects,
      menu selections and configuration changes, is safe exactly when no menu selection replays a
      request that is not permitted.  None does when each channel carries one request, and none does
      when nothing is delivered for a channel that the gateway has closed or after a disconnect. */
  lemma RunsAreSafe(ip: IpAddr, events: seq<Event>, perUserPerServer: bool)
    requires Follows(Conn(NewHandler(ip), multiset{}, 0), events, perUserPerServer)
    ensures var c := Conn(NewHandler(ip), multiset{}, 0);
            && (Safe(c, events, perUserPerServer) <==> NoForbiddenReplay(c, events))
            && (OneRequestEach(c, events) ==> Safe(c, events, perUserPerServer))
            && (Orderly(c, events, {}) ==> Safe(c, events, perUserPerServer))
  {
    var c := Conn(NewHandler(ip), multiset{}, 0);
    SafeExactly(c, events, perUserPerServer);
    if OneRequestEach(c, events) {
      OneRequestSuffices(c, events);
    }
    if Orderly(c, events, {}) {
      OrderlySuffices(c, events, {}, perUserPerServer);
    }
  }
}
