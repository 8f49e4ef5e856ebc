/** The state of one client connection: the fields of `GatewayHandler` (src/ssh/mod.rs) and of
    the proxy session it holds (src/ssh/proxy.rs).
 */
module Session {
  import opened Wrappers
  import opened Text
  import opened Config
  import opened Relay
  import opened LineEditor

  type ChannelId = nat

  datatype SelectedTarget = SelectedTarget(name: string, host: string)

  datatype PendingAuthContext = PendingAuthContext(
    user: UserRecord, newPasswordHash: Option<string>, loginPassword: Option<string>)

  datatype PasswordPolicyConfig = PasswordPolicyConfig(enforce: bool, minLength: nat)

  datatype KeyboardAuthState =
    | AwaitPassword(username: string)
    | AwaitExistingTotp(username: string, password: string)
    | AwaitNewPassword(context: PendingAuthContext, policy: PasswordPolicyConfig)
    | AwaitConfirmPassword(context: PendingAuthContext, policy: PasswordPolicyConfig, candidate: string)
    | AwaitEnrollmentTotp(context: PendingAuthContext, secret: string)
    | AwaitSelection(context: PendingAuthContext)

  /** A connection to a backend; `config` is the snapshot it was made under.  Forwarded channels
      are `raw`: requests and data on them reach the backend too. */
  datatype ProxySession = ProxySession(
    id: nat, username: string, target: SelectedTarget, config: ConfigFile, sessions: set<ChannelId>,
    raw: set<ChannelId>)
  {
    /** `backend_channel` finds the channel. */
    predicate Reaches(channel: ChannelId) {
      channel in sessions || channel in raw
    }
  }

  datatype ChannelState = ChannelState(
    request: SessionRequest, menuActive: bool, inputBuffer: seq<Byte>, escape: EscapeState)

  const NEW_CHANNEL: ChannelState := ChannelState(NoRequest, false, [], Normal)

  datatype Handler = Handler(
    peerIp: IpAddr, keyboard: Option<KeyboardAuthState>, username: Option<string>,
    pendingTarget: Option<SelectedTarget>, policy: Option<EffectiveAuthorizationPolicy>,
    proxy: Option<ProxySession>, channels: map<ChannelId, ChannelState>)

  function NewHandler(ip: IpAddr): Handler {
    Handler(ip, None, None, None, None, None, map[])
  }

  /** Both menus quit on a lone `q`. */
  predicate IsQuit(text: string) {
    Trim(text) == "q" || Trim(text) == "Q"
  }

  /** The index chosen from a menu of `n` entries. */
  function ParseSelection(text: string, n: nat): (r: Option<nat>)
    ensures r.Some? ==> r.value < n
  {
    match ParseUsize(Trim(text))
    case None => None
    case Some(value) => if 0 < value <= n then Some(value - 1) else None
  }
}
