/** Where the code falls short: a replay that the policy forbids, a connection to a target that is no
    longer allowed, and a commit that leaves the configuration invalid.
 */
module Examples {
  import opened Wrappers
  import opened Text
  import opened Config
  import opened RateLimit
  import opened Fail2ban
  import opened Auth
  import opened Session
  import opened Login
  import Relay
  import LineEditor
  import Abuse
  import Gateway
  import GatewaySafety
  import LoginSafety
  import Runs = GatewayRuns

  const ACCEPT_ALL: Crypto := Crypto(_ => true, (_, _) => true, (_, _, _) => true, (_, _) => "$argon2id$")
  const ENV: Env := Env(ACCEPT_ALL, DEFAULTS.(enabled := false))

  const CHECKS: Checks := Checks(_ => true, _ => true, _ => true, _ => true, (_, _) => true)
  const SETTINGS: SettingsConfig := SettingsConfig(None, Some(true), Some(true), None, None, None)
  const SERVERS: Servers := map["a" := "h", "b" := "h"]
  const SETUP: Runs.Setup := Runs.Setup(ENV, CHECKS, true, _ => None)

  /** One keyboard-interactive callback of user `u`. */
  function Typing(text: Option<string>): Input {
    Input("u", if text.None? then None else Some([text.value]), 0, 0.0, 0.0, "s", true, None, true, true)
  }

  lemma TrimOne(s: string)
    requires |s| == 1 && !IsWhitespace(s[0])
    ensures Trim(s) == s
  {
    assert TrimStart(s) == s;
    assert Init(s) + [Last(s)] == s;
  }

  /** The limiter grants a first attempt. */
  lemma FirstAttempt(h: Handler, w: World, name: string, password: string, input: Input)
    requires w.limiter == Limiter(map[], map[])
    ensures var attempt := CheckPaidPassword(h, w, name, password, input, ENV);
            && attempt.w.config == w.config && attempt.w.servers == w.servers && attempt.w.disk == w.disk
            && attempt.user == (match VerifyPassword(w.config.users, name, password, ACCEPT_ALL)
                                case Ok(user) => Some(user)
                                case Err(_) => None)
  {
  }

  // ---------------------------------------------------------------------------
  // A forbidden replay

  /** The user may use both targets, and sftp on `a` only. */
  const USER: UserRecord := UserRecord("u", "$argon2id$", Some("t"), false, ["a", "b"], NO_POLICY)
  const NO_SFTP: AuthorizationPolicyConfig := AuthorizationPolicyConfig(None, None, Some(false), None)
  const CONFIG: ConfigFile := ConfigFile([USER], Sections(SETTINGS, map["b" := map["u" := NO_SFTP]], "", None))
  const WORLD: World := World(CONFIG, SERVERS, Limiter(map[], map[]), Abuse.NO_STATE)
  const DIRECTORY: Gateway.Directory := Gateway.Directory(CONFIG, SERVERS, true, _ => None)

  function Typed(text: Option<string>): Gateway.Callback {
    Gateway.Authenticate(WORLD, Typing(text), ENV)
  }

  const RELAY: Gateway.LiveRelay := Gateway.LiveRelay(0, 0, true)
  const CHOOSE_B: seq<LineEditor.Byte> := [0x32, LineEditor.CR]

  function EventsOf(script: seq<Gateway.Callback>): seq<GatewaySafety.Event> {
    if script == [] then [] else [GatewaySafety.Event(script[0], DIRECTORY)] + EventsOf(script[1..])
  }

  ghost predicate Fails(c: Gateway.Conn, script: seq<Gateway.Callback>) {
    GatewaySafety.Follows(c, EventsOf(script), true) && !GatewaySafety.Safe(c, EventsOf(script), true)
  }

  lemma FailsBefore(c: Gateway.Conn, cb: Gateway.Callback, next: Gateway.Conn, rest: seq<Gateway.Callback>)
    requires GatewaySafety.Lawful(c, cb) && Gateway.Advance(c, cb, DIRECTORY).0 == next && Fails(next, rest)
    ensures Fails(c, [cb] + rest)
  {
    assert ([cb] + rest)[0] == cb && ([cb] + rest)[1..] == rest;
    var events := EventsOf([cb] + rest);
    assert events[0] == GatewaySafety.Event(cb, DIRECTORY) && events[1..] == EventsOf(rest);
  }

  const CONTEXT: PendingAuthContext := PendingAuthContext(USER, None, None)
  const TARGET: SelectedTarget := SelectedTarget("a", "h")
  const START: Handler := NewHandler("192.0.2.1")

  lemma Entries()
    ensures AllowedServerEntries(CONFIG.users, SERVERS, "u") == Some([("a", "h"), ("b", "h")])
  {
    assert FindUser(CONFIG.users, "u") == Some(0) && USER.allowedServers == ["a", "b"];
    assert ["b"][1..] == [] && ["a", "b"][1..] == ["b"];
    assert KnownServers([], SERVERS) == [];
    assert SERVERS["a"] == "h" && SERVERS["b"] == "h";
    assert KnownServers(["b"], SERVERS) == [("b", "h")] + [];
    assert KnownServers(["a", "b"], SERVERS) == [("a", "h")] + ([("b", "h")] + []);
    assert KnownServers(USER.allowedServers, SERVERS) == [("a", "h"), ("b", "h")];
  }

  lemma ParseDigit(text: string, n: nat)
    requires text == "1" || text == "2"
    ensures ParseSelection(text, n)
         == if n < 1 || (text == "2" && n < 2) then None else Some(if text == "1" then 0 else 1)
  {
    TrimOne(text);
    assert Init(text) == "";
    assert DigitsValue(text) == if text == "1" then 1 else 2;
  }

  lemma LoginFails(h: Handler, text: Option<string>, next: Handler, rest: seq<Gateway.Callback>)
    requires AuthKeyboardInteractive(h, WORLD, Typing(text), ENV).h == next
    requires Fails(Gateway.Conn(next, multiset{}, 0), rest)
    ensures Fails(Gateway.Conn(h, multiset{}, 0), [Typed(text)] + rest)
  {
    FailsBefore(Gateway.Conn(h, multiset{}, 0), Typed(text), Gateway.Conn(next, multiset{}, 0), rest);
  }

  const ASKED: Handler := START.(keyboard := Some(AwaitPassword("u")))
  const HALF_WAY: Handler := START.(keyboard := Some(AwaitExistingTotp("u", "p")))
  const CHOOSING: Handler := START.(keyboard := Some(AwaitSelection(CONTEXT)))
  const CHOSEN: Handler := START.(username := Some("u"), pendingTarget := Some(TARGET))

  predicate Serves(w: World, config: ConfigFile) {
    w.config == config && w.servers == SERVERS && w.disk == Abuse.NO_STATE
  }

  lemma Ask(w: World)
    requires Serves(w, CONFIG)
    ensures var step := AuthKeyboardInteractive(START, w, Typing(None), ENV); step.h == ASKED && step.w == w
  {
    TrimOne("u");
  }

  lemma GivePassword(w: World)
    requires Serves(w, CONFIG)
    ensures var step := AuthKeyboardInteractive(ASKED, w, Typing(Some("p")), ENV); step.h == HALF_WAY && step.w == w
  {
    TrimOne("u");
    assert FindUser(CONFIG.users, "u") == Some(0);
  }

  lemma CodeAccepted(w: World)
    requires Serves(w, CONFIG) && w.limiter == Limiter(map[], map[])
    ensures var step := HandleExistingTotpResponse(START, w, "u", "p", "c", Typing(Some("c")), ENV);
            step.h == CHOOSING && Serves(step.w, CONFIG)
  {
    FirstAttempt(START, w, "u", "p", Typing(Some("c")));
    assert FindLast(CONFIG.users, "u") == Some(USER);
  }

  lemma GiveCode(w: World)
    requires Serves(w, CONFIG) && w.limiter == Limiter(map[], map[])
    ensures var step := AuthKeyboardInteractive(HALF_WAY, w, Typing(Some("c")), ENV);
            step.h == CHOOSING && Serves(step.w, CONFIG)
  {
    TrimOne("u");
    CodeAccepted(w);
    assert PreAuth(HALF_WAY, w, Typing(Some("c")), ENV) == (w, true);
    assert AuthKeyboardInteractive(HALF_WAY, w, Typing(Some("c")), ENV)
        == Respond(START, w, AwaitExistingTotp("u", "p"), "c", Typing(Some("c")), ENV);
  }

  lemma ChooseA(w: World)
    requires Serves(w, CONFIG)
    ensures var step := AuthKeyboardInteractive(CHOOSING, w, Typing(Some("1")), ENV); step.h == CHOSEN && step.w == w
  {
    TrimOne("u");
    TrimOne("1");
    Entries();
    ParseDigit("1", 2);
  }

  const POLICY_A: EffectiveAuthorizationPolicy := NO_POLICY.Resolve()
  const PROXY: ProxySession := ProxySession(0, "u", TARGET, CONFIG, {}, {})
  /** Logged in, connected to `a`, and given `state` on channel 0. */
  function Connected(sessions: set<ChannelId>, state: Option<ChannelState>): Handler {
    START.(username := Some("u"), pendingTarget := Some(TARGET), policy := Some(POLICY_A),
           proxy := Some(PROXY.(sessions := sessions)),
           channels := if state.Some? then map[0 := state.value] else map[])
  }

  function After(h: Handler, relays: multiset<Gateway.LiveRelay>): Gateway.Conn {
    Gateway.Conn(h, relays, 1)
  }

  const LOGGED_IN: Gateway.Conn := Gateway.Conn(CHOSEN, multiset{}, 0)
  const SHELL: ChannelState := NEW_CHANNEL.(request := Relay.Shell)
  const MENU: ChannelState := SHELL.(menuActive := true)
  const ASKED_SFTP: ChannelState := MENU.(request := Relay.Subsystem("sftp"))

  lemma Connect()
    ensures Gateway.Advance(LOGGED_IN, Gateway.AuthSucceeded(true), DIRECTORY).0
         == After(Connected({}, None), multiset{})
  {
    assert FindUser(CONFIG.users, "u") == Some(0);
  }

  lemma OpenChannel()
    ensures Gateway.Advance(After(Connected({}, None), multiset{}), Gateway.ChannelOpenSession(0, true), DIRECTORY).0
         == After(Connected({0}, Some(NEW_CHANNEL)), multiset{RELAY})
  {
    var none: map<ChannelId, ChannelState> := map[];
    assert none[0 := NEW_CHANNEL] == map[0 := NEW_CHANNEL];
    assert {} + {0} == {0} && multiset{} + multiset{RELAY} == multiset{RELAY};
  }

  lemma AskShell()
    ensures Gateway.Advance(After(Connected({0}, Some(NEW_CHANNEL)), multiset{RELAY}), Gateway.ShellRequest(0, true),
                            DIRECTORY).0 == After(Connected({0}, Some(SHELL)), multiset{RELAY})
  {
    assert map[0 := NEW_CHANNEL][0 := SHELL] == map[0 := SHELL];
  }

  lemma EndShell()
    ensures Gateway.Advance(After(Connected({0}, Some(SHELL)), multiset{RELAY}), Gateway.RelayEnded(RELAY, false),
                            DIRECTORY).0 == After(Connected({}, Some(MENU)), multiset{})
  {
    assert {0} - {0} == {} && multiset{RELAY} - multiset{RELAY} == multiset{};
    assert map[0 := SHELL][0 := MENU] == map[0 := MENU];
  }

  lemma AskSftp()
    ensures Gateway.Advance(After(Connected({}, Some(MENU)), multiset{}), Gateway.SubsystemRequest(0, "sftp", true),
                            DIRECTORY).0 == After(Connected({}, Some(ASKED_SFTP)), multiset{})
  {
    assert map[0 := MENU][0 := ASKED_SFTP] == map[0 := ASKED_SFTP];
  }

  lemma TypeTwo()
    ensures var fed := LineEditor.Feed([], LineEditor.Normal, CHOOSE_B);
            fed.submitted.Some? && Gateway.TextOf(fed.submitted.value) == "2"
  {
    var none, line: seq<LineEditor.Byte> := [], [0x32];
    assert none + [0x32] == line;
    assert LineEditor.FeedOne(none, LineEditor.Normal, 0x32) == LineEditor.Line(line, LineEditor.Normal, None);
    assert CHOOSE_B[1..] == [LineEditor.CR];
    assert Gateway.TextOf(line) == "2";
  }

  lemma ChoiceOfB()
    ensures var c := After(Connected({}, Some(ASKED_SFTP)), multiset{});
            GatewaySafety.SelectedBy(c, 0, CHOOSE_B, DIRECTORY) == Some(SelectedTarget("b", "h"))
  {
    TrimOne("2");
    ParseDigit("2", 2);
    TypeTwo();
    Entries();
  }

  lemma OneEvent(cb: Gateway.Callback)
    ensures EventsOf([cb]) == [GatewaySafety.Event(cb, DIRECTORY)]
  {
    assert [cb][1..] == [];
  }

  lemma ForbiddenHere()
    ensures GatewaySafety.CallbackReplaysForbidden(After(Connected({}, Some(ASKED_SFTP)), multiset{}), CHOICE,
                                                   DIRECTORY)
  {
    ChoiceOfB();
    assert FindUser(CONFIG.users, "u") == Some(0);
    assert ResolveEffectiveAuthorizationPolicy(CONFIG, "u", "b", true) == Some(NO_SFTP.Resolve());
  }

  lemma ChoiceFails()
    ensures Fails(After(Connected({}, Some(ASKED_SFTP)), multiset{}), [CHOICE])
  {
    ForbiddenHere();
    GatewaySafety.AdvancePermittedExactly(After(Connected({}, Some(ASKED_SFTP)), multiset{}), CHOICE, DIRECTORY);
    OneEvent(CHOICE);
    assert [GatewaySafety.Event(CHOICE, DIRECTORY)][1..] == [];
  }

  const CHOICE: Gateway.Callback := Gateway.ClientData(0, CHOOSE_B, true, true, true)

  const MENU_SCRIPT: seq<Gateway.Callback> :=
    [Gateway.RelayEnded(RELAY, false)] + ([Gateway.SubsystemRequest(0, "sftp", true)] + [CHOICE])

  function SessionScript(rest: seq<Gateway.Callback>): seq<Gateway.Callback> {
    [Gateway.AuthSucceeded(true)] + ([Gateway.ChannelOpenSession(0, true)] + ([Gateway.ShellRequest(0, true)] + rest))
  }

  function LoginScript(rest: seq<Gateway.Callback>): seq<Gateway.Callback> {
    [Typed(None)] + ([Typed(Some("p"))] + ([Typed(Some("c"))] + ([Typed(Some("1"))] + rest)))
  }

  lemma MenuFails()
    ensures Fails(After(Connected({0}, Some(SHELL)), multiset{RELAY}), MENU_SCRIPT)
  {
    var menu, asked := After(Connected({}, Some(MENU)), multiset{}), After(Connected({}, Some(ASKED_SFTP)), multiset{});
    ChoiceFails();
    AskSftp();
    FailsBefore(menu, Gateway.SubsystemRequest(0, "sftp", true), asked, [CHOICE]);
    EndShell();
    FailsBefore(After(Connected({0}, Some(SHELL)), multiset{RELAY}), Gateway.RelayEnded(RELAY, false), menu,
                [Gateway.SubsystemRequest(0, "sftp", true)] + [CHOICE]);
  }

  lemma SessionFails(rest: seq<Gateway.Callback>)
    requires Fails(After(Connected({0}, Some(SHELL)), multiset{RELAY}), rest)
    ensures Fails(LOGGED_IN, SessionScript(rest))
  {
    var idle := After(Connected({}, None), multiset{});
    var started := After(Connected({0}, Some(NEW_CHANNEL)), multiset{RELAY});
    var shell := [Gateway.ShellRequest(0, true)] + rest;
    AskShell();
    FailsBefore(started, Gateway.ShellRequest(0, true), After(Connected({0}, Some(SHELL)), multiset{RELAY}), rest);
    OpenChannel();
    FailsBefore(idle, Gateway.ChannelOpenSession(0, true), started, shell);
    Connect();
    FailsBefore(LOGGED_IN, Gateway.AuthSucceeded(true), idle, [Gateway.ChannelOpenSession(0, true)] + shell);
  }

  lemma SecondHalfFails(rest: seq<Gateway.Callback>)
    requires Fails(LOGGED_IN, rest)
    ensures Fails(Gateway.Conn(HALF_WAY, multiset{}, 0), [Typed(Some("c"))] + ([Typed(Some("1"))] + rest))
  {
    ChooseA(WORLD);
    LoginFails(CHOOSING, Some("1"), CHOSEN, rest);
    GiveCode(WORLD);
    LoginFails(HALF_WAY, Some("c"), CHOOSING, [Typed(Some("1"))] + rest);
  }

  lemma FirstHalfFails(rest: seq<Gateway.Callback>)
    requires Fails(Gateway.Conn(HALF_WAY, multiset{}, 0), rest)
    ensures Fails(Gateway.Conn(START, multiset{}, 0), [Typed(None)] + ([Typed(Some("p"))] + rest))
  {
    GivePassword(WORLD);
    LoginFails(ASKED, Some("p"), HALF_WAY, rest);
    Ask(WORLD);
    LoginFails(START, None, ASKED, [Typed(Some("p"))] + rest);
  }

  lemma ConfigsValid()
    ensures ValidConfig(CONFIG, SERVERS, CHECKS) && ValidConfig(REVOKED, SERVERS, CHECKS)
  {
    assert FindUser(CONFIG.users, "u") == Some(0) && FindUser(REVOKED.users, "u") == Some(0);
    assert "u"[1..] == "" && "a"[1..] == "" && "b"[1..] == "" && "a" in SERVERS && "b" in SERVERS;
    forall name <- SERVERS ensures ServerOk(name, SERVERS, CHECKS) {
      assert name == "a" || name == "b";
    }
    assert UserOk(CONFIG.users[0], SERVERS, CHECKS) && UserOk(REVOKED.users[0], SERVERS, CHECKS);
    assert PolicyTargetOk("b", "u", CONFIG.users) && PolicyTargetOk("b", "u", REVOKED.users);
  }

  /** A run of a fresh connection, under a valid configuration, that is not safe: login to `a`, a shell
      that ends, an sftp request on its channel under a policy that permits it, and the choice of `b`,
      whose policy does not permit what is then replayed.  The gateway answers the sftp request with a
      close of the channel (section 5.3 of RFC 4254); the run needs a client that sends on it
      nevertheless, since no orderly run is unsafe. */
  lemma ForbiddenReplayReached()
    ensures ValidConfig(CONFIG, SERVERS, CHECKS)
    ensures Fails(Gateway.Conn(START, multiset{}, 0), LoginScript(SessionScript(MENU_SCRIPT)))
    ensures !GatewaySafety.Orderly(Gateway.Conn(START, multiset{}, 0),
                                   EventsOf(LoginScript(SessionScript(MENU_SCRIPT))), {})
  {
    ConfigsValid();
    MenuFails();
    SessionFails(MENU_SCRIPT);
    SecondHalfFails(SessionScript(MENU_SCRIPT));
    FirstHalfFails([Typed(Some("c"))] + ([Typed(Some("1"))] + SessionScript(MENU_SCRIPT)));
    GatewaySafety.RunsAreSafe("192.0.2.1", EventsOf(LoginScript(SessionScript(MENU_SCRIPT))), true);
  }

  // ---------------------------------------------------------------------------
  // A target that is no longer allowed

  const REVOKED: ConfigFile := CONFIG.(users := [USER.(allowedServers := ["b"])])

  /** The administrator takes target `a` away between its selection and the connection to it. */
  const REVOKED_RUN: seq<Runs.Event> :=
    [Runs.Open(0, "192.0.2.1"), Runs.Keyboard(0, Typing(None)), Runs.Keyboard(0, Typing(Some("p"))),
     Runs.Keyboard(0, Typing(Some("c"))), Runs.Keyboard(0, Typing(Some("1"))), Runs.Reload(REVOKED, SERVERS),
     Runs.Channel(0, Gateway.AuthSucceeded(true))]

  /** The only connection is in phase `h`, under `config`. */
  predicate At(sys: Runs.System, h: Handler, config: ConfigFile) {
    0 in sys.connections && sys.connections[0].conn.h == h && Serves(sys.w, config)
  }

  /** After the events user `u` is connected to `a`, which is not allowed. */
  ghost predicate EndsRevoked(sys: Runs.System, events: seq<Runs.Event>) {
    var last := Runs.Run(sys, events, SETUP);
    && 0 in last.connections && last.connections[0].conn.h.proxy.Some?
    && last.connections[0].conn.h.proxy.value.username == "u"
    && last.connections[0].conn.h.proxy.value.target == TARGET
    && !LoginSafety.TargetAllowed(last.w, "u", TARGET)
  }

  lemma RevokedBefore(sys: Runs.System, i: nat)
    requires i < |REVOKED_RUN| && EndsRevoked(Runs.Advance(sys, REVOKED_RUN[i], SETUP).0, REVOKED_RUN[i + 1..])
    ensures EndsRevoked(sys, REVOKED_RUN[i..])
  {
    assert REVOKED_RUN[i..][0] == REVOKED_RUN[i] && REVOKED_RUN[i..][1..] == REVOKED_RUN[i + 1..];
  }

  lemma ConnectRevoked(sys: Runs.System)
    requires At(sys, CHOSEN, REVOKED)
    ensures EndsRevoked(sys, REVOKED_RUN[6..])
  {
    assert FindUser(REVOKED.users, "u") == Some(0);
    assert REVOKED_RUN[7..] == [];
    RevokedBefore(sys, 6);
  }

  lemma RevokeChosen(sys: Runs.System)
    requires At(sys, CHOSEN, CONFIG)
    ensures EndsRevoked(sys, REVOKED_RUN[5..])
  {
    ConfigsValid();
    ConnectRevoked(Runs.Advance(sys, REVOKED_RUN[5], SETUP).0);
    RevokedBefore(sys, 5);
  }

  lemma ChooseRevoked(sys: Runs.System)
    requires At(sys, CHOOSING, CONFIG)
    ensures EndsRevoked(sys, REVOKED_RUN[4..])
  {
    ChooseA(sys.w);
    RevokeChosen(Runs.Advance(sys, REVOKED_RUN[4], SETUP).0);
    RevokedBefore(sys, 4);
  }

  lemma LoginRevoked(sys: Runs.System)
    requires At(sys, ASKED, CONFIG) && sys.w.limiter == Limiter(map[], map[])
    ensures EndsRevoked(sys, REVOKED_RUN[2..])
  {
    var halfWay := Runs.Advance(sys, REVOKED_RUN[2], SETUP).0;
    GivePassword(sys.w);
    GiveCode(sys.w);
    ChooseRevoked(Runs.Advance(halfWay, REVOKED_RUN[3], SETUP).0);
    RevokedBefore(halfWay, 3);
    RevokedBefore(sys, 2);
  }

  lemma AskRevoked(sys: Runs.System)
    requires At(sys, START, CONFIG) && sys.w.limiter == Limiter(map[], map[])
    ensures EndsRevoked(sys, REVOKED_RUN[1..])
  {
    Ask(sys.w);
    LoginRevoked(Runs.Advance(sys, REVOKED_RUN[1], SETUP).0);
    RevokedBefore(sys, 1);
  }

  /** The target selected at login is not checked again when the connection to it is made: a run from
      a valid configuration, in which another valid one is loaded, connects to a target that the
      configuration in force does not allow. */
  lemma RevokedTargetConnects()
    ensures ValidConfig(CONFIG, SERVERS, CHECKS) && ValidConfig(REVOKED, SERVERS, CHECKS)
    ensures EndsRevoked(Runs.System(WORLD, map[]), REVOKED_RUN)
  {
    var start := Runs.System(WORLD, map[]);
    ConfigsValid();
    AskRevoked(Runs.Advance(start, REVOKED_RUN[0], SETUP).0);
    RevokedBefore(start, 0);
    assert REVOKED_RUN[0..] == REVOKED_RUN;
  }

  // ---------------------------------------------------------------------------
  // A commit that leaves the configuration invalid

  /** The user without a secret, first with a hash, then with a new bootstrap password. */
  function PlainUser(password: string, mustChange: bool): UserRecord {
    UserRecord("u", password, None, mustChange, ["a"], NO_POLICY)
  }

  function PlainConfig(user: UserRecord): ConfigFile {
    ConfigFile([user], Sections(SETTINGS, map[], "", None))
  }

  const HASHED: ConfigFile := PlainConfig(PlainUser("$argon2id$", false))
  const RESET: ConfigFile := PlainConfig(PlainUser("x", true))

  /** The administrator resets the password between the login and its last answer. */
  const RESET_RUN: seq<Runs.Event> :=
    [Runs.Open(0, "192.0.2.1"), Runs.Keyboard(0, Typing(None)), Runs.Keyboard(0, Typing(Some("p"))),
     Runs.Reload(RESET, SERVERS), Runs.Keyboard(0, Typing(Some("c")))]

  lemma PlainConfigsValid()
    ensures ValidConfig(HASHED, SERVERS, CHECKS) && ValidConfig(RESET, SERVERS, CHECKS)
  {
    TrimOne("x");
    assert "u"[1..] == "" && "a"[1..] == "" && "b"[1..] == "" && "x"[1..] == "";
    assert !StartsWith("x", "$argon2id$");
    assert "a" in SERVERS;
    forall name <- SERVERS ensures ServerOk(name, SERVERS, CHECKS) {
      assert name == "a" || name == "b";
    }
    assert UserOk(HASHED.users[0], SERVERS, CHECKS) && UserOk(RESET.users[0], SERVERS, CHECKS);
  }

  const PLAIN: Handler := START.(keyboard := Some(AwaitPassword("u")))
  const ENROLLING: Handler :=
    START.(keyboard := Some(AwaitEnrollmentTotp(PendingAuthContext(PlainUser("$argon2id$", false), None, None), "s")))

  lemma AskPlain(sys: Runs.System)
    requires At(sys, START, HASHED)
    ensures At(Runs.Advance(sys, RESET_RUN[1], SETUP).0, PLAIN, HASHED)
    ensures Runs.Advance(sys, RESET_RUN[1], SETUP).0.w.limiter == sys.w.limiter
  {
    TrimOne("u");
  }

  lemma GivePlainPassword(sys: Runs.System)
    requires At(sys, PLAIN, HASHED) && sys.w.limiter == Limiter(map[], map[])
    ensures At(Runs.Advance(sys, RESET_RUN[2], SETUP).0, ENROLLING, HASHED)
  {
    TrimOne("u");
    FirstAttempt(START, sys.w, "u", "p", Typing(Some("p")));
    assert FindUser(HASHED.users, "u") == Some(0);
    assert FindLast(HASHED.users, "u") == Some(HASHED.users[0]);
  }

  lemma CommitInvalid(w: World, events: seq<AuthEvent>)
    requires w.config == RESET && w.servers == SERVERS
    ensures var context := PendingAuthContext(PlainUser("$argon2id$", false), None, None);
            var after := CommitPendingUpdates(START, w, context, "s", Typing(Some("c")), events).w;
            !ValidConfig(after.config, SERVERS, CHECKS)
  {
    var context := PendingAuthContext(PlainUser("$argon2id$", false), None, None);
    assert FindUser(RESET.users, "u") == Some(0);
    assert !StartsWith("x", "$argon2id$");
    PlainConfigsValid();
    LoginSafety.CommitKeepsValidExactly(START, w, context, "s", Typing(Some("c")), CHECKS);
  }

  lemma EnrollmentInvalid(w: World)
    requires w.config == RESET && w.servers == SERVERS
    ensures var context := PendingAuthContext(PlainUser("$argon2id$", false), None, None);
            var after := HandleEnrollmentResponse(START, w, context, "s", "c", Typing(Some("c")), ENV).w;
            !ValidConfig(after.config, SERVERS, CHECKS)
  {
    CommitInvalid(Succeeded(START, w, Typing(Some("c")), ENV), [FreshCodeVerified("u", "s", Trim("c"), 0)]);
  }

  lemma GiveFreshCode(w: World)
    requires w.disk == Abuse.NO_STATE
    ensures AuthKeyboardInteractive(ENROLLING, w, Typing(Some("c")), ENV)
         == HandleEnrollmentResponse(START, w, PendingAuthContext(PlainUser("$argon2id$", false), None, None), "s", "c",
                                     Typing(Some("c")), ENV)
  {
    TrimOne("u");
  }

  lemma CommitAfterReset(sys: Runs.System)
    requires At(sys, ENROLLING, RESET)
    ensures !ValidConfig(Runs.Advance(sys, RESET_RUN[4], SETUP).0.w.config, SERVERS, CHECKS)
  {
    GiveFreshCode(sys.w);
    EnrollmentInvalid(sys.w);
  }

  ghost predicate EndsInvalid(sys: Runs.System, events: seq<Runs.Event>) {
    !ValidConfig(Runs.Run(sys, events, SETUP).w.config, SERVERS, CHECKS)
  }

  lemma InvalidBefore(sys: Runs.System, i: nat)
    requires i < |RESET_RUN| && EndsInvalid(Runs.Advance(sys, RESET_RUN[i], SETUP).0, RESET_RUN[i + 1..])
    ensures EndsInvalid(sys, RESET_RUN[i..])
  {
    assert RESET_RUN[i..][0] == RESET_RUN[i] && RESET_RUN[i..][1..] == RESET_RUN[i + 1..];
  }

  lemma EnrollingInvalid(sys: Runs.System)
    requires At(sys, ENROLLING, HASHED)
    ensures EndsInvalid(sys, RESET_RUN[3..])
  {
    PlainConfigsValid();
    var reset := Runs.Advance(sys, RESET_RUN[3], SETUP).0;
    CommitAfterReset(reset);
    assert RESET_RUN[5..] == [];
    InvalidBefore(reset, 4);
    InvalidBefore(sys, 3);
  }

  lemma AskedInvalid(sys: Runs.System)
    requires At(sys, PLAIN, HASHED) && sys.w.limiter == Limiter(map[], map[])
    ensures EndsInvalid(sys, RESET_RUN[2..])
  {
    GivePlainPassword(sys);
    EnrollingInvalid(Runs.Advance(sys, RESET_RUN[2], SETUP).0);
    InvalidBefore(sys, 2);
  }

  /** Both configurations that were loaded validate, and the one the run leaves in memory does not. */
  lemma ResetRunInvalid()
    ensures ValidConfig(HASHED, SERVERS, CHECKS) && ValidConfig(RESET, SERVERS, CHECKS)
    ensures EndsInvalid(Runs.System(World(HASHED, SERVERS, Limiter(map[], map[]), Abuse.NO_STATE), map[]), RESET_RUN)
  {
    var start := Runs.System(World(HASHED, SERVERS, Limiter(map[], map[]), Abuse.NO_STATE), map[]);
    var first := Runs.Advance(start, RESET_RUN[0], SETUP).0;
    PlainConfigsValid();
    AskPlain(first);
    AskedInvalid(Runs.Advance(first, RESET_RUN[1], SETUP).0);
    InvalidBefore(first, 1);
    InvalidBefore(start, 0);
    assert RESET_RUN[0..] == RESET_RUN;
  }
}
