/** The connection object of src/ssh/mod.rs.  Its methods change its fields and the shared store,
    limiter and abuse tracker in place.  `AuthKeyboardInteractive` and `Deliver` are its callbacks: they
    do what `Login` and `Gateway` say, and keep what is proved there and in `GatewayRuns`.
 */
module HandlerObject {
  import opened Wrappers
  import opened Text
  import opened Config
  import opened Relay
  import opened LineEditor
  import opened RateLimit
  import opened Auth
  import opened Session
  import opened App
  import Login
  import LoginSafety
  import Gateway
  import GatewaySafety
  import Runs = GatewayRuns
  import Tokenizer

  class GatewayHandler {
    const state: AppState
    const dummyHash: string
    const peerIp: IpAddr
    const perUserPerServer: bool
    const decode: Bytes -> Option<string>

    var keyboardAuthState: Option<KeyboardAuthState>
    var authenticatedUsername: Option<string>
    var pendingTarget: Option<SelectedTarget>
    var activePolicy: Option<EffectiveAuthorizationPolicy>
    var proxySession: Option<ProxySession>
    var sessionChannelState: map<ChannelId, ChannelState>
    var nextProxy: nat
    /** Relay tasks that have been spawned and have not returned. */
    ghost var relays: multiset<Gateway.LiveRelay>
    /** What the connection has put on record. */
    ghost var journal: seq<Login.AuthEvent>

    ghost predicate Wired()
      reads state, state.Repr
    {
      state.Wired() && this !in state.Repr && state.env.crypto.parsesHash(dummyHash)
    }

    ghost function View(): Handler
      reads this
    {
      Handler(peerIp, keyboardAuthState, authenticatedUsername, pendingTarget, activePolicy, proxySession,
              sessionChannelState)
    }

    /** The abstract value of the connection's channel side. */
    ghost function ConnView(): Gateway.Conn
      reads this
    {
      Gateway.Conn(View(), relays, nextProxy)
    }

    ghost function Connection(): Runs.Connection
      reads this
    {
      Runs.Connection(ConnView(), journal)
    }

    /** What every callback relies on and keeps: phases fit their contexts and the record, identity
        and backend session have been earned, policy and backend go together, and each channel is
        either the menu's or the backend's. */
    ghost predicate Valid()
      reads this, state, state.Repr
    {
      && Wired() && state.Valid()
      && Runs.ConnectionInv(Connection()) && GatewaySafety.Inv(ConnView(), perUserPerServer)
    }

    /** The input with the outcome that editing and writing the store for `name` will have. */
    ghost function Written(name: string, input: Login.Input): Login.Input
      reads state.store
    {
      input.(commitOk := input.commitOk && state.store.CanEdit(name))
    }

    ghost function Outcome(phase: KeyboardAuthState, input: Login.Input): Login.Input
      reads state.store
    {
      if phase.AwaitEnrollmentTotp? then Written(phase.context.user.name, input) else input
    }

    /** The input as the present phase will find it. */
    ghost function PresentOutcome(input: Login.Input): Login.Input
      reads this, state.store
    {
      if keyboardAuthState.Some? then Outcome(keyboardAuthState.value, input) else input
    }

    /** The connection's own fields do not matter to the shared state. */
    twostate lemma StaysWired()
      requires old(Wired()) && unchanged(old(state.Repr))
      ensures Wired()
    {
    }

    /** What a callback of the channel side sees. */
    ghost function Directory(): Gateway.Directory
      reads state
    {
      Gateway.Directory(state.world.config, state.world.servers, perUserPerServer, decode)
    }

    constructor (state: AppState, dummyHash: string, peerIp: IpAddr, perUserPerServer: bool,
                 decode: Bytes -> Option<string>)
      requires state.Valid() && state.env.crypto.parsesHash(dummyHash)
      ensures Valid() && journal == [] && this.state == state
      ensures ConnView() == Gateway.Conn(NewHandler(peerIp), multiset{}, 0)
    {
      this.state, this.dummyHash, this.peerIp := state, dummyHash, peerIp;
      this.perUserPerServer, this.decode := perUserPerServer, decode;
      keyboardAuthState, authenticatedUsername, pendingTarget := None, None, None;
      activePolicy, proxySession, sessionChannelState := None, None, map[];
      nextProxy, relays, journal := 0, multiset{}, [];
    }

    ghost method Record(log: seq<Login.AuthEvent>)
      requires Wired()
      modifies this`journal
      ensures Wired() && journal == old(journal) + log
    {
      journal := journal + log;
      StaysWired();
    }

    // -------------------------------------------------------------------------
    // Login

    method PromptSelection(name: string) returns (reply: Login.Reply)
      requires Wired()
      ensures Login.Step(View(), state.world, reply, []) == Login.PromptSelection(View(), state.world, name)
    {
      var config, servers := state.Snapshot();
      var entries := AllowedServerEntries(config.users, servers, name);
      reply := if entries.None? then Login.Dropped else Login.Ask(Login.SelectionPrompt);
    }

    method AdvanceAfterInitialAuth(user: UserRecord, policy: PasswordPolicyConfig, input: Login.Input)
      returns (reply: Login.Reply, ghost log: seq<Login.AuthEvent>)
      requires Wired()
      modifies this`keyboardAuthState
      ensures Wired() && state.Repr == old(state.Repr)
      ensures Login.Step(View(), state.world, reply, log)
           == Login.AdvanceAfterInitialAuth(old(View()), old(state.world), user, policy, input)
    {
      var context := PendingAuthContext(user, None, None);
      log := [];
      if user.mustChangePassword {
        keyboardAuthState := Some(AwaitNewPassword(context, policy));
        return Login.Ask(Login.NewPasswordPrompt), [];
      }
      if user.totpSecret.Some? {
        keyboardAuthState := Some(AwaitSelection(context));
        reply := PromptSelection(user.name);
        return;
      }
      if !input.urlOk {
        return Login.Dropped, [];
      }
      keyboardAuthState := Some(AwaitEnrollmentTotp(context, input.freshSecret));
      return Login.Ask(Login.EnrollmentPrompt), Login.IssuedTo(user, input);
    }

    /** Pays for a login attempt and, if both tokens were there, checks the login password. */
    method CheckPaidPassword(name: string, password: string, input: Login.Input)
      returns (user: Option<UserRecord>, ghost log: seq<Login.AuthEvent>)
      requires Wired() && LimiterOk(state.world.limiter, input.mono)
      modifies state.Repr
      ensures Wired() && fresh(state.Repr - old(state.Repr)) && state.store.file == old(state.store.file)
      ensures Login.Attempt(state.world, user, log)
           == Login.CheckPaidPassword(View(), old(state.world), name, password, input, state.env)
    {
      ghost var request := Login.RequestOf(View(), name, input);
      var ok := state.ConsumeToken(View(), peerIp, name, input);
      if !ok {
        return None, [Login.TokenConsumed(request, false)];
      }
      var checked := state.VerifyPassword(name, password, dummyHash);
      user := if checked.Ok? then Some(checked.value) else None;
      log := [Login.TokenConsumed(request, true), Login.PasswordChecked(request)];
    }

    /** The login password, and the code when the user has a secret. */
    method CheckPaidFactors(name: string, password: string, code: string, input: Login.Input)
      returns (user: Option<UserRecord>, ghost log: seq<Login.AuthEvent>)
      requires Wired() && LimiterOk(state.world.limiter, input.mono)
      modifies state.Repr
      ensures Wired() && fresh(state.Repr - old(state.Repr))
      ensures Login.Attempt(state.world, user, log)
           == Login.CheckPaidFactors(View(), old(state.world), name, password, code, input, state.env)
    {
      user, log := CheckPaidPassword(name, password, input);
      if user.Some? {
        if CodeAccepted(user.value, code, input.wall, state.env.crypto) {
          log := log + Login.FactorsOf(user.value, password, Some(code), input.wall);
        } else {
          user := None;
        }
      }
    }

    method HandlePasswordResponse(name: string, password: string, input: Login.Input)
      returns (reply: Login.Reply, ghost log: seq<Login.AuthEvent>)
      requires Wired() && LimiterOk(state.world.limiter, input.mono)
      modifies this`keyboardAuthState, state.Repr
      ensures Wired() && fresh(state.Repr - old(state.Repr))
      ensures Login.Step(View(), state.world, reply, log)
           == Login.HandlePasswordResponse(old(View()), old(state.world), name, password, input, state.env)
    {
      var config, _ := state.Snapshot();
      var found := FindUser(config.users, name);
      if Login.ShouldPromptExistingTotp(if found.Some? then Some(config.users[found.value]) else None) {
        keyboardAuthState := Some(AwaitExistingTotp(name, password));
        StaysWired();
        return Login.Ask(Login.TotpPrompt), [];
      }
      ghost var h, w := View(), state.world;
      var verified;
      verified, log := CheckPaidPassword(name, password, input);
      ghost var attempt := Login.CheckPaidPassword(h, w, name, password, input, state.env);
      assert attempt == Login.Attempt(state.world, verified, log) && View() == h;
      ghost var repr := state.Repr;
      if verified.None? {
        var delay;
        reply, delay := state.RejectFailure(View(), peerIp, input, log);
      } else {
        ghost var issued;
        log := log + Login.FactorsOf(verified.value, password, None, input.wall);
        reply, issued := AdvanceAfterInitialAuth(verified.value, Login.PasswordPolicyOf(config), input);
        log := log + issued;
      }
      assert state.Repr == repr;
    }

    /** Rejects, or lets the tracker learn of the success before the login moves on. */
    method AdvanceAttempt(user: Option<UserRecord>, policy: PasswordPolicyConfig, input: Login.Input,
                          ghost earlier: seq<Login.AuthEvent>)
      returns (reply: Login.Reply, ghost log: seq<Login.AuthEvent>)
      requires Wired()
      modifies this`keyboardAuthState, state.Repr
      ensures Wired() && state.Repr == old(state.Repr)
      ensures Login.Step(View(), state.world, reply, log)
           == Login.AdvanceAttempt(old(View()), Login.Attempt(old(state.world), user, earlier), policy, input,
                                   state.env)
    {
      if user.None? {
        log := earlier;
        var delay;
        reply, delay := state.RejectFailure(View(), peerIp, input, log);
      } else {
        state.RecordSuccess(View(), peerIp, input);
        reply, log := AdvanceAfterInitialAuth(user.value, policy, input);
        log := earlier + log;
      }
    }

    method HandleExistingTotpResponse(name: string, password: string, code: string, input: Login.Input)
      returns (reply: Login.Reply, ghost log: seq<Login.AuthEvent>)
      requires Wired() && LimiterOk(state.world.limiter, input.mono)
      modifies this`keyboardAuthState, state.Repr
      ensures Wired() && fresh(state.Repr - old(state.Repr))
      ensures Login.Step(View(), state.world, reply, log)
           == Login.HandleExistingTotpResponse(old(View()), old(state.world), name, password, code, input, state.env)
    {
      var config, _ := state.Snapshot();
      var verified;
      verified, log := CheckPaidFactors(name, password, Trim(code), input);
      reply, log := AdvanceAttempt(verified, Login.PasswordPolicyOf(config), input, log);
    }

    method HandleNewPasswordResponse(context: PendingAuthContext, policy: PasswordPolicyConfig, text: string)
      returns (reply: Login.Reply)
      requires Wired()
      modifies this`keyboardAuthState
      ensures Wired() && state.Repr == old(state.Repr)
      ensures Login.Step(View(), state.world, reply, [])
           == Login.HandleNewPasswordResponse(old(View()), old(state.world), context, policy, text)
    {
      keyboardAuthState := Some(AwaitConfirmPassword(context, policy, text));
      return Login.Ask(Login.ConfirmPrompt);
    }

    method HandleConfirmPasswordResponse(context: PendingAuthContext, policy: PasswordPolicyConfig,
                                         candidate: string, confirmation: string, input: Login.Input)
      returns (reply: Login.Reply, ghost log: seq<Login.AuthEvent>)
      requires Wired()
      modifies this`keyboardAuthState
      ensures Wired() && state.Repr == old(state.Repr)
      ensures Login.Step(View(), state.world, reply, log)
           == Login.HandleConfirmPasswordResponse(old(View()), old(state.world), context, policy, candidate,
                                                  confirmation, input, state.env)
    {
      log := [];
      if candidate != confirmation
         || !Login.CandidateAllowed(candidate, context.user.password, policy, state.env.crypto)
      {
        keyboardAuthState := Some(AwaitNewPassword(context, policy));
        return Login.Ask(Login.NewPasswordPrompt), [];
      }
      if input.salt.None? || !input.urlOk {
        return Login.Dropped, [];
      }
      var hash := state.env.crypto.hash(input.salt.value, candidate);
      keyboardAuthState := Some(AwaitEnrollmentTotp(context.(newPasswordHash := Some(hash)), input.freshSecret));
      return Login.Ask(Login.EnrollmentPrompt),
             [Login.PasswordChosen(context.user, candidate, hash, policy),
              Login.SecretIssued(context.user.name, input.freshSecret)];
    }

    method CommitPendingUpdates(context: PendingAuthContext, secret: string, input: Login.Input,
                                ghost events: seq<Login.AuthEvent>)
      returns (reply: Login.Reply, ghost log: seq<Login.AuthEvent>)
      requires Wired()
      modifies this`keyboardAuthState, state.Repr
      ensures Wired() && state.Repr == old(state.Repr)
      ensures Login.Step(View(), state.world, reply, log)
           == Login.CommitPendingUpdates(old(View()), old(state.world), context, secret,
                                         old(Written(context.user.name, input)), events)
    {
      var name, update := context.user.name, Update(context.newPasswordHash, Some(secret), Some(false));
      var ok := state.UpdateUserCredentials(name, update, input.commitOk);
      if !ok {
        return Login.Dropped, events;
      }
      keyboardAuthState := Some(AwaitSelection(Login.CommittedContext(context, secret)));
      log := events + [Login.Committed(name, update)];
      reply := PromptSelection(name);
      assert log + [] == log;
    }

    method CommitAfterSuccess(context: PendingAuthContext, secret: string, input: Login.Input,
                              ghost events: seq<Login.AuthEvent>)
      returns (reply: Login.Reply, ghost log: seq<Login.AuthEvent>)
      requires Wired()
      modifies this`keyboardAuthState, state.Repr
      ensures Wired() && state.Repr == old(state.Repr)
      ensures Login.Step(View(), state.world, reply, log)
           == Login.CommitPendingUpdates(old(View()), Login.Succeeded(old(View()), old(state.world), input, state.env),
                                         context, secret, old(Written(context.user.name, input)), events)
    {
      state.RecordSuccess(View(), peerIp, input);
      reply, log := CommitPendingUpdates(context, secret, input, events);
    }

    method CheckStagedPassword(context: PendingAuthContext, secret: string, input: Login.Input,
                               ghost matched: seq<Login.AuthEvent>)
      returns (reply: Login.Reply, ghost log: seq<Login.AuthEvent>)
      requires Wired() && LimiterOk(state.world.limiter, input.mono) && context.loginPassword.Some?
      modifies this`keyboardAuthState, state.Repr
      ensures Wired() && fresh(state.Repr - old(state.Repr))
      ensures Login.Step(View(), state.world, reply, log)
           == Login.CheckStagedPassword(old(View()), old(state.world), context, secret,
                                        old(Written(context.user.name, input)), state.env, matched)
    {
      ghost var h, w, written := View(), state.world, Written(context.user.name, input);
      var verified;
      verified, log := CheckPaidPassword(context.user.name, context.loginPassword.value, input);
      assert Written(context.user.name, input) == written;
      ghost var attempt :=
        Login.CheckPaidPassword(h, w, context.user.name, context.loginPassword.value, input, state.env);
      assert attempt == Login.Attempt(state.world, verified, log) && View() == h;
      ghost var repr := state.Repr;
      if verified.None? {
        var delay;
        reply, delay := state.RejectFailure(View(), peerIp, input, log);
      } else {
        reply, log := CommitAfterSuccess(context, secret, input, log + matched);
      }
      assert state.Repr == repr;
    }

    method RetryEnrollment(context: PendingAuthContext, secret: string, input: Login.Input) returns (reply: Login.Reply)
      requires Wired()
      modifies this`keyboardAuthState, state.Repr
      ensures Wired() && state.Repr == old(state.Repr)
      ensures Login.Step(View(), state.world, reply, [])
           == Login.RetryEnrollment(old(View()), old(state.world), context, secret, input, state.env)
    {
      var delay;
      reply, delay := state.RejectFailure(View(), peerIp, input, []);
      if reply.Dropped? || !input.urlOk {
        return Login.Dropped;
      }
      keyboardAuthState := Some(AwaitEnrollmentTotp(context, secret));
      return Login.Ask(Login.EnrollmentPrompt);
    }

    method HandleEnrollmentResponse(context: PendingAuthContext, secret: string, code: string, input: Login.Input)
      returns (reply: Login.Reply, ghost log: seq<Login.AuthEvent>)
      requires Wired() && LimiterOk(state.world.limiter, input.mono)
      modifies this`keyboardAuthState, state.Repr
      ensures Wired() && fresh(state.Repr - old(state.Repr))
      ensures Login.Step(View(), state.world, reply, log)
           == Login.HandleEnrollmentResponse(old(View()), old(state.world), context, secret, code,
                                             old(Written(context.user.name, input)), state.env)
    {
      log := [];
      if !state.env.crypto.codeMatches(secret, Trim(code), input.wall) {
        reply := RetryEnrollment(context, secret, input);
        return;
      }
      ghost var matched := [Login.FreshCodeVerified(context.user.name, secret, Trim(code), input.wall)];
      if context.loginPassword.Some? {
        reply, log := CheckStagedPassword(context, secret, input, matched);
      } else {
        reply, log := CommitAfterSuccess(context, secret, input, matched);
      }
    }

    method HandleSelectionResponse(context: PendingAuthContext, text: string)
      returns (reply: Login.Reply, ghost log: seq<Login.AuthEvent>)
      requires Wired()
      modifies this`keyboardAuthState, this`authenticatedUsername, this`pendingTarget, this`activePolicy
      ensures Wired() && state.Repr == old(state.Repr)
      ensures Login.Step(View(), state.world, reply, log)
           == Login.HandleSelectionResponse(old(View()), old(state.world), context, text)
    {
      ghost var h := View();
      var name := context.user.name;
      log := [];
      if IsQuit(text) {
        keyboardAuthState, authenticatedUsername, pendingTarget, activePolicy := None, None, None, None;
        assert View() == h.(keyboard := None, username := None, pendingTarget := None, policy := None);
        StaysWired();
        return Login.Dropped, [];
      }
      var config, servers := state.Snapshot();
      var entries := AllowedServerEntries(config.users, servers, name);
      if entries.None? {
        return Login.Dropped, [];
      }
      var index := ParseSelection(text, |entries.value|);
      if index.None? {
        keyboardAuthState := Some(AwaitSelection(context));
        StaysWired();
        reply := PromptSelection(name);
        return;
      }
      var (targetName, targetHost) := entries.value[index.value];
      var target := SelectedTarget(targetName, targetHost);
      pendingTarget, authenticatedUsername := Some(target), Some(name);
      assert View() == h.(pendingTarget := Some(target), username := Some(name));
      StaysWired();
      return Login.Accept, [Login.Accepted(name, target)];
    }

    method Respond(phase: KeyboardAuthState, text: string, input: Login.Input)
      returns (reply: Login.Reply, ghost log: seq<Login.AuthEvent>)
      requires Wired() && LimiterOk(state.world.limiter, input.mono)
      modifies this`keyboardAuthState, this`authenticatedUsername, this`pendingTarget, this`activePolicy,
               state.Repr
      ensures Wired() && fresh(state.Repr - old(state.Repr))
      ensures Login.Step(View(), state.world, reply, log)
           == Login.Respond(old(View()), old(state.world), phase, text, old(Outcome(phase, input)), state.env)
    {
      log := [];
      match phase
      case AwaitPassword(name) => reply, log := HandlePasswordResponse(name, text, input);
      case AwaitExistingTotp(name, password) => reply, log := HandleExistingTotpResponse(name, password, text, input);
      case AwaitNewPassword(context, policy) => reply := HandleNewPasswordResponse(context, policy, text);
      case AwaitConfirmPassword(context, policy, candidate) =>
        reply, log := HandleConfirmPasswordResponse(context, policy, candidate, text, input);
      case AwaitEnrollmentTotp(context, secret) =>
        reply, log := HandleEnrollmentResponse(context, secret, text, input);
      case AwaitSelection(context) => reply, log := HandleSelectionResponse(context, text);
    }

    /** `keyboard_auth_state.take()`; without a phase the exchange starts with the password. */
    method TakePhase(username: string) returns (phase: KeyboardAuthState)
      requires Wired()
      modifies this`keyboardAuthState
      ensures Wired() && View() == old(View()).(keyboard := None)
      ensures phase == OrElse(old(keyboardAuthState), AwaitPassword(username))
    {
      phase := OrElse(keyboardAuthState, AwaitPassword(username));
      keyboardAuthState := None;
      StaysWired();
    }

    method StartExchange(username: string) returns (reply: Login.Reply)
      requires Wired()
      modifies this`keyboardAuthState
      ensures Wired() && View() == old(View()).(keyboard := Some(AwaitPassword(username)))
      ensures reply == Login.Ask(Login.PasswordPrompt)
    {
      keyboardAuthState := Some(AwaitPassword(username));
      StaysWired();
      return Login.Ask(Login.PasswordPrompt);
    }

    method AnswerPhase(username: string, text: string, input: Login.Input)
      returns (reply: Login.Reply, ghost log: seq<Login.AuthEvent>)
      requires Wired() && LimiterOk(state.world.limiter, input.mono)
      modifies this`keyboardAuthState, this`authenticatedUsername, this`pendingTarget, this`activePolicy,
               state.Repr
      ensures Wired() && fresh(state.Repr - old(state.Repr))
      ensures Login.Step(View(), state.world, reply, log)
           == Login.Respond(old(View()).(keyboard := None), old(state.world),
                            OrElse(old(keyboardAuthState), AwaitPassword(username)), text,
                            old(PresentOutcome(input)), state.env)
    {
      var phase := TakePhase(username);
      reply, log := Respond(phase, text, input);
    }

    /** Starts the exchange, or answers the phase the connection is in. */
    method Continue(username: string, input: Login.Input)
      returns (reply: Login.Reply, ghost log: seq<Login.AuthEvent>)
      requires Wired() && LimiterOk(state.world.limiter, input.mono)
      modifies this`keyboardAuthState, this`authenticatedUsername, this`pendingTarget, this`activePolicy,
               state.Repr
      ensures Wired() && fresh(state.Repr - old(state.Repr))
      ensures Login.Step(View(), state.world, reply, log)
           == Login.Continue(old(View()), old(state.world), username, old(PresentOutcome(input)), state.env)
    {
      var hadExistingState := keyboardAuthState.Some?;
      if input.response.None?
         || (!hadExistingState && (input.response.value == [] || input.response.value[0] == ""))
      {
        log := [];
        reply := StartExchange(username);
      } else {
        var text := if input.response.value == [] then "" else input.response.value[0];
        reply, log := AnswerPhase(username, text, input);
      }
    }

    method AnswerAllowed(input: Login.Input)
      returns (reply: Login.Reply, ghost log: seq<Login.AuthEvent>)
      requires Wired() && LimiterOk(state.world.limiter, input.mono)
      modifies this`keyboardAuthState, this`authenticatedUsername, this`pendingTarget, this`activePolicy,
               state.Repr
      ensures Wired() && fresh(state.Repr - old(state.Repr))
      ensures Login.Step(View(), state.world, reply, log)
           == Login.AnswerAllowed(old(View()), old(state.world), old(PresentOutcome(input)), state.env)
    {
      log := [];
      var username := Trim(input.user);
      if authenticatedUsername.Some? && proxySession.Some? {
        reply := Login.Accept;
      } else if username == "" {
        var delay;
        reply, delay := state.RejectFailure(View(), peerIp, input, log);
      } else {
        reply, log := Continue(username, input);
      }
    }

    method KeyboardInteractive(input: Login.Input)
      returns (reply: Login.Reply, ghost log: seq<Login.AuthEvent>)
      requires Wired() && LimiterOk(state.world.limiter, input.mono)
      modifies this`keyboardAuthState, this`authenticatedUsername, this`pendingTarget, this`activePolicy,
               state.Repr
      ensures Wired() && fresh(state.Repr - old(state.Repr))
      ensures Login.Step(View(), state.world, reply, log)
           == Login.AuthKeyboardInteractive(old(View()), old(state.world), old(PresentOutcome(input)), state.env)
    {
      log := [];
      ghost var h, w, outcome := View(), state.world, PresentOutcome(input);
      var allowed := state.CheckIp(View(), peerIp, input);
      assert (state.world, allowed) == Login.PreAuth(h, w, outcome, state.env) && View() == h;
      assert PresentOutcome(input) == outcome;
      if allowed {
        reply, log := AnswerAllowed(input);
      } else {
        reply := Login.Reject;
      }
    }

    /** The same, with the journal brought up to date. */
    method RecordedInteractive(input: Login.Input) returns (reply: Login.Reply)
      requires Wired() && LimiterOk(state.world.limiter, input.mono)
      modifies this, state.Repr
      ensures Wired() && fresh(state.Repr - old(state.Repr))
      ensures var step :=
                Login.AuthKeyboardInteractive(old(View()), old(state.world), old(PresentOutcome(input)), state.env);
              && Connection() == Runs.Connection(old(ConnView()).(h := step.h), old(journal) + step.log)
              && state.world == step.w && reply == step.reply
    {
      ghost var log;
      reply, log := KeyboardInteractive(input);
      Record(log);
    }

    /** The callback: whatever the client sends, the object stays valid for the next one, and an
        acceptance is for a user who has passed both factors and selected the pending target. */
    method AuthKeyboardInteractive(input: Login.Input) returns (reply: Login.Reply)
      requires Valid() && state.clock <= input.mono && input.seen <= input.mono
      modifies this, state.Repr
      ensures Valid() && fresh(state.Repr - old(state.Repr)) && state.clock == input.mono
      ensures var step :=
                Login.AuthKeyboardInteractive(old(View()), old(state.world), old(PresentOutcome(input)), state.env);
              && ConnView() == old(ConnView()).(h := step.h) && state.world == step.w
              && reply == step.reply && journal == old(journal) + step.log
      ensures reply == Login.Accept ==>
        && authenticatedUsername.Some? && pendingTarget.Some?
        && LoginSafety.Completed(journal, authenticatedUsername.value)
        && Runs.SelectedFor(journal, authenticatedUsername.value, pendingTarget.value)
    {
      ghost var connection, w, outcome := Connection(), state.world, PresentOutcome(input);
      Runs.LimiterStaysSound(View(), w, outcome, state.env, state.clock);
      Runs.KeyboardKeeps(connection, w, outcome, state.env);
      Runs.AcceptIsEarned(connection, w, outcome, state.env);
      GatewaySafety.AuthenticateKeeps(ConnView(), w, outcome, state.env, perUserPerServer);
      reply := RecordedInteractive(input);
      state.Tick(input.mono);
    }

    // -------------------------------------------------------------------------
    // Channels

    method ResolveTargetPolicy(name: string, target: string)
      returns (config: ConfigFile, policy: Option<EffectiveAuthorizationPolicy>)
      requires Wired()
      ensures config == Directory().config
      ensures policy == ResolveEffectiveAuthorizationPolicy(config, name, target, perUserPerServer)
    {
      var servers;
      config, servers := state.Snapshot();
      policy := ResolveEffectiveAuthorizationPolicy(config, name, target, perUserPerServer);
    }

    method DropPolicy()
      requires Wired()
      modifies this`activePolicy
      ensures Wired() && ConnView() == old(ConnView()).(h := old(View()).(policy := None))
    {
      activePolicy := None;
      StaysWired();
    }

    method InstallSession(proxy: ProxySession, policy: Option<EffectiveAuthorizationPolicy>)
      requires Wired()
      modifies this`activePolicy, this`proxySession, this`nextProxy
      ensures Wired()
      ensures var c := old(ConnView());
              ConnView() == Gateway.Conn(c.h.(policy := policy, proxy := Some(proxy)), c.relays, c.nextProxy + 1)
    {
      activePolicy, proxySession, nextProxy := policy, Some(proxy), nextProxy + 1;
      StaysWired();
    }

    /** `connect_selected_target`; `goesOn` tells that the callback does. */
    method ConnectSelectedTarget(name: string, target: SelectedTarget, connectOk: bool)
      returns (effects: seq<Gateway.Effect>, goesOn: bool)
      requires Wired()
      modifies this`activePolicy, this`proxySession, this`nextProxy
      ensures Wired()
      ensures (ConnView(), effects, goesOn)
           == Gateway.ConnectSelectedTarget(old(ConnView()), name, target, connectOk, Directory())
    {
      ghost var dir := Directory();
      var config, policy := ResolveTargetPolicy(name, target.name);
      if policy.None? {
        return [Gateway.Failed], false;
      }
      if !connectOk {
        DropPolicy();
        assert Directory() == dir;
        return [Gateway.Disconnected], true;
      }
      InstallSession(ProxySession(nextProxy, name, target, config, {}, {}), policy);
      assert Directory() == dir;
      return [], true;
    }

    method AuthSucceeded(connectOk: bool) returns (effects: seq<Gateway.Effect>)
      requires Wired()
      modifies this`activePolicy, this`proxySession, this`nextProxy
      ensures Wired()
      ensures (ConnView(), effects) == Gateway.HandleAuthSucceeded(old(ConnView()), connectOk, Directory())
    {
      if authenticatedUsername.None? || pendingTarget.None? {
        return [Gateway.Disconnected];
      }
      var goesOn;
      effects, goesOn := ConnectSelectedTarget(authenticatedUsername.value, pendingTarget.value, connectOk);
    }

    /** Spawns the relay of a channel; the caller has opened the backend's side. */
    method OpenSessionChannel(channel: ChannelId)
      requires Wired() && proxySession.Some?
      modifies this`proxySession, this`relays
      ensures Wired() && ConnView() == Gateway.OpenSessionChannel(old(ConnView()), channel)
    {
      var proxy := proxySession.value;
      var dropToMenu := OrElse(proxy.config.sections.settings.dropToMenu, false);
      proxySession := Some(proxy.(sessions := proxy.sessions + {channel}));
      relays := relays + multiset{Gateway.LiveRelay(channel, proxy.id, dropToMenu)};
    }

    method ChannelOpenSession(channel: ChannelId, openOk: bool) returns (effects: seq<Gateway.Effect>)
      requires Wired()
      modifies this`sessionChannelState, this`proxySession, this`relays
      ensures Wired() && (ConnView(), effects) == Gateway.HandleChannelOpen(old(ConnView()), channel, openOk)
    {
      if channel !in sessionChannelState {
        sessionChannelState := sessionChannelState[channel := NEW_CHANNEL];
      }
      assert sessionChannelState == old(sessionChannelState)[channel := Gateway.ChannelOf(old(View()), channel)];
      if proxySession.None? || !openOk {
        return [];
      }
      effects := [Gateway.OnBackend(proxySession.value.id, Gateway.OpenSession(channel))];
      OpenSessionChannel(channel);
    }

    method RememberRequest(channel: ChannelId, request: SessionRequest)
      requires Wired()
      modifies this`sessionChannelState
      ensures Wired()
      ensures ConnView() == old(ConnView()).(h := Gateway.WithRequest(old(View()), channel, request))
    {
      var channelState := if channel in sessionChannelState then sessionChannelState[channel] else NEW_CHANNEL;
      sessionChannelState := sessionChannelState[channel := channelState.(request := request)];
    }

    method RelayRequest(channel: ChannelId, op: Gateway.Operation, relayOk: bool) returns (effects: seq<Gateway.Effect>)
      requires Wired() && proxySession.Some?
      ensures (ConnView(), effects) == Gateway.RelayRequest(ConnView(), channel, op, relayOk)
    {
      if !proxySession.value.Reaches(channel) || !relayOk {
        return [Gateway.Closed(channel)];
      }
      return [Gateway.OnBackend(proxySession.value.id, op)];
    }

    method ShellRequest(channel: ChannelId, relayOk: bool) returns (effects: seq<Gateway.Effect>)
      requires Wired()
      modifies this`sessionChannelState
      ensures Wired() && (ConnView(), effects) == Gateway.HandleShellRequest(old(ConnView()), channel, relayOk)
    {
      RememberRequest(channel, Shell);
      if proxySession.None? {
        return [];
      }
      effects := RelayRequest(channel, Gateway.RequestShell, relayOk);
    }

    method ExecRequest(channel: ChannelId, command: Bytes, relayOk: bool) returns (effects: seq<Gateway.Effect>)
      requires Wired()
      modifies this`sessionChannelState
      ensures Wired()
      ensures (ConnView(), effects)
           == Gateway.HandleExecRequest(old(ConnView()), channel, command, relayOk, Directory())
    {
      if proxySession.None? {
        return [];
      }
      RememberRequest(channel, Exec(command));
      if activePolicy.None? {
        return [];
      }
      if !activePolicy.value.allowScp {
        var mode := Tokenizer.ClassifyScpExecRequest(decode(command));
        if mode.Some? {
          return [Gateway.Disconnected];
        }
      }
      effects := RelayRequest(channel, Gateway.RequestExec(command), relayOk);
    }

    method SubsystemRequest(channel: ChannelId, name: string, relayOk: bool) returns (effects: seq<Gateway.Effect>)
      requires Wired()
      modifies this`sessionChannelState
      ensures Wired()
      ensures (ConnView(), effects)
           == Gateway.HandleSubsystemRequest(old(ConnView()), channel, name, relayOk, Directory())
    {
      if proxySession.None? {
        return [];
      }
      RememberRequest(channel, Subsystem(name));
      if activePolicy.None? {
        return [];
      }
      if name == "sftp" && !activePolicy.value.allowSftp {
        return [Gateway.Disconnected];
      }
      effects := RelayRequest(channel, Gateway.RequestSubsystem(name), relayOk);
    }

    method AddRaw(channel: ChannelId)
      requires Wired() && proxySession.Some?
      modifies this`proxySession
      ensures Wired() && ConnView() == old(ConnView()).(h := Gateway.WithRaw(old(View()), channel))
    {
      var proxy := proxySession.value;
      proxySession := Some(proxy.(raw := proxy.raw + {channel}));
    }

    method ChannelOpenDirectTcpip(channel: ChannelId, openOk: bool) returns (effects: seq<Gateway.Effect>)
      requires Wired()
      modifies this`proxySession
      ensures Wired()
      ensures (ConnView(), effects) == Gateway.HandleDirectTcpip(old(ConnView()), channel, openOk, Directory())
    {
      if proxySession.None? || activePolicy.None? || !activePolicy.value.allowLocalForwarding || !openOk {
        return [];
      }
      effects := [Gateway.OnBackend(proxySession.value.id, Gateway.OpenDirectTcpip)];
      AddRaw(channel);
    }

    /** A forwarded or X11 channel that the backend of a proxy session opens. */
    method BackendOpens(channel: ChannelId, proxyId: nat)
      requires Wired()
      modifies this`proxySession
      ensures Wired() && ConnView() == Gateway.HandleBackendOpens(old(ConnView()), channel, proxyId)
    {
      if proxySession.Some? && proxySession.value.id == proxyId {
        AddRaw(channel);
      }
    }

    /** `tcpip_forward`, or `cancel_tcpip_forward`. */
    method RemoteForward(cancel: bool, relayOk: bool) returns (effects: seq<Gateway.Effect>)
      requires Wired()
      ensures var op := if cancel then Gateway.CancelForward else Gateway.StartForward;
              (ConnView(), effects) == Gateway.HandleGlobalRequest(ConnView(), op, relayOk, Directory())
    {
      if proxySession.None? || activePolicy.None? || !activePolicy.value.allowRemoteForwarding || !relayOk {
        return [];
      }
      return [Gateway.OnBackend(proxySession.value.id, if cancel then Gateway.CancelForward else Gateway.StartForward)];
    }

    /** The byte loop of the menu: edits the channel's buffer until a line is submitted. */
    method EditLine(channel: ChannelId, data: seq<Byte>) returns (line: Option<seq<Byte>>)
      requires Wired() && channel in sessionChannelState
      modifies this`sessionChannelState
      ensures Wired()
      ensures var channelState := old(sessionChannelState)[channel];
              var fed := Feed(channelState.inputBuffer, channelState.escape, data);
              ConnView() == Gateway.Edited(old(ConnView()), channel, fed) && line == fed.submitted
    {
      var before := sessionChannelState[channel];
      ghost var all := Feed(before.inputBuffer, before.escape, data);
      line := None;
      var i := 0;
      while i < |data| && line.None?
        invariant 0 <= i <= |data|
        invariant channel in sessionChannelState
        invariant var now := sessionChannelState[channel];
                  && sessionChannelState == old(sessionChannelState)[channel := now]
                  && now == before.(inputBuffer := now.inputBuffer, escape := now.escape)
                  && all == if line.Some? then Line(now.inputBuffer, now.escape, line)
                            else Feed(now.inputBuffer, now.escape, data[i..])
      {
        assert data[i..][0] == data[i] && data[i..][1..] == data[i + 1..];
        var now := sessionChannelState[channel];
        var (next, action) := MenuInputByteAction(now.escape, data[i]);
        match action {
          case Ignore | CompleteEscapeSequence => now := now.(escape := next);
          case SubmitLine => line, now := Some(now.inputBuffer), now.(inputBuffer := [], escape := next);
          case EraseOne =>
            now := now.(inputBuffer := if now.inputBuffer == [] then [] else Init(now.inputBuffer), escape := next);
          case EchoAndBuffer(c) => now := now.(inputBuffer := now.inputBuffer + [c], escape := next);
        }
        sessionChannelState := sessionChannelState[channel := now];
        i := i + 1;
      }
    }

    /** Leaves the menu, connects, opens the channel again and replays its request. */
    method Reconnect(channel: ChannelId, name: string, target: SelectedTarget,
                     connectOk: bool, openOk: bool, relayOk: bool)
      returns (effects: seq<Gateway.Effect>)
      requires Wired() && channel in sessionChannelState
      modifies this`sessionChannelState, this`activePolicy, this`proxySession, this`nextProxy, this`relays
      ensures Wired()
      ensures (ConnView(), effects)
           == Gateway.Reconnect(old(ConnView()), channel, name, target, connectOk, openOk, relayOk, Directory())
    {
      var channelState := sessionChannelState[channel];
      sessionChannelState := sessionChannelState[channel := channelState.(menuActive := false, escape := Normal)];
      var goesOn;
      effects, goesOn := ConnectSelectedTarget(name, target, connectOk);
      if !goesOn || proxySession.None? {
        return;
      }
      if !openOk {
        effects := effects + [Gateway.Failed];
        return;
      }
      var id := proxySession.value.id;
      effects := effects + [Gateway.OnBackend(id, Gateway.OpenSession(channel))];
      OpenSessionChannel(channel);
      var replay := Gateway.ReplayOf(channelState.request);
      if replay.Some? {
        effects := effects + [if relayOk then Gateway.OnBackend(id, replay.value) else Gateway.Failed];
      }
    }

    method HandleMenuChannelInput(channel: ChannelId, data: seq<Byte>, connectOk: bool, openOk: bool, relayOk: bool)
      returns (effects: seq<Gateway.Effect>)
      requires Wired() && Gateway.MenuOwns(View(), channel)
      modifies this`sessionChannelState, this`activePolicy, this`proxySession, this`nextProxy, this`relays
      ensures Wired()
      ensures (ConnView(), effects)
           == Gateway.HandleMenuInput(old(ConnView()), channel, data, connectOk, openOk, relayOk, Directory())
    {
      var name := authenticatedUsername.value;
      var line := EditLine(channel, data);
      if line.None? {
        return [];
      }
      var selection := Gateway.TextOf(line.value);
      if IsQuit(selection) {
        return [Gateway.Disconnected];
      }
      var config, servers := state.Snapshot();
      var entries := AllowedServerEntries(config.users, servers, name);
      if entries.None? {
        return [Gateway.Failed];
      }
      var index := ParseSelection(selection, |entries.value|);
      if index.None? {
        return [];
      }
      var (targetName, targetHost) := entries.value[index.value];
      effects := Reconnect(channel, name, SelectedTarget(targetName, targetHost), connectOk, openOk, relayOk);
    }

    method Data(channel: ChannelId, data: seq<Byte>, connectOk: bool, openOk: bool, relayOk: bool)
      returns (effects: seq<Gateway.Effect>)
      requires Wired()
      modifies this`sessionChannelState, this`activePolicy, this`proxySession, this`nextProxy, this`relays
      ensures Wired()
      ensures (ConnView(), effects)
           == Gateway.HandleData(old(ConnView()), channel, data, connectOk, openOk, relayOk, Directory())
    {
      if authenticatedUsername.Some? && channel in sessionChannelState && sessionChannelState[channel].menuActive {
        effects := HandleMenuChannelInput(channel, data, connectOk, openOk, relayOk);
        return;
      }
      if proxySession.None? {
        return [];
      }
      if !proxySession.value.Reaches(channel) || !relayOk {
        return [Gateway.Disconnected];
      }
      return [Gateway.OnBackend(proxySession.value.id, Gateway.SendData(channel, data))];
    }

    method ForgetSession(channel: ChannelId)
      requires Wired()
      modifies this`proxySession
      ensures Wired() && ConnView() == old(ConnView()).(h := Gateway.ForgetSession(old(View()), channel))
    {
      if proxySession.Some? {
        var proxy := proxySession.value;
        proxySession := Some(proxy.(sessions := proxy.sessions - {channel}));
      }
    }

    method CloseBackend(channel: ChannelId)
      requires Wired()
      modifies this`proxySession
      ensures Wired() && ConnView() == old(ConnView()).(h := Gateway.CloseBackend(old(View()), channel))
    {
      if proxySession.Some? {
        var proxy := proxySession.value;
        proxySession := Some(if channel in proxy.sessions then proxy.(sessions := proxy.sessions - {channel})
                             else proxy.(raw := proxy.raw - {channel}));
      }
    }

    method ChannelClose(channel: ChannelId)
      requires Wired()
      modifies this`sessionChannelState, this`proxySession
      ensures Wired() && ConnView() == Gateway.HandleChannelClose(old(ConnView()), channel)
    {
      var menuActive := channel in sessionChannelState && sessionChannelState[channel].menuActive;
      if !menuActive {
        sessionChannelState := sessionChannelState - {channel};
      }
      CloseBackend(channel);
    }

    /** The end of a relay that is live. */
    method RelayEnded(relay: Gateway.LiveRelay, aborted: bool)
      requires Wired() && relay in relays
      modifies this`sessionChannelState, this`proxySession, this`relays
      ensures Wired() && ConnView() == Gateway.HandleRelayEnd(old(ConnView()), relay, aborted)
    {
      relays := relays - multiset{relay};
      if aborted {
        return;
      }
      if proxySession.Some? && proxySession.value.id == relay.proxyId {
        ForgetSession(relay.channel);
      }
      if relay.channel in sessionChannelState {
        var channelState := sessionChannelState[relay.channel];
        if ShouldReuseMenu(Some(channelState.request), relay.dropToMenu) {
          var menu := channelState.(menuActive := true, inputBuffer := []);
          sessionChannelState := sessionChannelState[relay.channel := menu];
        }
      }
    }

    /** The policy-guarded requests and what else forwarding needs. */
    method DispatchRequest(cb: Gateway.Callback) returns (effects: seq<Gateway.Effect>)
      requires Wired() && (cb.ExecRequest? || cb.SubsystemRequest? || cb.DirectTcpip? || cb.BackendOpens?
                           || cb.TcpipForward? || cb.CancelTcpipForward?)
      modifies this`sessionChannelState, this`proxySession
      ensures Wired()
      ensures (ConnView(), effects) == Gateway.Advance(old(ConnView()), cb, Directory())
    {
      effects := [];
      match cb
      case ExecRequest(channel, command, relayOk) => effects := ExecRequest(channel, command, relayOk);
      case SubsystemRequest(channel, name, relayOk) => effects := SubsystemRequest(channel, name, relayOk);
      case DirectTcpip(channel, openOk) => effects := ChannelOpenDirectTcpip(channel, openOk);
      case BackendOpens(channel, proxyId) => BackendOpens(channel, proxyId);
      case TcpipForward(relayOk) => effects := RemoteForward(false, relayOk);
      case CancelTcpipForward(relayOk) => effects := RemoteForward(true, relayOk);
    }

    method Dispatch(cb: Gateway.Callback) returns (effects: seq<Gateway.Effect>)
      requires Wired() && !cb.Authenticate? && (cb.RelayEnded? ==> cb.relay in relays)
      modifies this`sessionChannelState, this`activePolicy, this`proxySession, this`nextProxy, this`relays
      ensures Wired()
      ensures (ConnView(), effects) == Gateway.Advance(old(ConnView()), cb, Directory())
    {
      effects := [];
      if cb.ExecRequest? || cb.SubsystemRequest? || cb.DirectTcpip? || cb.BackendOpens?
         || cb.TcpipForward? || cb.CancelTcpipForward?
      {
        effects := DispatchRequest(cb);
        return;
      }
      match cb
      case AuthSucceeded(connectOk) => effects := AuthSucceeded(connectOk);
      case ChannelOpenSession(channel, openOk) => effects := ChannelOpenSession(channel, openOk);
      case ShellRequest(channel, relayOk) => effects := ShellRequest(channel, relayOk);
      case ClientData(channel, data, connectOk, openOk, relayOk) =>
        effects := Data(channel, data, connectOk, openOk, relayOk);
      case ChannelClose(channel) => ChannelClose(channel);
      case RelayEnded(relay, aborted) => RelayEnded(relay, aborted);
    }

    method RecordedDispatch(cb: Gateway.Callback) returns (effects: seq<Gateway.Effect>)
      requires Wired() && !cb.Authenticate? && (cb.RelayEnded? ==> cb.relay in relays)
      modifies this
      ensures Wired()
      ensures (ConnView(), effects) == Gateway.Advance(old(ConnView()), cb, Directory())
      ensures journal == old(journal) + Runs.ChannelLog(old(ConnView()), cb, Directory())
      ensures Directory() == old(Directory()) && (old(state.Valid()) ==> state.Valid())
    {
      ghost var log := Runs.ChannelLog(ConnView(), cb, Directory());
      effects := Dispatch(cb);
      Record(log);
    }

    /** A callback of the channel side, or the end of a relay: the object stays valid, guarded
        operations are relayed only as the policy permits (but for a forbidden replay), and nothing
        is asked of a backend except for a user who has passed both factors and selected it. */
    method Deliver(cb: Gateway.Callback) returns (effects: seq<Gateway.Effect>)
      requires Valid() && GatewaySafety.Lawful(ConnView(), cb)
      requires !cb.Authenticate? && (cb.RelayEnded? ==> cb.relay in relays)
      modifies this
      ensures Valid()
      ensures (ConnView(), effects) == Gateway.Advance(old(ConnView()), cb, Directory())
      ensures journal == old(journal) + Runs.ChannelLog(old(ConnView()), cb, Directory())
      ensures GatewaySafety.EffectsPermitted(View(), effects, Directory())
         <==> !GatewaySafety.CallbackReplaysForbidden(old(ConnView()), cb, Directory())
      ensures Runs.EffectsEarned(View(), effects, journal)
    {
      ghost var connection, dir := Connection(), Directory();
      Runs.ChannelKeeps(connection, cb, dir);
      Runs.ChannelEarns(connection, cb, dir);
      GatewaySafety.AdvanceKeeps(connection.conn, cb, dir);
      GatewaySafety.AdvancePermittedExactly(connection.conn, cb, dir);
      effects := RecordedDispatch(cb);
    }
  }
}
