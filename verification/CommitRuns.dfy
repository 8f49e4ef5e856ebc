/** What a commit leaves behind: the password that its user confirmed, and the secret that was issued,
    are those of the next login.
 */
module CommitRuns {
  import opened Wrappers
  import opened Text
  import opened Config
  import opened Auth
  import opened Session
  import opened Login
  import opened LoginSafety
  import opened GatewayRuns

  predicate NoCommit(log: Log) {
    forall e <- log :: !e.Committed?
  }

  lemma PasswordCommitsNothing(h: Handler, w: World, name: string, password: string, input: Input, env: Env)
    ensures NoCommit(HandlePasswordResponse(h, w, name, password, input, env).log)
  {
    PasswordRecords(h, w, name, password, input, env);
  }

  lemma TotpCommitsNothing(h: Handler, w: World, name: string, password: string, code: string, input: Input, env: Env)
    ensures NoCommit(HandleExistingTotpResponse(h, w, name, password, code, input, env).log)
  {
    ExistingTotpRecords(h, w, name, password, code, input, env);
  }

  lemma EnrollmentCommits(h: Handler, w: World, context: PendingAuthContext, secret: string, code: string,
                          input: Input, env: Env, name: string, u: Update)
    requires Committed(name, u) in HandleEnrollmentResponse(h, w, context, secret, code, input, env).log
    ensures name == context.user.name && u == Update(context.newPasswordHash, Some(secret), Some(false))
  {
    var matched := FreshCodeVerified(context.user.name, secret, Trim(code), input.wall);
    if env.crypto.codeMatches(secret, Trim(code), input.wall) {
      if context.loginPassword.Some? {
        StagedRecords(h, w, context, secret, input, env, [matched]);
      } else {
        CommitRecords(h, Succeeded(h, w, input, env), context, secret, input, [matched]);
      }
    }
  }

  /** Only an enrollment commits, and what it commits is in its context. */
  lemma RespondCommits(h: Handler, w: World, state: KeyboardAuthState, text: string, input: Input, env: Env,
                       name: string, u: Update)
    requires Committed(name, u) in Respond(h, w, state, text, input, env).log
    ensures state.AwaitEnrollmentTotp? && name == state.context.user.name
    ensures u == Update(state.context.newPasswordHash, Some(state.secret), Some(false))
  {
    match state
    case AwaitPassword(user) => PasswordCommitsNothing(h, w, user, text, input, env);
    case AwaitExistingTotp(user, password) => TotpCommitsNothing(h, w, user, password, text, input, env);
    case AwaitEnrollmentTotp(context, secret) => EnrollmentCommits(h, w, context, secret, text, input, env, name, u);
    case AwaitNewPassword(_, _) =>
    case AwaitConfirmPassword(_, _, _) =>
    case AwaitSelection(_) =>
  }

  lemma CallbackCommits(h: Handler, w: World, input: Input, env: Env, name: string, u: Update)
    requires Committed(name, u) in AuthKeyboardInteractive(h, w, input, env).log
    ensures h.keyboard.Some? && h.keyboard.value.AwaitEnrollmentTotp? && name == h.keyboard.value.context.user.name
    ensures u == Update(h.keyboard.value.context.newPasswordHash, Some(h.keyboard.value.secret), Some(false))
  {
    var w1 := PreAuth(h, w, input, env).0;
    var text := if input.response.Some? && input.response.value != [] then input.response.value[0] else "";
    RespondCommits(h.(keyboard := None), w1, OrElse(h.keyboard, AwaitPassword(Trim(input.user))), text,
                   input, env, name, u);
  }

  /** After a commit, a password that the committed hash verifies passes the login, and the record asks
      for codes of the committed secret and for no further change. */
  lemma CommittedUserVerifies(users: seq<UserRecord>, name: string, u: Update, password: string, crypto: Crypto)
    requires UniqueNames(users) && FindUser(users, name).Some?
    requires u.hash.Some? && u.secret.Some? && u.mustChange == Some(false)
    requires crypto.parsesHash(u.hash.value) && crypto.verifies(u.hash.value, password)
    ensures var r := VerifyPassword(UpdatedUsers(users, name, u), name, password, crypto);
            r.Ok? && r.value.name == name && r.value.totpSecret == u.secret && !r.value.mustChangePassword
  {
    var updated := UpdatedUsers(users, name, u);
    FindAfterUpdate(users, name, u, name);
    LastIsFirst(updated, name);
  }

  /** The password whose confirmation put `hash` on record passes the policy and is verified by it. */
  ghost predicate ConfirmedAs(log: Log, name: string, password: string, hash: string, crypto: Crypto) {
    && crypto.parsesHash(hash) && crypto.verifies(hash, password)
    && exists e <- log :: e.PasswordChosen? && e.record.name == name && e.password == password && e.hash == hash
         && CandidateAllowed(password, e.record.password, e.policy, crypto)
  }

  lemma ChosenIsHashed(start: System, events: seq<Event>, setup: Setup, e: AuthEvent)
    requires Happened(start, events, setup, e) && e.PasswordChosen? && HashesVerify(setup.env.crypto)
    ensures setup.env.crypto.parsesHash(e.hash) && setup.env.crypto.verifies(e.hash, e.password)
    ensures CandidateAllowed(e.password, e.record.password, e.policy, setup.env.crypto)
  {
  }

  lemma CommittedIsConfirmed(w: World, events: seq<Event>, setup: Setup, id: ConnectionId, input: Input,
                             name: string, u: Update)
    returns (password: string)
    requires ValidConfig(w.config, w.servers, setup.checks) && HashesVerify(setup.env.crypto)
    requires var sys := Run(System(w, map[]), events, setup);
             id in sys.connections && u.hash.Some?
             && Committed(name, u) in AuthKeyboardInteractive(sys.connections[id].conn.h, sys.w, input, setup.env).log
    ensures var sys := Run(System(w, map[]), events, setup);
            var log := sys.connections[id].log;
            && UniqueNames(sys.w.config.users) && ConfirmedAs(log, name, password, u.hash.value, setup.env.crypto)
            && u.secret.Some? && u.mustChange == Some(false) && SecretIssued(name, u.secret.value) in log
  {
    var start := System(w, map[]);
    var sys := Run(start, events, setup);
    var Connection(conn, log) := sys.connections[id];
    RunKeepsInv(start, events, setup);
    assert ConnectionInv(sys.connections[id]);
    CallbackCommits(conn.h, sys.w, input, setup.env, name, u);
    var user := conn.h.keyboard.value.context.user;
    var i :| 0 <= i < |log| && ChosenAt(log, i, user, u.hash.value);
    password := log[i].password;
    RunsAreGenuine(start, events, setup, id, log[i]);
    ChosenIsHashed(start, events, setup, log[i]);
  }

  /** In every run, when a commit takes over a new password it is one that the user has confirmed in
      this session and the policy allows; the secret was issued in this session; and with both the user
      passes the next login. */
  lemma CommittedCredentialsLogIn(w: World, events: seq<Event>, setup: Setup, id: ConnectionId, input: Input,
                                  name: string, u: Update)
    returns (password: string)
    requires ValidConfig(w.config, w.servers, setup.checks) && HashesVerify(setup.env.crypto)
    requires var sys := Run(System(w, map[]), events, setup);
             id in sys.connections && u.hash.Some?
             && Committed(name, u) in AuthKeyboardInteractive(sys.connections[id].conn.h, sys.w, input, setup.env).log
    ensures var sys := Run(System(w, map[]), events, setup);
            var log := sys.connections[id].log;
            && ConfirmedAs(log, name, password, u.hash.value, setup.env.crypto)
            && u.secret.Some? && SecretIssued(name, u.secret.value) in log
            && var after := AuthKeyboardInteractive(sys.connections[id].conn.h, sys.w, input, setup.env).w.config.users;
               var r := VerifyPassword(after, name, password, setup.env.crypto);
               r.Ok? && r.value.name == name && r.value.totpSecret == u.secret && !r.value.mustChangePassword
  {
    var sys := Run(System(w, map[]), events, setup);
    password := CommittedIsConfirmed(w, events, setup, id, input, name, u);
    EventsAreGenuine(sys.connections[id].conn.h, sys.w, input, setup.env);
    CommittedUserVerifies(sys.w.config.users, name, u, password, setup.env.crypto);
  }
}
