/** The keyboard-interactive login machine of src/ssh/mod.rs; the exchange is section 3 of
    RFC 4256.  Each callback is one atomic step over the connection and the shared state.
 */
module Login {
  import opened Wrappers
  import opened Text
  import opened Config
  import opened RateLimit
  import opened Abuse
  import opened Auth
  import opened Session

  datatype Prompt =
    PasswordPrompt | TotpPrompt | NewPasswordPrompt | ConfirmPrompt | EnrollmentPrompt | SelectionPrompt

  /** `Dropped` is an error returned to the transport, or a panic: the connection ends. */
  datatype Reply = Accept | Reject | Ask(prompt: Prompt) | Dropped

  /** State shared by all connections. */
  datatype World = World(config: ConfigFile, servers: Servers, limiter: Limiter, disk: Disk)

  datatype Env = Env(crypto: Crypto, abuse: Fail2ban.Settings)

  /** One callback: what the client sends, the clocks, and the outcomes of foreign calls.
      `wall` is the calendar clock, `mono` the monotonic one and `seen` an earlier reading of it. */
  datatype Input = Input(
    user: string, response: Option<seq<string>>, wall: int, mono: real, seen: real,
    freshSecret: string, urlOk: bool, salt: Option<string>, commitOk: bool, saveOk: bool)

  /** What the steps put on record. */
  datatype AuthEvent =
    | TokenConsumed(request: Request, ok: bool)
    | PasswordChecked(request: Request)
    | PasswordVerified(record: UserRecord, password: string)
    | StoredCodeVerified(record: UserRecord, code: string, time: int)
    | PasswordChosen(record: UserRecord, password: string, hash: string, policy: PasswordPolicyConfig)
    | SecretIssued(name: string, secret: string)
    | FreshCodeVerified(name: string, secret: string, code: string, time: int)
    | Committed(name: string, update: Update)
    | Accepted(name: string, target: SelectedTarget)
    /** A target selected from the menu of an open channel. */
    | MenuSelected(name: string, target: SelectedTarget)

  datatype Step = Step(h: Handler, w: World, reply: Reply, log: seq<AuthEvent>)

  function Logged(events: seq<AuthEvent>, step: Step): Step {
    step.(log := events + step.log)
  }

  // ---------------------------------------------------------------------------
  // Shared services

  function AbuseOp(call: Call, input: Input): Op {
    Op(call, input.wall, input.wall, input.saveOk)
  }

  /** Records a failure and rejects; a panic of the tracker ends the connection. */
  function Rejected(h: Handler, w: World, input: Input, env: Env, events: seq<AuthEvent>): Step {
    var (disk, answer) := Abuse.Step(w.disk, AbuseOp(Failure(h.peerIp), input), env.abuse);
    Step(h, w.(disk := disk), if answer == FailureAnswer(Panicked) then Dropped else Reject, events)
  }

  function Succeeded(h: Handler, w: World, input: Input, env: Env): World {
    w.(disk := Abuse.Step(w.disk, AbuseOp(Success(h.peerIp), input), env.abuse).0)
  }

  function RequestOf(h: Handler, name: string, input: Input): Request {
    Request(h.peerIp, name, input.seen, input.mono)
  }

  /** Outcome of a paid check of a login password: `user` is the verified record. */
  datatype Attempt = Attempt(w: World, user: Option<UserRecord>, log: seq<AuthEvent>)

  /** Consumes both tokens of a login attempt; the password is checked only if both were there. */
  function CheckPaidPassword(h: Handler, w: World, name: string, password: string, input: Input, env: Env): Attempt {
    var request := RequestOf(h, name, input);
    var (limiter, ok) := ConsumeRateLimitToken(w.limiter, request);
    var w1 := w.(limiter := limiter);
    if !ok then Attempt(w1, None, [TokenConsumed(request, false)])
    else
      var checked := VerifyPassword(w.config.users, name, password, env.crypto);
      Attempt(w1, if checked.Ok? then Some(checked.value) else None,
              [TokenConsumed(request, true), PasswordChecked(request)])
  }

  predicate ShouldPromptExistingTotp(user: Option<UserRecord>) {
    user.Some? ==> !user.value.mustChangePassword && user.value.totpSecret.Some?
  }

  function PasswordPolicyOf(config: ConfigFile): PasswordPolicyConfig {
    PasswordPolicyConfig(OrElse(config.sections.settings.enforcePasswordPolicy, true),
                         OrElse(config.sections.settings.minPasswordPolicy, 12))
  }

  predicate CandidateAllowed(candidate: string, oldHash: string, policy: PasswordPolicyConfig, crypto: Crypto) {
    if policy.enforce then EnforcePasswordPolicy(candidate, oldHash, policy.minLength, crypto).Ok?
    else candidate != ""
  }

  function PromptSelection(h: Handler, w: World, name: string): Step {
    Step(h, w, if AllowedServerEntries(w.config.users, w.servers, name).None? then Dropped
               else Ask(SelectionPrompt), [])
  }

  // ---------------------------------------------------------------------------
  // Phases; the handler's keyboard state has already been taken

  /** The fresh secret that a user is shown who has none and need not change the password first. */
  function IssuedTo(user: UserRecord, input: Input): seq<AuthEvent> {
    if user.mustChangePassword || user.totpSecret.Some? || !input.urlOk then []
    else [SecretIssued(user.name, input.freshSecret)]
  }

  function AdvanceAfterInitialAuth(h: Handler, w: World, user: UserRecord, policy: PasswordPolicyConfig,
                                   input: Input): Step
  {
    var context := PendingAuthContext(user, None, None);
    if user.mustChangePassword then
      Step(h.(keyboard := Some(AwaitNewPassword(context, policy))), w, Ask(NewPasswordPrompt), [])
    else if user.totpSecret.Some? then
      PromptSelection(h.(keyboard := Some(AwaitSelection(context))), w, user.name)
    else if !input.urlOk then Step(h, w, Dropped, [])
    else
      Step(h.(keyboard := Some(AwaitEnrollmentTotp(context, input.freshSecret))), w, Ask(EnrollmentPrompt),
           IssuedTo(user, input))
  }

  /** The factors that a verified login puts on record. */
  function FactorsOf(user: UserRecord, password: string, code: Option<string>, time: int): seq<AuthEvent> {
    if code.Some? && user.totpSecret.Some?
    then [PasswordVerified(user, password), StoredCodeVerified(user, code.value, time)]
    else [PasswordVerified(user, password)]
  }

  function HandlePasswordResponse(h: Handler, w: World, name: string, password: string, input: Input, env: Env): Step {
    var found := FindUser(w.config.users, name);
    if ShouldPromptExistingTotp(if found.Some? then Some(w.config.users[found.value]) else None) then
      Step(h.(keyboard := Some(AwaitExistingTotp(name, password))), w, Ask(TotpPrompt), [])
    else
      var attempt := CheckPaidPassword(h, w, name, password, input, env);
      if attempt.user.None? then Rejected(h, attempt.w, input, env, attempt.log)
      else
        var user := attempt.user.value;
        Logged(attempt.log + FactorsOf(user, password, None, input.wall),
               AdvanceAfterInitialAuth(h, attempt.w, user, PasswordPolicyOf(w.config), input))
  }

  function AdvanceAttempt(h: Handler, attempt: Attempt, policy: PasswordPolicyConfig, input: Input, env: Env): Step {
    if attempt.user.None? then Rejected(h, attempt.w, input, env, attempt.log)
    else
      Logged(attempt.log,
             AdvanceAfterInitialAuth(h, Succeeded(h, attempt.w, input, env), attempt.user.value, policy, input))
  }

  /** A paid check of the login password and, for a user with a secret, of the code. */
  function CheckPaidFactors(h: Handler, w: World, name: string, password: string, code: string,
                            input: Input, env: Env): Attempt
  {
    var attempt := CheckPaidPassword(h, w, name, password, input, env);
    if attempt.user.None? then attempt
    else if !CodeAccepted(attempt.user.value, code, input.wall, env.crypto) then attempt.(user := None)
    else attempt.(log := attempt.log + FactorsOf(attempt.user.value, password, Some(code), input.wall))
  }

  function HandleExistingTotpResponse(h: Handler, w: World, name: string, password: string, code: string,
                                      input: Input, env: Env): Step
  {
    var attempt := CheckPaidFactors(h, w, name, password, Trim(code), input, env);
    AdvanceAttempt(h, attempt, PasswordPolicyOf(w.config), input, env)
  }

  function HandleNewPasswordResponse(h: Handler, w: World, context: PendingAuthContext,
                                     policy: PasswordPolicyConfig, text: string): Step
  {
    Step(h.(keyboard := Some(AwaitConfirmPassword(context, policy, text))), w, Ask(ConfirmPrompt), [])
  }

  function HandleConfirmPasswordResponse(h: Handler, w: World, context: PendingAuthContext,
                                         policy: PasswordPolicyConfig, candidate: string, confirmation: string,
                                         input: Input, env: Env): Step
  {
    if candidate != confirmation || !CandidateAllowed(candidate, context.user.password, policy, env.crypto) then
      Step(h.(keyboard := Some(AwaitNewPassword(context, policy))), w, Ask(NewPasswordPrompt), [])
    else if input.salt.None? || !input.urlOk then Step(h, w, Dropped, [])
    else
      var hash := env.crypto.hash(input.salt.value, candidate);
      var hashed := context.(newPasswordHash := Some(hash));
      Step(h.(keyboard := Some(AwaitEnrollmentTotp(hashed, input.freshSecret))), w, Ask(EnrollmentPrompt),
           [PasswordChosen(context.user, candidate, hash, policy), SecretIssued(context.user.name, input.freshSecret)])
  }

  /** The credentials as `commit_pending_updates` leaves them in the context. */
  function CommittedContext(context: PendingAuthContext, secret: string): PendingAuthContext {
    var user := context.user.(totpSecret := Some(secret));
    context.(loginPassword := None,
             user := if context.newPasswordHash.Some?
                     then user.(password := context.newPasswordHash.value, mustChangePassword := false)
                     else user)
  }

  function CommitPendingUpdates(h: Handler, w: World, context: PendingAuthContext, secret: string,
                                input: Input, events: seq<AuthEvent>): Step
  {
    var name, update := context.user.name, Update(context.newPasswordHash, Some(secret), Some(false));
    var found := FindUser(w.config.users, name).Some?;
    var w1 := w.(config := w.config.(users := UpdatedUsers(w.config.users, name, update)));
    if !found || !input.commitOk then Step(h, w1, Dropped, events)
    else
      Logged(events + [Committed(name, update)],
             PromptSelection(h.(keyboard := Some(AwaitSelection(CommittedContext(context, secret)))), w1, name))
  }

  /** A wrong code counts as a failure; the enrollment goes on. */
  function RetryEnrollment(h: Handler, w: World, context: PendingAuthContext, secret: string, input: Input, env: Env)
    : Step
  {
    var failed := Rejected(h, w, input, env, []);
    if failed.reply.Dropped? || !input.urlOk then failed.(reply := Dropped)
    else failed.(h := h.(keyboard := Some(AwaitEnrollmentTotp(context, secret))), reply := Ask(EnrollmentPrompt))
  }

  /** A login password that was staged earlier is checked before the commit. */
  function CheckStagedPassword(h: Handler, w: World, context: PendingAuthContext, secret: string,
                               input: Input, env: Env, matched: seq<AuthEvent>): Step
    requires context.loginPassword.Some?
  {
    var attempt := CheckPaidPassword(h, w, context.user.name, context.loginPassword.value, input, env);
    if attempt.user.None? then Rejected(h, attempt.w, input, env, attempt.log)
    else CommitPendingUpdates(h, Succeeded(h, attempt.w, input, env), context, secret, input, attempt.log + matched)
  }

  function HandleEnrollmentResponse(h: Handler, w: World, context: PendingAuthContext, secret: string,
                                    code: string, input: Input, env: Env): Step
  {
    if !env.crypto.codeMatches(secret, Trim(code), input.wall) then RetryEnrollment(h, w, context, secret, input, env)
    else
      var matched := [FreshCodeVerified(context.user.name, secret, Trim(code), input.wall)];
      if context.loginPassword.Some? then CheckStagedPassword(h, w, context, secret, input, env, matched)
      else CommitPendingUpdates(h, Succeeded(h, w, input, env), context, secret, input, matched)
  }

  function HandleSelectionResponse(h: Handler, w: World, context: PendingAuthContext, text: string): Step {
    var name := context.user.name;
    if IsQuit(text) then
      Step(h.(keyboard := None, username := None, pendingTarget := None, policy := None), w, Dropped, [])
    else match AllowedServerEntries(w.config.users, w.servers, name)
      case None => Step(h, w, Dropped, [])
      case Some(entries) =>
        match ParseSelection(text, |entries|)
        case None => PromptSelection(h.(keyboard := Some(AwaitSelection(context))), w, name)
        case Some(i) =>
          var target := SelectedTarget(entries[i].0, entries[i].1);
          Step(h.(pendingTarget := Some(target), username := Some(name)), w, Accept, [Accepted(name, target)])
  }

  function Respond(h: Handler, w: World, state: KeyboardAuthState, text: string, input: Input, env: Env): Step {
    match state
    case AwaitPassword(name) => HandlePasswordResponse(h, w, name, text, input, env)
    case AwaitExistingTotp(name, password) => HandleExistingTotpResponse(h, w, name, password, text, input, env)
    case AwaitNewPassword(context, policy) => HandleNewPasswordResponse(h, w, context, policy, text)
    case AwaitConfirmPassword(context, policy, candidate) =>
      HandleConfirmPasswordResponse(h, w, context, policy, candidate, text, input, env)
    case AwaitEnrollmentTotp(context, secret) => HandleEnrollmentResponse(h, w, context, secret, text, input, env)
    case AwaitSelection(context) => HandleSelectionResponse(h, w, context, text)
  }

  /** The pre-authentication check that opens every callback; `true` lets the callback go on. */
  function PreAuth(h: Handler, w: World, input: Input, env: Env): (World, bool) {
    var (disk, answer) := Abuse.Step(w.disk, AbuseOp(Check(h.peerIp), input), env.abuse);
    (w.(disk := disk), !(answer.CheckAnswer? && answer.check.banned))
  }

  function Continue(h: Handler, w: World, username: string, input: Input, env: Env): Step {
    var start := AwaitPassword(username);
    var empty := input.response.Some? && (input.response.value == [] || input.response.value[0] == "");
    if input.response.None? || (h.keyboard.None? && empty) then
      Step(h.(keyboard := Some(start)), w, Ask(PasswordPrompt), [])
    else
      var text := if input.response.value == [] then "" else input.response.value[0];
      Respond(h.(keyboard := None), w, OrElse(h.keyboard, start), text, input, env)
  }

  function AnswerAllowed(h: Handler, w: World, input: Input, env: Env): Step {
    var username := Trim(input.user);
    if h.username.Some? && h.proxy.Some? then Step(h, w, Accept, [])
    else if username == "" then Rejected(h, w, input, env, [])
    else Continue(h, w, username, input, env)
  }

  function AuthKeyboardInteractive(h: Handler, w0: World, input: Input, env: Env): Step {
    var (w, allowed) := PreAuth(h, w0, input, env);
    if allowed then AnswerAllowed(h, w, input, env) else Step(h, w, Reject, [])
  }

  /** The callbacks for the methods `none`, `publickey` and `password`. */
  function AuthOtherMethod(h: Handler, w0: World, input: Input, env: Env): Step {
    Step(h, PreAuth(h, w0, input, env).0, Reject, [])
  }
}
