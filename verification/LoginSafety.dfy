/** What every run of the login machine keeps. */
module LoginSafety {
  import opened Wrappers
  import opened Text
  import opened Config
  import opened RateLimit
  import opened Abuse
  import opened Auth
  import opened Session
  import opened Login

  type Log = seq<AuthEvent>

  // ---------------------------------------------------------------------------
  // Evidence in a log

  /** The password of `record` was verified. */
  ghost predicate Verified(log: Log, record: UserRecord) {
    exists i :: 0 <= i < |log| && log[i].PasswordVerified? && log[i].record == record
  }

  ghost predicate ChosenAt(log: Log, i: int, record: UserRecord, hash: string)
    requires 0 <= i < |log|
  {
    log[i].PasswordChosen? && log[i].record == record && log[i].hash == hash && Verified(log[..i], record)
  }

  /** After that, its user confirmed a new password that the policy allows. */
  ghost predicate Chosen(log: Log, record: UserRecord, hash: string) {
    exists i :: 0 <= i < |log| && ChosenAt(log, i, record, hash)
  }

  /** At `i` the user of `record` has passed both factors: either a code matched the secret
      stored in the record whose password was verified, or a code matched a fresh secret that
      had been issued to the user and was then committed, together with a new password when the record demanded one. */
  ghost predicate CompletesAt(log: Log, i: int, record: UserRecord)
    requires 0 <= i < |log|
  {
    match log[i]
    case StoredCodeVerified(r, _, _) =>
      r == record && record.totpSecret.Some? && !record.mustChangePassword && Verified(log[..i], record)
    case Committed(name, u) =>
      && name == record.name && u.secret.Some? && u.mustChange == Some(false)
      && i > 0 && log[i - 1].FreshCodeVerified?
      && log[i - 1].name == name && log[i - 1].secret == u.secret.value
      && SecretIssued(name, u.secret.value) in log[..i - 1]
      && (if record.mustChangePassword then u.hash.Some? && Chosen(log[..i - 1], record, u.hash.value)
          else u.hash.None? && record.totpSecret.None? && Verified(log[..i - 1], record))
    case _ => false
  }

  ghost predicate Completed(log: Log, name: string) {
    exists i, record :: 0 <= i < |log| && CompletesAt(log, i, record) && record.name == name
  }

  ghost predicate WasAccepted(log: Log, name: string) {
    exists i :: 0 <= i < |log| && log[i].Accepted? && log[i].name == name
  }

  /** Every acceptance comes after both factors, for the same user name. */
  ghost predicate AcceptsJustified(log: Log) {
    forall i :: 0 <= i < |log| && log[i].Accepted? ==> Completed(log[..i], log[i].name)
  }

  // ---------------------------------------------------------------------------
  // Invariant of one session

  ghost predicate ChangeDue(context: PendingAuthContext, log: Log) {
    && context.loginPassword.None? && context.newPasswordHash.None?
    && context.user.mustChangePassword && Verified(log, context.user)
  }

  /** What each phase's context must satisfy. */
  ghost predicate PhaseOk(state: KeyboardAuthState, log: Log) {
    match state
    case AwaitPassword(_) => true
    case AwaitExistingTotp(_, _) => true
    case AwaitNewPassword(context, _) => ChangeDue(context, log)
    case AwaitConfirmPassword(context, _, _) => ChangeDue(context, log)
    case AwaitEnrollmentTotp(context, secret) =>
      && context.loginPassword.None? && SecretIssued(context.user.name, secret) in log
      && (if context.newPasswordHash.Some?
          then context.user.mustChangePassword && Chosen(log, context.user, context.newPasswordHash.value)
          else !context.user.mustChangePassword && context.user.totpSecret.None? && Verified(log, context.user))
    case AwaitSelection(context) =>
      && context.loginPassword.None? && !context.user.mustChangePassword && context.user.totpSecret.Some?
      && Completed(log, context.user.name)
  }

  ghost predicate SessionInv(h: Handler, log: Log) {
    && (h.keyboard.Some? ==> PhaseOk(h.keyboard.value, log))
    && (h.username.Some? ==> WasAccepted(log, h.username.value))
    && AcceptsJustified(log)
  }

  // ---------------------------------------------------------------------------
  // Logs only grow

  lemma VerifiedMore(log: Log, more: Log, record: UserRecord)
    ensures Verified(log, record) ==> Verified(log + more, record)
  {
    if i :| 0 <= i < |log| && log[i].PasswordVerified? && log[i].record == record {
      assert (log + more)[i] == log[i];
    }
  }

  lemma ChosenMore(log: Log, more: Log, record: UserRecord, hash: string)
    ensures Chosen(log, record, hash) ==> Chosen(log + more, record, hash)
  {
    if i :| 0 <= i < |log| && ChosenAt(log, i, record, hash) {
      assert (log + more)[i] == log[i] && (log + more)[..i] == log[..i];
      assert ChosenAt(log + more, i, record, hash);
    }
  }

  lemma CompletedMore(log: Log, more: Log, name: string)
    ensures Completed(log, name) ==> Completed(log + more, name)
  {
    if i, record :| 0 <= i < |log| && CompletesAt(log, i, record) && record.name == name {
      var all := log + more;
      assert all[i] == log[i] && all[..i] == log[..i];
      assert i > 0 ==> all[i - 1] == log[i - 1] && all[..i - 1] == log[..i - 1];
      assert CompletesAt(all, i, record);
    }
  }

  lemma AcceptedMore(log: Log, more: Log, name: string)
    ensures WasAccepted(log, name) ==> WasAccepted(log + more, name)
  {
    if i :| 0 <= i < |log| && log[i].Accepted? && log[i].name == name {
      assert (log + more)[i] == log[i];
    }
  }

  lemma PhaseMore(state: KeyboardAuthState, log: Log, more: Log)
    requires PhaseOk(state, log)
    ensures PhaseOk(state, log + more)
  {
    match state
    case AwaitPassword(_) =>
    case AwaitExistingTotp(_, _) =>
    case AwaitNewPassword(context, _) => VerifiedMore(log, more, context.user);
    case AwaitConfirmPassword(context, _, _) => VerifiedMore(log, more, context.user);
    case AwaitEnrollmentTotp(context, _) =>
      VerifiedMore(log, more, context.user);
      if context.newPasswordHash.Some? {
        ChosenMore(log, more, context.user, context.newPasswordHash.value);
      }
    case AwaitSelection(context) => CompletedMore(log, more, context.user.name);
  }

  predicate NoAccept(more: Log) {
    forall e <- more :: !e.Accepted?
  }

  lemma JustifiedMore(log: Log, more: Log)
    requires AcceptsJustified(log) && NoAccept(more)
    ensures AcceptsJustified(log + more)
  {
    var all := log + more;
    assert forall i :: |log| <= i < |all| ==> all[i] in more;
    forall i | 0 <= i < |log| && all[i].Accepted? ensures Completed(all[..i], all[i].name) {
      assert all[..i] == log[..i];
    }
  }

  /** A step without acceptance that leaves a good phase keeps the invariant. */
  lemma InvAfter(h: Handler, h': Handler, log: Log, more: Log)
    requires SessionInv(h, log) && NoAccept(more) && h'.username == h.username
    requires h'.keyboard.Some? ==> PhaseOk(h'.keyboard.value, log + more)
    ensures SessionInv(h', log + more)
  {
    JustifiedMore(log, more);
    if h.username.Some? {
      AcceptedMore(log, more, h.username.value);
    }
  }

  // ---------------------------------------------------------------------------
  // Phases

  /** After the password, a user moves on according to the verified record. */
  lemma AdvanceKeeps(h: Handler, w: World, user: UserRecord, policy: PasswordPolicyConfig, input: Input,
                     h0: Handler, log: Log, events: Log)
    requires SessionInv(h0, log) && h.keyboard.None? && h.username == h0.username && NoAccept(events)
    requires Verified(log + events, user)
    requires user.mustChangePassword || user.totpSecret.None? || Completed(log + events, user.name)
    ensures var step := Logged(events, AdvanceAfterInitialAuth(h, w, user, policy, input));
            SessionInv(step.h, log + step.log)
  {
    var step := Logged(events, AdvanceAfterInitialAuth(h, w, user, policy, input));
    var issued := AdvanceAfterInitialAuth(h, w, user, policy, input).log;
    assert log + step.log == (log + events) + issued;
    VerifiedMore(log + events, issued, user);
    CompletedMore(log + events, issued, user.name);
    InvAfter(h0, step.h, log, step.log);
  }

  lemma VerifiedAt(log: Log, i: nat)
    requires i < |log| && log[i].PasswordVerified?
    ensures Verified(log, log[i].record)
  {
  }

  lemma PasswordResponseKeeps(h: Handler, w: World, name: string, password: string, input: Input, env: Env, log: Log)
    requires SessionInv(h, log) && h.keyboard.None? && UniqueNames(w.config.users)
    ensures var step := HandlePasswordResponse(h, w, name, password, input, env);
            SessionInv(step.h, log + step.log)
  {
    var step := HandlePasswordResponse(h, w, name, password, input, env);
    var attempt := CheckPaidPassword(h, w, name, password, input, env);
    var found := FindUser(w.config.users, name);
    if ShouldPromptExistingTotp(if found.Some? then Some(w.config.users[found.value]) else None) || attempt.user.None? {
      InvAfter(h, step.h, log, step.log);
    } else {
      LastIsFirst(w.config.users, name);
      var user := attempt.user.value;
      var events := attempt.log + FactorsOf(user, password, None, input.wall);
      assert (log + events)[|log| + 2] == PasswordVerified(user, password);
      VerifiedAt(log + events, |log| + 2);
      AdvanceKeeps(h, attempt.w, user, PasswordPolicyOf(w.config), input, h, log, events);
    }
  }

  /** A paid check that finds both factors right leaves the evidence for what comes next. */
  lemma FactorsVerify(h: Handler, w: World, name: string, password: string, code: string,
                      input: Input, env: Env, log: Log)
    ensures var attempt := CheckPaidFactors(h, w, name, password, code, input, env);
            && NoAccept(attempt.log)
            && (attempt.user.Some? ==>
                  var user, all := attempt.user.value, log + attempt.log;
                  && Verified(all, user)
                  && (user.mustChangePassword || user.totpSecret.None? || Completed(all, user.name)))
  {
    var attempt := CheckPaidFactors(h, w, name, password, code, input, env);
    if attempt.user.Some? {
      var user, all := attempt.user.value, log + attempt.log;
      assert all[|log| + 2] == PasswordVerified(user, password);
      VerifiedAt(all, |log| + 2);
      if user.totpSecret.Some? && !user.mustChangePassword {
        assert all[|log| + 3] == StoredCodeVerified(user, code, input.wall);
        VerifiedAt(all[..|log| + 3], |log| + 2);
        assert CompletesAt(all, |log| + 3, user);
      }
    }
  }

  lemma ExistingTotpKeeps(h: Handler, w: World, name: string, password: string, code: string,
                          input: Input, env: Env, log: Log)
    requires SessionInv(h, log) && h.keyboard.None?
    ensures var step := HandleExistingTotpResponse(h, w, name, password, code, input, env);
            SessionInv(step.h, log + step.log)
  {
    var step := HandleExistingTotpResponse(h, w, name, password, code, input, env);
    var attempt := CheckPaidFactors(h, w, name, password, Trim(code), input, env);
    if attempt.user.Some? {
      var user, events := attempt.user.value, attempt.log;
      FactorsVerify(h, w, name, password, Trim(code), input, env, log);
      AdvanceKeeps(h, Succeeded(h, attempt.w, input, env), user, PasswordPolicyOf(w.config), input,
                   h, log, events);
    } else {
      InvAfter(h, step.h, log, step.log);
    }
  }

  lemma NewPasswordKeeps(h: Handler, w: World, context: PendingAuthContext, policy: PasswordPolicyConfig,
                         text: string, log: Log)
    requires SessionInv(h, log) && h.keyboard.None? && ChangeDue(context, log)
    ensures var step := HandleNewPasswordResponse(h, w, context, policy, text);
            SessionInv(step.h, log + step.log)
  {
    assert log + [] == log;
  }

  lemma ConfirmPasswordKeeps(h: Handler, w: World, context: PendingAuthContext, policy: PasswordPolicyConfig,
                             candidate: string, confirmation: string, input: Input, env: Env, log: Log)
    requires SessionInv(h, log) && h.keyboard.None? && ChangeDue(context, log)
    ensures var step := HandleConfirmPasswordResponse(h, w, context, policy, candidate, confirmation, input, env);
            SessionInv(step.h, log + step.log)
  {
    var step := HandleConfirmPasswordResponse(h, w, context, policy, candidate, confirmation, input, env);
    if step.log != [] {
      var all := log + step.log;
      assert all[..|log|] == log;
      assert ChosenAt(all, |log|, context.user, step.log[0].hash);
      assert step.log[1] in all;
      InvAfter(h, step.h, log, step.log);
    } else {
      assert log + [] == log;
    }
  }

  /** A committed enrollment completes the login of the record the context was opened with. */
  lemma CommitKeeps(h: Handler, w: World, context: PendingAuthContext, secret: string, input: Input,
                    code: string, time: int, log: Log)
    requires SessionInv(h, log) && h.keyboard.None? && PhaseOk(AwaitEnrollmentTotp(context, secret), log)
    ensures var step := CommitPendingUpdates(h, w, context, secret, input,
                                             [FreshCodeVerified(context.user.name, secret, code, time)]);
            SessionInv(step.h, log + step.log)
  {
    var name, user := context.user.name, context.user;
    var matched := FreshCodeVerified(name, secret, code, time);
    var step := CommitPendingUpdates(h, w, context, secret, input, [matched]);
    if step.h.keyboard.Some? {
      var committed := Committed(name, Update(context.newPasswordHash, Some(secret), Some(false)));
      assert step.log == [matched, committed];
      var all := log + step.log;
      assert all[|log|] == matched && all[|log| + 1] == committed && all[..|log|] == log;
      assert committed.update.secret.value == secret;
      assert CompletesAt(all, |log| + 1, user);
      assert CommittedContext(context, secret).user.name == name;
      InvAfter(h, step.h, log, step.log);
    } else {
      InvAfter(h, step.h, log, step.log);
    }
  }

  lemma EnrollmentKeeps(h: Handler, w: World, context: PendingAuthContext, secret: string, code: string,
                        input: Input, env: Env, log: Log)
    requires SessionInv(h, log) && h.keyboard.None? && PhaseOk(AwaitEnrollmentTotp(context, secret), log)
    ensures var step := HandleEnrollmentResponse(h, w, context, secret, code, input, env);
            SessionInv(step.h, log + step.log)
  {
    if env.crypto.codeMatches(secret, Trim(code), input.wall) {
      CommitKeeps(h, Succeeded(h, w, input, env), context, secret, input, Trim(code), input.wall, log);
    } else {
      assert log + [] == log;
    }
  }

  lemma SelectionKeeps(h: Handler, w: World, context: PendingAuthContext, text: string, log: Log)
    requires SessionInv(h, log) && h.keyboard.None? && PhaseOk(AwaitSelection(context), log)
    ensures var step := HandleSelectionResponse(h, w, context, text);
            SessionInv(step.h, log + step.log)
  {
    var step := HandleSelectionResponse(h, w, context, text);
    if step.log != [] {
      var name, all := context.user.name, log + step.log;
      assert all[..|log|] == log && all[|log|] == step.log[0];
      assert WasAccepted(all, name);
      forall i | 0 <= i < |all| && all[i].Accepted? ensures Completed(all[..i], all[i].name) {
        if i < |log| {
          assert all[..i] == log[..i] && all[i] == log[i];
        }
      }
    } else {
      assert log + [] == log;
    }
  }

  lemma RespondKeeps(h: Handler, w: World, state: KeyboardAuthState, text: string, input: Input, env: Env, log: Log)
    requires SessionInv(h, log) && h.keyboard.None? && UniqueNames(w.config.users) && PhaseOk(state, log)
    ensures var step := Respond(h, w, state, text, input, env); SessionInv(step.h, log + step.log)
  {
    match state
    case AwaitPassword(name) => PasswordResponseKeeps(h, w, name, text, input, env, log);
    case AwaitExistingTotp(name, password) => ExistingTotpKeeps(h, w, name, password, text, input, env, log);
    case AwaitNewPassword(context, policy) => NewPasswordKeeps(h, w, context, policy, text, log);
    case AwaitConfirmPassword(context, policy, candidate) =>
      ConfirmPasswordKeeps(h, w, context, policy, candidate, text, input, env, log);
    case AwaitEnrollmentTotp(context, secret) => EnrollmentKeeps(h, w, context, secret, text, input, env, log);
    case AwaitSelection(context) => SelectionKeeps(h, w, context, text, log);
  }

  lemma ContinueKeeps(h: Handler, w: World, username: string, input: Input, env: Env, log: Log)
    requires SessionInv(h, log) && UniqueNames(w.config.users)
    ensures var step := Continue(h, w, username, input, env); SessionInv(step.h, log + step.log)
  {
    assert log + [] == log;
    if input.response.Some? {
      var text := if input.response.value == [] then "" else input.response.value[0];
      RespondKeeps(h.(keyboard := None), w, OrElse(h.keyboard, AwaitPassword(username)), text, input, env, log);
    }
  }

  /** Every keyboard-interactive callback keeps the session invariant, whatever the client sends. */
  lemma CallbackKeeps(h: Handler, w: World, input: Input, env: Env, log: Log)
    requires SessionInv(h, log) && UniqueNames(w.config.users)
    ensures var step := AuthKeyboardInteractive(h, w, input, env); SessionInv(step.h, log + step.log)
  {
    assert log + [] == log;
    ContinueKeeps(h, PreAuth(h, w, input, env).0, Trim(input.user), input, env, log);
  }

  // ---------------------------------------------------------------------------
  // What the records mean

  /** The target is known and among the user's allowed servers. */
  predicate AllowedBy(config: ConfigFile, servers: Servers, name: string, target: SelectedTarget) {
    match FindUser(config.users, name)
    case None => false
    case Some(i) =>
      && target.name in config.users[i].allowedServers
      && target.name in servers && servers[target.name] == target.host
  }

  predicate TargetAllowed(w: World, name: string, target: SelectedTarget) {
    AllowedBy(w.config, w.servers, name, target)
  }

  /** The fact that an event stands for, in the world in which it is recorded. */
  ghost predicate Genuine(e: AuthEvent, w: World, w': World, crypto: Crypto) {
    match e
    case TokenConsumed(request, ok) => (w'.limiter, ok) == ConsumeRateLimitToken(w.limiter, request)
    case PasswordChecked(_) => true
    case PasswordVerified(record, password) =>
      && record in w.config.users && crypto.parsesHash(record.password) && crypto.verifies(record.password, password)
    case StoredCodeVerified(record, code, time) =>
      record in w.config.users && record.totpSecret.Some? && crypto.codeMatches(record.totpSecret.value, code, time)
    case PasswordChosen(record, password, hash, policy) =>
      && CandidateAllowed(password, record.password, policy, crypto)
      && exists salt :: hash == crypto.hash(salt, password)
    case SecretIssued(_, _) => true
    case FreshCodeVerified(name, secret, code, time) => crypto.codeMatches(secret, code, time)
    case Committed(name, update) =>
      && FindUser(w.config.users, name).Some?
      && w'.config == w.config.(users := UpdatedUsers(w.config.users, name, update))
    case Accepted(name, target) => TargetAllowed(w, name, target)
    case MenuSelected(name, target) => TargetAllowed(w, name, target)
  }

  lemma FoundIsMember(users: seq<UserRecord>, name: string)
    ensures FindLast(users, name).Some? ==> FindLast(users, name).value in users
  {
  }

  ghost predicate AllGenuine(log: Log, w: World, w': World, crypto: Crypto) {
    forall e <- log :: Genuine(e, w, w', crypto)
  }

  /** The pre-authentication check changes nothing that events speak of. */
  lemma GenuineBefore(step: Step, w: World, w1: World, crypto: Crypto)
    requires w1.config == w.config && w1.servers == w.servers && w1.limiter == w.limiter
    requires AllGenuine(step.log, w1, step.w, crypto)
    ensures AllGenuine(step.log, w, step.w, crypto)
  {
    forall e <- step.log ensures Genuine(e, w, step.w, crypto) {
      assert Genuine(e, w1, step.w, crypto);
    }
  }

  /** Nothing but the phase of the login differs. */
  predicate SameButPhase(a: Handler, b: Handler) {
    a.(keyboard := None) == b.(keyboard := None)
  }

  /** What checking a login password may record: nothing but a refused token, a paid check that
      failed, or a paid check and the verified factors. */
  predicate ChecksLogin(step: Step, h: Handler, w: World, request: Request, verified: Log) {
    var (limiter, ok) := ConsumeRateLimitToken(w.limiter, request);
    var paid := [TokenConsumed(request, true), PasswordChecked(request)];
    && step.w.config == w.config && step.w.limiter == limiter && step.reply != Accept && SameButPhase(step.h, h)
    && (if !ok then step.log == [TokenConsumed(request, false)]
        else step.log == paid || step.log == paid + verified)
  }

  lemma PasswordRecords(h: Handler, w: World, name: string, password: string, input: Input, env: Env)
    ensures var step := HandlePasswordResponse(h, w, name, password, input, env);
            var user := CheckPaidPassword(h, w, name, password, input, env).user;
            var verified :=
              if user.Some? then FactorsOf(user.value, password, None, input.wall) + IssuedTo(user.value, input)
              else [];
            || (step.log == [] && step.w == w && step.reply != Accept && SameButPhase(step.h, h))
            || ChecksLogin(step, h, w, RequestOf(h, name, input), verified)
  {
  }

  /** Recorded factors that are genuine make the whole record genuine. */
  lemma ChecksGenuine(step: Step, h: Handler, w: World, request: Request, verified: Log, crypto: Crypto)
    requires ChecksLogin(step, h, w, request, verified)
    requires forall e <- verified ::
      (e.PasswordVerified? || e.StoredCodeVerified? || e.SecretIssued?) && Genuine(e, w, w, crypto)
    ensures AllGenuine(step.log, w, step.w, crypto)
  {
    forall e <- step.log ensures Genuine(e, w, step.w, crypto) {
      assert e.TokenConsumed? || e == PasswordChecked(request) || e in verified;
    }
  }

  lemma PasswordGenuine(h: Handler, w: World, name: string, password: string, input: Input, env: Env)
    ensures var step := HandlePasswordResponse(h, w, name, password, input, env);
            AllGenuine(step.log, w, step.w, env.crypto)
  {
    FoundIsMember(w.config.users, name);
    PasswordRecords(h, w, name, password, input, env);
    var step := HandlePasswordResponse(h, w, name, password, input, env);
    if step.log != [] {
      var user := CheckPaidPassword(h, w, name, password, input, env).user;
      var verified := if user.Some? then FactorsOf(user.value, password, None, input.wall) + IssuedTo(user.value, input)
                      else [];
      ChecksGenuine(step, h, w, RequestOf(h, name, input), verified, env.crypto);
    }
  }

  /** The factors on record when the password and, for a user with a secret, the code are right. */
  function PaidFactors(h: Handler, w: World, name: string, password: string, code: string,
                       input: Input, env: Env): Log
  {
    var user := CheckPaidFactors(h, w, name, password, code, input, env).user;
    if user.Some? then FactorsOf(user.value, password, Some(code), input.wall) + IssuedTo(user.value, input) else []
  }

  lemma PaidFactorsRecord(h: Handler, w: World, name: string, password: string, code: string, input: Input, env: Env)
    ensures var attempt := CheckPaidFactors(h, w, name, password, code, input, env);
            var request := RequestOf(h, name, input);
            var (limiter, ok) := ConsumeRateLimitToken(w.limiter, request);
            && attempt.w == w.(limiter := limiter)
            && (if !ok then attempt.user.None? && attempt.log == [TokenConsumed(request, false)]
                else attempt.log == [TokenConsumed(request, true), PasswordChecked(request)]
                                    + if attempt.user.Some?
                                      then FactorsOf(attempt.user.value, password, Some(code), input.wall) else [])
  {
  }

  lemma ExistingTotpRecords(h: Handler, w: World, name: string, password: string, code: string,
                            input: Input, env: Env)
    ensures var step := HandleExistingTotpResponse(h, w, name, password, code, input, env);
            var factors := PaidFactors(h, w, name, password, Trim(code), input, env);
            ChecksLogin(step, h, w, RequestOf(h, name, input), factors)
  {
    PaidFactorsRecord(h, w, name, password, Trim(code), input, env);
  }

  lemma ExistingTotpGenuine(h: Handler, w: World, name: string, password: string, code: string, input: Input, env: Env)
    ensures var step := HandleExistingTotpResponse(h, w, name, password, code, input, env);
            AllGenuine(step.log, w, step.w, env.crypto)
  {
    FoundIsMember(w.config.users, name);
    ExistingTotpRecords(h, w, name, password, code, input, env);
    var step := HandleExistingTotpResponse(h, w, name, password, code, input, env);
    var factors := PaidFactors(h, w, name, password, Trim(code), input, env);
    ChecksGenuine(step, h, w, RequestOf(h, name, input), factors, env.crypto);
  }

  /** What committing adds to the record, and what it leaves alone. */
  lemma CommitRecords(h: Handler, w: World, context: PendingAuthContext, secret: string, input: Input, events: Log)
    ensures var step := CommitPendingUpdates(h, w, context, secret, input, events);
            var update := Update(context.newPasswordHash, Some(secret), Some(false));
            && step.w.limiter == w.limiter && step.reply != Accept && SameButPhase(step.h, h)
            && step.w.config == w.config.(users := UpdatedUsers(w.config.users, context.user.name, update))
            && (step.log == events ||
                (&& step.log == events + [Committed(context.user.name, update)]
                 && FindUser(w.config.users, context.user.name).Some?))
  {
    var step := CommitPendingUpdates(h, w, context, secret, input, events);
    assert forall x: Log :: x + [] == x;
  }

  lemma CommitGenuine(h: Handler, w: World, context: PendingAuthContext, secret: string, matched: AuthEvent,
                      input: Input, env: Env)
    requires matched.FreshCodeVerified? && Genuine(matched, w, w, env.crypto)
    ensures var step := CommitPendingUpdates(h, Succeeded(h, w, input, env), context, secret, input, [matched]);
            AllGenuine(step.log, w, step.w, env.crypto)
  {
    var step := CommitPendingUpdates(h, Succeeded(h, w, input, env), context, secret, input, [matched]);
    var committed := Committed(context.user.name, Update(context.newPasswordHash, Some(secret), Some(false)));
    CommitRecords(h, Succeeded(h, w, input, env), context, secret, input, [matched]);
    forall e <- step.log ensures Genuine(e, w, step.w, env.crypto) {
      assert e == matched || e == committed;
    }
  }

  /** The staged check records its token first, then its check, then what a commit records. */
  lemma StagedRecords(h: Handler, w: World, context: PendingAuthContext, secret: string, input: Input, env: Env,
                      matched: Log)
    requires context.loginPassword.Some?
    ensures var step := CheckStagedPassword(h, w, context, secret, input, env, matched);
            var request := RequestOf(h, context.user.name, input);
            var (limiter, ok) := ConsumeRateLimitToken(w.limiter, request);
            var paid := [TokenConsumed(request, true), PasswordChecked(request)];
            var update := Update(context.newPasswordHash, Some(secret), Some(false));
            var updated := w.config.(users := UpdatedUsers(w.config.users, context.user.name, update));
            && step.w.limiter == limiter && step.reply != Accept && SameButPhase(step.h, h)
            && (step.w.config == w.config || step.w.config == updated)
            && (if !ok then step.log == [TokenConsumed(request, false)]
                else
                  || step.log == paid || step.log == paid + matched
                  || (&& step.log == paid + matched + [Committed(context.user.name, update)]
                      && FindUser(w.config.users, context.user.name).Some?
                      && step.w.config == updated))
  {
    var attempt := CheckPaidPassword(h, w, context.user.name, context.loginPassword.value, input, env);
    CommitRecords(h, Succeeded(h, attempt.w, input, env), context, secret, input, attempt.log + matched);
  }

  lemma StagedGenuine(h: Handler, w: World, context: PendingAuthContext, secret: string, matched: AuthEvent,
                      input: Input, env: Env)
    requires matched.FreshCodeVerified? && Genuine(matched, w, w, env.crypto) && context.loginPassword.Some?
    ensures var step := CheckStagedPassword(h, w, context, secret, input, env, [matched]);
            AllGenuine(step.log, w, step.w, env.crypto)
  {
    StagedRecords(h, w, context, secret, input, env, [matched]);
    var step := CheckStagedPassword(h, w, context, secret, input, env, [matched]);
    var request := RequestOf(h, context.user.name, input);
    var update := Update(context.newPasswordHash, Some(secret), Some(false));
    forall e <- step.log ensures Genuine(e, w, step.w, env.crypto) {
      assert e == matched || e == PasswordChecked(request) || e.TokenConsumed?
          || e == Committed(context.user.name, update);
    }
  }

  lemma EnrollmentGenuine(h: Handler, w: World, context: PendingAuthContext, secret: string, code: string,
                          input: Input, env: Env)
    ensures var step := HandleEnrollmentResponse(h, w, context, secret, code, input, env);
            AllGenuine(step.log, w, step.w, env.crypto)
  {
    if env.crypto.codeMatches(secret, Trim(code), input.wall) {
      var matched := FreshCodeVerified(context.user.name, secret, Trim(code), input.wall);
      if context.loginPassword.Some? {
        StagedGenuine(h, w, context, secret, matched, input, env);
      } else {
        CommitGenuine(h, w, context, secret, matched, input, env);
      }
    }
  }

  lemma SelectionGenuine(h: Handler, w: World, context: PendingAuthContext, text: string, env: Env)
    ensures var step := HandleSelectionResponse(h, w, context, text);
            AllGenuine(step.log, w, step.w, env.crypto)
  {
    var name := context.user.name;
    var entries := AllowedServerEntries(w.config.users, w.servers, name);
    if entries.Some? {
      var i := FindUser(w.config.users, name).value;
      assert forall e <- entries.value :: e.0 in w.config.users[i].allowedServers && e.0 in w.servers;
    }
  }

  lemma RespondGenuine(h: Handler, w: World, state: KeyboardAuthState, text: string, input: Input, env: Env)
    ensures var step := Respond(h, w, state, text, input, env);
            AllGenuine(step.log, w, step.w, env.crypto)
  {
    match state
    case AwaitPassword(name) => PasswordGenuine(h, w, name, text, input, env);
    case AwaitExistingTotp(name, password) => ExistingTotpGenuine(h, w, name, password, text, input, env);
    case AwaitNewPassword(context, policy) =>
    case AwaitConfirmPassword(context, policy, candidate) =>
    case AwaitEnrollmentTotp(context, secret) => EnrollmentGenuine(h, w, context, secret, text, input, env);
    case AwaitSelection(context) => SelectionGenuine(h, w, context, text, env);
  }

  lemma AnswerGenuine(h: Handler, w: World, input: Input, env: Env)
    ensures var step := AnswerAllowed(h, w, input, env);
            AllGenuine(step.log, w, step.w, env.crypto)
  {
    if input.response.Some? {
      var text := if input.response.value == [] then "" else input.response.value[0];
      RespondGenuine(h.(keyboard := None), w, OrElse(h.keyboard, AwaitPassword(Trim(input.user))), text, input, env);
    }
  }

  /** No event is recorded unless its fact holds: passwords and codes were verified against the
      snapshot of that very callback, and an accepted target was allowed and known in it. */
  lemma EventsAreGenuine(h: Handler, w: World, input: Input, env: Env)
    ensures var step := AuthKeyboardInteractive(h, w, input, env);
            AllGenuine(step.log, w, step.w, env.crypto)
  {
    var (w1, allowed) := PreAuth(h, w, input, env);
    if allowed {
      AnswerGenuine(h, w1, input, env);
      GenuineBefore(AuthKeyboardInteractive(h, w, input, env), w, w1, env.crypto);
    }
  }

  /** A commit keeps a valid configuration valid except in one case: the user's stored password is
      still a bootstrap text and the login has chosen no new one, so that the change flag is cleared
      without a change. */
  lemma CommitKeepsValidExactly(h: Handler, w: World, context: PendingAuthContext, secret: string, input: Input,
                                checks: Checks)
    requires ValidConfig(w.config, w.servers, checks) && checks.validSecret(secret)
    requires context.newPasswordHash.Some? ==>
      IsHashFormat(context.newPasswordHash.value) && checks.parsesHash(context.newPasswordHash.value)
    ensures var after := CommitPendingUpdates(h, w, context, secret, input, []).w;
            var found := FindUser(w.config.users, context.user.name);
            ValidConfig(after.config, after.servers, checks)
            <==> !(found.Some? && context.newPasswordHash.None? && !IsHashFormat(w.config.users[found.value].password))
  {
    var update := Update(context.newPasswordHash, Some(secret), Some(false));
    if FindUser(w.config.users, context.user.name).Some? {
      UpdateKeepsValidExactly(w.config, w.servers, checks, context.user.name, update);
    }
  }

  /** An enrollment response never accepts, changes at most the phase and the user's own record. */
  lemma EnrollmentRecords(h: Handler, w: World, context: PendingAuthContext, secret: string, code: string,
                          input: Input, env: Env)
    ensures var step := HandleEnrollmentResponse(h, w, context, secret, code, input, env);
            var update := Update(context.newPasswordHash, Some(secret), Some(false));
            && step.reply != Accept && SameButPhase(step.h, h)
            && (step.w.config == w.config
                || step.w.config == w.config.(users := UpdatedUsers(w.config.users, context.user.name, update)))
  {
    if env.crypto.codeMatches(secret, Trim(code), input.wall) {
      var matched := [FreshCodeVerified(context.user.name, secret, Trim(code), input.wall)];
      if context.loginPassword.Some? {
        StagedRecords(h, w, context, secret, input, env, matched);
      } else {
        CommitRecords(h, Succeeded(h, w, input, env), context, secret, input, matched);
      }
    }
  }

  lemma RespondAccepts(h: Handler, w: World, state: KeyboardAuthState, text: string, input: Input, env: Env)
    ensures var step := Respond(h, w, state, text, input, env);
            step.reply == Accept ==>
              && step.h.username.Some? && step.h.pendingTarget.Some?
              && step.log == [Accepted(step.h.username.value, step.h.pendingTarget.value)]
  {
    match state
    case AwaitPassword(name) => PasswordRecords(h, w, name, text, input, env);
    case AwaitExistingTotp(name, password) => ExistingTotpRecords(h, w, name, password, text, input, env);
    case AwaitEnrollmentTotp(context, secret) => EnrollmentRecords(h, w, context, secret, text, input, env);
    case AwaitNewPassword(context, policy) =>
    case AwaitConfirmPassword(context, policy, candidate) =>
    case AwaitSelection(context) =>
  }

  /** An acceptance is either the repeated answer to a client that is already connected, or it
      follows a selection just recorded. */
  lemma AcceptMeans(h: Handler, w: World, input: Input, env: Env)
    requires AuthKeyboardInteractive(h, w, input, env).reply == Accept
    ensures var step := AuthKeyboardInteractive(h, w, input, env);
            || (step.log == [] && h.username.Some? && h.proxy.Some? && step.h == h)
            || (&& step.h.username.Some? && step.h.pendingTarget.Some?
                && step.log == [Accepted(step.h.username.value, step.h.pendingTarget.value)])
  {
    if !(h.username.Some? && h.proxy.Some?) && input.response.Some? {
      var text := if input.response.value == [] then "" else input.response.value[0];
      RespondAccepts(h.(keyboard := None), PreAuth(h, w, input, env).0,
                     OrElse(h.keyboard, AwaitPassword(Trim(input.user))), text, input, env);
    }
  }

  function PromptOf(state: KeyboardAuthState): Prompt {
    match state
    case AwaitPassword(_) => PasswordPrompt
    case AwaitExistingTotp(_, _) => TotpPrompt
    case AwaitNewPassword(_, _) => NewPasswordPrompt
    case AwaitConfirmPassword(_, _, _) => ConfirmPrompt
    case AwaitEnrollmentTotp(_, _) => EnrollmentPrompt
    case AwaitSelection(_) => SelectionPrompt
  }

  /** What a phase asks for is what its next phase expects; an exchange that has ended in acceptance
      or rejection leaves no phase behind. */
  predicate ReplyFits(step: Step) {
    match step.reply
    case Ask(prompt) => step.h.keyboard.Some? && prompt == PromptOf(step.h.keyboard.value)
    case Accept => step.h.keyboard.None?
    case Reject => step.h.keyboard.None?
    case Dropped => true
  }

  predicate HasVerified(log: Log) {
    exists e <- log :: e.PasswordVerified?
  }

  /** What the record of a phase's response tells of success and failure, for the tracker. */
  function Learned(state: KeyboardAuthState, log: Log): Option<bool> {
    match state
    case AwaitPassword(_) => if log == [] || HasVerified(log) then None else Some(false)
    case AwaitExistingTotp(_, _) => Some(HasVerified(log))
    case AwaitEnrollmentTotp(_, _) => Some(exists e <- log :: e.FreshCodeVerified?)
    case _ => None
  }

  /** The tracker learns exactly that; a rejection is a failure, and an acceptance teaches nothing. */
  predicate TrackerLearns(step: Step, h: Handler, w: World, state: KeyboardAuthState, input: Input, env: Env) {
    var learned := Learned(state, step.log);
    && (step.w.disk ==
          match learned
          case None => w.disk
          case Some(true) => Abuse.Step(w.disk, AbuseOp(Success(h.peerIp), input), env.abuse).0
          case Some(false) => Abuse.Step(w.disk, AbuseOp(Failure(h.peerIp), input), env.abuse).0)
    && (step.reply == Reject ==> learned == Some(false))
    && (step.reply == Accept ==> learned == None)
    && (state.AwaitEnrollmentTotp? && step.reply == Ask(EnrollmentPrompt) ==> learned == Some(false))
    && (state.AwaitEnrollmentTotp? && step.reply == Ask(SelectionPrompt) ==> learned == Some(true))
    && (state.AwaitExistingTotp? && step.reply.Ask? ==> learned == Some(true))
  }

  lemma RejectedAnswers(h: Handler, w: World, w0: World, input: Input, env: Env, events: Log)
    requires w.disk == w0.disk
    ensures var step := Rejected(h, w, input, env, events);
            && step.h == h && (step.reply == Reject || step.reply == Dropped)
            && step.w.disk == Abuse.Step(w0.disk, AbuseOp(Failure(h.peerIp), input), env.abuse).0
  {
  }

  lemma AdvanceAnswers(h: Handler, w: World, user: UserRecord, policy: PasswordPolicyConfig, input: Input)
    ensures var step := AdvanceAfterInitialAuth(h, w, user, policy, input);
            && step.w == w && ReplyFits(step) && (step.reply.Ask? || step.reply.Dropped?)
            && step.log == IssuedTo(user, input)
  {
  }

  lemma FactorsVerified(paid: Log, user: UserRecord, password: string, code: Option<string>, input: Input)
    ensures HasVerified(paid + FactorsOf(user, password, code, input.wall) + IssuedTo(user, input))
  {
    var log := paid + FactorsOf(user, password, code, input.wall) + IssuedTo(user, input);
    assert log[|paid|] == PasswordVerified(user, password);
  }

  lemma PasswordAnswers(h: Handler, w: World, name: string, password: string, input: Input, env: Env)
    requires h.keyboard.None?
    ensures var step := HandlePasswordResponse(h, w, name, password, input, env);
            ReplyFits(step) && TrackerLearns(step, h, w, AwaitPassword(name), input, env)
  {
    var attempt := CheckPaidPassword(h, w, name, password, input, env);
    if attempt.user.None? {
      RejectedAnswers(h, attempt.w, w, input, env, attempt.log);
    } else {
      AdvanceAnswers(h, attempt.w, attempt.user.value, PasswordPolicyOf(w.config), input);
      FactorsVerified(attempt.log, attempt.user.value, password, None, input);
    }
  }

  lemma ExistingTotpAnswers(h: Handler, w: World, name: string, password: string, code: string, input: Input, env: Env)
    requires h.keyboard.None?
    ensures var step := HandleExistingTotpResponse(h, w, name, password, code, input, env);
            ReplyFits(step) && TrackerLearns(step, h, w, AwaitExistingTotp(name, password), input, env)
  {
    var attempt := CheckPaidFactors(h, w, name, password, Trim(code), input, env);
    if attempt.user.None? {
      RejectedAnswers(h, attempt.w, w, input, env, attempt.log);
    } else {
      AdvanceAnswers(h, Succeeded(h, attempt.w, input, env), attempt.user.value, PasswordPolicyOf(w.config), input);
      var paid := CheckPaidPassword(h, w, name, password, input, env).log;
      FactorsVerified(paid, attempt.user.value, password, Some(Trim(code)), input);
    }
  }

  lemma CommitAnswers(h: Handler, w: World, context: PendingAuthContext, secret: string, input: Input,
                      events: Log, matched: AuthEvent)
    requires h.keyboard.None? && matched.FreshCodeVerified? && matched in events
    ensures var step := CommitPendingUpdates(h, w, context, secret, input, events);
            && ReplyFits(step) && step.w.disk == w.disk && matched in step.log
            && (step.reply == Ask(SelectionPrompt) || step.reply == Dropped)
  {
    CommitRecords(h, w, context, secret, input, events);
  }

  lemma StagedAnswers(h: Handler, w: World, context: PendingAuthContext, secret: string, input: Input, env: Env,
                      matched: AuthEvent)
    requires h.keyboard.None? && context.loginPassword.Some? && matched.FreshCodeVerified?
    ensures var step := CheckStagedPassword(h, w, context, secret, input, env, [matched]);
            ReplyFits(step) && TrackerLearns(step, h, w, AwaitEnrollmentTotp(context, secret), input, env)
  {
    var attempt := CheckPaidPassword(h, w, context.user.name, context.loginPassword.value, input, env);
    if attempt.user.None? {
      RejectedAnswers(h, attempt.w, w, input, env, attempt.log);
    } else {
      CommitAnswers(h, Succeeded(h, attempt.w, input, env), context, secret, input, attempt.log + [matched], matched);
    }
  }

  lemma EnrollmentAnswers(h: Handler, w: World, context: PendingAuthContext, secret: string, code: string,
                          input: Input, env: Env)
    requires h.keyboard.None?
    ensures var step := HandleEnrollmentResponse(h, w, context, secret, code, input, env);
            ReplyFits(step) && TrackerLearns(step, h, w, AwaitEnrollmentTotp(context, secret), input, env)
  {
    var matched := FreshCodeVerified(context.user.name, secret, Trim(code), input.wall);
    if !env.crypto.codeMatches(secret, Trim(code), input.wall) {
      RejectedAnswers(h, w, w, input, env, []);
    } else if context.loginPassword.Some? {
      StagedAnswers(h, w, context, secret, input, env, matched);
    } else {
      CommitAnswers(h, Succeeded(h, w, input, env), context, secret, input, [matched], matched);
    }
  }

  lemma RespondAnswers(h: Handler, w: World, state: KeyboardAuthState, text: string, input: Input, env: Env)
    requires h.keyboard.None?
    ensures ReplyFits(Respond(h, w, state, text, input, env))
    ensures TrackerLearns(Respond(h, w, state, text, input, env), h, w, state, input, env)
  {
    match state
    case AwaitPassword(name) => PasswordAnswers(h, w, name, text, input, env);
    case AwaitExistingTotp(name, password) => ExistingTotpAnswers(h, w, name, password, text, input, env);
    case AwaitEnrollmentTotp(context, secret) => EnrollmentAnswers(h, w, context, secret, text, input, env);
    case AwaitNewPassword(context, policy) =>
    case AwaitConfirmPassword(context, policy, candidate) =>
    case AwaitSelection(context) =>
  }

  /** A banned address is rejected by every callback, which leaves the session as it was. */
  lemma BannedIsRejected(h: Handler, w: World, input: Input, env: Env)
    requires IpChecked(w.disk.memory, h.peerIp, input.wall, env.abuse).1.banned
    ensures var step := AuthKeyboardInteractive(h, w, input, env);
            step.reply == Reject && step.h == h && step.log == []
  {
  }
}
