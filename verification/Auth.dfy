/** Credential checks and the limiter front of src/auth/mod.rs. */
module Auth {
  import opened Wrappers
  import opened Text
  import opened RateLimit
  import opened Config

  /** Argon2 and TOTP as uninterpreted functions: hash syntax, hash against password, the code for a
      secret at a time, and the hash of a password under a salt. */
  datatype Crypto = Crypto(
    parsesHash: string -> bool, verifies: (string, string) -> bool,
    codeMatches: (string, string, int) -> bool, hash: (string, string) -> string)

  /** The law of a password hash. */
  ghost predicate HashesVerify(crypto: Crypto) {
    forall salt, password ::
      crypto.parsesHash(crypto.hash(salt, password)) && crypto.verifies(crypto.hash(salt, password), password)
  }

  datatype AuthError = BadHash | AuthenticationFailed | PolicyViolation

  /** The scan of the user list keeps the last match. */
  function FindLast(users: seq<UserRecord>, name: string): Option<UserRecord> {
    if users == [] then None
    else if Last(users).name == name then Some(Last(users))
    else FindLast(Init(users), name)
  }

  function VerifyPassword(users: seq<UserRecord>, name: string, password: string, crypto: Crypto)
    : Result<UserRecord, AuthError>
  {
    match FindLast(users, name)
    case None => Err(AuthenticationFailed)
    case Some(user) =>
      if !crypto.parsesHash(user.password) then Err(BadHash)
      else if crypto.verifies(user.password, password) then Ok(user)
      else Err(AuthenticationFailed)
  }

  /** The second half of `verify_password_and_optional_totp_constant_time`. */
  predicate CodeAccepted(user: UserRecord, code: string, now: int, crypto: Crypto) {
    user.totpSecret.Some? ==> crypto.codeMatches(user.totpSecret.value, code, now)
  }

  function EnforcePasswordPolicy(newPassword: string, oldHash: string, minLength: nat, crypto: Crypto)
    : Result<(), AuthError>
  {
    if Utf8Length(newPassword) < (if minLength < 256 then minLength else 256) then Err(PolicyViolation)
    else if Utf8Length(newPassword) > 256 then Err(PolicyViolation)
    else if !crypto.parsesHash(oldHash) then Err(BadHash)
    else if crypto.verifies(oldHash, newPassword) then Err(PolicyViolation)
    else Ok(())
  }

  /** The method's error for a missing user depends on nothing but that the dummy hash parses. */
  method VerifyPasswordConstantTime(users: seq<UserRecord>, name: string, password: string, dummyHash: string,
                                    crypto: Crypto)
    returns (r: Result<UserRecord, AuthError>)
    requires crypto.parsesHash(dummyHash)
    ensures r == VerifyPassword(users, name, password, crypto)
  {
    var matchedUser: Option<UserRecord> := None;
    for i := 0 to |users|
      invariant matchedUser == FindLast(users[..i], name)
    {
      assert Init(users[..i + 1]) == users[..i] && Last(users[..i + 1]) == users[i];
      if users[i].name == name {
        matchedUser := Some(users[i]);
      }
    }
    assert users[..|users|] == users;
    var targetHash := if matchedUser.Some? then matchedUser.value.password else dummyHash;
    if !crypto.parsesHash(targetHash) {
      return Err(BadHash);
    }
    var verification := crypto.verifies(targetHash, password);
    if verification && matchedUser.Some? {
      return Ok(matchedUser.value);
    }
    return Err(AuthenticationFailed);
  }

  /** With unique names the last match is the only one, so the check and the lookup by `find`
      speak of the same record. */
  lemma {:induction false} LastIsFirst(users: seq<UserRecord>, name: string)
    requires UniqueNames(users)
    ensures match FindUser(users, name)
            case None => FindLast(users, name).None?
            case Some(i) => FindLast(users, name) == Some(users[i])
  {
    if users == [] {
    } else {
      LastIsFirst(Init(users), name);
      var first, before := FindUser(users, name), FindUser(Init(users), name);
      assert forall i :: 0 <= i < |users| - 1 ==> Init(users)[i] == users[i];
      if Last(users).name == name {
        assert first == Some(|users| - 1);
      } else {
        assert first == before;
      }
    }
  }

  /** A login password is accepted exactly for an existing user whose stored hash it verifies. */
  lemma PasswordAcceptedExactly(users: seq<UserRecord>, name: string, password: string, crypto: Crypto)
    requires UniqueNames(users)
    ensures VerifyPassword(users, name, password, crypto).Ok? <==>
      exists i :: 0 <= i < |users| && users[i].name == name
               && crypto.parsesHash(users[i].password) && crypto.verifies(users[i].password, password)
    ensures VerifyPassword(users, name, password, crypto).Ok? ==>
      VerifyPassword(users, name, password, crypto).value in users
  {
    LastIsFirst(users, name);
  }

  /** The limiter of the engine: one table per address, one per address and user name. */
  class AuthEngine {
    const rateLimits: BucketTable<UserKey>
    const ipRateLimits: BucketTable<IpAddr>
    /** The abstract value of both tables. */
    ghost var limiter: Limiter
    ghost var Repr: set<object>

    ghost predicate Valid()
      reads this, Repr
      ensures Valid() ==> this in Repr
    {
      && this in Repr && rateLimits in Repr && ipRateLimits in Repr
      && rateLimits.Repr <= Repr && ipRateLimits.Repr <= Repr
      && this !in rateLimits.Repr && this !in ipRateLimits.Repr
      && rateLimits.Repr !! ipRateLimits.Repr
      && rateLimits.Valid() && ipRateLimits.Valid()
      && rateLimits.rate == PerUser && ipRateLimits.rate == PerIp
      && limiter == Limiter(ipRateLimits.View(), rateLimits.View())
    }

    constructor ()
      ensures Valid() && fresh(Repr) && limiter == Limiter(map[], map[])
    {
      var users := new BucketTable<UserKey>(PerUser);
      var ips := new BucketTable<IpAddr>(PerIp);
      rateLimits, ipRateLimits := users, ips;
      limiter := Limiter(map[], map[]);
      Repr := {this} + users.Repr + ips.Repr;
    }

    method ConsumeIpRateLimitToken(r: Request) returns (outcome: Outcome)
      requires Valid() && TableOk(limiter.ips, PerIp, r.now)
      modifies this`Repr, this`limiter, ipRateLimits.Repr
      ensures Valid() && fresh(Repr - old(Repr)) && limiter.users == old(limiter).users
      ensures (limiter.ips, outcome) == Consume(old(limiter).ips, PerIp, r.ip, r.seen, r.now)
    {
      outcome := ipRateLimits.ConsumeToken(r.ip, r.seen, r.now);
      limiter := limiter.(ips := ipRateLimits.View());
      Repr := Repr + ipRateLimits.Repr;
    }

    method ConsumeUserRateLimitToken(r: Request) returns (outcome: Outcome)
      requires Valid() && TableOk(limiter.users, PerUser, r.now)
      modifies this`Repr, this`limiter, rateLimits.Repr
      ensures Valid() && fresh(Repr - old(Repr)) && limiter.ips == old(limiter).ips
      ensures (limiter.users, outcome) == Consume(old(limiter).users, PerUser, r.Key(), r.seen, r.now)
    {
      outcome := rateLimits.ConsumeToken(r.Key(), r.seen, r.now);
      limiter := limiter.(users := rateLimits.View());
      Repr := Repr + rateLimits.Repr;
    }

    method ConsumeRateLimitToken(r: Request) returns (ok: bool)
      requires Valid() && LimiterOk(limiter, r.now)
      modifies Repr
      ensures Valid() && fresh(Repr - old(Repr))
      ensures (limiter, ok) == RateLimit.ConsumeRateLimitToken(old(limiter), r)
    {
      var ipOutcome := ConsumeIpRateLimitToken(r);
      if ipOutcome != Granted {
        return false;
      }
      var userOutcome := ConsumeUserRateLimitToken(r);
      return userOutcome == Granted;
    }
  }
}
