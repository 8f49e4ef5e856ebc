/** What all connections share (src/app.rs): the store, the limiter and the abuse tracker. */
module App {
  import opened Wrappers
  import opened Config
  import opened RateLimit
  import opened Abuse
  import opened Auth
  import opened Session
  import Store = ConfigStore
  import Login

  /** `world` is the abstract value. */
  class AppState {
    const store: Store.ConfigStore
    const auth: AuthEngine
    const abuse: AbuseTracker
    const env: Login.Env
    ghost var world: Login.World
    /** The latest reading of the monotonic clock that the limiter has seen. */
    ghost var clock: real
    ghost var Repr: set<object>

    /** The objects are wired as they should be, and `world` is their value. */
    ghost predicate Wired()
      reads this, Repr
      ensures Wired() ==> this in Repr
    {
      && {this, store, auth, abuse, abuse.core} <= Repr && auth.Repr <= Repr
      && {this, store, abuse, abuse.core} !! auth.Repr && auth.Valid()
      && env.abuse == abuse.settings
      && world == Login.World(store.config, store.servers, auth.limiter, abuse.View())
    }

    /** What every callback relies on and keeps. */
    ghost predicate Valid()
      reads this, Repr
    {
      Wired() && LimiterOk(world.limiter, clock) && UniqueNames(world.config.users)
    }

    constructor (store: Store.ConfigStore, auth: AuthEngine, abuse: AbuseTracker, crypto: Crypto)
      requires auth.Valid() && {store, abuse, abuse.core} !! auth.Repr
      requires auth.limiter == Limiter(map[], map[]) && UniqueNames(store.config.users)
      ensures Valid() && Repr == {this, store, auth, abuse, abuse.core} + auth.Repr
      ensures env == Login.Env(crypto, abuse.settings)
      ensures world == Login.World(store.config, store.servers, auth.limiter, abuse.View())
    {
      this.store, this.auth, this.abuse := store, auth, abuse;
      env := Login.Env(crypto, abuse.settings);
      world := Login.World(store.config, store.servers, auth.limiter, abuse.View());
      clock := 0.0;
      Repr := {this, store, auth, abuse, abuse.core} + auth.Repr;
    }

    /** Takes the files over if they validate; nobody else's state is touched. */
    method ReloadConfig(secure: bool) returns (ok: bool)
      requires Valid()
      modifies Repr
      ensures Valid() && Repr == old(Repr) && clock == old(clock)
      ensures ok ==> ValidConfig(world.config, world.servers, store.checks)
      ensures world == old(world).(config := world.config, servers := world.servers)
      ensures !ok ==> world == old(world)
    {
      var result := store.Reload(secure);
      world := world.(config := store.config, servers := store.servers);
      ok := result.Ok?;
    }

    /** `config_store.snapshot()`. */
    method Snapshot() returns (config: ConfigFile, servers: Servers)
      requires Wired()
      ensures config == world.config && servers == world.servers
    {
      return store.config, store.servers;
    }

    /** The limiter has changed; its new objects belong to this one. */
    ghost method AdoptLimiter()
      requires {this, store, auth, abuse, abuse.core} <= Repr && {this, store, abuse, abuse.core} !! auth.Repr
      requires auth.Valid() && env.abuse == abuse.settings
      requires world == Login.World(store.config, store.servers, world.limiter, abuse.View())
      modifies this`Repr, this`world
      ensures Wired() && Repr == old(Repr) + auth.Repr && world == old(world).(limiter := auth.limiter)
    {
      Repr := Repr + auth.Repr;
      world := world.(limiter := auth.limiter);
    }

    /** Both tokens of a login attempt. */
    method ConsumeToken(ghost h: Handler, ip: IpAddr, name: string, input: Login.Input) returns (ok: bool)
      requires Wired() && h.peerIp == ip && LimiterOk(world.limiter, input.mono)
      modifies Repr
      ensures Wired() && fresh(Repr - old(Repr)) && store.file == old(store.file)
      ensures var (limiter, granted) :=
                RateLimit.ConsumeRateLimitToken(old(world).limiter, Login.RequestOf(h, name, input));
              world == old(world).(limiter := limiter) && ok == granted
    {
      ok := auth.ConsumeRateLimitToken(Request(ip, name, input.seen, input.mono));
      assert world == Login.World(store.config, store.servers, world.limiter, abuse.View());
      AdoptLimiter();
    }

    /** The clock has been read. */
    ghost method Tick(now: real)
      requires Wired()
      modifies this`clock
      ensures Wired() && clock == now
    {
      clock := now;
    }

    /** `delay` is how long the rejection is held back. */
    method RejectFailure(ghost h: Handler, ip: IpAddr, input: Login.Input, ghost events: seq<Login.AuthEvent>)
      returns (reply: Login.Reply, delay: Option<nat>)
      requires Wired() && h.peerIp == ip
      modifies Repr
      ensures Wired() && Repr == old(Repr) && store.file == old(store.file)
      ensures Login.Step(h, world, reply, events) == Login.Rejected(h, old(world), input, env, events)
      ensures delay == FailureRecorded(old(world).disk.memory, ip, input.wall, env.abuse).1.Delay()
    {
      var outcome := abuse.RecordFailure(ip, input.wall, input.wall, input.saveOk);
      world := world.(disk := abuse.View());
      reply := if outcome.Panicked? then Login.Dropped else Login.Reject;
      delay := outcome.Delay();
    }

    method RecordSuccess(ghost h: Handler, ip: IpAddr, input: Login.Input)
      requires Wired() && h.peerIp == ip
      modifies Repr
      ensures Wired() && Repr == old(Repr) && store.file == old(store.file)
      ensures world == Login.Succeeded(h, old(world), input, env)
    {
      abuse.RecordSuccess(ip, input.wall, input.wall, input.saveOk);
      world := world.(disk := abuse.View());
    }

    /** The check before every callback; `true` lets the callback go on. */
    method CheckIp(ghost h: Handler, ip: IpAddr, input: Login.Input) returns (allowed: bool)
      requires Wired() && h.peerIp == ip
      modifies Repr
      ensures Wired() && Repr == old(Repr) && store.file == old(store.file)
      ensures (world, allowed) == Login.PreAuth(h, old(world), input, env)
    {
      var check := abuse.CheckIp(ip, input.wall, input.wall, input.saveOk);
      world := world.(disk := abuse.View());
      allowed := !check.banned;
    }

    method UpdateUserCredentials(name: string, update: Update, writeOk: bool) returns (ok: bool)
      requires Wired()
      modifies Repr
      ensures Wired() && Repr == old(Repr)
      ensures var users := UpdatedUsers(old(world).config.users, name, update);
              world == old(world).(config := old(world).config.(users := users))
      ensures ok <==> FindUser(old(world).config.users, name).Some? && old(store.CanEdit(name)) && writeOk
    {
      var result := store.UpdateUserCredentials(name, update, writeOk);
      world := world.(config := store.config);
      ok := result.Ok?;
    }

    method VerifyPassword(name: string, password: string, dummyHash: string)
      returns (r: Result<UserRecord, AuthError>)
      requires Wired() && env.crypto.parsesHash(dummyHash)
      ensures r == Auth.VerifyPassword(world.config.users, name, password, env.crypto)
    {
      r := VerifyPasswordConstantTime(store.config.users, name, password, dummyHash, env.crypto);
    }
  }
}
