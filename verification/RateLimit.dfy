/** The token-bucket limiter of src/auth/mod.rs.

    Instants are in seconds, tokens are exact reals.  A table forgets buckets that have been
    idle for `IDLE_TTL` and recreates them full; the reference limiter never forgets.
 */
module RateLimit {
  import opened Wrappers

  const IDLE_TTL: real := 1800.0
  const MAX_ENTRIES: nat := 8192

  const USER_CAPACITY: real := 10.0
  const USER_REFILL_PER_SEC: real := 1.0 / 30.0
  const IP_CAPACITY: real := 30.0
  const IP_REFILL_PER_SEC: real := 1.0

  /** The two kinds of bucket. */
  datatype Rate = PerUser | PerIp {
    function Capacity(): real {
      match this case PerUser => USER_CAPACITY case PerIp => IP_CAPACITY
    }

    /** Tokens that `elapsed` seconds bring back. */
    function Refill(elapsed: real): real {
      match this case PerUser => elapsed * USER_REFILL_PER_SEC case PerIp => elapsed * IP_REFILL_PER_SEC
    }
  }

  function Min(a: real, b: real): real {
    if a <= b then a else b
  }

  /** The two fields of a bucket that change. */
  datatype Bucket = Bucket(tokens: real, lastRefill: real)

  type Table<!K(==)> = map<K, Bucket>

  // ---------------------------------------------------------------------------
  // Specification

  function Level(b: Bucket, rate: Rate, now: real): real {
    Min(b.tokens + rate.Refill(now - b.lastRefill), rate.Capacity())
  }

  function ConsumeFrom(b: Bucket, rate: Rate, now: real): (Bucket, bool) {
    var level := Level(b, rate, now);
    if level >= 1.0 then (Bucket(level - 1.0, now), true) else (Bucket(level, now), false)
  }

  predicate BucketOk(b: Bucket, rate: Rate, now: real) {
    0.0 <= b.tokens <= rate.Capacity() && b.lastRefill <= now
  }

  predicate TableOk<K>(t: Table<K>, rate: Rate, now: real) {
    forall k <- t :: BucketOk(t[k], rate, now)
  }

  function Prune<K>(t: Table<K>, seen: real): (r: Table<K>)
    ensures r.Keys <= t.Keys && forall k <- r :: r[k] == t[k]
    ensures forall k <- t :: k in r <==> seen - t[k].lastRefill <= IDLE_TTL
  {
    map k | k in t && seen - t[k].lastRefill <= IDLE_TTL :: t[k]
  }

  /** What a key may still consume; a key without a bucket has a full one. */
  function Available<K>(t: Table<K>, rate: Rate, key: K, now: real): real {
    if key in t then Level(t[key], rate, now) else rate.Capacity()
  }

  datatype Outcome = Granted | Exhausted | TableFull

  /** `seen` is the instant read before the table is locked, `now` the one read inside. */
  function Consume<K>(t: Table<K>, rate: Rate, key: K, seen: real, now: real): (Table<K>, Outcome) {
    var kept := Prune(t, seen);
    if key !in kept && |kept| >= MAX_ENTRIES then (kept, TableFull)
    else
      var bucket := if key in kept then kept[key] else Bucket(rate.Capacity(), now);
      var (after, ok) := ConsumeFrom(bucket, rate, now);
      (kept[key := after], if ok then Granted else Exhausted)
  }

  /** The reference limiter: nothing is forgotten and there is no size limit. */
  function ConsumeTotal<K>(t: Table<K>, rate: Rate, key: K, now: real): (Table<K>, bool) {
    var bucket := if key in t then t[key] else Bucket(rate.Capacity(), now);
    var (after, ok) := ConsumeFrom(bucket, rate, now);
    (t[key := after], ok)
  }

  // ---------------------------------------------------------------------------
  // The source's objects

  class TokenBucket {
    const rate: Rate
    var tokens: real
    var lastRefill: real

    ghost function Value(): Bucket
      reads this
    {
      Bucket(tokens, lastRefill)
    }

    constructor (rate: Rate, now: real)
      ensures this.rate == rate && Value() == Bucket(rate.Capacity(), now)
    {
      this.rate := rate;
      tokens, lastRefill := rate.Capacity(), now;
    }

    method Refill(now: real)
      requires BucketOk(Value(), rate, now)
      modifies this
      ensures Value() == Bucket(Level(old(Value()), rate, now), now)
    {
      var elapsed := now - lastRefill;
      if elapsed <= 0.0 {
        return;
      }
      var refillAmount := rate.Refill(elapsed);
      tokens := Min(tokens + refillAmount, rate.Capacity());
      lastRefill := now;
    }

    method ConsumeOne(now: real) returns (ok: bool)
      requires BucketOk(Value(), rate, now)
      modifies this
      ensures (Value(), ok) == ConsumeFrom(old(Value()), rate, now)
    {
      Refill(now);
      ok := tokens >= 1.0;
      if ok {
        tokens := tokens - 1.0;
      }
    }
  }

  class BucketTable<K(==)> {
    const rate: Rate
    var buckets: map<K, TokenBucket>
    ghost var Repr: set<object>

    ghost predicate Valid()
      reads this, Repr
      ensures Valid() ==> this in Repr
    {
      && this in Repr
      && (forall k <- buckets :: buckets[k] in Repr && buckets[k].rate == rate)
      && (forall j, k :: j in buckets && k in buckets && j != k ==> buckets[j] != buckets[k])
      && |buckets| <= MAX_ENTRIES
    }

    ghost function View(): Table<K>
      requires Valid()
      reads this, Repr
    {
      map k | k in buckets :: buckets[k].Value()
    }

    constructor (rate: Rate)
      ensures Valid() && fresh(Repr) && this.rate == rate && View() == map[]
    {
      this.rate := rate;
      buckets := map[];
      Repr := {this};
    }

    method PruneBuckets(seen: real)
      requires Valid()
      modifies this`buckets
      ensures Valid() && View() == Prune(old(View()), seen)
    {
      var kept := map k | k in buckets && seen - buckets[k].lastRefill <= IDLE_TTL :: buckets[k];
      assert kept.Keys <= buckets.Keys;
      SubmapSize(kept, buckets);
      buckets := kept;
    }

    method InsertFull(key: K, now: real)
      requires Valid() && key !in buckets && |buckets| < MAX_ENTRIES
      modifies this
      ensures Valid() && fresh(Repr - old(Repr)) && old(Repr) <= Repr
      ensures View() == old(View())[key := Bucket(rate.Capacity(), now)]
    {
      var bucket := new TokenBucket(rate, now);
      buckets := buckets[key := bucket];
      Repr := Repr + {bucket};
    }

    method ConsumeAt(key: K, now: real) returns (ok: bool)
      requires Valid() && key in buckets && BucketOk(View()[key], rate, now)
      modifies Repr - {this}
      ensures Valid() && (View()[key], ok) == ConsumeFrom(old(View())[key], rate, now)
      ensures View() == old(View())[key := View()[key]]
    {
      var bucket := buckets[key];
      ok := bucket.ConsumeOne(now);
    }

    /** `entry(key).or_insert_with(..)` followed by `consume_one`. */
    method ConsumeEntry(key: K, now: real) returns (ok: bool)
      requires Valid() && (key in buckets || |buckets| < MAX_ENTRIES)
      requires TableOk(View(), rate, now)
      modifies Repr
      ensures Valid() && fresh(Repr - old(Repr))
      ensures var view := old(View());
              var bucket := if key in view then view[key] else Bucket(rate.Capacity(), now);
              (View(), ok) == (view[key := ConsumeFrom(bucket, rate, now).0], ConsumeFrom(bucket, rate, now).1)
    {
      ghost var view := View();
      if key !in buckets {
        InsertFull(key, now);
      }
      assert View() == view[key := View()[key]];
      ok := ConsumeAt(key, now);
      assert View() == view[key := View()[key]];
    }

    /** The locked part of `consume_rate_limit_token` and `consume_ip_rate_limit_token`. */
    method ConsumeToken(key: K, seen: real, now: real) returns (outcome: Outcome)
      requires Valid() && TableOk(View(), rate, now)
      modifies Repr
      ensures Valid() && fresh(Repr - old(Repr))
      ensures (View(), outcome) == Consume(old(View()), rate, key, seen, now)
    {
      PruneBuckets(seen);
      SubmapSize(View(), buckets);
      SubmapSize(buckets, View());
      if key !in buckets && |buckets| >= MAX_ENTRIES {
        return TableFull;
      }
      var ok := ConsumeEntry(key, now);
      return if ok then Granted else Exhausted;
    }
  }

  lemma SubsetSize<T>(a: set<T>, b: set<T>)
    requires a <= b
    ensures |a| <= |b|
  {
    assert b == a + (b - a);
  }

  lemma SubmapSize<K, V, W>(a: map<K, V>, b: map<K, W>)
    requires a.Keys <= b.Keys
    ensures |a| <= |b|
  {
    SubsetSize(a.Keys, b.Keys);
  }

  // ---------------------------------------------------------------------------
  // One step

  lemma LevelGrows(b: Bucket, rate: Rate, now: real, later: real)
    requires BucketOk(b, rate, now) && now <= later
    ensures Level(b, rate, later) == Min(Level(b, rate, now) + rate.Refill(later - now), rate.Capacity())
  {
    assert rate.Refill(later - b.lastRefill)
        == rate.Refill(now - b.lastRefill) + rate.Refill(later - now);
    assert rate.Refill(later - now) >= 0.0;
  }

  /** Availability depends on the past only through its present value. */
  lemma AvailableGrows<K>(t: Table<K>, rate: Rate, key: K, now: real, later: real)
    requires TableOk(t, rate, now) && now <= later
    ensures Available(t, rate, key, later)
         == Min(Available(t, rate, key, now) + rate.Refill(later - now), rate.Capacity())
    ensures TableOk(t, rate, later)
  {
    assert rate.Refill(later - now) >= 0.0;
    if key in t {
      LevelGrows(t[key], rate, now, later);
    }
  }

  /** A bucket is forgotten only when it is full again, so forgetting changes no availability. */
  lemma PruneKeepsAvailable<K>(t: Table<K>, rate: Rate, key: K, seen: real, now: real)
    requires TableOk(t, rate, now) && seen <= now
    ensures Available(Prune(t, seen), rate, key, now) == Available(t, rate, key, now)
    ensures TableOk(Prune(t, seen), rate, now)
  {
    var kept := Prune(t, seen);
    if key in t && key !in kept {
      var idle := now - t[key].lastRefill;
      assert rate.Refill(idle) >= rate.Capacity();
    }
  }

  lemma LevelNonnegative(b: Bucket, rate: Rate, now: real)
    requires BucketOk(b, rate, now)
    ensures 0.0 <= Level(b, rate, now) <= rate.Capacity()
  {
    assert rate.Refill(now - b.lastRefill) >= 0.0;
  }

  /** A request takes one token from its own key when it is granted, and nothing else. */
  lemma ConsumeTakesOne<K>(t: Table<K>, rate: Rate, hit: Hit<K>, other: K)
    requires TableOk(t, rate, hit.now) && hit.seen <= hit.now
    ensures var (t', outcome) := Consume(t, rate, hit.key, hit.seen, hit.now);
            && TableOk(t', rate, hit.now)
            && Available(t', rate, other, hit.now) == Available(t, rate, other, hit.now)
                 - (if other == hit.key && outcome == Granted then 1.0 else 0.0)
            && (outcome == Granted ==> Available(t, rate, hit.key, hit.now) >= 1.0)
            && (outcome == Exhausted ==> Available(t, rate, hit.key, hit.now) < 1.0)
  {
    PruneKeepsAvailable(t, rate, other, hit.seen, hit.now);
    PruneKeepsAvailable(t, rate, hit.key, hit.seen, hit.now);
    var kept := Prune(t, hit.seen);
    if hit.key in kept {
      LevelNonnegative(kept[hit.key], rate, hit.now);
    }
  }

  lemma ConsumeKeepsSize<K>(t: Table<K>, rate: Rate, key: K, seen: real, now: real)
    requires |t| <= MAX_ENTRIES
    ensures |Consume(t, rate, key, seen, now).0| <= MAX_ENTRIES
  {
    var kept := Prune(t, seen);
    SubmapSize(kept, t);
    var after := Consume(t, rate, key, seen, now).0;
    assert after.Keys == kept.Keys || after.Keys == kept.Keys + {key};
    assert key in kept ==> after.Keys == kept.Keys;
    assert |after| == |after.Keys| && |kept| == |kept.Keys|;
  }

  // ---------------------------------------------------------------------------
  // Runs of one table

  datatype Hit<K> = Hit(key: K, seen: real, now: real)

  /** Nondecreasing times from `start` on; the time read before the lock may be stale. */
  predicate Timely<K>(hits: seq<Hit<K>>, start: real) {
    hits != [] ==>
      start <= hits[0].now && hits[0].seen <= hits[0].now && Timely(hits[1..], hits[0].now)
  }

  function Play<K>(t: Table<K>, rate: Rate, hits: seq<Hit<K>>): (r: (Table<K>, seq<Outcome>))
    ensures |r.1| == |hits|
    decreases |hits|
  {
    if hits == [] then (t, [])
    else
      var (t', outcome) := Consume(t, rate, hits[0].key, hits[0].seen, hits[0].now);
      var (last, outcomes) := Play(t', rate, hits[1..]);
      (last, [outcome] + outcomes)
  }

  /** Granted requests of `key` with a time in [from, until]. */
  function Grants<K>(t: Table<K>, rate: Rate, hits: seq<Hit<K>>, key: K, from: real, until: real): nat
    decreases |hits|
  {
    if hits == [] then 0
    else
      var (t', outcome) := Consume(t, rate, hits[0].key, hits[0].seen, hits[0].now);
      (if hits[0].key == key && outcome == Granted && from <= hits[0].now <= until then 1 else 0)
      + Grants(t', rate, hits[1..], key, from, until)
  }

  lemma {:induction false} NoneAfter<K>(t: Table<K>, rate: Rate, hits: seq<Hit<K>>, key: K,
                                        from: real, until: real)
    requires hits != [] ==> Timely(hits, hits[0].now) && hits[0].now > until
    ensures Grants(t, rate, hits, key, from, until) == 0
    decreases |hits|
  {
    if hits == [] {
    } else {
      NoneAfter(Consume(t, rate, hits[0].key, hits[0].seen, hits[0].now).0, rate, hits[1..], key, from, until);
    }
  }

  /** Requests that all come after `later` may as well be counted from `later`. */
  lemma {:induction false} GrantsFrom<K>(t: Table<K>, rate: Rate, hits: seq<Hit<K>>, key: K,
                                         from: real, later: real, until: real)
    requires Timely(hits, later) && from <= later
    ensures Grants(t, rate, hits, key, from, until) == Grants(t, rate, hits, key, later, until)
    decreases |hits|
  {
    if hits == [] {
    } else {
      var t' := Consume(t, rate, hits[0].key, hits[0].seen, hits[0].now).0;
      GrantsFrom(t', rate, hits[1..], key, from, hits[0].now, until);
      GrantsFrom(t', rate, hits[1..], key, later, hits[0].now, until);
    }
  }

  lemma {:induction false} GrantsBoundedByLevel<K>(t: Table<K>, rate: Rate, hits: seq<Hit<K>>, key: K,
                                                   from: real, until: real)
    requires TableOk(t, rate, from) && Timely(hits, from) && from <= until
    ensures Grants(t, rate, hits, key, from, until) as real
         <= Available(t, rate, key, from) + rate.Refill(until - from)
    decreases |hits|
  {
    assert rate.Refill(until - from) >= 0.0;
    if key in t {
      LevelNonnegative(t[key], rate, from);
    }
    if hits == [] {
    } else if hits[0].now > until {
      NoneAfter(t, rate, hits, key, from, until);
    } else {
      var hit := hits[0];
      AvailableGrows(t, rate, key, from, hit.now);
      AvailableGrows(t, rate, hit.key, from, hit.now);
      ConsumeTakesOne(t, rate, hit, key);
      var t' := Consume(t, rate, hit.key, hit.seen, hit.now).0;
      GrantsBoundedByLevel(t', rate, hits[1..], key, hit.now, until);
      GrantsFrom(t', rate, hits[1..], key, from, hit.now, until);
      assert rate.Refill(until - from)
          == rate.Refill(hit.now - from) + rate.Refill(until - hit.now);
    }
  }

  /** In every run and interval, a key is granted at most capacity + rate * length. */
  lemma {:induction false} RateBound<K>(t: Table<K>, rate: Rate, hits: seq<Hit<K>>, key: K,
                                        start: real, from: real, until: real)
    requires TableOk(t, rate, start) && Timely(hits, start) && from <= until
    ensures Grants(t, rate, hits, key, from, until) as real
         <= rate.Capacity() + rate.Refill(until - from)
    decreases |hits|
  {
    assert rate.Refill(until - from) >= 0.0;
    if hits == [] {
    } else if hits[0].now < from {
      var hit := hits[0];
      AvailableGrows(t, rate, key, start, hit.now);
      ConsumeTakesOne(t, rate, hit, key);
      RateBound(Consume(t, rate, hit.key, hit.seen, hit.now).0, rate, hits[1..], key, hit.now, from, until);
    } else if start <= from {
      AvailableGrows(t, rate, key, start, from);
      GrantsBoundedByLevel(t, rate, hits, key, from, until);
    } else if start <= until {
      GrantsFrom(t, rate, hits, key, from, start, until);
      GrantsBoundedByLevel(t, rate, hits, key, start, until);
      assert rate.Refill(until - start) <= rate.Refill(until - from);
    } else {
      NoneAfter(t, rate, hits, key, from, until);
    }
  }

  // ---------------------------------------------------------------------------
  // Pruning refines a table that forgets nothing

  /** The decisions of the total limiter on the requests that are not turned away for size. */
  function PlayTotal<K>(t: Table<K>, rate: Rate, hits: seq<Hit<K>>, outcomes: seq<Outcome>): (r: seq<bool>)
    requires |outcomes| == |hits|
    ensures |r| == |hits|
    decreases |hits|
  {
    if hits == [] then []
    else if outcomes[0] == TableFull then [false] + PlayTotal(t, rate, hits[1..], outcomes[1..])
    else
      var (t', ok) := ConsumeTotal(t, rate, hits[0].key, hits[0].now);
      [ok] + PlayTotal(t', rate, hits[1..], outcomes[1..])
  }

  predicate GrantsExactly(outcomes: seq<Outcome>, decisions: seq<bool>) {
    |outcomes| == |decisions| && forall i :: 0 <= i < |outcomes| ==> (outcomes[i] == Granted <==> decisions[i])
  }

  ghost predicate SameAvailability<K(!new)>(a: Table<K>, b: Table<K>, rate: Rate, now: real) {
    forall k: K :: Available(a, rate, k, now) == Available(b, rate, k, now)
  }

  lemma GrantsCons(outcome: Outcome, decision: bool, later: seq<Outcome>, laterDecisions: seq<bool>)
    requires GrantsExactly(later, laterDecisions) && (outcome == Granted <==> decision)
    ensures GrantsExactly([outcome] + later, [decision] + laterDecisions)
  {
  }

  lemma TotalTakesOne<K>(t: Table<K>, rate: Rate, hit: Hit<K>, other: K)
    requires TableOk(t, rate, hit.now)
    ensures var (t', ok) := ConsumeTotal(t, rate, hit.key, hit.now);
            && TableOk(t', rate, hit.now)
            && Available(t', rate, other, hit.now)
               == Available(t, rate, other, hit.now) - (if other == hit.key && ok then 1.0 else 0.0)
            && (ok <==> Available(t, rate, hit.key, hit.now) >= 1.0)
  {
    if hit.key in t {
      LevelNonnegative(t[hit.key], rate, hit.now);
    }
  }

  lemma SameStep<K(!new)>(t: Table<K>, total: Table<K>, rate: Rate, start: real, hit: Hit<K>, k: K)
    requires TableOk(t, rate, start) && TableOk(total, rate, start)
    requires SameAvailability(t, total, rate, start) && start <= hit.now && hit.seen <= hit.now
    ensures var (t', outcome) := Consume(t, rate, hit.key, hit.seen, hit.now);
            var (total', ok) := ConsumeTotal(total, rate, hit.key, hit.now);
            && TableOk(t', rate, hit.now) && TableOk(total', rate, hit.now) && TableOk(total, rate, hit.now)
            && Available(t', rate, k, hit.now)
               == Available(if outcome == TableFull then total else total', rate, k, hit.now)
            && (outcome != TableFull ==> (outcome == Granted <==> ok))
  {
    AvailableGrows(t, rate, k, start, hit.now);
    AvailableGrows(t, rate, hit.key, start, hit.now);
    AvailableGrows(total, rate, k, start, hit.now);
    AvailableGrows(total, rate, hit.key, start, hit.now);
    ConsumeTakesOne(t, rate, hit, k);
    TotalTakesOne(total, rate, hit, k);
  }

  lemma StepRefines<K(!new)>(t: Table<K>, total: Table<K>, rate: Rate, start: real, hit: Hit<K>)
    requires TableOk(t, rate, start) && TableOk(total, rate, start)
    requires SameAvailability(t, total, rate, start) && start <= hit.now && hit.seen <= hit.now
    ensures var (t', outcome) := Consume(t, rate, hit.key, hit.seen, hit.now);
            var (total', ok) := ConsumeTotal(total, rate, hit.key, hit.now);
            var next := if outcome == TableFull then total else total';
            && TableOk(t', rate, hit.now) && TableOk(next, rate, hit.now)
            && SameAvailability(t', next, rate, hit.now)
            && (outcome == Granted <==> outcome != TableFull && ok)
  {
    var (t', outcome) := Consume(t, rate, hit.key, hit.seen, hit.now);
    var next := if outcome == TableFull then total else ConsumeTotal(total, rate, hit.key, hit.now).0;
    SameStep(t, total, rate, start, hit, hit.key);
    forall k: K ensures Available(t', rate, k, hit.now) == Available(next, rate, k, hit.now) {
      SameStep(t, total, rate, start, hit, k);
    }
  }

  /** Every request is decided as the total limiter decides it, unless the table is full. */
  lemma {:induction false} PruningRefinesTotal<K(!new)>(t: Table<K>, total: Table<K>, rate: Rate,
                                                        hits: seq<Hit<K>>, start: real)
    requires TableOk(t, rate, start) && TableOk(total, rate, start)
    requires SameAvailability(t, total, rate, start) && Timely(hits, start)
    ensures var outcomes := Play(t, rate, hits).1;
            GrantsExactly(outcomes, PlayTotal(total, rate, hits, outcomes))
    decreases |hits|
  {
    if hits == [] {
    } else {
      var hit := hits[0];
      var (t', outcome) := Consume(t, rate, hit.key, hit.seen, hit.now);
      var (total', ok) := ConsumeTotal(total, rate, hit.key, hit.now);
      var next := if outcome == TableFull then total else total';
      StepRefines(t, total, rate, start, hit);
      PruningRefinesTotal(t', next, rate, hits[1..], hit.now);
      var later := Play(t', rate, hits[1..]).1;
      var outcomes := Play(t, rate, hits).1;
      assert outcomes == [outcome] + later && outcomes[1..] == later;
      var laterDecisions := PlayTotal(next, rate, hits[1..], later);
      assert PlayTotal(total, rate, hits, outcomes) == [outcome != TableFull && ok] + laterDecisions;
      GrantsCons(outcome, outcome != TableFull && ok, later, laterDecisions);
    }
  }

  /** A table never exceeds its size limit. */
  lemma {:induction false} SizeBound<K>(t: Table<K>, rate: Rate, hits: seq<Hit<K>>)
    requires |t| <= MAX_ENTRIES
    ensures |Play(t, rate, hits).0| <= MAX_ENTRIES
    decreases |hits|
  {
    if hits == [] {
    } else {
      ConsumeKeepsSize(t, rate, hits[0].key, hits[0].seen, hits[0].now);
      SizeBound(Consume(t, rate, hits[0].key, hits[0].seen, hits[0].now).0, rate, hits[1..]);
    }
  }

  // ---------------------------------------------------------------------------
  // Both tables: every login attempt pays one token per address and one per user

  datatype UserKey = UserKey(ip: IpAddr, username: string)

  function AsciiLower(s: string): string {
    seq(|s|, i requires 0 <= i < |s| => if 'A' <= s[i] <= 'Z' then s[i] - 'A' + 'a' else s[i])
  }

  datatype Limiter = Limiter(ips: Table<IpAddr>, users: Table<UserKey>)

  datatype Request = Request(ip: IpAddr, username: string, seen: real, now: real) {
    function Key(): UserKey {
      UserKey(ip, AsciiLower(username))
    }
  }

  predicate LimiterOk(l: Limiter, now: real) {
    TableOk(l.ips, PerIp, now) && TableOk(l.users, PerUser, now)
  }

  function ConsumeRateLimitToken(l: Limiter, r: Request): (Limiter, bool) {
    var (ips, ipOutcome) := Consume(l.ips, PerIp, r.ip, r.seen, r.now);
    if ipOutcome != Granted then (Limiter(ips, l.users), false)
    else
      var (users, userOutcome) := Consume(l.users, PerUser, r.Key(), r.seen, r.now);
      (Limiter(ips, users), userOutcome == Granted)
  }

  predicate TimelyRequests(requests: seq<Request>, start: real) {
    requests != [] ==>
      && start <= requests[0].now && requests[0].seen <= requests[0].now
      && TimelyRequests(requests[1..], requests[0].now)
  }

  lemma LimiterStaysOk(l: Limiter, r: Request, start: real)
    requires LimiterOk(l, start) && start <= r.now && r.seen <= r.now
    ensures LimiterOk(ConsumeRateLimitToken(l, r).0, r.now)
  {
    AvailableGrows(l.ips, PerIp, r.ip, start, r.now);
    AvailableGrows(l.users, PerUser, r.Key(), start, r.now);
    ConsumeTakesOne(l.ips, PerIp, Hit(r.ip, r.seen, r.now), r.ip);
    ConsumeTakesOne(l.users, PerUser, Hit(r.Key(), r.seen, r.now), r.Key());
  }

  /** Which requests to count: those of an address, or of one of its users. */
  datatype Payer = ByIp(ip: IpAddr) | ByUser(key: UserKey) {
    predicate Pays(r: Request) {
      match this case ByIp(ip) => r.ip == ip case ByUser(key) => r.Key() == key
    }

    function GetRate(): Rate {
      if ByIp? then PerIp else PerUser
    }

    /** At most this many attempts pass in `length` seconds: 30 + length, or 10 + length / 30. */
    function Budget(length: real): real {
      GetRate().Capacity() + GetRate().Refill(length)
    }
  }

  /** Requests that passed both tables, of one payer, with a time in [from, until]. */
  function Passed(l: Limiter, requests: seq<Request>, payer: Payer, from: real, until: real): nat
    decreases |requests|
  {
    if requests == [] then 0
    else
      var (l', ok) := ConsumeRateLimitToken(l, requests[0]);
      (if payer.Pays(requests[0]) && ok && from <= requests[0].now <= until then 1 else 0)
      + Passed(l', requests[1..], payer, from, until)
  }

  function IpHits(requests: seq<Request>): seq<Hit<IpAddr>> {
    if requests == [] then []
    else [Hit(requests[0].ip, requests[0].seen, requests[0].now)] + IpHits(requests[1..])
  }

  /** Only requests that the address table grants reach the user table. */
  function UserHits(l: Limiter, requests: seq<Request>): seq<Hit<UserKey>>
    decreases |requests|
  {
    if requests == [] then []
    else
      var r := requests[0];
      (if Consume(l.ips, PerIp, r.ip, r.seen, r.now).1 == Granted then [Hit(r.Key(), r.seen, r.now)] else [])
      + UserHits(ConsumeRateLimitToken(l, r).0, requests[1..])
  }

  lemma {:induction false} PassedByIp(l: Limiter, requests: seq<Request>, ip: IpAddr,
                                      start: real, from: real, until: real)
    requires TimelyRequests(requests, start)
    ensures Timely(IpHits(requests), start)
    ensures Passed(l, requests, ByIp(ip), from, until) <= Grants(l.ips, PerIp, IpHits(requests), ip, from, until)
    decreases |requests|
  {
    if requests == [] {
    } else {
      var r, hits := requests[0], IpHits(requests);
      assert hits[1..] == IpHits(requests[1..]);
      PassedByIp(ConsumeRateLimitToken(l, r).0, requests[1..], ip, r.now, from, until);
    }
  }

  lemma TimelyEarlier<K>(hits: seq<Hit<K>>, start: real, later: real)
    requires start <= later && Timely(hits, later)
    ensures Timely(hits, start)
  {
  }

  lemma {:induction false} PassedByUser(l: Limiter, requests: seq<Request>, key: UserKey,
                                        start: real, from: real, until: real)
    requires TimelyRequests(requests, start)
    ensures Timely(UserHits(l, requests), start)
    ensures Passed(l, requests, ByUser(key), from, until)
         <= Grants(l.users, PerUser, UserHits(l, requests), key, from, until)
    decreases |requests|
  {
    if requests == [] {
    } else {
      var r, hits := requests[0], UserHits(l, requests);
      var l' := ConsumeRateLimitToken(l, r).0;
      PassedByUser(l', requests[1..], key, r.now, from, until);
      if Consume(l.ips, PerIp, r.ip, r.seen, r.now).1 == Granted {
        assert hits[0] == Hit(r.Key(), r.seen, r.now) && hits[1..] == UserHits(l', requests[1..]);
      } else {
        assert hits == UserHits(l', requests[1..]);
        TimelyEarlier(hits, start, r.now);
      }
    }
  }

  /** Over any run and interval, attempts that pass number at most 30 + length for an address
      and 10 + length / 30 for an address and user name, letter case ignored. */
  lemma PassedBound(l: Limiter, requests: seq<Request>, payer: Payer, start: real, from: real, until: real)
    requires LimiterOk(l, start) && TimelyRequests(requests, start) && from <= until
    ensures Passed(l, requests, payer, from, until) as real <= payer.Budget(until - from)
  {
    match payer
    case ByIp(ip) =>
      PassedByIp(l, requests, ip, start, from, until);
      RateBound(l.ips, PerIp, IpHits(requests), ip, start, from, until);
    case ByUser(key) =>
      PassedByUser(l, requests, key, start, from, until);
      RateBound(l.users, PerUser, UserHits(l, requests), key, start, from, until);
  }
}
