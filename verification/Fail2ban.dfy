/** Fail2ban settings and ban durations (src/abuse.rs).  Durations are in nanoseconds; the
    backoff multiplier is an exact real.
 */
module Fail2ban {
  import opened Wrappers

  const NANOS_PER_SEC: nat := 1_000_000_000

  /** Largest `std::time::Duration`. */
  const DURATION_MAX: nat := 0x1_0000_0000_0000_0000 * NANOS_PER_SEC - 1

  /** Largest `chrono::TimeDelta`, `i64::MAX` milliseconds. */
  const TIME_DELTA_MAX: nat := 9_223_372_036_854_775_807 * 1_000_000

  datatype Settings = Settings(
    enabled: bool, maxFailures: nat, findTime: nat, banTime: nat, maxBanTime: nat,
    backoffMultiplier: real, delayBeforeBan: bool, delayTime: nat, persistState: bool,
    whitelist: set<IpAddr>)

  datatype SettingsError = MaxFailures | FindTime | BanTime | MaxBanTime | Multiplier | DelayTime

  function ValidateSettings(s: Settings): Result<(), SettingsError> {
    if s.maxFailures == 0 then Err(MaxFailures)
    else if s.findTime == 0 then Err(FindTime)
    else if s.banTime == 0 then Err(BanTime)
    else if s.maxBanTime < s.banTime then Err(MaxBanTime)
    else if s.backoffMultiplier < 1.0 then Err(Multiplier)
    else if s.delayBeforeBan && s.delayTime == 0 then Err(DelayTime)
    else Ok(())
  }

  predicate ValidSettings(s: Settings) {
    ValidateSettings(s).Ok?
  }

  /** The ban durations fit chrono's range, so expiry times are exact. */
  predicate Representable(s: Settings) {
    s.maxBanTime <= TIME_DELTA_MAX
  }

  function Pow(m: real, n: nat): real {
    if n == 0 then 1.0 else m * Pow(m, n - 1)
  }

  function Round(x: real): int {
    (x + 0.5).Floor
  }

  function Scaled(s: Settings, previousBans: nat): int {
    Round(s.banTime as real * Pow(s.backoffMultiplier, previousBans))
  }

  /** `None` is the panic of `Duration::mul_f64` on a product that no `Duration` can hold: the
      product is formed before the cap is applied. */
  function ComputeBanDuration(s: Settings, previousBans: nat): Option<int> {
    var scaled := Scaled(s, previousBans);
    if scaled > DURATION_MAX then None
    else Some(if scaled <= s.maxBanTime then scaled else s.maxBanTime)
  }

  /** The duration the backoff is meant to have: the product, or the cap if that is smaller. */
  function IntendedBanDuration(s: Settings, previousBans: nat): int {
    if Scaled(s, previousBans) <= s.maxBanTime then Scaled(s, previousBans) else s.maxBanTime
  }

  lemma Scale(x: real, y: real, factor: real)
    requires x <= y && factor >= 0.0
    ensures x * factor <= y * factor
  {
  }

  lemma {:induction false} PowMonotone(m: real, a: nat, b: nat)
    requires m >= 1.0 && a <= b
    ensures 1.0 <= Pow(m, a) <= Pow(m, b)
    decreases b
  {
    if a < b {
      PowMonotone(m, a, b - 1);
      Scale(1.0, m, Pow(m, b - 1));
    } else if a > 0 {
      PowMonotone(m, a - 1, b - 1);
      Scale(1.0, m, Pow(m, a - 1));
    }
  }

  lemma {:induction false} PowSum(m: real, a: nat, b: nat)
    ensures Pow(m, a + b) == Pow(m, a) * Pow(m, b)
  {
    if a == 0 {
    } else {
      PowSum(m, a - 1, b);
      assert m * (Pow(m, a - 1) * Pow(m, b)) == (m * Pow(m, a - 1)) * Pow(m, b);
    }
  }

  lemma ScaledMonotone(s: Settings, a: nat, b: nat)
    requires ValidSettings(s) && a <= b
    ensures s.banTime <= Scaled(s, a) <= Scaled(s, b)
  {
    PowMonotone(s.backoffMultiplier, a, b);
    Scale(1.0, Pow(s.backoffMultiplier, a), s.banTime as real);
    Scale(Pow(s.backoffMultiplier, a), Pow(s.backoffMultiplier, b), s.banTime as real);
    assert s.banTime as real * Pow(s.backoffMultiplier, a) <= s.banTime as real * Pow(s.backoffMultiplier, b);
    assert Round(s.banTime as real) == s.banTime;
  }

  /** For all validated settings, bans never get shorter and stay between the two bounds; a ban
      count whose product overflows makes every later one overflow too. */
  lemma BackoffGrows(s: Settings, a: nat, b: nat)
    requires ValidSettings(s) && a <= b
    ensures ComputeBanDuration(s, a).Some? ==> s.banTime <= ComputeBanDuration(s, a).value <= s.maxBanTime
    ensures ComputeBanDuration(s, b).Some? ==>
      ComputeBanDuration(s, a).Some? && ComputeBanDuration(s, a).value <= ComputeBanDuration(s, b).value
  {
    ScaledMonotone(s, a, b);
  }

  /** The intended duration is computed exactly when the uncapped product is a `Duration`. */
  lemma BackoffExactly(s: Settings, previousBans: nat)
    requires ValidSettings(s)
    ensures ComputeBanDuration(s, previousBans) == Some(IntendedBanDuration(s, previousBans))
       <==> Scaled(s, previousBans) <= DURATION_MAX
    ensures s.banTime <= IntendedBanDuration(s, previousBans) <= s.maxBanTime
  {
    ScaledMonotone(s, 0, previousBans);
  }

  /** The defaults of the source. */
  const DEFAULTS: Settings := Settings(
    true, 5, 60 * NANOS_PER_SEC, 600 * NANOS_PER_SEC, 86400 * NANOS_PER_SEC, 2.0, true,
    2 * NANOS_PER_SEC, true, {"127.0.0.1", "::1"})

  lemma PowersOfTwo()
    ensures Pow(2.0, 54) == 18014398509481984.0 && Pow(2.0, 55) == 36028797018963968.0
  {
    assert Pow(2.0, 3) == 8.0;
    PowSum(2.0, 3, 3);
    PowSum(2.0, 6, 3);
    PowSum(2.0, 9, 9);
    PowSum(2.0, 18, 9);
    PowSum(2.0, 27, 27);
    assert Pow(2.0, 55) == 2.0 * Pow(2.0, 54);
  }

  /** With the default settings the 55th ban is the last whose duration can be computed. */
  lemma DefaultsOverflow()
    ensures ValidSettings(DEFAULTS) && Representable(DEFAULTS)
    ensures ComputeBanDuration(DEFAULTS, 54) == Some(DEFAULTS.maxBanTime)
    ensures ComputeBanDuration(DEFAULTS, 55) == None
    ensures IntendedBanDuration(DEFAULTS, 55) == DEFAULTS.maxBanTime
  {
    PowersOfTwo();
  }
}
