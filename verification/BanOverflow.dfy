/** A run of the tracker, under the default settings, that reaches the ban whose duration overflows. */
module BanOverflow {
  import opened Wrappers
  import opened Fail2ban
  import opened Abuse

  const ADDRESS: IpAddr := "192.0.2.1"
  const PAUSE: nat := 25 * 3600 * NANOS_PER_SEC

  /** Five failures at a time, 25 hours apart. */
  function TimeOf(n: nat): Time {
    n / 5 * PAUSE
  }

  function FailureAt(n: nat): Op {
    Op(Failure(ADDRESS), TimeOf(n), TimeOf(n), true)
  }

  function Failures(n: nat): seq<Op> {
    if n == 0 then [] else Failures(n - 1) + [FailureAt(n - 1)]
  }

  function Repeat(t: Time, n: nat): (r: seq<Time>)
    ensures |r| == n && forall i :: 0 <= i < n ==> r[i] == t
  {
    seq(n, _ => t)
  }

  /** At `t` the address has earned `bans` bans, none in force, and failed `n` times since. */
  predicate Stands(m: Entries, bans: nat, n: nat, t: Time) {
    var entry := KnownEntry(m, ADDRESS);
    && DropStale(entry.recentFailures, t, DEFAULTS.findTime) == Repeat(t, n)
    && entry.banCount == bans && !BanActive(entry.banUntil, t)
  }

  lemma {:induction false} AllStale(failures: seq<Time>, now: Time, window: nat)
    requires forall time <- failures :: !InWindow(time, now, window)
    ensures DropStale(failures, now, window) == []
  {
    if failures == [] {
    } else {
      assert failures[0] in failures;
      AllStale(failures[1..], now, window);
    }
  }

  lemma DurationKnown(bans: nat)
    requires bans <= 54
    ensures ComputeBanDuration(DEFAULTS, bans).Some? && ComputeBanDuration(DEFAULTS, bans).value <= DEFAULTS.maxBanTime
  {
    DefaultsOverflow();
    BackoffGrows(DEFAULTS, bans, 54);
  }

  lemma FewFailures(d: Disk, bans: nat, n: nat, t: Time)
    requires Stands(d.memory, bans, n, t) && n < 4
    ensures Stands(Step(d, Op(Failure(ADDRESS), t, t, true), DEFAULTS).0.memory, bans, n + 1, t)
  {
    var known := KnownEntry(d.memory, ADDRESS);
    assert Repeat(t, n) + [t] == Repeat(t, n + 1);
    var entry := FailEntry(known, t, BanFor(known.banCount, t, DEFAULTS), DEFAULTS).0;
    assert DropStale(entry.recentFailures, t, DEFAULTS.findTime) == entry.recentFailures;
  }

  /** The fifth failure earns a ban, which has expired before the next round. */
  lemma FifthFailure(d: Disk, bans: nat, t: Time)
    requires Stands(d.memory, bans, 4, t) && bans <= 54
    ensures Stands(Step(d, Op(Failure(ADDRESS), t, t, true), DEFAULTS).0.memory, bans + 1, 0, t + PAUSE)
  {
    DurationKnown(bans);
    var known := KnownEntry(d.memory, ADDRESS);
    assert Repeat(t, 4) + [t] == Repeat(t, 5);
    var entry := FailEntry(known, t, BanFor(known.banCount, t, DEFAULTS), DEFAULTS).0;
    assert DropStale(entry.recentFailures, t, DEFAULTS.findTime) == entry.recentFailures;
    AllStale(entry.recentFailures, t + PAUSE, DEFAULTS.findTime);
  }

  lemma NextFailure(n: nat)
    ensures n % 5 < 4 ==> (n + 1) / 5 == n / 5 && (n + 1) % 5 == n % 5 + 1 && TimeOf(n + 1) == TimeOf(n)
    ensures n % 5 == 4 ==> (n + 1) / 5 == n / 5 + 1 && (n + 1) % 5 == 0 && TimeOf(n + 1) == TimeOf(n) + PAUSE
  {
  }

  lemma NextStands(d: Disk, n: nat)
    requires n < 279 && Stands(d.memory, n / 5, n % 5, TimeOf(n))
    ensures Stands(Step(d, FailureAt(n), DEFAULTS).0.memory, (n + 1) / 5, (n + 1) % 5, TimeOf(n + 1))
  {
    NextFailure(n);
    if n % 5 < 4 {
      FewFailures(d, n / 5, n % 5, TimeOf(n));
    } else {
      FifthFailure(d, n / 5, TimeOf(n));
    }
  }

  lemma OneMore(n: nat)
    ensures Run(NO_STATE, Failures(n + 1), DEFAULTS).0
         == Step(Run(NO_STATE, Failures(n), DEFAULTS).0, FailureAt(n), DEFAULTS).0
  {
    RunConcat(NO_STATE, Failures(n), [FailureAt(n)], DEFAULTS);
    assert [FailureAt(n)][1..] == [];
  }

  lemma {:induction false} RoundsStand(n: nat)
    requires n < 280
    ensures Stands(Run(NO_STATE, Failures(n), DEFAULTS).0.memory, n / 5, n % 5, TimeOf(n))
  {
    if n == 0 {
    } else {
      RoundsStand(n - 1);
      OneMore(n - 1);
      NextStands(Run(NO_STATE, Failures(n - 1), DEFAULTS).0, n - 1);
    }
  }

  lemma {:induction false} FailuresTimely(n: nat)
    ensures Timely(Failures(n), 0) && EndTime(Failures(n), 0) <= TimeOf(n)
  {
    if n == 0 {
    } else {
      FailuresTimely(n - 1);
      TimelySplit(Failures(n - 1), FailureAt(n - 1), 0);
      NextFailure(n - 1);
    }
  }

  lemma LastFailure(d: Disk, t: Time)
    requires Stands(d.memory, 55, 4, t)
    ensures Step(d, Op(Failure(ADDRESS), t, t, true), DEFAULTS).1 == FailureAnswer(Panicked)
  {
    DefaultsOverflow();
    assert Repeat(t, 4) + [t] == Repeat(t, 5);
  }

  /** Rounds of five failures, none while a ban is in force, earn 55 bans; the last failure of the
      next round panics instead of earning the 56th. */
  lemma OverflowReached()
    ensures Timely(Failures(280), 0)
    ensures forall n: nat :: n < 280 ==>
      !BanActive(KnownEntry(Run(NO_STATE, Failures(n), DEFAULTS).0.memory, ADDRESS).banUntil, FailureAt(n).now)
    ensures KnownEntry(Run(NO_STATE, Failures(279), DEFAULTS).0.memory, ADDRESS).banCount == 55
    ensures Step(Run(NO_STATE, Failures(279), DEFAULTS).0, FailureAt(279), DEFAULTS).1 == FailureAnswer(Panicked)
  {
    FailuresTimely(280);
    forall n: nat | n < 280
      ensures Stands(Run(NO_STATE, Failures(n), DEFAULTS).0.memory, n / 5, n % 5, TimeOf(n))
    {
      RoundsStand(n);
    }
    LastFailure(Run(NO_STATE, Failures(279), DEFAULTS).0, TimeOf(279));
  }
}
