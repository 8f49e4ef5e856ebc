/** The abuse tracker (src/abuse.rs) and its persistence.

    Times are nanoseconds on a clock that never goes back.  The reference tracker `Ref` keeps
    every failure since the last clearing success, never forgets an expired ban, and has no
    file.  Memory and file both *represent* the reference, and whatever represents the
    reference gives the reference's answers.
 */
module Abuse {
  import opened Wrappers
  import opened Fail2ban

  type Time = int

  datatype AbuseEntry = AbuseEntry(
    recentFailures: seq<Time>, totalFailures: nat, banUntil: Option<Time>, banCount: nat,
    lastFailure: Option<Time>, lastSuccess: Option<Time>)

  const EMPTY_ENTRY: AbuseEntry := AbuseEntry([], 0, None, 0, None, None)

  type Entries = map<IpAddr, AbuseEntry>

  datatype PreAuthCheck = PreAuthCheck(
    whitelisted: bool, hadState: bool, expiredBan: bool, banned: bool,
    banUntil: Option<Time>, banDuration: Option<int>)

  datatype BanEventKind = Created | Extended

  datatype BanEvent = BanEvent(kind: BanEventKind, banUntil: Time, banDuration: int)

  /** `Panicked`: the ban duration could not be computed, after the failure was recorded. */
  datatype FailureOutcome =
    | Recorded(whitelisted: bool, delay: Option<nat>, banEvent: Option<BanEvent>)
    | Panicked
  {
    function Delay(): Option<nat> {
      if Panicked? then None else delay
    }

    /** The failure has earned a ban. */
    predicate Bans() {
      Panicked? || banEvent.Some?
    }
  }

  // ---------------------------------------------------------------------------
  // Sliding window

  /** A window beyond chrono's range is never applied. */
  predicate InWindow(time: Time, now: Time, window: nat) {
    window > TIME_DELTA_MAX || time + window >= now
  }

  /** What popping stale timestamps off the front leaves. */
  function DropStale(failures: seq<Time>, now: Time, window: nat): seq<Time> {
    if failures != [] && !InWindow(failures[0], now, window) then DropStale(failures[1..], now, window)
    else failures
  }

  method PruneFailures(failures: seq<Time>, now: Time, window: nat) returns (kept: seq<Time>)
    ensures kept == DropStale(failures, now, window)
  {
    kept := failures;
    if window > TIME_DELTA_MAX {
      return;
    }
    while kept != [] && kept[0] + window < now
      invariant DropStale(kept, now, window) == DropStale(failures, now, window)
      decreases |kept|
    {
      kept := kept[1..];
    }
  }

  /** The timestamps inside the window, in order. */
  function Window(log: seq<Time>, now: Time, window: nat): seq<Time> {
    if log == [] then []
    else (if InWindow(log[0], now, window) then [log[0]] else []) + Window(log[1..], now, window)
  }

  predicate Sorted(log: seq<Time>) {
    forall i, j :: 0 <= i < j < |log| ==> log[i] <= log[j]
  }

  predicate SortedUntil(log: seq<Time>, now: Time) {
    Sorted(log) && (log != [] ==> Last(log) <= now)
  }

  lemma {:induction false} WindowOfFresh(log: seq<Time>, now: Time, window: nat)
    requires forall i :: 0 <= i < |log| ==> InWindow(log[i], now, window)
    ensures Window(log, now, window) == log
  {
    if log == [] {
    } else {
      WindowOfFresh(log[1..], now, window);
    }
  }

  /** On sorted timestamps, popping from the front is filtering. */
  lemma {:induction false} DropStaleIsWindow(log: seq<Time>, now: Time, window: nat)
    requires Sorted(log)
    ensures DropStale(log, now, window) == Window(log, now, window)
  {
    if log == [] {
    } else {
      if InWindow(log[0], now, window) {
        WindowOfFresh(log, now, window);
      } else {
        DropStaleIsWindow(log[1..], now, window);
      }
    }
  }

  lemma {:induction false} DropStaleSorted(log: seq<Time>, now: Time, window: nat)
    requires SortedUntil(log, now)
    ensures SortedUntil(DropStale(log, now, window), now)
  {
    if log != [] && !InWindow(log[0], now, window) {
      DropStaleSorted(log[1..], now, window);
    }
  }

  lemma {:induction false} WindowSnoc(log: seq<Time>, time: Time, now: Time, window: nat)
    ensures Window(log + [time], now, window)
         == Window(log, now, window) + (if InWindow(time, now, window) then [time] else [])
  {
    var more := log + [time];
    if log == [] {
      assert more[1..] == [];
    } else {
      assert more[0] == log[0] && more[1..] == log[1..] + [time];
      WindowSnoc(log[1..], time, now, window);
      var head := if InWindow(log[0], now, window) then [log[0]] else [];
      var rest := Window(log[1..], now, window);
      var tail := if InWindow(time, now, window) then [time] else [];
      assert head + (rest + tail) == (head + rest) + tail;
    }
  }

  /** Forgetting at `now` what the window excludes changes no later window. */
  lemma {:induction false} WindowAgain(log: seq<Time>, now: Time, later: Time, window: nat)
    requires now <= later
    ensures Window(Window(log, now, window), later, window) == Window(log, later, window)
  {
    if log == [] {
    } else {
      var rest := Window(log[1..], now, window);
      WindowAgain(log[1..], now, later, window);
      if InWindow(log[0], now, window) {
        assert ([log[0]] + rest)[1..] == rest;
      } else {
        assert [] + rest == rest;
      }
    }
  }

  // ---------------------------------------------------------------------------
  // Operations

  predicate BanActive(banUntil: Option<Time>, now: Time) {
    banUntil.Some? && banUntil.value > now
  }

  function IpChecked(m: Entries, ip: IpAddr, now: Time, s: Settings): (Entries, PreAuthCheck) {
    if !s.enabled then (m, PreAuthCheck(false, false, false, false, None, None))
    else if ip in s.whitelist then (m, PreAuthCheck(true, ip in m, false, false, None, None))
    else if ip !in m then (m, PreAuthCheck(false, false, false, false, None, None))
    else
      var entry := m[ip].(recentFailures := DropStale(m[ip].recentFailures, now, s.findTime));
      var expired := entry.banUntil.Some? && entry.banUntil.value <= now;
      var entry' := if expired then entry.(banUntil := None) else entry;
      (m[ip := entry'],
       if BanActive(entry'.banUntil, now)
       then PreAuthCheck(false, true, expired, true, entry'.banUntil, Some(entry'.banUntil.value - now))
       else PreAuthCheck(false, true, expired, false, None, None))
  }

  /** `TimeDelta::from_std(..).unwrap_or_default()`. */
  function ToTimeDelta(duration: int): int {
    if duration <= TIME_DELTA_MAX then duration else 0
  }

  function BanFor(banCount: nat, now: Time, s: Settings): Option<BanEvent> {
    match ComputeBanDuration(s, banCount)
    case None => None
    case Some(duration) =>
      Some(BanEvent(if banCount == 0 then Created else Extended, now + ToTimeDelta(duration), duration))
  }

  function DelayFor(count: nat, s: Settings): Option<nat> {
    if s.delayBeforeBan && s.maxFailures > 1 && count >= s.maxFailures - 1 then Some(s.delayTime) else None
  }

  function KnownEntry(m: Entries, ip: IpAddr): AbuseEntry {
    if ip in m then m[ip] else EMPTY_ENTRY
  }

  /** A failure of an address that fail2ban watches; `due` is the ban it may earn. */
  function FailEntry(known: AbuseEntry, now: Time, due: Option<BanEvent>, s: Settings): (AbuseEntry, FailureOutcome) {
    var entry := known.(
      recentFailures := DropStale(known.recentFailures, now, s.findTime) + [now],
      totalFailures := known.totalFailures + 1, lastFailure := Some(now));
    if |entry.recentFailures| < s.maxFailures then
      (entry, Recorded(false, DelayFor(|entry.recentFailures|, s), None))
    else match due
      case None => (entry, Panicked)
      case Some(ban) =>
        (entry.(banUntil := Some(ban.banUntil), banCount := entry.banCount + 1), Recorded(false, None, Some(ban)))
  }

  function FailureRecorded(m: Entries, ip: IpAddr, now: Time, s: Settings): (Entries, FailureOutcome) {
    if !s.enabled then (m, Recorded(false, None, None))
    else if ip in s.whitelist then (m, Recorded(true, None, None))
    else
      var known := KnownEntry(m, ip);
      var (entry, outcome) := FailEntry(known, now, BanFor(known.banCount, now, s), s);
      (m[ip := entry], outcome)
  }

  function SuccessRecorded(m: Entries, ip: IpAddr, now: Time, s: Settings): Entries {
    if !s.enabled || ip in s.whitelist || ip !in m then m
    else if BanActive(m[ip].banUntil, now) then m[ip := m[ip].(lastSuccess := Some(now))]
    else m[ip := m[ip].(lastSuccess := Some(now), recentFailures := [])]
  }

  /** What both persistence filters ask of an entry. */
  predicate WorthKeeping(entry: AbuseEntry, now: Time) {
    || entry.recentFailures != [] || BanActive(entry.banUntil, now) || entry.banCount > 0
    || entry.lastFailure.Some? || entry.lastSuccess.Some?
  }

  function Pruned(entry: AbuseEntry, now: Time, s: Settings): AbuseEntry {
    entry.(recentFailures := DropStale(entry.recentFailures, now, s.findTime))
  }

  /** `snapshot_for_persistence`: what stays in memory, which is also what is written. */
  function Snapshot(m: Entries, now: Time, s: Settings): Entries {
    map ip | ip in m && WorthKeeping(Pruned(m[ip], now, s), now) :: Pruned(m[ip], now, s)
  }

  function Unexpired(entry: AbuseEntry, now: Time): AbuseEntry {
    if entry.banUntil.Some? && entry.banUntil.value <= now then entry.(banUntil := None) else entry
  }

  /** The filtering of `read_state_file`; a missing file is an empty one. */
  function Load(file: Entries, now: Time, s: Settings): Entries {
    map ip | ip in file && WorthKeeping(Unexpired(Pruned(file[ip], now, s), now), now)
      :: Unexpired(Pruned(file[ip], now, s), now)
  }

  // ---------------------------------------------------------------------------
  // Memory and file

  datatype Disk = Disk(memory: Entries, file: Entries)

  datatype Call = Check(ip: IpAddr) | Failure(ip: IpAddr) | Success(ip: IpAddr) | Reload

  /** One call: `now` is the clock of the operation, `saved` the one of the save that follows, and
      `fileOk` the outcome of that save, or of the read of a reload. */
  datatype Op = Op(call: Call, now: Time, saved: Time, fileOk: bool)

  datatype Answer = CheckAnswer(check: PreAuthCheck) | FailureAnswer(outcome: FailureOutcome) | NoAnswer

  function Persisted(d: Disk, saved: Time, writeOk: bool, s: Settings): Disk {
    if !s.persistState then d
    else
      var snapshot := Snapshot(d.memory, saved, s);
      Disk(snapshot, if writeOk then snapshot else d.file)
  }

  function Reloaded(d: Disk, now: Time, readOk: bool, s: Settings): Disk {
    if s.persistState && readOk then Disk(Load(d.file, now, s), d.file) else d
  }

  function Step(d: Disk, op: Op, s: Settings): (Disk, Answer) {
    match op.call
    case Check(ip) =>
      var (memory, check) := IpChecked(d.memory, ip, op.now, s);
      var d' := d.(memory := memory);
      (if check.expiredBan || check.banned then Persisted(d', op.saved, op.fileOk, s) else d', CheckAnswer(check))
    case Failure(ip) =>
      var (memory, outcome) := FailureRecorded(d.memory, ip, op.now, s);
      var d' := d.(memory := memory);
      (if outcome.Panicked? then d' else Persisted(d', op.saved, op.fileOk, s), FailureAnswer(outcome))
    case Success(ip) =>
      (Persisted(d.(memory := SuccessRecorded(d.memory, ip, op.now, s)), op.saved, op.fileOk, s), NoAnswer)
    case Reload =>
      (Reloaded(d, op.now, op.fileOk, s), NoAnswer)
  }

  // ---------------------------------------------------------------------------
  // The source's objects

  class AbuseTrackerCore {
    var entries: Entries

    constructor ()
      ensures entries == map[]
    {
      entries := map[];
    }

    method ApplyLoadedState(loaded: Entries)
      modifies this
      ensures entries == loaded
    {
      entries := loaded;
    }

    method CheckIp(ip: IpAddr, now: Time, s: Settings) returns (check: PreAuthCheck)
      modifies this
      ensures (entries, check) == IpChecked(old(entries), ip, now, s)
    {
      if !s.enabled {
        return PreAuthCheck(false, false, false, false, None, None);
      }
      if ip in s.whitelist {
        return PreAuthCheck(true, ip in entries, false, false, None, None);
      }
      if ip !in entries {
        return PreAuthCheck(false, false, false, false, None, None);
      }
      var entry := entries[ip];
      var kept := PruneFailures(entry.recentFailures, now, s.findTime);
      entry := entry.(recentFailures := kept);
      var expiredBan := false;
      if entry.banUntil.Some? && entry.banUntil.value <= now {
        entry := entry.(banUntil := None);
        expiredBan := true;
      }
      entries := entries[ip := entry];
      if entry.banUntil.Some? && entry.banUntil.value > now {
        return PreAuthCheck(false, true, expiredBan, true, entry.banUntil, Some(entry.banUntil.value - now));
      }
      return PreAuthCheck(false, true, expiredBan, false, None, None);
    }

    method RecordFailure(ip: IpAddr, now: Time, s: Settings) returns (outcome: FailureOutcome)
      modifies this
      ensures (entries, outcome) == FailureRecorded(old(entries), ip, now, s)
    {
      if !s.enabled {
        return Recorded(false, None, None);
      }
      if ip in s.whitelist {
        return Recorded(true, None, None);
      }
      var entry := KnownEntry(entries, ip);
      var kept := PruneFailures(entry.recentFailures, now, s.findTime);
      entry := entry.(lastFailure := Some(now));
      entry := entry.(totalFailures := entry.totalFailures + 1);
      entry := entry.(recentFailures := kept + [now]);
      entries := entries[ip := entry];
      var failureCount := |entry.recentFailures|;
      if failureCount >= s.maxFailures {
        var previousBans := entry.banCount;
        var duration := ComputeBanDuration(s, previousBans);
        if duration.None? {
          return Panicked;
        }
        var banUntil := now + ToTimeDelta(duration.value);
        entry := entry.(banUntil := Some(banUntil));
        entry := entry.(banCount := entry.banCount + 1);
        entries := entries[ip := entry];
        assert entries == old(entries)[ip := entry];
        var kind := if previousBans == 0 then Created else Extended;
        return Recorded(false, None, Some(BanEvent(kind, banUntil, duration.value)));
      }
      return Recorded(false, DelayFor(failureCount, s), None);
    }

    method RecordSuccess(ip: IpAddr, now: Time, s: Settings)
      modifies this
      ensures entries == SuccessRecorded(old(entries), ip, now, s)
    {
      if !s.enabled {
        return;
      }
      if ip in s.whitelist {
        return;
      }
      if ip in entries {
        var entry := entries[ip].(lastSuccess := Some(now));
        if entry.banUntil.Some? && entry.banUntil.value > now {
          entries := entries[ip := entry];
          return;
        }
        entries := entries[ip := entry.(recentFailures := [])];
      }
    }

    method SnapshotForPersistence(now: Time, s: Settings) returns (persisted: Entries)
      modifies this
      ensures persisted == entries == Snapshot(old(entries), now, s)
    {
      entries := Snapshot(entries, now, s);
      persisted := entries;
    }
  }

  /** The tracker with its state file; writes and reads are atomic and may fail. */
  class AbuseTracker {
    const settings: Settings
    const core: AbuseTrackerCore
    var file: Entries

    ghost function View(): Disk
      reads this, core
    {
      Disk(core.entries, file)
    }

    constructor (settings: Settings, file: Entries, now: Time, readOk: bool)
      ensures this.settings == settings && fresh(core)
      ensures View() == Reloaded(Disk(map[], file), now, readOk, settings)
    {
      this.settings, this.file := settings, file;
      core := new AbuseTrackerCore();
      new;
      LoadPersistedState(now, readOk);
    }

    /** A file that cannot be read or decoded leaves memory as it is. */
    method LoadPersistedState(now: Time, readOk: bool)
      modifies core
      ensures View() == Reloaded(old(View()), now, readOk, settings)
    {
      if !settings.persistState {
        return;
      }
      if readOk {
        core.ApplyLoadedState(Load(file, now, settings));
      }
    }

    method PersistIfEnabled(saved: Time, writeOk: bool)
      modifies this, core
      ensures View() == Persisted(old(View()), saved, writeOk, settings)
    {
      if !settings.persistState {
        return;
      }
      var snapshot := core.SnapshotForPersistence(saved, settings);
      if writeOk {
        file := snapshot;
      }
    }

    method CheckIp(ip: IpAddr, now: Time, saved: Time, writeOk: bool) returns (check: PreAuthCheck)
      modifies this, core
      ensures (View(), CheckAnswer(check)) == Step(old(View()), Op(Check(ip), now, saved, writeOk), settings)
    {
      check := core.CheckIp(ip, now, settings);
      if check.expiredBan || check.banned {
        PersistIfEnabled(saved, writeOk);
      }
    }

    method RecordFailure(ip: IpAddr, now: Time, saved: Time, writeOk: bool) returns (outcome: FailureOutcome)
      modifies this, core
      ensures (View(), FailureAnswer(outcome)) == Step(old(View()), Op(Failure(ip), now, saved, writeOk), settings)
    {
      outcome := core.RecordFailure(ip, now, settings);
      if outcome.Panicked? {
        return;
      }
      PersistIfEnabled(saved, writeOk);
    }

    method RecordSuccess(ip: IpAddr, now: Time, saved: Time, writeOk: bool)
      modifies this, core
      ensures View() == Step(old(View()), Op(Success(ip), now, saved, writeOk), settings).0
    {
      core.RecordSuccess(ip, now, settings);
      PersistIfEnabled(saved, writeOk);
    }
  }

  // ---------------------------------------------------------------------------
  // Runs

  const NO_STATE: Disk := Disk(map[], map[])

  predicate Timely(ops: seq<Op>, start: Time) {
    ops != [] ==> start <= ops[0].now <= ops[0].saved && Timely(ops[1..], ops[0].saved)
  }

  function EndTime(ops: seq<Op>, start: Time): Time {
    if ops == [] then start else Last(ops).saved
  }

  function Run(d: Disk, ops: seq<Op>, s: Settings): (r: (Disk, seq<Answer>))
    ensures |r.1| == |ops|
    decreases |ops|
  {
    if ops == [] then (d, [])
    else
      var (d', answer) := Step(d, ops[0], s);
      var (last, answers) := Run(d', ops[1..], s);
      (last, [answer] + answers)
  }

  lemma {:induction false} RunConcat(d: Disk, ops: seq<Op>, more: seq<Op>, s: Settings)
    ensures Run(d, ops + more, s).0 == Run(Run(d, ops, s).0, more, s).0
    decreases |ops|
  {
    if ops == [] {
      assert ops + more == more;
    } else {
      assert (ops + more)[1..] == ops[1..] + more;
      RunConcat(Step(d, ops[0], s).0, ops[1..], more, s);
    }
  }

  /** A run is timely when its beginning is and its last operation comes after that. */
  lemma {:induction false} TimelySplit(ops: seq<Op>, op: Op, start: Time)
    ensures Timely(ops + [op], start) <==> Timely(ops, start) && EndTime(ops, start) <= op.now <= op.saved
    decreases |ops|
  {
    if ops == [] {
      assert (ops + [op])[1..] == [];
    } else {
      assert (ops + [op])[1..] == ops[1..] + [op];
      TimelySplit(ops[1..], op, ops[0].saved);
    }
  }

  /** The call has replaced memory by the file. */
  predicate Loads(op: Op, s: Settings) {
    op.call.Reload? && op.fileOk && s.persistState
  }

  /** The call has replaced the file by memory. */
  predicate Saves(d: Disk, op: Op, s: Settings) {
    s.persistState && op.fileOk &&
    match Step(d, op, s).1
    case CheckAnswer(check) => check.expiredBan || check.banned
    case FailureAnswer(outcome) => !outcome.Panicked?
    case NoAnswer => !op.call.Reload?
  }

  function SavesOf(d: Disk, ops: seq<Op>, s: Settings): (r: seq<bool>)
    ensures |r| == |ops|
    decreases |ops|
  {
    if ops == [] then [] else [Saves(d, ops[0], s)] + SavesOf(Step(d, ops[0], s).0, ops[1..], s)
  }

  // ---------------------------------------------------------------------------
  // Reference tracker

  /** Failures since the last clearing success, and the latest ban whether expired or not. */
  datatype RefEntry = RefEntry(log: seq<Time>, banUntil: Option<Time>, banCount: nat)

  type Ref = map<IpAddr, RefEntry>

  function RefCheck(r: Ref, ip: IpAddr, now: Time, s: Settings): PreAuthCheck {
    if !s.enabled then PreAuthCheck(false, false, false, false, None, None)
    else if ip in s.whitelist then PreAuthCheck(true, ip in r, false, false, None, None)
    else if ip !in r then PreAuthCheck(false, false, false, false, None, None)
    else if BanActive(r[ip].banUntil, now) then
      PreAuthCheck(false, true, false, true, r[ip].banUntil, Some(r[ip].banUntil.value - now))
    else PreAuthCheck(false, true, false, false, None, None)
  }

  function KnownRef(r: Ref, ip: IpAddr): RefEntry {
    if ip in r then r[ip] else RefEntry([], None, 0)
  }

  function RefFail(known: RefEntry, now: Time, due: Option<BanEvent>, s: Settings): (RefEntry, FailureOutcome) {
    var entry := known.(log := known.log + [now]);
    var count := |Window(entry.log, now, s.findTime)|;
    if count < s.maxFailures then (entry, Recorded(false, DelayFor(count, s), None))
    else match due
      case None => (entry, Panicked)
      case Some(ban) =>
        (RefEntry(entry.log, Some(ban.banUntil), entry.banCount + 1), Recorded(false, None, Some(ban)))
  }

  function RefFailure(r: Ref, ip: IpAddr, now: Time, s: Settings): (Ref, FailureOutcome) {
    if !s.enabled then (r, Recorded(false, None, None))
    else if ip in s.whitelist then (r, Recorded(true, None, None))
    else
      var known := KnownRef(r, ip);
      var (entry, outcome) := RefFail(known, now, BanFor(known.banCount, now, s), s);
      (r[ip := entry], outcome)
  }

  function RefSuccess(r: Ref, ip: IpAddr, now: Time, s: Settings): Ref {
    if !s.enabled || ip in s.whitelist || ip !in r || BanActive(r[ip].banUntil, now) then r
    else r[ip := r[ip].(log := [])]
  }

  function RefStep(r: Ref, op: Op, s: Settings): (Ref, Answer) {
    match op.call
    case Check(ip) => (r, CheckAnswer(RefCheck(r, ip, op.now, s)))
    case Failure(ip) => var (r', outcome) := RefFailure(r, ip, op.now, s); (r', FailureAnswer(outcome))
    case Success(ip) => (RefSuccess(r, ip, op.now, s), NoAnswer)
    case Reload => (r, NoAnswer)
  }

  function RefRun(r: Ref, ops: seq<Op>, s: Settings): (result: (Ref, seq<Answer>))
    ensures |result.1| == |ops|
    decreases |ops|
  {
    if ops == [] then (r, [])
    else
      var (r', answer) := RefStep(r, ops[0], s);
      var (last, answers) := RefRun(r', ops[1..], s);
      (last, [answer] + answers)
  }

  /** What memory and file stand for: a save copies the one, a reload the other. */
  datatype Refs = Refs(memory: Ref, file: Ref)

  const NO_REFS: Refs := Refs(map[], map[])

  function RefsStep(refs: Refs, op: Op, saved: bool, s: Settings): Refs {
    if Loads(op, s) then Refs(refs.file, refs.file)
    else
      var r := RefStep(refs.memory, op, s).0;
      Refs(r, if saved then r else refs.file)
  }

  function RefsRun(refs: Refs, ops: seq<Op>, saves: seq<bool>, s: Settings): (result: (Refs, seq<Answer>))
    requires |saves| == |ops|
    ensures |result.1| == |ops|
    decreases |ops|
  {
    if ops == [] then (refs, [])
    else
      var (last, answers) := RefsRun(RefsStep(refs, ops[0], saves[0], s), ops[1..], saves[1..], s);
      (last, [RefStep(refs.memory, ops[0], s).1] + answers)
  }

  /** An answer without `expired_ban`, which only the log depends on. */
  function Core(answer: Answer): Answer {
    if answer.CheckAnswer? then CheckAnswer(answer.check.(expiredBan := false)) else answer
  }

  predicate SameAnswers(a: seq<Answer>, b: seq<Answer>) {
    |a| == |b| && forall i :: 0 <= i < |a| ==> Core(a[i]) == Core(b[i])
  }

  // ---------------------------------------------------------------------------
  // Representation

  predicate SameBan(a: Option<Time>, b: Option<Time>, now: Time) {
    if BanActive(b, now) then a == b else !BanActive(a, now)
  }

  /** From `now` on, `entry` and `ref` cannot be told apart. */
  predicate Tracks(entry: AbuseEntry, ref: RefEntry, now: Time, s: Settings) {
    && SortedUntil(entry.recentFailures, now) && SortedUntil(ref.log, now)
    && Window(entry.recentFailures, now, s.findTime) == Window(ref.log, now, s.findTime)
    && SameBan(entry.banUntil, ref.banUntil, now)
    && entry.banCount == ref.banCount
  }

  predicate Represents(entry: AbuseEntry, ref: RefEntry, now: Time, s: Settings) {
    Tracks(entry, ref, now, s) && entry.lastFailure.Some?
  }

  predicate RepresentsAll(m: Entries, r: Ref, now: Time, s: Settings) {
    m.Keys == r.Keys && forall ip <- m :: Represents(m[ip], r[ip], now, s)
  }

  lemma RepresentsLater(entry: AbuseEntry, ref: RefEntry, now: Time, later: Time, s: Settings)
    requires Represents(entry, ref, now, s) && now <= later
    ensures Represents(entry, ref, later, s)
  {
    WindowAgain(entry.recentFailures, now, later, s.findTime);
    WindowAgain(ref.log, now, later, s.findTime);
  }

  lemma RepresentsAllLater(m: Entries, r: Ref, now: Time, later: Time, s: Settings)
    requires RepresentsAll(m, r, now, s) && now <= later
    ensures RepresentsAll(m, r, later, s)
  {
    forall ip <- m ensures Represents(m[ip], r[ip], later, s) {
      RepresentsLater(m[ip], r[ip], now, later, s);
    }
  }

  /** Pruning and forgetting an expired ban keep the representation. */
  lemma PrunedRepresents(entry: AbuseEntry, ref: RefEntry, now: Time, s: Settings)
    requires Represents(entry, ref, now, s)
    ensures Represents(Pruned(entry, now, s), ref, now, s)
    ensures Represents(Unexpired(Pruned(entry, now, s), now), ref, now, s)
    ensures DropStale(entry.recentFailures, now, s.findTime) == Window(ref.log, now, s.findTime)
  {
    DropStaleIsWindow(entry.recentFailures, now, s.findTime);
    DropStaleSorted(entry.recentFailures, now, s.findTime);
    WindowAgain(entry.recentFailures, now, now, s.findTime);
  }

  /** No entry is lost by saving or loading, because a recorded failure is never forgotten. */
  lemma SnapshotRepresents(m: Entries, r: Ref, now: Time, s: Settings)
    requires RepresentsAll(m, r, now, s)
    ensures RepresentsAll(Snapshot(m, now, s), r, now, s)
    ensures RepresentsAll(Load(m, now, s), r, now, s)
  {
    forall ip <- m
      ensures Represents(Pruned(m[ip], now, s), r[ip], now, s)
      ensures Represents(Unexpired(Pruned(m[ip], now, s), now), r[ip], now, s)
    {
      PrunedRepresents(m[ip], r[ip], now, s);
    }
    assert Snapshot(m, now, s).Keys == m.Keys == Load(m, now, s).Keys;
  }

  lemma UpdateRepresents(m: Entries, r: Ref, ip: IpAddr, entry: AbuseEntry, ref: RefEntry, now: Time, s: Settings)
    requires RepresentsAll(m, r, now, s) && Represents(entry, ref, now, s)
    ensures RepresentsAll(m[ip := entry], r[ip := ref], now, s)
  {
  }

  lemma CheckRepresents(m: Entries, r: Ref, ip: IpAddr, now: Time, s: Settings)
    requires RepresentsAll(m, r, now, s)
    ensures RepresentsAll(IpChecked(m, ip, now, s).0, r, now, s)
  {
    if ip in m {
      PrunedRepresents(m[ip], r[ip], now, s);
      UpdateRepresents(m, r, ip, Unexpired(Pruned(m[ip], now, s), now), r[ip], now, s);
      assert r[ip := r[ip]] == r;
    }
  }

  lemma CheckAnswers(m: Entries, r: Ref, ip: IpAddr, now: Time, s: Settings)
    requires RepresentsAll(m, r, now, s)
    ensures IpChecked(m, ip, now, s).1.(expiredBan := false) == RefCheck(r, ip, now, s)
  {
    if s.enabled && ip !in s.whitelist && ip in m {
      var banUntil := m[ip].banUntil;
      assert SameBan(banUntil, r[ip].banUntil, now) by {
        assert Represents(m[ip], r[ip], now, s);
      }
      if BanActive(banUntil, now) {
        assert IpChecked(m, ip, now, s).1
            == PreAuthCheck(false, true, false, true, banUntil, Some(banUntil.value - now));
      }
    }
  }

  lemma SortedSnoc(log: seq<Time>, now: Time)
    requires SortedUntil(log, now)
    ensures SortedUntil(log + [now], now)
  {
  }

  /** The window after a failure is the failures since the last clearing success that are in it. */
  lemma FailureWindow(known: seq<Time>, log: seq<Time>, now: Time, window: nat)
    requires SortedUntil(known, now) && SortedUntil(log, now)
    requires Window(known, now, window) == Window(log, now, window)
    ensures var recent := DropStale(known, now, window) + [now];
            && recent == Window(log + [now], now, window) == Window(recent, now, window)
            && SortedUntil(recent, now) && SortedUntil(log + [now], now)
  {
    var kept := DropStale(known, now, window);
    DropStaleIsWindow(known, now, window);
    DropStaleSorted(known, now, window);
    WindowSnoc(log, now, now, window);
    WindowSnoc(kept, now, now, window);
    WindowAgain(log, now, now, window);
    SortedSnoc(kept, now);
    SortedSnoc(log, now);
  }

  lemma FailTracks(known: AbuseEntry, ref: RefEntry, now: Time, due: Option<BanEvent>, s: Settings)
    requires Tracks(known, ref, now, s)
    ensures Represents(FailEntry(known, now, due, s).0, RefFail(ref, now, due, s).0, now, s)
    ensures FailEntry(known, now, due, s).1 == RefFail(ref, now, due, s).1
  {
    FailureWindow(known.recentFailures, ref.log, now, s.findTime);
    var recent := DropStale(known.recentFailures, now, s.findTime) + [now];
    assert |recent| == |Window(ref.log + [now], now, s.findTime)|;
    var (entry, outcome) := FailEntry(known, now, due, s);
    var (ref', expected) := RefFail(ref, now, due, s);
    assert outcome == expected;
    assert entry.recentFailures == recent && ref'.log == ref.log + [now];
    assert entry.banCount == ref'.banCount && SameBan(entry.banUntil, ref'.banUntil, now);
  }

  lemma FailureRepresents(m: Entries, r: Ref, ip: IpAddr, now: Time, s: Settings)
    requires RepresentsAll(m, r, now, s)
    ensures RepresentsAll(FailureRecorded(m, ip, now, s).0, RefFailure(r, ip, now, s).0, now, s)
    ensures FailureRecorded(m, ip, now, s).1 == RefFailure(r, ip, now, s).1
  {
    if s.enabled && ip !in s.whitelist {
      var known, ref := KnownEntry(m, ip), KnownRef(r, ip);
      assert Tracks(known, ref, now, s);
      var due := BanFor(known.banCount, now, s);
      FailTracks(known, ref, now, due, s);
      UpdateRepresents(m, r, ip, FailEntry(known, now, due, s).0, RefFail(ref, now, due, s).0, now, s);
    }
  }

  lemma SuccessRepresents(m: Entries, r: Ref, ip: IpAddr, now: Time, s: Settings)
    requires RepresentsAll(m, r, now, s)
    ensures RepresentsAll(SuccessRecorded(m, ip, now, s), RefSuccess(r, ip, now, s), now, s)
  {
  }

  // ---------------------------------------------------------------------------
  // Every run answers like the references

  predicate DiskRepresents(d: Disk, refs: Refs, now: Time, s: Settings) {
    RepresentsAll(d.memory, refs.memory, now, s) && RepresentsAll(d.file, refs.file, now, s)
  }

  lemma DiskRepresentsLater(d: Disk, refs: Refs, now: Time, later: Time, s: Settings)
    requires DiskRepresents(d, refs, now, s) && now <= later
    ensures DiskRepresents(d, refs, later, s)
  {
    RepresentsAllLater(d.memory, refs.memory, now, later, s);
    RepresentsAllLater(d.file, refs.file, now, later, s);
  }

  lemma PersistedRepresents(d: Disk, refs: Refs, now: Time, saved: Time, writeOk: bool, s: Settings)
    requires DiskRepresents(d, refs, now, s) && now <= saved
    ensures DiskRepresents(Persisted(d, saved, writeOk, s),
                           if s.persistState && writeOk then Refs(refs.memory, refs.memory) else refs, saved, s)
  {
    DiskRepresentsLater(d, refs, now, saved, s);
    SnapshotRepresents(d.memory, refs.memory, saved, s);
  }

  lemma CheckStep(d: Disk, refs: Refs, ip: IpAddr, op: Op, s: Settings)
    requires DiskRepresents(d, refs, op.now, s) && op.now <= op.saved && op.call == Check(ip)
    ensures DiskRepresents(Step(d, op, s).0, RefsStep(refs, op, Saves(d, op, s), s), op.saved, s)
    ensures Core(Step(d, op, s).1) == CheckAnswer(RefCheck(refs.memory, ip, op.now, s))
  {
    CheckRepresents(d.memory, refs.memory, ip, op.now, s);
    CheckAnswers(d.memory, refs.memory, ip, op.now, s);
    var checked := d.(memory := IpChecked(d.memory, ip, op.now, s).0);
    DiskRepresentsLater(checked, refs, op.now, op.saved, s);
    PersistedRepresents(checked, refs, op.now, op.saved, op.fileOk, s);
  }

  lemma FailureStep(d: Disk, refs: Refs, ip: IpAddr, op: Op, s: Settings)
    requires DiskRepresents(d, refs, op.now, s) && op.now <= op.saved && op.call == Failure(ip)
    ensures DiskRepresents(Step(d, op, s).0, RefsStep(refs, op, Saves(d, op, s), s), op.saved, s)
    ensures Step(d, op, s).1 == FailureAnswer(RefFailure(refs.memory, ip, op.now, s).1)
  {
    FailureRepresents(d.memory, refs.memory, ip, op.now, s);
    var failed := d.(memory := FailureRecorded(d.memory, ip, op.now, s).0);
    var refs' := refs.(memory := RefFailure(refs.memory, ip, op.now, s).0);
    DiskRepresentsLater(failed, refs', op.now, op.saved, s);
    PersistedRepresents(failed, refs', op.now, op.saved, op.fileOk, s);
  }

  lemma SuccessStep(d: Disk, refs: Refs, ip: IpAddr, op: Op, s: Settings)
    requires DiskRepresents(d, refs, op.now, s) && op.now <= op.saved && op.call == Success(ip)
    ensures DiskRepresents(Step(d, op, s).0, RefsStep(refs, op, Saves(d, op, s), s), op.saved, s)
  {
    SuccessRepresents(d.memory, refs.memory, ip, op.now, s);
    PersistedRepresents(d.(memory := SuccessRecorded(d.memory, ip, op.now, s)),
                        refs.(memory := RefSuccess(refs.memory, ip, op.now, s)), op.now, op.saved, op.fileOk, s);
  }

  lemma ReloadStep(d: Disk, refs: Refs, op: Op, s: Settings)
    requires DiskRepresents(d, refs, op.now, s) && op.now <= op.saved && op.call == Reload
    ensures DiskRepresents(Step(d, op, s).0, RefsStep(refs, op, Saves(d, op, s), s), op.saved, s)
  {
    SnapshotRepresents(d.file, refs.file, op.now, s);
    DiskRepresentsLater(Step(d, op, s).0, RefsStep(refs, op, Saves(d, op, s), s), op.now, op.saved, s);
  }

  lemma StepRepresents(d: Disk, refs: Refs, op: Op, start: Time, s: Settings)
    requires DiskRepresents(d, refs, start, s) && start <= op.now <= op.saved
    ensures DiskRepresents(Step(d, op, s).0, RefsStep(refs, op, Saves(d, op, s), s), op.saved, s)
    ensures Core(Step(d, op, s).1) == Core(RefStep(refs.memory, op, s).1)
  {
    DiskRepresentsLater(d, refs, start, op.now, s);
    match op.call
    case Check(ip) => CheckStep(d, refs, ip, op, s);
    case Failure(ip) => FailureStep(d, refs, ip, op, s);
    case Success(ip) => SuccessStep(d, refs, ip, op, s);
    case Reload => ReloadStep(d, refs, op, s);
  }

  lemma SameAnswersCons(a: Answer, b: Answer, as_: seq<Answer>, bs: seq<Answer>)
    requires Core(a) == Core(b) && SameAnswers(as_, bs)
    ensures SameAnswers([a] + as_, [b] + bs)
  {
  }

  /** Every run, whatever saves and reads fail in it, gets the answers of trackers that forget
      nothing, of which a save copies memory to file and a reload file to memory. */
  lemma {:induction false} RunsAnswerLikeReferences(d: Disk, refs: Refs, ops: seq<Op>, start: Time, s: Settings)
    requires DiskRepresents(d, refs, start, s) && Timely(ops, start)
    ensures var (refs', answers) := RefsRun(refs, ops, SavesOf(d, ops, s), s);
            && SameAnswers(Run(d, ops, s).1, answers)
            && DiskRepresents(Run(d, ops, s).0, refs', EndTime(ops, start), s)
    decreases |ops|
  {
    if ops == [] {
    } else {
      var op := ops[0];
      var (d', answer) := Step(d, op, s);
      var refs' := RefsStep(refs, op, Saves(d, op, s), s);
      var saves := SavesOf(d, ops, s);
      assert saves[0] == Saves(d, op, s) && saves[1..] == SavesOf(d', ops[1..], s);
      StepRepresents(d, refs, op, start, s);
      RunsAnswerLikeReferences(d', refs', ops[1..], op.saved, s);
      SameAnswersCons(answer, RefStep(refs.memory, op, s).1, Run(d', ops[1..], s).1,
                      RefsRun(refs', ops[1..], saves[1..], s).1);
    }
  }

  // ---------------------------------------------------------------------------
  // Reloads that find the file up to date are invisible

  /** No reload reads a file that lags behind memory. */
  predicate ReloadsSynced(synced: bool, ops: seq<Op>, saves: seq<bool>, s: Settings)
    requires |saves| == |ops|
    decreases |ops|
  {
    ops != [] ==>
      && (Loads(ops[0], s) ==> synced)
      && ReloadsSynced(saves[0] || (synced && (ops[0].call.Check? || ops[0].call.Reload?)), ops[1..], saves[1..], s)
  }

  lemma {:induction false} SyncedRunsForgetFile(refs: Refs, synced: bool, ops: seq<Op>, saves: seq<bool>, s: Settings)
    requires |saves| == |ops| && ReloadsSynced(synced, ops, saves, s) && (synced ==> refs.memory == refs.file)
    ensures RefsRun(refs, ops, saves, s).1 == RefRun(refs.memory, ops, s).1
    decreases |ops|
  {
    if ops == [] {
    } else {
      SyncedRunsForgetFile(RefsStep(refs, ops[0], saves[0], s),
                           saves[0] || (synced && (ops[0].call.Check? || ops[0].call.Reload?)),
                           ops[1..], saves[1..], s);
    }
  }

  /** When no reload reads a lagging file, saves and reloads are invisible: the run gets the answers
      of one tracker that forgets nothing and has no file. */
  lemma SyncedRunsAnswerLikeReference(d: Disk, r: Ref, ops: seq<Op>, start: Time, s: Settings)
    requires DiskRepresents(d, Refs(r, r), start, s) && Timely(ops, start)
    requires ReloadsSynced(true, ops, SavesOf(d, ops, s), s)
    ensures SameAnswers(Run(d, ops, s).1, RefRun(r, ops, s).1)
  {
    RunsAnswerLikeReferences(d, Refs(r, r), ops, start, s);
    SyncedRunsForgetFile(Refs(r, r), true, ops, SavesOf(d, ops, s), s);
  }

  // ---------------------------------------------------------------------------
  // Saving and loading

  /** What a run has reached represents what the references have reached. */
  lemma ReachedRepresents(past: seq<Op>, start: Time, now: Time, s: Settings) returns (refs: Refs)
    requires Timely(past, start) && EndTime(past, start) <= now
    ensures refs == RefsRun(NO_REFS, past, SavesOf(NO_STATE, past, s), s).0
    ensures DiskRepresents(Run(NO_STATE, past, s).0, refs, now, s)
  {
    RunsAnswerLikeReferences(NO_STATE, NO_REFS, past, start, s);
    refs := RefsRun(NO_REFS, past, SavesOf(NO_STATE, past, s), s).0;
    DiskRepresentsLater(Run(NO_STATE, past, s).0, refs, EndTime(past, start), now, s);
  }

  lemma SavedRepresents(m: Entries, r: Ref, saved: Time, loaded: Time, s: Settings)
    requires RepresentsAll(m, r, saved, s) && saved <= loaded
    ensures var file := Snapshot(m, saved, s);
            && DiskRepresents(Disk(m, file), Refs(r, r), loaded, s)
            && DiskRepresents(Disk(Load(file, loaded, s), file), Refs(r, r), loaded, s)
  {
    var file := Snapshot(m, saved, s);
    SnapshotRepresents(m, r, saved, s);
    RepresentsAllLater(m, r, saved, loaded, s);
    RepresentsAllLater(file, r, saved, loaded, s);
    SnapshotRepresents(file, r, loaded, s);
  }

  /** Two disks that stand for the same answer alike while they save alike, or reload no lagging file. */
  lemma SameFuture(a: Disk, b: Disk, r: Ref, future: seq<Op>, now: Time, s: Settings)
    requires DiskRepresents(a, Refs(r, r), now, s) && DiskRepresents(b, Refs(r, r), now, s) && Timely(future, now)
    ensures var x, y := SavesOf(a, future, s), SavesOf(b, future, s);
            x == y || (ReloadsSynced(true, future, x, s) && ReloadsSynced(true, future, y, s))
            ==> SameAnswers(Run(a, future, s).1, Run(b, future, s).1)
  {
    RunsAnswerLikeReferences(a, Refs(r, r), future, now, s);
    RunsAnswerLikeReferences(b, Refs(r, r), future, now, s);
    var x, y := SavesOf(a, future, s), SavesOf(b, future, s);
    if ReloadsSynced(true, future, x, s) && ReloadsSynced(true, future, y, s) {
      SyncedRunsForgetFile(Refs(r, r), true, future, x, s);
      SyncedRunsForgetFile(Refs(r, r), true, future, y, s);
    }
  }

  /** Saving any reachable tracker and loading it later changes no answer to any later calls.  The
      restored tracker has already dropped its expired bans, so a later check may save in one of the
      two and not in the other; it shows only when a reload then reads a file that lags. */
  lemma SaveLoadInvisible(past: seq<Op>, saved: Time, loaded: Time, future: seq<Op>, start: Time, s: Settings)
    requires Timely(past, start) && EndTime(past, start) <= saved <= loaded && Timely(future, loaded)
    ensures var m := Run(NO_STATE, past, s).0.memory;
            var file := Snapshot(m, saved, s);
            var live, restored := Disk(m, file), Disk(Load(file, loaded, s), file);
            var x, y := SavesOf(live, future, s), SavesOf(restored, future, s);
            x == y || (ReloadsSynced(true, future, x, s) && ReloadsSynced(true, future, y, s))
            ==> SameAnswers(Run(live, future, s).1, Run(restored, future, s).1)
  {
    var m := Run(NO_STATE, past, s).0.memory;
    var refs := ReachedRepresents(past, start, saved, s);
    SavedRepresents(m, refs.memory, saved, loaded, s);
    var file := Snapshot(m, saved, s);
    SameFuture(Disk(m, file), Disk(Load(file, loaded, s), file), refs.memory, future, loaded, s);
  }

  /** Every write and read of the run succeeds. */
  predicate FilesOk(ops: seq<Op>) {
    forall op <- ops :: op.fileOk
  }

  predicate NoPanic(answers: seq<Answer>) {
    FailureAnswer(Panicked) !in answers
  }

  lemma NoPanicCons(answer: Answer, answers: seq<Answer>)
    ensures NoPanic([answer] + answers) <==> answer != FailureAnswer(Panicked) && NoPanic(answers)
  {
  }

  /** A run in which every write succeeds and no failure panics never lets the file lag. */
  lemma {:induction false} SuccessfulWritesSync(d: Disk, ops: seq<Op>, synced: bool, s: Settings)
    requires FilesOk(ops) && NoPanic(Run(d, ops, s).1) && (s.persistState ==> synced)
    ensures ReloadsSynced(synced, ops, SavesOf(d, ops, s), s)
    decreases |ops|
  {
    if ops == [] {
    } else {
      var (d', answer) := Step(d, ops[0], s);
      var answers := Run(d', ops[1..], s).1;
      assert SavesOf(d, ops, s)[1..] == SavesOf(d', ops[1..], s);
      NoPanicCons(answer, answers);
      var stays := ops[0].call.Check? || ops[0].call.Reload?;
      SuccessfulWritesSync(d', ops[1..], Saves(d, ops[0], s) || (synced && stays), s);
    }
  }

  lemma SamePanics(a: seq<Answer>, b: seq<Answer>)
    requires SameAnswers(a, b) && NoPanic(a)
    ensures NoPanic(b)
  {
    forall x <- b ensures x != FailureAnswer(Panicked) {
      var i :| 0 <= i < |b| && b[i] == x;
      assert a[i] in a && Core(a[i]) == Core(b[i]);
    }
  }

  /** When the reference does not panic, neither does a tracker whose writes all succeed. */
  lemma {:induction false} NoPanicLikeReference(d: Disk, refs: Refs, ops: seq<Op>, start: Time, s: Settings)
    requires DiskRepresents(d, refs, start, s) && Timely(ops, start) && FilesOk(ops)
    requires (s.persistState ==> refs.memory == refs.file) && NoPanic(RefRun(refs.memory, ops, s).1)
    ensures NoPanic(Run(d, ops, s).1)
    decreases |ops|
  {
    if ops == [] {
    } else {
      var (d', answer) := Step(d, ops[0], s);
      var (r', expected) := RefStep(refs.memory, ops[0], s);
      var answers, rest := Run(d', ops[1..], s).1, RefRun(r', ops[1..], s).1;
      NoPanicCons(answer, answers);
      NoPanicCons(expected, rest);
      StepRepresents(d, refs, ops[0], start, s);
      NoPanicLikeReference(d', RefsStep(refs, ops[0], Saves(d, ops[0], s), s), ops[1..], ops[0].saved, s);
    }
  }

  /** In particular the answers are the same to any later calls whose writes all succeed, unless a
      failure panics. */
  lemma SaveLoadInvisibleToSuccess(past: seq<Op>, saved: Time, loaded: Time, future: seq<Op>, start: Time, s: Settings)
    requires Timely(past, start) && EndTime(past, start) <= saved <= loaded && Timely(future, loaded)
    requires var m := Run(NO_STATE, past, s).0.memory;
             FilesOk(future) && NoPanic(Run(Disk(m, Snapshot(m, saved, s)), future, s).1)
    ensures var m := Run(NO_STATE, past, s).0.memory;
            var file := Snapshot(m, saved, s);
            SameAnswers(Run(Disk(m, file), future, s).1, Run(Disk(Load(file, loaded, s), file), future, s).1)
  {
    var m := Run(NO_STATE, past, s).0.memory;
    var file := Snapshot(m, saved, s);
    var live, restored := Disk(m, file), Disk(Load(file, loaded, s), file);
    var refs := ReachedRepresents(past, start, saved, s);
    var r := refs.memory;
    SavedRepresents(m, r, saved, loaded, s);
    SuccessfulWritesSync(live, future, true, s);
    SyncedRunsAnswerLikeReference(live, r, future, loaded, s);
    SamePanics(Run(live, future, s).1, RefRun(r, future, s).1);
    NoPanicLikeReference(restored, Refs(r, r), future, loaded, s);
    SuccessfulWritesSync(restored, future, true, s);
    SaveLoadInvisible(past, saved, loaded, future, start, s);
  }

  // ---------------------------------------------------------------------------
  // The window is the history

  /** The calls that memory and file stand for: a reload undoes those after the last save. */
  datatype Histories = Histories(memory: seq<Op>, file: seq<Op>)

  function HistoriesOf(ops: seq<Op>, saves: seq<bool>, s: Settings): Histories
    requires |saves| == |ops|
  {
    if ops == [] then Histories([], [])
    else
      var before := HistoriesOf(Init(ops), Init(saves), s);
      var all := before.memory + [Last(ops)];
      if Loads(Last(ops), s) then Histories(before.file, before.file)
      else Histories(all, if Last(saves) then all else before.file)
  }

  lemma {:induction false} RefRunSnoc(r: Ref, ops: seq<Op>, op: Op, s: Settings)
    ensures RefRun(r, ops + [op], s).0 == RefStep(RefRun(r, ops, s).0, op, s).0
    decreases |ops|
  {
    if ops == [] {
      assert (ops + [op])[1..] == [];
    } else {
      assert (ops + [op])[1..] == ops[1..] + [op];
      RefRunSnoc(RefStep(r, ops[0], s).0, ops[1..], op, s);
    }
  }

  lemma {:induction false} RefsRunSnoc(refs: Refs, ops: seq<Op>, saves: seq<bool>, op: Op, saved: bool, s: Settings)
    requires |saves| == |ops|
    ensures RefsRun(refs, ops + [op], saves + [saved], s).0 == RefsStep(RefsRun(refs, ops, saves, s).0, op, saved, s)
    decreases |ops|
  {
    if ops == [] {
      assert (ops + [op])[1..] == [] && (saves + [saved])[1..] == [];
    } else {
      assert (ops + [op])[1..] == ops[1..] + [op] && (saves + [saved])[1..] == saves[1..] + [saved];
      RefsRunSnoc(RefsStep(refs, ops[0], saves[0], s), ops[1..], saves[1..], op, saved, s);
    }
  }

  lemma {:induction false} RefsAreHistories(ops: seq<Op>, saves: seq<bool>, s: Settings)
    requires |saves| == |ops|
    ensures var h := HistoriesOf(ops, saves, s);
            RefsRun(NO_REFS, ops, saves, s).0 == Refs(RefRun(map[], h.memory, s).0, RefRun(map[], h.file, s).0)
  {
    if ops == [] {
    } else {
      RefsAreHistories(Init(ops), Init(saves), s);
      RefsRunSnoc(NO_REFS, Init(ops), Init(saves), Last(ops), Last(saves), s);
      assert Init(ops) + [Last(ops)] == ops && Init(saves) + [Last(saves)] == saves;
      RefRunSnoc(map[], HistoriesOf(Init(ops), Init(saves), s).memory, Last(ops), s);
    }
  }

  /** What a failure leaves and answers, in terms of the failures since the last clearing success. */
  predicate FailureExact(m: Entries, known: RefEntry, ip: IpAddr, now: Time, s: Settings) {
    var recent := Window(known.log + [now], now, s.findTime);
    var (m', outcome) := FailureRecorded(m, ip, now, s);
    && ip in m' && m'[ip].recentFailures == recent
    && outcome ==
         if |recent| < s.maxFailures then Recorded(false, DelayFor(|recent|, s), None)
         else if BanFor(known.banCount, now, s).Some? then Recorded(false, None, BanFor(known.banCount, now, s))
         else Panicked
  }

  lemma FailEntryExact(entry: AbuseEntry, known: RefEntry, now: Time, due: Option<BanEvent>, s: Settings)
    requires Tracks(entry, known, now, s)
    ensures var recent := Window(known.log + [now], now, s.findTime);
            && FailEntry(entry, now, due, s).0.recentFailures == recent
            && FailEntry(entry, now, due, s).1 ==
                 if |recent| < s.maxFailures then Recorded(false, DelayFor(|recent|, s), None)
                 else if due.Some? then Recorded(false, None, due)
                 else Panicked
  {
    FailureWindow(entry.recentFailures, known.log, now, s.findTime);
  }

  lemma FailureIsExact(m: Entries, r: Ref, ip: IpAddr, now: Time, s: Settings)
    requires RepresentsAll(m, r, now, s) && s.enabled && ip !in s.whitelist
    ensures FailureExact(m, KnownRef(r, ip), ip, now, s)
  {
    var entry, known := KnownEntry(m, ip), KnownRef(r, ip);
    assert Tracks(entry, known, now, s);
    FailEntryExact(entry, known, now, BanFor(entry.banCount, now, s), s);
  }

  /** In every reachable tracker, the window after a failure is exactly the failures of memory's
      history since the last clearing success that are inside `find_time`, and a ban follows exactly
      when there are `max_failures` of them (and the ban duration can be computed). */
  lemma WindowRefinesHistory(past: seq<Op>, ip: IpAddr, now: Time, start: Time, s: Settings)
    requires Timely(past, start) && EndTime(past, start) <= now && s.enabled && ip !in s.whitelist
    ensures var history := HistoriesOf(past, SavesOf(NO_STATE, past, s), s).memory;
            FailureExact(Run(NO_STATE, past, s).0.memory, KnownRef(RefRun(map[], history, s).0, ip), ip, now, s)
  {
    var refs := ReachedRepresents(past, start, now, s);
    RefsAreHistories(past, SavesOf(NO_STATE, past, s), s);
    FailureIsExact(Run(NO_STATE, past, s).0.memory, refs.memory, ip, now, s);
  }

  lemma DropStaleAgain(known: seq<Time>, now: Time, window: nat)
    ensures var kept := DropStale(known, now, window) + [now]; DropStale(kept, now, window) == kept
  {
  }

  /** A failure is delayed exactly when it earns no ban and another one at the same time would. */
  lemma DelayedExactly(m: Entries, ip: IpAddr, now: Time, s: Settings)
    requires s.enabled && ip !in s.whitelist
    ensures var (failed, first) := FailureRecorded(m, ip, now, s);
            var (_, second) := FailureRecorded(failed, ip, now, s);
            first.Delay() == if s.delayBeforeBan && !first.Bans() && second.Bans() then Some(s.delayTime) else None
  {
    DropStaleAgain(KnownEntry(m, ip).recentFailures, now, s.findTime);
  }

  // ---------------------------------------------------------------------------
  // Bans persist

  /** A ban expires no later than its duration from now. */
  predicate BanOk(e: RefEntry, now: Time, s: Settings) {
    e.banUntil.Some? ==>
      && e.banCount > 0 && ComputeBanDuration(s, e.banCount - 1).Some?
      && e.banUntil.value <= now + ComputeBanDuration(s, e.banCount - 1).value
  }

  predicate RefOk(r: Ref, now: Time, s: Settings) {
    forall ip <- r :: BanOk(r[ip], now, s)
  }

  predicate RefsOk(refs: Refs, now: Time, s: Settings) {
    RefOk(refs.memory, now, s) && RefOk(refs.file, now, s)
  }

  /** `later` keeps or extends the ban of `e`. */
  predicate BanExtends(e: RefEntry, later: RefEntry) {
    && e.banCount <= later.banCount
    && (e.banUntil.Some? ==> later.banUntil.Some? && e.banUntil.value <= later.banUntil.value)
  }

  predicate Holds(r: Ref, ip: IpAddr, e: RefEntry) {
    ip in r && BanExtends(e, r[ip])
  }

  lemma FailExtendsBan(e: RefEntry, start: Time, now: Time, s: Settings)
    requires ValidSettings(s) && Representable(s) && BanOk(e, start, s) && start <= now
    ensures var after := RefFail(e, now, BanFor(e.banCount, now, s), s).0;
            BanOk(after, now, s) && BanExtends(e, after)
  {
    BackoffGrows(s, e.banCount, e.banCount);
    if e.banUntil.Some? {
      BackoffGrows(s, e.banCount - 1, e.banCount);
    }
  }

  lemma RefStepExtendsBan(r: Ref, op: Op, start: Time, s: Settings)
    requires ValidSettings(s) && Representable(s) && RefOk(r, start, s) && start <= op.now
    ensures var r' := RefStep(r, op, s).0;
            RefOk(r', op.now, s) && r.Keys <= r'.Keys && forall ip <- r :: BanExtends(r[ip], r'[ip])
  {
    var r' := RefStep(r, op, s).0;
    match op.call
    case Failure(ip) =>
      FailExtendsBan(KnownRef(r, ip), start, op.now, s);
      assert forall other <- r' :: other != ip ==> other in r && r'[other] == r[other];
    case _ =>
  }

  lemma RefOkLater(r: Ref, now: Time, later: Time, s: Settings)
    requires RefOk(r, now, s) && now <= later
    ensures RefOk(r, later, s)
  {
    forall ip <- r ensures BanOk(r[ip], later, s) {
      assert BanOk(r[ip], now, s);
    }
  }

  lemma RefsStepKeepsOk(refs: Refs, op: Op, saved: bool, start: Time, s: Settings)
    requires ValidSettings(s) && Representable(s) && RefsOk(refs, start, s) && start <= op.now <= op.saved
    ensures RefsOk(RefsStep(refs, op, saved, s), op.saved, s)
  {
    RefStepExtendsBan(refs.memory, op, start, s);
    RefOkLater(RefStep(refs.memory, op, s).0, op.now, op.saved, s);
    RefOkLater(refs.file, start, op.saved, s);
  }

  lemma {:induction false} RefsRunKeepsOk(refs: Refs, ops: seq<Op>, saves: seq<bool>, start: Time, s: Settings)
    requires ValidSettings(s) && Representable(s) && RefsOk(refs, start, s)
    requires |saves| == |ops| && Timely(ops, start)
    ensures RefsOk(RefsRun(refs, ops, saves, s).0, EndTime(ops, start), s)
    decreases |ops|
  {
    if ops == [] {
    } else {
      RefsStepKeepsOk(refs, ops[0], saves[0], start, s);
      RefsRunKeepsOk(RefsStep(refs, ops[0], saves[0], s), ops[1..], saves[1..], ops[0].saved, s);
    }
  }

  /** Before the first reload that reads the file, a save has succeeded. */
  predicate SaveFirst(ops: seq<Op>, saves: seq<bool>, s: Settings)
    requires |saves| == |ops|
    decreases |ops|
  {
    ops != [] ==> !Loads(ops[0], s) && (saves[0] || SaveFirst(ops[1..], saves[1..], s))
  }

  /** What memory holds stays held if the file holds it too, or is saved in time. */
  lemma {:induction false} RefsHold(refs: Refs, ops: seq<Op>, saves: seq<bool>, ip: IpAddr, e: RefEntry,
                                    start: Time, s: Settings)
    requires ValidSettings(s) && Representable(s) && RefsOk(refs, start, s)
    requires |saves| == |ops| && Timely(ops, start)
    requires Holds(refs.memory, ip, e) && (Holds(refs.file, ip, e) || SaveFirst(ops, saves, s))
    ensures Holds(RefsRun(refs, ops, saves, s).0.memory, ip, e)
    decreases |ops|
  {
    if ops == [] {
    } else {
      RefStepExtendsBan(refs.memory, ops[0], start, s);
      RefsStepKeepsOk(refs, ops[0], saves[0], start, s);
      RefsHold(RefsStep(refs, ops[0], saves[0], s), ops[1..], saves[1..], ip, e, ops[0].saved, s);
    }
  }

  /** The disk, at a time, has nothing but sound bans, and the ban of `e` in memory, which is also in
      the file if `filed`. */
  ghost predicate BanHeld(d: Disk, filed: bool, ip: IpAddr, e: RefEntry, now: Time, s: Settings) {
    exists refs :: DiskRepresents(d, refs, now, s) && RefsOk(refs, now, s)
                && Holds(refs.memory, ip, e) && (filed ==> Holds(refs.file, ip, e))
  }

  /** A ban that is held stays held in every run that saves it before the first reload. */
  lemma BanStaysHeld(d: Disk, filed: bool, ops: seq<Op>, ip: IpAddr, e: RefEntry, start: Time, s: Settings)
    requires ValidSettings(s) && Representable(s) && Timely(ops, start) && BanHeld(d, filed, ip, e, start, s)
    requires filed || SaveFirst(ops, SavesOf(d, ops, s), s)
    ensures BanHeld(Run(d, ops, s).0, false, ip, e, EndTime(ops, start), s)
  {
    var refs :| DiskRepresents(d, refs, start, s) && RefsOk(refs, start, s)
             && Holds(refs.memory, ip, e) && (filed ==> Holds(refs.file, ip, e));
    var saves := SavesOf(d, ops, s);
    RunsAnswerLikeReferences(d, refs, ops, start, s);
    RefsRunKeepsOk(refs, ops, saves, start, s);
    RefsHold(refs, ops, saves, ip, e, start, s);
    var refs' := RefsRun(refs, ops, saves, s).0;
    assert DiskRepresents(Run(d, ops, s).0, refs', EndTime(ops, start), s);
  }

  /** The earlier of two bans, as far as other operations are concerned. */
  function BanUntil(until: Time): RefEntry {
    RefEntry([], Some(until), 0)
  }

  predicate ReportsBan(check: PreAuthCheck, until: Time) {
    check.banned && check.banUntil.Some? && until <= check.banUntil.value
  }

  /** A ban that is held and has not expired is reported. */
  lemma HeldIsReported(d: Disk, ip: IpAddr, until: Time, now: Time, later: Time, s: Settings)
    requires BanHeld(d, false, ip, BanUntil(until), now, s) && now <= later < until
    requires s.enabled && ip !in s.whitelist
    ensures ReportsBan(IpChecked(d.memory, ip, later, s).1, until)
  {
    var refs :| DiskRepresents(d, refs, now, s) && RefsOk(refs, now, s) && Holds(refs.memory, ip, BanUntil(until));
    RepresentsAllLater(d.memory, refs.memory, now, later, s);
    CheckAnswers(d.memory, refs.memory, ip, later, s);
  }

  lemma BanRecorded(r: Ref, ip: IpAddr, now: Time, ban: BanEvent, s: Settings)
    requires RefFailure(r, ip, now, s).1 == Recorded(false, None, Some(ban))
    ensures var r' := RefFailure(r, ip, now, s).0;
            s.enabled && ip !in s.whitelist && ip in r' && r'[ip].banUntil == Some(ban.banUntil)
  {
  }

  /** A failure that earns a ban leaves it held, and filed if its save has succeeded. */
  lemma NewBanIsHeld(d: Disk, refs: Refs, failure: Op, ban: BanEvent, start: Time, s: Settings)
    requires ValidSettings(s) && Representable(s) && DiskRepresents(d, refs, start, s) && RefsOk(refs, start, s)
    requires failure.call.Failure? && start <= failure.now <= failure.saved
    requires Step(d, failure, s).1 == FailureAnswer(Recorded(false, None, Some(ban)))
    ensures s.enabled && failure.call.ip !in s.whitelist
    ensures BanHeld(Step(d, failure, s).0, Saves(d, failure, s), failure.call.ip, BanUntil(ban.banUntil),
                    failure.saved, s)
  {
    var refs' := RefsStep(refs, failure, Saves(d, failure, s), s);
    StepRepresents(d, refs, failure, start, s);
    RefsStepKeepsOk(refs, failure, Saves(d, failure, s), start, s);
    BanRecorded(refs.memory, failure.call.ip, failure.now, ban, s);
    assert DiskRepresents(Step(d, failure, s).0, refs', failure.saved, s);
  }

  /** Once a failure has earned a ban, after any past with any failed saves and reloads, every check of
      that address before the expiry reports it, whatever happens in between, provided that before
      the first reload some save since the failure, its own included, has succeeded. */
  lemma BanPersists(past: seq<Op>, failure: Op, between: seq<Op>, now: Time, ban: BanEvent, start: Time, s: Settings)
    requires ValidSettings(s) && Representable(s)
    requires Timely(past, start) && EndTime(past, start) <= failure.now <= failure.saved
    requires Timely(between, failure.saved) && EndTime(between, failure.saved) <= now < ban.banUntil
    requires failure.call.Failure?
    requires Step(Run(NO_STATE, past, s).0, failure, s).1 == FailureAnswer(Recorded(false, None, Some(ban)))
    requires var d := Run(NO_STATE, past, s).0;
             var d' := Step(d, failure, s).0;
             Saves(d, failure, s) || SaveFirst(between, SavesOf(d', between, s), s)
    ensures var d' := Step(Run(NO_STATE, past, s).0, failure, s).0;
            ReportsBan(IpChecked(Run(d', between, s).0.memory, failure.call.ip, now, s).1, ban.banUntil)
  {
    var d, ip := Run(NO_STATE, past, s).0, failure.call.ip;
    var refs := ReachedRepresents(past, start, EndTime(past, start), s);
    RefsRunKeepsOk(NO_REFS, past, SavesOf(NO_STATE, past, s), start, s);
    NewBanIsHeld(d, refs, failure, ban, EndTime(past, start), s);
    var d', end := Step(d, failure, s).0, EndTime(between, failure.saved);
    BanStaysHeld(d', Saves(d, failure, s), between, ip, BanUntil(ban.banUntil), failure.saved, s);
    HeldIsReported(Run(d', between, s).0, ip, ban.banUntil, end, now, s);
  }

  lemma {:induction false} EndIsLater(ops: seq<Op>, start: Time)
    requires Timely(ops, start)
    ensures start <= EndTime(ops, start)
    decreases |ops|
  {
    if ops == [] {
    } else {
      EndIsLater(ops[1..], ops[0].saved);
    }
  }

  /** The file has an address's ban count, and its ban if that is in force at `end`, or more of them. */
  predicate Filed(d: Disk, ip: IpAddr, end: Time)
    requires ip in d.memory
  {
    && ip in d.file && d.memory[ip].banCount <= d.file[ip].banCount
    && (BanActive(d.memory[ip].banUntil, end) ==>
          d.file[ip].banUntil.Some? && d.memory[ip].banUntil.value <= d.file[ip].banUntil.value)
  }

  /** What a disk shows of a ban, its references hold. */
  lemma ShownIsHeld(m: Entries, r: Ref, ip: IpAddr, until: Option<Time>, count: nat, now: Time, s: Settings)
    requires RepresentsAll(m, r, now, s) && ip in m && count <= m[ip].banCount
    requires until.Some? ==> now < until.value && m[ip].banUntil.Some? && until.value <= m[ip].banUntil.value
    ensures Holds(r, ip, RefEntry([], until, count))
  {
    assert Represents(m[ip], r[ip], now, s);
  }

  /** Along every run of a reachable tracker in which a save precedes the first reload, or the file
      already has what memory has, no ban in force ends earlier than it did, and no ban count goes
      down. */
  lemma BansNeverShrink(past: seq<Op>, ops: seq<Op>, ip: IpAddr, start: Time, s: Settings)
    requires ValidSettings(s) && Representable(s)
    requires Timely(past, start) && Timely(ops, EndTime(past, start))
    requires ip in Run(NO_STATE, past, s).0.memory
    requires var d := Run(NO_STATE, past, s).0;
             SaveFirst(ops, SavesOf(d, ops, s), s) || Filed(d, ip, EndTime(ops, EndTime(past, start)))
    ensures var m, m' := Run(NO_STATE, past, s).0.memory, Run(Run(NO_STATE, past, s).0, ops, s).0.memory;
            && ip in m' && m[ip].banCount <= m'[ip].banCount
            && (BanActive(m[ip].banUntil, EndTime(ops, EndTime(past, start))) ==>
                  m'[ip].banUntil.Some? && m[ip].banUntil.value <= m'[ip].banUntil.value)
  {
    var d, middle := Run(NO_STATE, past, s).0, EndTime(past, start);
    var end := EndTime(ops, middle);
    var refs := ReachedRepresents(past, start, middle, s);
    RefsRunKeepsOk(NO_REFS, past, SavesOf(NO_STATE, past, s), start, s);
    EndIsLater(ops, middle);
    var until := if BanActive(d.memory[ip].banUntil, end) then d.memory[ip].banUntil else None;
    var e := RefEntry([], until, d.memory[ip].banCount);
    ShownIsHeld(d.memory, refs.memory, ip, until, e.banCount, middle, s);
    if Filed(d, ip, end) {
      ShownIsHeld(d.file, refs.file, ip, until, e.banCount, middle, s);
    }
    BanStaysHeld(d, Filed(d, ip, end), ops, ip, e, middle, s);
    var d' := Run(d, ops, s).0;
    var refs' :| DiskRepresents(d', refs', end, s) && RefsOk(refs', end, s) && Holds(refs'.memory, ip, e);
    assert Represents(d'.memory[ip], refs'.memory[ip], end, s);
  }

  lemma LoadedAnswers(file: Entries, r: Ref, start: Time, loaded: Time, ip: IpAddr, now: Time, s: Settings)
    requires RepresentsAll(file, r, start, s) && start <= loaded <= now
    ensures IpChecked(Load(file, loaded, s), ip, now, s).1.banned == RefCheck(r, ip, now, s).banned
  {
    RepresentsAllLater(file, r, start, loaded, s);
    SnapshotRepresents(file, r, loaded, s);
    RepresentsAllLater(Load(file, loaded, s), r, loaded, now, s);
    CheckAnswers(Load(file, loaded, s), r, ip, now, s);
  }

  /** After a reload that reads the file, checks answer for what the file stands for. */
  lemma ReloadAnswers(d: Disk, refs: Refs, start: Time, reload: Op, ip: IpAddr, now: Time, s: Settings)
    requires DiskRepresents(d, refs, start, s) && Loads(reload, s) && start <= reload.now <= now
    ensures IpChecked(Step(d, reload, s).0.memory, ip, now, s).1.banned == RefCheck(refs.file, ip, now, s).banned
  {
    LoadedAnswers(d.file, refs.file, start, reload.now, ip, now, s);
  }

  lemma FileBanAgrees(file: Entries, r: Ref, ip: IpAddr, start: Time, now: Time, s: Settings)
    requires RepresentsAll(file, r, start, s) && start <= now && s.enabled && ip !in s.whitelist
    ensures RefCheck(r, ip, now, s).banned <==> ip in file && BanActive(file[ip].banUntil, now)
  {
    RepresentsAllLater(file, r, start, now, s);
  }

  /** After a reload that reads the file, a fresh ban is in force exactly when the save that followed
      it has succeeded or the file held another ban that is still in force. */
  lemma NewBanSurvivesReloadExactly(past: seq<Op>, failure: Op, reload: Op, now: Time, start: Time,
                                    ban: BanEvent, s: Settings)
    requires s.persistState && Timely(past, start) && Timely([failure, reload], EndTime(past, start))
    requires failure.call.Failure? && Loads(reload, s) && reload.saved <= now < ban.banUntil
    requires Step(Run(NO_STATE, past, s).0, failure, s).1 == FailureAnswer(Recorded(false, None, Some(ban)))
    ensures var d, ip := Run(NO_STATE, past, s).0, failure.call.ip;
            var d' := Step(Step(d, failure, s).0, reload, s).0;
            IpChecked(d'.memory, ip, now, s).1.banned
            <==> failure.fileOk || (ip in d.file && BanActive(d.file[ip].banUntil, now))
  {
    var d, ip := Run(NO_STATE, past, s).0, failure.call.ip;
    assert [failure, reload][1..] == [reload];
    var refs := ReachedRepresents(past, start, failure.now, s);
    StepRepresents(d, refs, failure, failure.now, s);
    BanRecorded(refs.memory, ip, failure.now, ban, s);
    var refs' := RefsStep(refs, failure, failure.fileOk, s);
    ReloadAnswers(Step(d, failure, s).0, refs', failure.saved, reload, ip, now, s);
    FileBanAgrees(d.file, refs.file, ip, failure.now, now, s);
  }
}
