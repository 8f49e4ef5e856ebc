/** A run that tells a restored tracker from the live one: the live one, which still remembers an
    expired ban, saves at a check at which the restored one does not.
 */
module SaveLoadExample {
  import opened Wrappers
  import opened Fail2ban
  import opened Abuse

  const OLD: IpAddr := "192.0.2.1"
  const NEW: IpAddr := "192.0.2.2"

  /** Each failure earns a ban of ten units. */
  const SETTINGS: Settings := Settings(true, 1, 1, 10, 10, 1.0, false, 0, true, {})

  const PAST: seq<Op> := [Op(Failure(OLD), 0, 0, true)]

  const FAIL: Op := Op(Failure(NEW), 20, 20, false)
  const SEE_OLD: Op := Op(Check(OLD), 20, 20, true)
  const LOAD: Op := Op(Reload, 20, 20, true)
  const SEE_NEW: Op := Op(Check(NEW), 20, 20, true)

  /** A failure whose save fails, a check of the other address, a reload, and a check. */
  const FUTURE: seq<Op> := [FAIL, SEE_OLD, LOAD, SEE_NEW]

  function Banned(at: Time): AbuseEntry {
    AbuseEntry([at], 1, Some(at + 10), 1, Some(at), None)
  }

  /** The old entry when its failure is stale, with or without its expired ban. */
  function Stale(banUntil: Option<Time>): AbuseEntry {
    AbuseEntry([], 1, banUntil, 1, Some(0), None)
  }

  const SAVED: Entries := map[OLD := Banned(0)]
  const LIVE: Disk := Disk(SAVED, SAVED)
  const RESTORED: Disk := Disk(map[OLD := Stale(None)], SAVED)

  lemma TenUnits()
    ensures ValidSettings(SETTINGS) && ComputeBanDuration(SETTINGS, 0) == Some(10)
  {
    assert Pow(1.0, 0) == 1.0 && Round(10.0) == 10;
  }

  lemma Windows()
    ensures DropStale([], 0, 1) == [] && DropStale([], 20, 1) == [] && DropStale([0], 20, 1) == []
    ensures DropStale([0], 0, 1) == [0] && DropStale([20], 20, 1) == [20]
  {
    assert [0][1..] == [];
  }

  /** A first failure bans. */
  lemma FirstFailure(m: Entries, ip: IpAddr, at: Time)
    requires ip !in m && (at == 0 || at == 20)
    ensures FailureRecorded(m, ip, at, SETTINGS) ==
      (m[ip := Banned(at)], Recorded(false, None, Some(BanEvent(Created, at + 10, 10))))
  {
    TenUnits();
    Windows();
    assert EMPTY_ENTRY.recentFailures + [at] == [at];
  }

  lemma PastRun()
    ensures Run(NO_STATE, PAST, SETTINGS).0.memory == SAVED
    ensures Snapshot(SAVED, 0, SETTINGS) == SAVED
    ensures Load(SAVED, 20, SETTINGS) == RESTORED.memory
  {
    Windows();
    FirstFailure(map[], OLD, 0);
    var none: Entries := map[];
    assert none[OLD := Banned(0)] == SAVED;
    assert Snapshot(SAVED, 0, SETTINGS) == SAVED;
    assert PAST == [PAST[0]] && PAST[1..] == [];
    assert Step(NO_STATE, PAST[0], SETTINGS).0.memory == SAVED;
  }

  lemma AfterFail(d: Disk)
    requires NEW !in d.memory && OLD in d.memory && (d.memory[OLD] == Banned(0) || d.memory[OLD] == Stale(None))
    requires d.memory.Keys == {OLD}
    ensures Step(d, FAIL, SETTINGS).0
         == Disk(map[OLD := Stale(d.memory[OLD].banUntil), NEW := Banned(20)], d.file)
  {
    Windows();
    FirstFailure(d.memory, NEW, 20);
    var m := d.memory[NEW := Banned(20)];
    assert Snapshot(m, 20, SETTINGS).Keys == {OLD, NEW};
    assert Snapshot(m, 20, SETTINGS) == map[OLD := Stale(d.memory[OLD].banUntil), NEW := Banned(20)];
  }

  /** The check saves exactly when there is an expired ban to forget. */
  lemma AfterSeeOld(d: Disk)
    requires d.memory == map[OLD := Stale(Some(10)), NEW := Banned(20)]
          || d.memory == map[OLD := Stale(None), NEW := Banned(20)]
    ensures var m := map[OLD := Stale(None), NEW := Banned(20)];
            Step(d, SEE_OLD, SETTINGS).0 == Disk(m, if d.memory[OLD].banUntil.Some? then m else d.file)
  {
    Windows();
    var m := map[OLD := Stale(None), NEW := Banned(20)];
    assert d.memory[OLD := Stale(None)] == m;
    assert Snapshot(m, 20, SETTINGS) == m;
  }

  lemma AfterLoad(d: Disk)
    ensures var filed := NEW in d.file && d.file[NEW] == Banned(20);
            && (filed ==> IpChecked(Step(d, LOAD, SETTINGS).0.memory, NEW, 20, SETTINGS).1.banned)
            && (NEW !in d.file ==> !IpChecked(Step(d, LOAD, SETTINGS).0.memory, NEW, 20, SETTINGS).1.banned)
  {
    Windows();
  }

  lemma LaterAnswer(d: Disk, op: Op, rest: seq<Op>, j: nat, s: Settings)
    requires 0 < j <= |rest|
    ensures Run(d, [op] + rest, s).1[j] == Run(Step(d, op, s).0, rest, s).1[j - 1]
  {
    assert ([op] + rest)[0] == op && ([op] + rest)[1..] == rest;
  }

  lemma LastOfFour(d: Disk, a: Op, b: Op, c: Op, last: Op, s: Settings)
    ensures Run(d, [a, b, c, last], s).1[3] == Step(Step(Step(Step(d, a, s).0, b, s).0, c, s).0, last, s).1
  {
    var d1 := Step(d, a, s).0;
    var d2 := Step(d1, b, s).0;
    LaterAnswer(d, a, [b, c, last], 3, s);
    LaterAnswer(d1, b, [c, last], 2, s);
    LaterAnswer(d2, c, [last], 1, s);
    assert [a] + [b, c, last] == [a, b, c, last] && [b] + [c, last] == [b, c, last] && [c] + [last] == [c, last];
  }

  lemma LiveReports()
    ensures Run(LIVE, FUTURE, SETTINGS).1[3].CheckAnswer? && Run(LIVE, FUTURE, SETTINGS).1[3].check.banned
  {
    AfterFail(LIVE);
    var d := Step(LIVE, FAIL, SETTINGS).0;
    AfterSeeOld(d);
    AfterLoad(Step(d, SEE_OLD, SETTINGS).0);
    LastOfFour(LIVE, FAIL, SEE_OLD, LOAD, SEE_NEW, SETTINGS);
  }

  lemma RestoredForgets()
    ensures Run(RESTORED, FUTURE, SETTINGS).1[3].CheckAnswer? && !Run(RESTORED, FUTURE, SETTINGS).1[3].check.banned
  {
    AfterFail(RESTORED);
    var d := Step(RESTORED, FAIL, SETTINGS).0;
    AfterSeeOld(d);
    AfterLoad(Step(d, SEE_OLD, SETTINGS).0);
    LastOfFour(RESTORED, FAIL, SEE_OLD, LOAD, SEE_NEW, SETTINGS);
  }

  lemma FutureIsTimely()
    ensures Timely(PAST, 0) && Timely(FUTURE, 20)
  {
    assert PAST[1..] == [] && FUTURE[1..] == [SEE_OLD, LOAD, SEE_NEW];
    assert [SEE_OLD, LOAD, SEE_NEW][1..] == [LOAD, SEE_NEW];
    assert [LOAD, SEE_NEW][1..] == [SEE_NEW] && [SEE_NEW][1..] == [];
    assert Timely([SEE_NEW], 20) && Timely([LOAD, SEE_NEW], 20);
  }

  /** The live tracker reports a ban that the restored one has lost. */
  lemma RestoredDiffers()
    ensures Timely(PAST, 0) && Timely(FUTURE, 20)
    ensures var m := Run(NO_STATE, PAST, SETTINGS).0.memory;
            var file := Snapshot(m, 0, SETTINGS);
            !SameAnswers(Run(Disk(m, file), FUTURE, SETTINGS).1,
                         Run(Disk(Load(file, 20, SETTINGS), file), FUTURE, SETTINGS).1)
  {
    FutureIsTimely();
    PastRun();
    LiveReports();
    RestoredForgets();
    var a, b := Run(LIVE, FUTURE, SETTINGS).1, Run(RESTORED, FUTURE, SETTINGS).1;
    assert Core(a[3]) != Core(b[3]);
  }
}
