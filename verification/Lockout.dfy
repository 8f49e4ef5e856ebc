/** A ban locks its address out of every connection, over whole runs of the gateway. */
module Lockout {
  import opened Wrappers
  import opened Text
  import opened Config
  import opened Fail2ban
  import opened Abuse
  import opened Session
  import opened Login
  import opened LoginSafety
  import Runs = GatewayRuns

  /** The callback only starts the exchange. */
  predicate Starts(h: Handler, input: Input) {
    || input.response.None?
    || (h.keyboard.None? && (input.response.value == [] || input.response.value[0] == ""))
  }

  /** What a callback that is let through teaches the tracker, by what it records: a success, a failure
      or nothing. */
  function Taught(h: Handler, w: World, input: Input, env: Env): Option<bool> {
    if h.username.Some? && h.proxy.Some? then None
    else if Trim(input.user) == "" then Some(false)
    else if Starts(h, input) then None
    else Learned(OrElse(h.keyboard, AwaitPassword(Trim(input.user))), AnswerAllowed(h, w, input, env).log)
  }

  /** The tracker's operations in one callback: the check, and the failure or success that follows. */
  function CallbackOps(h: Handler, w: World, input: Input, env: Env): seq<Op> {
    var check := AbuseOp(Check(h.peerIp), input);
    var (w1, allowed) := PreAuth(h, w, input, env);
    if !allowed then [check]
    else
      match Taught(h, w1, input, env)
      case None => [check]
      case Some(success) => [check, AbuseOp(if success then Success(h.peerIp) else Failure(h.peerIp), input)]
  }

  function TrackerOps(sys: Runs.System, event: Runs.Event, setup: Runs.Setup): seq<Op> {
    match event
    case Keyboard(id, input) =>
      if id !in sys.connections then []
      else
        CallbackOps(sys.connections[id].conn.h, sys.w, input, setup.env)
    case OtherMethod(id, input) =>
      if id !in sys.connections then [] else [AbuseOp(Check(sys.connections[id].conn.h.peerIp), input)]
    case TrackerReload(op) => [op.(call := Abuse.Reload)]
    case _ => []
  }

  function RunOps(sys: Runs.System, events: seq<Runs.Event>, setup: Runs.Setup): seq<Op>
    decreases |events|
  {
    if events == [] then []
    else TrackerOps(sys, events[0], setup) + RunOps(Runs.Advance(sys, events[0], setup).0, events[1..], setup)
  }

  lemma TaughtIsDone(h: Handler, w: World, input: Input, env: Env)
    ensures AnswerAllowed(h, w, input, env).w.disk ==
      match Taught(h, w, input, env)
      case None => w.disk
      case Some(true) => Abuse.Step(w.disk, AbuseOp(Success(h.peerIp), input), env.abuse).0
      case Some(false) => Abuse.Step(w.disk, AbuseOp(Failure(h.peerIp), input), env.abuse).0
  {
    if Trim(input.user) == "" {
      RejectedAnswers(h, w, w, input, env, []);
    } else if !Starts(h, input) {
      var text := if input.response.value == [] then "" else input.response.value[0];
      RespondAnswers(h.(keyboard := None), w, OrElse(h.keyboard, AwaitPassword(Trim(input.user))), text, input, env);
    }
  }

  lemma RunOne(d: Disk, op: Op, s: Settings)
    ensures Abuse.Run(d, [op], s).0 == Abuse.Step(d, op, s).0
  {
    assert [op][1..] == [];
  }

  lemma RunTwo(d: Disk, op: Op, next: Op, s: Settings)
    ensures Abuse.Run(d, [op, next], s).0 == Abuse.Step(Abuse.Step(d, op, s).0, next, s).0
  {
    assert [op, next][1..] == [next];
    RunOne(Abuse.Step(d, op, s).0, next, s);
  }

  lemma CallbackOpsTrack(h: Handler, w: World, input: Input, env: Env)
    ensures Abuse.Run(w.disk, CallbackOps(h, w, input, env), env.abuse).0
         == AuthKeyboardInteractive(h, w, input, env).w.disk
  {
    var check := AbuseOp(Check(h.peerIp), input);
    TaughtIsDone(h, PreAuth(h, w, input, env).0, input, env);
    RunOne(w.disk, check, env.abuse);
    RunTwo(w.disk, check, AbuseOp(Failure(h.peerIp), input), env.abuse);
    RunTwo(w.disk, check, AbuseOp(Success(h.peerIp), input), env.abuse);
  }

  lemma TrackerOpsTrack(sys: Runs.System, event: Runs.Event, setup: Runs.Setup)
    ensures Abuse.Run(sys.w.disk, TrackerOps(sys, event, setup), setup.env.abuse).0
         == Runs.Advance(sys, event, setup).0.w.disk
  {
    match event
    case Keyboard(id, input) =>
      if id in sys.connections {
        CallbackOpsTrack(sys.connections[id].conn.h, sys.w, input, setup.env);
      }
    case OtherMethod(id, input) =>
      if id in sys.connections {
        RunOne(sys.w.disk, AbuseOp(Check(sys.connections[id].conn.h.peerIp), input), setup.env.abuse);
      }
    case TrackerReload(op) => RunOne(sys.w.disk, op.(call := Abuse.Reload), setup.env.abuse);
    case _ =>
  }

  /** The tracker in a run of the gateway is the tracker after these operations. */
  lemma {:induction false} RunOpsTrack(sys: Runs.System, events: seq<Runs.Event>, setup: Runs.Setup)
    ensures Abuse.Run(sys.w.disk, RunOps(sys, events, setup), setup.env.abuse).0 == Runs.Run(sys, events, setup).w.disk
    decreases |events|
  {
    if events == [] {
    } else {
      var next := Runs.Advance(sys, events[0], setup).0;
      TrackerOpsTrack(sys, events[0], setup);
      RunOpsTrack(next, events[1..], setup);
      RunConcat(sys.w.disk, TrackerOps(sys, events[0], setup), RunOps(next, events[1..], setup), setup.env.abuse);
    }
  }

  /** Once the last operation of `past` has earned an address a ban, then after anything that may
      happen `between`, every keyboard-interactive callback of every connection of that address is
      rejected until the expiry, leaves its session as it was and records nothing; provided that
      before the first reload of the tracker some save since the ban has succeeded. */
  lemma BanLocksOut(w: World, past: seq<Runs.Event>, between: seq<Runs.Event>, setup: Runs.Setup,
                    before: seq<Op>, failure: Op, ban: BanEvent, id: Runs.ConnectionId, input: Input, start: Time)
    requires ValidSettings(setup.env.abuse) && Representable(setup.env.abuse) && w.disk == NO_STATE
    requires RunOps(Runs.System(w, map[]), past, setup) == before + [failure] && failure.call.Failure?
    requires Abuse.Step(Abuse.Run(NO_STATE, before, setup.env.abuse).0, failure, setup.env.abuse).1
          == FailureAnswer(Recorded(false, None, Some(ban)))
    requires var sys := Runs.Run(Runs.System(w, map[]), past, setup);
             var ops := RunOps(sys, between, setup);
             && Timely(before + [failure], start) && Timely(ops, failure.saved)
             && EndTime(ops, failure.saved) <= input.wall < ban.banUntil
             && (Saves(Abuse.Run(NO_STATE, before, setup.env.abuse).0, failure, setup.env.abuse)
                 || SaveFirst(ops, SavesOf(sys.w.disk, ops, setup.env.abuse), setup.env.abuse))
    requires var sys := Runs.Run(Runs.Run(Runs.System(w, map[]), past, setup), between, setup);
             id in sys.connections && sys.connections[id].conn.h.peerIp == failure.call.ip
    ensures var sys := Runs.Run(Runs.Run(Runs.System(w, map[]), past, setup), between, setup);
            var h := sys.connections[id].conn.h;
            var step := AuthKeyboardInteractive(h, sys.w, input, setup.env);
            step.reply == Reject && step.h == h && step.log == []
  {
    var s, first := setup.env.abuse, Runs.System(w, map[]);
    var sys := Runs.Run(first, past, setup);
    var ops := RunOps(sys, between, setup);
    RunOpsTrack(first, past, setup);
    RunOpsTrack(sys, between, setup);
    RunConcat(NO_STATE, before, [failure], s);
    RunOne(Abuse.Run(NO_STATE, before, s).0, failure, s);
    TimelySplit(before, failure, start);
    BanPersists(before, failure, ops, input.wall, ban, start, s);
    var later := Runs.Run(sys, between, setup);
    BannedIsRejected(later.connections[id].conn.h, later.w, input, setup.env);
  }
}
