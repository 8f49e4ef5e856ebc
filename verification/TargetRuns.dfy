/** How long a selected target stays allowed: until a configuration that does not allow it is taken
    over.  Nothing else that a run may do changes what is allowed.
 */
module TargetRuns {
  import opened Wrappers
  import opened Text
  import opened Config
  import opened Session
  import opened Login
  import opened LoginSafety
  import opened GatewayRuns
  import Gateway

  /** The event replaces the configuration. */
  predicate Takes(event: Event, setup: Setup) {
    event.Reload? && ValidConfig(event.config, event.servers, setup.checks)
  }

  /** The last configuration that the events take over, if any. */
  function LastTaken(events: seq<Event>, setup: Setup): (r: Option<Event>)
    ensures r.Some? ==> r.value in events && Takes(r.value, setup)
    ensures r.None? ==> forall event <- events :: !Takes(event, setup)
  {
    if events == [] then None
    else if Takes(Last(events), setup) then Some(Last(events))
    else LastTaken(Init(events), setup)
  }

  /** Whatever configuration the events take over last, it allows the target. */
  predicate StillAllowed(events: seq<Event>, setup: Setup, name: string, target: SelectedTarget) {
    match LastTaken(events, setup)
    case None => true
    case Some(reload) => AllowedBy(reload.config, reload.servers, name, target)
  }

  /** New credentials change nothing that is allowed. */
  lemma UpdateKeepsAllowed(config: ConfigFile, servers: Servers, user: string, u: Update,
                           name: string, target: SelectedTarget)
    ensures AllowedBy(config.(users := UpdatedUsers(config.users, user, u)), servers, name, target)
       <==> AllowedBy(config, servers, name, target)
  {
    FindAfterUpdate(config.users, user, u, name);
  }

  lemma PasswordKeepsServers(h: Handler, w: World, name: string, password: string, input: Input, env: Env)
    ensures HandlePasswordResponse(h, w, name, password, input, env).w.servers == w.servers
  {
  }

  lemma TotpKeepsServers(h: Handler, w: World, name: string, password: string, code: string, input: Input, env: Env)
    ensures HandleExistingTotpResponse(h, w, name, password, code, input, env).w.servers == w.servers
  {
  }

  lemma EnrollmentKeepsServers(h: Handler, w: World, context: PendingAuthContext, secret: string, code: string,
                               input: Input, env: Env)
    ensures HandleEnrollmentResponse(h, w, context, secret, code, input, env).w.servers == w.servers
  {
  }

  lemma RespondKeepsServers(h: Handler, w: World, state: KeyboardAuthState, text: string, input: Input, env: Env)
    ensures Respond(h, w, state, text, input, env).w.servers == w.servers
  {
    match state
    case AwaitPassword(name) => PasswordKeepsServers(h, w, name, text, input, env);
    case AwaitExistingTotp(name, password) => TotpKeepsServers(h, w, name, password, text, input, env);
    case AwaitEnrollmentTotp(context, secret) => EnrollmentKeepsServers(h, w, context, secret, text, input, env);
    case AwaitNewPassword(_, _) =>
    case AwaitConfirmPassword(_, _, _) =>
    case AwaitSelection(_) =>
  }

  /** A phase leaves the servers alone and changes at most one user's credentials. */
  lemma RespondKeepsAllowed(h: Handler, w: World, state: KeyboardAuthState, text: string, input: Input, env: Env,
                            name: string, target: SelectedTarget)
    ensures TargetAllowed(Respond(h, w, state, text, input, env).w, name, target) <==> TargetAllowed(w, name, target)
  {
    RespondKeepsServers(h, w, state, text, input, env);
    match state
    case AwaitPassword(user) => PasswordRecords(h, w, user, text, input, env);
    case AwaitExistingTotp(user, password) => ExistingTotpRecords(h, w, user, password, text, input, env);
    case AwaitEnrollmentTotp(context, secret) =>
      EnrollmentRecords(h, w, context, secret, text, input, env);
      UpdateKeepsAllowed(w.config, w.servers, context.user.name,
                         Update(context.newPasswordHash, Some(secret), Some(false)), name, target);
    case AwaitNewPassword(_, _) =>
    case AwaitConfirmPassword(_, _, _) =>
    case AwaitSelection(_) =>
  }

  lemma CallbackKeepsAllowed(h: Handler, w: World, input: Input, env: Env, name: string, target: SelectedTarget)
    ensures TargetAllowed(AuthKeyboardInteractive(h, w, input, env).w, name, target) <==> TargetAllowed(w, name, target)
  {
    var w1 := PreAuth(h, w, input, env).0;
    var text := if input.response.Some? && input.response.value != [] then input.response.value[0] else "";
    RespondKeepsAllowed(h.(keyboard := None), w1, OrElse(h.keyboard, AwaitPassword(Trim(input.user))), text,
                        input, env, name, target);
  }

  lemma AdvanceAllowsExactly(sys: System, event: Event, setup: Setup, name: string, target: SelectedTarget)
    ensures TargetAllowed(Advance(sys, event, setup).0.w, name, target)
       <==> if Takes(event, setup) then AllowedBy(event.config, event.servers, name, target)
            else TargetAllowed(sys.w, name, target)
  {
    if event.Keyboard? && event.id in sys.connections {
      CallbackKeepsAllowed(sys.connections[event.id].conn.h, sys.w, event.input, setup.env, name, target);
    }
  }

  /** After any run a target is allowed exactly when the configuration taken over last allows it, or,
      if none was, when it was allowed at the start. */
  lemma {:induction false} RunAllowsExactly(sys: System, events: seq<Event>, setup: Setup,
                                            name: string, target: SelectedTarget)
    ensures TargetAllowed(Run(sys, events, setup).w, name, target)
       <==> match LastTaken(events, setup)
            case None => TargetAllowed(sys.w, name, target)
            case Some(reload) => AllowedBy(reload.config, reload.servers, name, target)
    decreases |events|
  {
    if events == [] {
    } else {
      var before, event := Init(events), Last(events);
      assert before + [event] == events;
      RunSnoc(sys, before, event, setup);
      AdvanceAllowsExactly(Run(sys, before, setup), event, setup, name, target);
      RunAllowsExactly(sys, before, setup, name, target);
    }
  }

  /** The `k`-th event has recorded that the user selected the target, when it was allowed. */
  ghost predicate SelectedAt(start: System, events: seq<Event>, setup: Setup, k: nat,
                             name: string, target: SelectedTarget)
    requires k < |events|
  {
    || HappenedAt(start, events, setup, k, Accepted(name, target))
    || HappenedAt(start, events, setup, k, MenuSelected(name, target))
  }

  lemma {:induction false} RunConcat(sys: System, events: seq<Event>, more: seq<Event>, setup: Setup)
    ensures Run(sys, events + more, setup) == Run(Run(sys, events, setup), more, setup)
    decreases |events|
  {
    if events == [] {
      assert events + more == more;
    } else {
      assert (events + more)[0] == events[0] && (events + more)[1..] == events[1..] + more;
      RunConcat(Advance(sys, events[0], setup).0, events[1..], more, setup);
    }
  }

  lemma StaysAllowedExactly(start: System, events: seq<Event>, setup: Setup, k: nat,
                            name: string, target: SelectedTarget)
    requires k < |events| && !Takes(events[k], setup) && TargetAllowed(Run(start, events[..k], setup).w, name, target)
    ensures TargetAllowed(Run(start, events, setup).w, name, target)
       <==> StillAllowed(events[k + 1..], setup, name, target)
  {
    var before := Run(start, events[..k], setup);
    var after := Advance(before, events[k], setup).0;
    assert events[..k] + [events[k]] == events[..k + 1];
    RunSnoc(start, events[..k], events[k], setup);
    assert events[..k + 1] + events[k + 1..] == events;
    RunConcat(start, events[..k + 1], events[k + 1..], setup);
    AdvanceAllowsExactly(before, events[k], setup, name, target);
    RunAllowsExactly(after, events[k + 1..], setup, name, target);
  }

  lemma TakingRecordsNothing(sys: System, event: Event, setup: Setup)
    requires Takes(event, setup)
    ensures Advance(sys, event, setup).1 == []
  {
  }

  lemma SelectedIsAllowed(start: System, events: seq<Event>, setup: Setup, k: nat, name: string, target: SelectedTarget)
    requires k < |events| && SelectedAt(start, events, setup, k, name, target)
    ensures !Takes(events[k], setup) && TargetAllowed(Run(start, events[..k], setup).w, name, target)
  {
    if Takes(events[k], setup) {
      TakingRecordsNothing(Run(start, events[..k], setup), events[k], setup);
    }
  }

  /** A target that was selected is still allowed exactly when the last configuration taken over
      since, if any, allows it. */
  lemma SelectedStaysAllowedExactly(start: System, events: seq<Event>, setup: Setup, k: nat,
                                    name: string, target: SelectedTarget)
    requires k < |events| && SelectedAt(start, events, setup, k, name, target)
    ensures TargetAllowed(Run(start, events, setup).w, name, target)
       <==> StillAllowed(events[k + 1..], setup, name, target)
  {
    SelectedIsAllowed(start, events, setup, k, name, target);
    StaysAllowedExactly(start, events, setup, k, name, target);
  }

  /** In every run from no connections, the target of an identity or of a backend session has been
      selected at some event. */
  lemma SelectionFound(start: System, events: seq<Event>, setup: Setup, id: ConnectionId,
                       name: string, target: SelectedTarget)
    returns (k: nat)
    requires start.connections == map[] && id in Run(start, events, setup).connections
    requires SelectedFor(Run(start, events, setup).connections[id].log, name, target)
    ensures k < |events| && SelectedAt(start, events, setup, k, name, target)
  {
    var log := Run(start, events, setup).connections[id].log;
    var e := if Accepted(name, target) in log then Accepted(name, target) else MenuSelected(name, target);
    RunsAreGenuine(start, events, setup, id, e);
    k :| k < |events| && HappenedAt(start, events, setup, k, e);
  }

  /** The user selected the target at some event, and it is allowed now exactly when the last
      configuration taken over since that selection, whichever it was, allows it. */
  ghost predicate AllowedSinceSelection(start: System, events: seq<Event>, setup: Setup,
                                        name: string, target: SelectedTarget)
  {
    && (exists k: nat :: k < |events| && SelectedAt(start, events, setup, k, name, target))
    && forall k: nat :: k < |events| && SelectedAt(start, events, setup, k, name, target) ==>
         (TargetAllowed(Run(start, events, setup).w, name, target)
          <==> StillAllowed(events[k + 1..], setup, name, target))
  }

  lemma SelectedOnce(start: System, events: seq<Event>, setup: Setup, id: ConnectionId,
                     name: string, target: SelectedTarget)
    requires start.connections == map[] && id in Run(start, events, setup).connections
    requires SelectedFor(Run(start, events, setup).connections[id].log, name, target)
    ensures AllowedSinceSelection(start, events, setup, name, target)
  {
    var found := SelectionFound(start, events, setup, id, name, target);
    forall k: nat | k < |events| && SelectedAt(start, events, setup, k, name, target)
      ensures TargetAllowed(Run(start, events, setup).w, name, target)
         <==> StillAllowed(events[k + 1..], setup, name, target)
    {
      SelectedStaysAllowedExactly(start, events, setup, k, name, target);
    }
  }

  /** A login that is over connects to its pending target. */
  lemma PendingConnects(sys: System, id: ConnectionId, setup: Setup)
    requires id in sys.connections && Entitled(sys.connections[id].conn.h, sys.connections[id].log)
    requires sys.connections[id].conn.h.username.Some?
    requires FindUser(sys.w.config.users, sys.connections[id].conn.h.username.value).Some?
    ensures var h := sys.connections[id].conn.h;
            var h' := Advance(sys, Channel(id, Gateway.AuthSucceeded(true)), setup).0.connections[id].conn.h;
            && h.pendingTarget.Some? && h'.proxy.Some?
            && h'.proxy.value.username == h.username.value && h'.proxy.value.target == h.pendingTarget.value
  {
  }

  /** When a login is over the gateway connects to the pending target, which was selected earlier and
      is allowed at that moment exactly when the last configuration taken over since the selection, if
      any, allows it. */
  lemma ConnectedTargetAllowedExactly(w: World, events: seq<Event>, setup: Setup, id: ConnectionId)
    requires ValidConfig(w.config, w.servers, setup.checks)
    requires var sys := Run(System(w, map[]), events, setup);
             id in sys.connections && sys.connections[id].conn.h.username.Some?
             && FindUser(sys.w.config.users, sys.connections[id].conn.h.username.value).Some?
    ensures var sys := Run(System(w, map[]), events, setup);
            var h := sys.connections[id].conn.h;
            var h' := Advance(sys, Channel(id, Gateway.AuthSucceeded(true)), setup).0.connections[id].conn.h;
            && h.pendingTarget.Some? && h'.proxy.Some?
            && h'.proxy.value.username == h.username.value && h'.proxy.value.target == h.pendingTarget.value
            && AllowedSinceSelection(System(w, map[]), events, setup, h.username.value, h.pendingTarget.value)
  {
    var start, sys := System(w, map[]), Run(System(w, map[]), events, setup);
    RunKeepsInv(start, events, setup);
    assert ConnectionInv(sys.connections[id]);
    PendingConnects(sys, id, setup);
    SelectedOnce(start, events, setup, id, sys.connections[id].conn.h.username.value,
                 sys.connections[id].conn.h.pendingTarget.value);
  }

  /** The same of a backend session for as long as it lasts: the gateway does not ask again. */
  lemma BackendTargetAllowedExactly(w: World, events: seq<Event>, setup: Setup, id: ConnectionId)
    requires ValidConfig(w.config, w.servers, setup.checks)
    requires var sys := Run(System(w, map[]), events, setup);
             id in sys.connections && sys.connections[id].conn.h.proxy.Some?
    ensures var proxy := Run(System(w, map[]), events, setup).connections[id].conn.h.proxy.value;
            AllowedSinceSelection(System(w, map[]), events, setup, proxy.username, proxy.target)
  {
    var start, sys := System(w, map[]), Run(System(w, map[]), events, setup);
    RunKeepsInv(start, events, setup);
    assert ConnectionInv(sys.connections[id]);
    var proxy := sys.connections[id].conn.h.proxy.value;
    SelectedOnce(start, events, setup, id, proxy.username, proxy.target);
  }
}
