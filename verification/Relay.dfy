/** The backend-to-frontend relay of one session channel (src/ssh/proxy.rs).

    The backend is an arbitrary sequence of messages; with each message comes the channel
    request that client callbacks have left in the shared channel state by then.  The
    frontend accepts `room` more messages and is gone afterwards.
 */
module Relay {
  import opened Wrappers

  type Bytes = seq<bv8>

  datatype ChannelMsg =
    | Data(data: Bytes)
    | ExtendedData(ext: nat, data: Bytes)
    | Eof
    | Close
    | Success
    | Failure
    | XonXoff(clientCanDo: bool)
    | ExitStatus(status: nat)
    | ExitSignal(name: string, coreDumped: bool, message: string, lang: string)
    | WindowAdjusted(size: nat)
    | Unexpected(kind: string)

  datatype BackendSessionAction =
    | ForwardData(extendedCode: Option<nat>, data: Bytes)
    | RelayEof
    | RelayClose
    | RelaySuccess
    | RelayFailure
    | RelayXonXoff(clientCanDo: bool)
    | RelayExitStatus(status: nat)
    | RelayExitSignal(name: string, coreDumped: bool, message: string, lang: string)
    | NoAction

  /** What the client of the gateway is sent. */
  datatype FrontendMsg =
    | Relayed(action: BackendSessionAction)
    | Menu
    | CloseChannel
    | Disconnect(reason: string)

  datatype SessionRequest = NoRequest | Shell | Exec(command: Bytes) | Subsystem(name: string)

  datatype Incoming = Incoming(msg: ChannelMsg, request: Option<SessionRequest>)

  /** Whether the server menu can be shown to the user at the end. */
  datatype MenuSource = MenuSource(userKnown: bool, entries: nat)

  function ClassifyBackendSessionMsg(msg: ChannelMsg): Result<BackendSessionAction, string> {
    match msg
    case Data(data) => Ok(ForwardData(None, data))
    case ExtendedData(ext, data) => Ok(ForwardData(Some(ext), data))
    case Eof => Ok(RelayEof)
    case Close => Ok(RelayClose)
    case Success => Ok(RelaySuccess)
    case Failure => Ok(RelayFailure)
    case XonXoff(b) => Ok(RelayXonXoff(b))
    case ExitStatus(n) => Ok(RelayExitStatus(n))
    case ExitSignal(n, c, m, l) => Ok(RelayExitSignal(n, c, m, l))
    case WindowAdjusted(_) => Ok(NoAction)
    case Unexpected(kind) => Err("unexpected target session channel message: " + kind)
  }

  predicate ShouldReuseMenu(request: Option<SessionRequest>, dropToMenu: bool) {
    dropToMenu && request == Some(Shell)
  }

  predicate EndsSession(action: BackendSessionAction) {
    action.RelayEof? || action.RelayExitStatus? || action.RelayExitSignal?
  }

  // ---------------------------------------------------------------------------
  // Reference

  /** Messages up to the first one that stops the relay. */
  function FirstStop(input: seq<Incoming>): (n: nat)
    ensures n <= |input|
    ensures n < |input| ==> input[n].msg.Close? || input[n].msg.Unexpected?
    ensures forall i :: 0 <= i < n ==> !input[i].msg.Close? && !input[i].msg.Unexpected?
  {
    if input == [] || input[0].msg.Close? || input[0].msg.Unexpected? then 0
    else 1 + FirstStop(input[1..])
  }

  /** What one backend message shows on the frontend. */
  function Shown(incoming: Incoming, dropToMenu: bool): seq<FrontendMsg> {
    var action := ClassifyBackendSessionMsg(incoming.msg);
    if action.Err? || action.value.NoAction? then []
    else if ShouldReuseMenu(incoming.request, dropToMenu)
            && (EndsSession(action.value) || action.value.RelayClose?) then []
    else [Relayed(action.value)]
  }

  function ShownAll(input: seq<Incoming>, dropToMenu: bool): seq<FrontendMsg> {
    if input == [] then [] else ShownAll(Init(input), dropToMenu) + Shown(Last(input), dropToMenu)
  }

  function Take(s: seq<FrontendMsg>, n: nat): seq<FrontendMsg> {
    if n < |s| then s[..n] else s
  }

  datatype Backend = Backend(input: seq<Incoming>, atEnd: Option<SessionRequest>) {
    /** The part of the input the relay looks at. */
    function Read(): seq<Incoming> {
      input[..if FirstStop(input) < |input| then FirstStop(input) + 1 else |input|]
    }

    /** The channel's request when the relay stops. */
    function RequestAtStop(): Option<SessionRequest> {
      if FirstStop(input) < |input| then input[FirstStop(input)].request else atEnd
    }

    predicate Closed() {
      FirstStop(input) < |input| && input[FirstStop(input)].msg.Close?
    }

    predicate Misbehaves() {
      FirstStop(input) < |input| && input[FirstStop(input)].msg.Unexpected?
    }

    /** The relay gives up: on a message that no session channel may receive, or because a frontend
        with `room` for so many messages has refused one. */
    predicate Aborts(dropToMenu: bool, room: nat) {
      Misbehaves() || |ShownAll(Read(), dropToMenu)| > room
    }

    /** Whether the channel is the menu's after the relay, and whether its session is still open. */
    predicate MenuAfter(menuActive: bool, aborted: bool, dropToMenu: bool) {
      menuActive || (!aborted && ShouldReuseMenu(RequestAtStop(), dropToMenu))
    }

    predicate SessionAfter(sessionOpen: bool, aborted: bool) {
      sessionOpen && aborted
    }

    function Ending(dropToMenu: bool, source: MenuSource): seq<FrontendMsg> {
      if Misbehaves() then
        [Disconnect(ClassifyBackendSessionMsg(input[FirstStop(input)].msg).error), CloseChannel]
      else if ShouldReuseMenu(RequestAtStop(), dropToMenu) && source.userKnown && source.entries > 0 then
        [Menu]
      else
        [CloseChannel]
    }

    /** Everything a frontend that never fails is sent. */
    function Transcript(dropToMenu: bool, source: MenuSource): seq<FrontendMsg> {
      ShownAll(Read(), dropToMenu) + Ending(dropToMenu, source)
    }
  }

  // ---------------------------------------------------------------------------
  // The relay

  class SessionBridge {
    const dropToMenu: bool
    const source: MenuSource
    /** Messages the frontend has been sent, and how many more it will accept. */
    var frontend: seq<FrontendMsg>
    var room: nat
    var sessionOpen: bool
    var menuActive: bool
    var lastError: Option<string>

    constructor (dropToMenu: bool, source: MenuSource, room: nat)
      ensures this.dropToMenu == dropToMenu && this.source == source && this.room == room
      ensures frontend == [] && sessionOpen && !menuActive && lastError.None?
    {
      this.dropToMenu, this.source, this.room := dropToMenu, source, room;
      frontend, sessionOpen, menuActive, lastError := [], true, false, None;
    }

    /** `full` is a transcript of which the frontend has got as much as it accepts. */
    ghost predicate Delivered(full: seq<FrontendMsg>, capacity: nat)
      reads this
    {
      frontend == Take(full, capacity) && room == capacity - |frontend|
    }

    method Send(msg: FrontendMsg, ghost full: seq<FrontendMsg>, ghost capacity: nat) returns (ok: bool)
      requires Delivered(full, capacity)
      modifies this`frontend, this`room
      ensures Delivered(full + [msg], capacity)
      ensures ok <==> |full| < capacity
    {
      ok := room > 0;
      if ok {
        frontend, room := frontend + [msg], room - 1;
      }
    }

    /** The first error is kept. */
    method RecordError(message: string)
      modifies this`lastError
      ensures lastError == if old(lastError).Some? then old(lastError) else Some(message)
    {
      if lastError.None? {
        lastError := Some(message);
      }
    }

    method AbortProxySession(reason: string, ghost full: seq<FrontendMsg>, ghost capacity: nat)
      requires Delivered(full, capacity)
      modifies this`frontend, this`room, this`lastError
      ensures Delivered(full + [Disconnect(reason)], capacity)
      ensures lastError == if old(lastError).Some? then old(lastError) else Some(reason)
    {
      RecordError(reason);
      var _ := Send(Disconnect(reason), full, capacity);
    }

    /** Returns whether the channel now belongs to the menu. */
    method ActivateMenuAfterDisconnect(request: Option<SessionRequest>,
                                       ghost full: seq<FrontendMsg>, ghost capacity: nat)
      returns (shown: bool)
      requires Delivered(full, capacity)
      modifies this`frontend, this`room, this`menuActive
      ensures menuActive == (old(menuActive) || ShouldReuseMenu(request, dropToMenu))
      ensures var offered := ShouldReuseMenu(request, dropToMenu) && source.userKnown && source.entries > 0;
              && Delivered(if offered then full + [Menu] else full, capacity)
              && (shown <==> offered && |full| < capacity)
    {
      if !dropToMenu || request.None? || !request.value.Shell? {
        return false;
      }
      menuActive := true;
      if !source.userKnown || source.entries == 0 {
        return false;
      }
      shown := Send(Menu, full, capacity);
    }

    /** The channel's bookkeeping after the relay. */
    twostate predicate Settled(backend: Backend, capacity: nat)
      reads this
    {
      var aborted := backend.Aborts(dropToMenu, capacity);
      && menuActive == backend.MenuAfter(old(menuActive), aborted, dropToMenu)
      && sessionOpen == backend.SessionAfter(old(sessionOpen), aborted)
      && (lastError.Some? <==> old(lastError).Some? || aborted)
    }

    /** With its closing message, what was attempted agrees with the transcript as far as the
        frontend listens. */
    ghost predicate Concluded(backend: Backend, attempted: seq<FrontendMsg>, closeFrontend: bool, capacity: nat) {
      Take(WithClose(attempted, closeFrontend), capacity)
      == Take(backend.Transcript(dropToMenu, source), capacity)
    }

    /** The backend has sent a message that no session channel may receive. */
    method RejectMessage(backend: Backend, reason: string, ghost shown: seq<FrontendMsg>, ghost capacity: nat)
      returns (ghost attempted: seq<FrontendMsg>)
      requires backend.Misbehaves()
      requires ClassifyBackendSessionMsg(backend.input[FirstStop(backend.input)].msg) == Err(reason)
      requires shown == ShownAll(backend.input[..FirstStop(backend.input)], dropToMenu)
      requires Delivered(shown, capacity)
      modifies this`frontend, this`room, this`lastError
      ensures Delivered(attempted, capacity) && Concluded(backend, attempted, true, capacity)
      ensures Settled(backend, capacity)
      ensures old(lastError).Some? ==> lastError == old(lastError)
    {
      AbortProxySession(reason, shown, capacity);
      attempted := shown + [Disconnect(reason)];
      MisbehavedTranscript(backend, dropToMenu, source);
    }

    /** The frontend has refused the message at `i`. */
    method LoseFrontend(backend: Backend, i: nat, ghost shown: seq<FrontendMsg>, ghost refused: FrontendMsg)
      returns (ghost attempted: seq<FrontendMsg>)
      requires i < |backend.Read()| && shown == ShownAll(backend.input[..i], dropToMenu)
      requires |Shown(backend.input[i], dropToMenu)| > 0
      requires Delivered(shown + [refused], |shown|)
      modifies this`frontend, this`room, this`lastError
      ensures Delivered(attempted, |shown|) && Concluded(backend, attempted, true, |shown|)
      ensures Settled(backend, |shown|)
      ensures old(lastError).Some? ==> lastError == old(lastError)
    {
      var reason := "frontend channel is gone";
      AbortProxySession(reason, shown + [refused], |shown|);
      attempted := shown + [refused] + [Disconnect(reason)];
      FrontendGone(backend, i + 1, dropToMenu, source, shown, attempted);
    }

    /** The backend channel has ended: forget it and hand the frontend channel to the menu. */
    method EndSession(backend: Backend, request: Option<SessionRequest>,
                      ghost shown: seq<FrontendMsg>, ghost capacity: nat)
      returns (closeFrontend: bool, ghost attempted: seq<FrontendMsg>)
      requires !backend.Misbehaves() && request == backend.RequestAtStop()
      requires shown == ShownAll(backend.Read(), dropToMenu) && Delivered(shown, capacity) && |shown| <= capacity
      modifies this
      ensures Delivered(attempted, capacity)
      ensures Concluded(backend, attempted, closeFrontend, capacity)
      ensures Settled(backend, capacity) && lastError == old(lastError)
    {
      sessionOpen := false;
      var menuShown := ActivateMenuAfterDisconnect(request, shown, capacity);
      attempted := if backend.Ending(dropToMenu, source) == [Menu] then shown + [Menu] else shown;
      return !menuShown, attempted;
    }

    /** Handles the message at `i`; `done` says that the relay has returned. */
    method RelayOne(backend: Backend, i: nat, ghost shown: seq<FrontendMsg>, ghost capacity: nat)
      returns (done: bool, closeFrontend: bool, ghost attempted: seq<FrontendMsg>)
      requires i < |backend.input| && i <= FirstStop(backend.input)
      requires shown == ShownAll(backend.input[..i], dropToMenu) && |shown| <= capacity
      requires Delivered(shown, capacity)
      modifies this
      ensures Delivered(attempted, capacity)
      ensures !done ==>
        && i < FirstStop(backend.input)
        && attempted == ShownAll(backend.input[..i + 1], dropToMenu) && |attempted| <= capacity
        && menuActive == old(menuActive) && sessionOpen == old(sessionOpen) && lastError == old(lastError)
      ensures done ==> Concluded(backend, attempted, closeFrontend, capacity)
      ensures done ==> Settled(backend, capacity)
      ensures old(lastError).Some? ==> lastError == old(lastError)
    {
      var Incoming(msg, request) := backend.input[i];
      ShownNext(backend.input, i, dropToMenu);
      done, closeFrontend, attempted := false, false, shown;
      var classified := ClassifyBackendSessionMsg(msg);
      if classified.Err? {
        attempted := RejectMessage(backend, classified.error, shown, capacity);
        return true, true, attempted;
      }
      var action := classified.value;
      var keepFrontendForMenu := ShouldReuseMenu(request, dropToMenu);
      if keepFrontendForMenu && EndsSession(action) {
        return;
      }
      var shouldBreak := action.RelayClose?;
      if shouldBreak {
        CloseStops(backend, i);
      }
      if keepFrontendForMenu && shouldBreak {
        done := true;
        closeFrontend, attempted := EndSession(backend, request, shown, capacity);
        return;
      }
      if !action.NoAction? {
        attempted := shown + [Relayed(action)];
        var ok := Send(Relayed(action), shown, capacity);
        if !ok {
          attempted := LoseFrontend(backend, i, shown, Relayed(action));
          return true, true, attempted;
        }
      }
      if shouldBreak {
        done := true;
        closeFrontend, attempted := EndSession(backend, request, attempted, capacity);
      }
    }

    method RelayBackendSession(backend: Backend)
      returns (closeFrontend: bool, ghost attempted: seq<FrontendMsg>)
      requires frontend == []
      modifies this
      ensures Delivered(attempted, old(room))
      ensures Concluded(backend, attempted, closeFrontend, old(room))
      ensures Settled(backend, old(room))
      ensures old(lastError).Some? ==> lastError == old(lastError)
    {
      ghost var capacity := room;
      attempted := [];
      var i := 0;
      while i < |backend.input|
        invariant 0 <= i <= FirstStop(backend.input)
        invariant attempted == ShownAll(backend.input[..i], dropToMenu) && |attempted| <= capacity
        invariant Delivered(attempted, capacity)
        invariant menuActive == old(menuActive) && sessionOpen == old(sessionOpen)
        invariant lastError == old(lastError)
      {
        var done;
        done, closeFrontend, attempted := RelayOne(backend, i, attempted, capacity);
        if done {
          return;
        }
        i := i + 1;
      }
      assert backend.input[..i] == backend.input;
      closeFrontend, attempted := EndSession(backend, backend.atEnd, attempted, capacity);
    }

    /** Relays one backend channel to its end, then closes the frontend unless the menu has it. */
    method Run(backend: Backend)
      requires frontend == []
      modifies this
      ensures frontend == Take(backend.Transcript(dropToMenu, source), old(room))
      ensures Settled(backend, old(room))
      ensures old(lastError).Some? ==> lastError == old(lastError)
    {
      ghost var capacity := room;
      var closeFrontend, sent := RelayBackendSession(backend);
      if closeFrontend {
        var _ := Send(CloseChannel, sent, capacity);
      }
    }
  }

  ghost function WithClose(sent: seq<FrontendMsg>, closeFrontend: bool): seq<FrontendMsg> {
    if closeFrontend then sent + [CloseChannel] else sent
  }

  lemma ShownNext(input: seq<Incoming>, i: nat, dropToMenu: bool)
    requires i < |input|
    ensures ShownAll(input[..i + 1], dropToMenu) == ShownAll(input[..i], dropToMenu) + Shown(input[i], dropToMenu)
  {
    assert Init(input[..i + 1]) == input[..i] && Last(input[..i + 1]) == input[i];
  }

  lemma CloseStops(backend: Backend, i: nat)
    requires i < |backend.input| && i <= FirstStop(backend.input) && backend.input[i].msg.Close?
    ensures !backend.Misbehaves() && backend.RequestAtStop() == backend.input[i].request
    ensures backend.Read() == backend.input[..i + 1]
  {
  }

  lemma MisbehavedTranscript(backend: Backend, dropToMenu: bool, source: MenuSource)
    requires backend.Misbehaves()
    ensures var n := FirstStop(backend.input);
            backend.Transcript(dropToMenu, source)
            == WithClose(ShownAll(backend.input[..n], dropToMenu)
                         + [Disconnect(ClassifyBackendSessionMsg(backend.input[n].msg).error)], true)
  {
    var n := FirstStop(backend.input);
    ShownNext(backend.input, n, dropToMenu);
    var shown := ShownAll(backend.input[..n], dropToMenu);
    assert ShownAll(backend.Read(), dropToMenu) == shown + [] == shown;
  }

  lemma TakeHead(head: seq<FrontendMsg>, all: seq<FrontendMsg>, more: seq<FrontendMsg>)
    requires head <= all
    ensures Take(all + more, |head|) == head
  {
    assert (all + more)[..|head|] == all[..|head|] == head;
  }

  lemma BothBegin(shown: seq<FrontendMsg>, all: seq<FrontendMsg>, ending: seq<FrontendMsg>, attempted: seq<FrontendMsg>)
    requires shown <= all && shown <= attempted
    ensures Take(WithClose(attempted, true), |shown|) == shown == Take(all + ending, |shown|)
  {
    TakeHead(shown, all, ending);
    TakeHead(shown, attempted, [CloseChannel]);
  }

  /** What has been shown so far begins the transcript. */
  lemma ShownPrefix(backend: Backend, i: nat, dropToMenu: bool)
    requires i <= |backend.Read()|
    ensures ShownAll(backend.input[..i], dropToMenu) <= ShownAll(backend.Read(), dropToMenu)
    decreases |backend.Read()| - i
  {
    var read := backend.Read();
    assert backend.input[..i] == read[..i];
    if i == |read| {
      assert read[..i] == read;
    } else {
      assert Init(read[..i + 1]) == read[..i];
      assert backend.input[..i + 1] == read[..i + 1];
      ShownPrefix(backend, i + 1, dropToMenu);
    }
  }

  /** A frontend that refuses the message shown at `i` has seen a proper beginning of the transcript. */
  lemma FrontendGone(backend: Backend, i: nat, dropToMenu: bool, source: MenuSource,
                     shown: seq<FrontendMsg>, attempted: seq<FrontendMsg>)
    requires shown <= attempted
    requires 0 < i <= |backend.Read()| && shown == ShownAll(backend.input[..i - 1], dropToMenu)
    requires |Shown(backend.input[i - 1], dropToMenu)| > 0
    ensures |shown| < |ShownAll(backend.Read(), dropToMenu)|
    ensures Take(WithClose(attempted, true), |shown|)
         == shown == Take(backend.Transcript(dropToMenu, source), |shown|)
  {
    ShownNext(backend.input, i - 1, dropToMenu);
    ShownPrefix(backend, i, dropToMenu);
    var all := ShownAll(backend.Read(), dropToMenu);
    assert shown <= ShownAll(backend.input[..i], dropToMenu) <= all;
    BothBegin(shown, all, backend.Ending(dropToMenu, source), attempted);
  }

  // ---------------------------------------------------------------------------
  // What the transcript means for the client

  datatype Chunk = Chunk(stream: Option<nat>, data: Bytes)

  function ChunkOf(msg: ChannelMsg): seq<Chunk> {
    match msg
    case Data(data) => [Chunk(None, data)]
    case ExtendedData(ext, data) => [Chunk(Some(ext), data)]
    case _ => []
  }

  /** The data the backend produced, in order. */
  function Produced(input: seq<Incoming>): seq<Chunk> {
    if input == [] then [] else Produced(Init(input)) + ChunkOf(Last(input).msg)
  }

  /** The data the client got, in order. */
  function Delivery(output: seq<FrontendMsg>): seq<Chunk> {
    if output == [] then []
    else Delivery(Init(output)) +
         match Last(output)
         case Relayed(ForwardData(code, data)) => [Chunk(code, data)]
         case _ => []
  }

  /** The bytes of one stream. */
  function StreamBytes(chunks: seq<Chunk>, stream: Option<nat>): Bytes {
    if chunks == [] then []
    else (if chunks[0].stream == stream then chunks[0].data else []) + StreamBytes(chunks[1..], stream)
  }

  lemma {:induction false} DeliveryConcat(a: seq<FrontendMsg>, b: seq<FrontendMsg>)
    ensures Delivery(a + b) == Delivery(a) + Delivery(b)
    decreases |b|
  {
    if b == [] {
      assert a + b == a;
    } else {
      assert Init(a + b) == a + Init(b) && Last(a + b) == Last(b);
      DeliveryConcat(a, Init(b));
    }
  }

  lemma ShownOneDelivers(incoming: Incoming, dropToMenu: bool)
    ensures Delivery(Shown(incoming, dropToMenu)) == ChunkOf(incoming.msg)
  {
    var shown := Shown(incoming, dropToMenu);
    if shown != [] {
      assert Init(shown) == [];
      assert Delivery(shown) == [] + ChunkOf(incoming.msg);
    }
  }

  lemma {:induction false} NothingDelivered(output: seq<FrontendMsg>)
    requires forall m <- output :: !m.Relayed?
    ensures Delivery(output) == []
  {
    if output == [] {
    } else {
      NothingDelivered(Init(output));
      assert Last(output) in output;
    }
  }

  lemma {:induction false} ShownDelivers(input: seq<Incoming>, dropToMenu: bool)
    ensures Delivery(ShownAll(input, dropToMenu)) == Produced(input)
  {
    if input == [] {
    } else {
      ShownDelivers(Init(input), dropToMenu);
      var shown := Shown(Last(input), dropToMenu);
      DeliveryConcat(ShownAll(Init(input), dropToMenu), shown);
      ShownOneDelivers(Last(input), dropToMenu);
    }
  }

  lemma EndingIsNotRelayed(backend: Backend, dropToMenu: bool, source: MenuSource)
    ensures forall m <- backend.Ending(dropToMenu, source) :: !m.Relayed?
  {
  }

  /** Every data byte reaches the frontend exactly once, in order and on its own stream. */
  lemma DataConserved(backend: Backend, dropToMenu: bool, source: MenuSource)
    ensures Delivery(backend.Transcript(dropToMenu, source)) == Produced(backend.Read())
  {
    ShownDelivers(backend.Read(), dropToMenu);
    var shown, ending := ShownAll(backend.Read(), dropToMenu), backend.Ending(dropToMenu, source);
    DeliveryConcat(shown, ending);
    EndingIsNotRelayed(backend, dropToMenu, source);
    NothingDelivered(ending);
    assert Delivery(shown) + [] == Delivery(shown);
  }

  lemma {:induction false} StreamConcat(a: seq<Chunk>, b: seq<Chunk>, stream: Option<nat>)
    ensures StreamBytes(a + b, stream) == StreamBytes(a, stream) + StreamBytes(b, stream)
  {
    if a == [] {
      assert a + b == b;
    } else {
      assert (a + b)[0] == a[0] && (a + b)[1..] == a[1..] + b;
      StreamConcat(a[1..], b, stream);
    }
  }

  lemma PrefixDelivers(full: seq<FrontendMsg>, room: nat, stream: Option<nat>)
    ensures StreamBytes(Delivery(Take(full, room)), stream) <= StreamBytes(Delivery(full), stream)
  {
    if room < |full| {
      var head, tail := full[..room], full[room..];
      assert full == head + tail;
      DeliveryConcat(head, tail);
      StreamConcat(Delivery(head), Delivery(tail), stream);
    }
  }

  /** A frontend that goes away has seen, on each stream, a beginning of what was produced. */
  lemma DataPrefixWhenLost(backend: Backend, dropToMenu: bool, source: MenuSource, room: nat, stream: Option<nat>)
    ensures var got := Delivery(Take(backend.Transcript(dropToMenu, source), room));
            StreamBytes(got, stream) <= StreamBytes(Produced(backend.Read()), stream)
  {
    DataConserved(backend, dropToMenu, source);
    PrefixDelivers(backend.Transcript(dropToMenu, source), room, stream);
  }

  /** The classified messages of `input` whose action passes, in order. */
  function Passing(input: seq<Incoming>, suppressEnd: bool): seq<FrontendMsg> {
    if input == [] then []
    else
      var action := ClassifyBackendSessionMsg(Last(input).msg);
      Passing(Init(input), suppressEnd) +
      if action.Err? || action.value.NoAction? then []
      else if suppressEnd && (EndsSession(action.value) || action.value.RelayClose?) then []
      else [Relayed(action.value)]
  }

  /** Without menu reuse the frontend sees all classified messages but window adjustments, up to
      the first Close; with it, also without Eof, ExitStatus, ExitSignal and Close. */
  lemma {:induction false} ShownIsPassing(input: seq<Incoming>, dropToMenu: bool, reuse: bool)
    requires forall i :: 0 <= i < |input| ==> ShouldReuseMenu(input[i].request, dropToMenu) == reuse
    ensures ShownAll(input, dropToMenu) == Passing(input, reuse)
  {
    if input == [] {
    } else {
      ShownIsPassing(Init(input), dropToMenu, reuse);
    }
  }

  lemma {:induction false} ShownIsRelayed(input: seq<Incoming>, dropToMenu: bool)
    ensures forall m <- ShownAll(input, dropToMenu) :: m.Relayed?
    ensures Relayed(RelayClose) in ShownAll(input, dropToMenu) <==>
            exists i :: 0 <= i < |input| && input[i].msg.Close? && !ShouldReuseMenu(input[i].request, dropToMenu)
  {
    if input == [] {
    } else {
      ShownIsRelayed(Init(input), dropToMenu);
      var last := |input| - 1;
      assert forall i :: 0 <= i < last ==> Init(input)[i] == input[i];
      assert Last(input) == input[last];
      if input[last].msg.Close? && !ShouldReuseMenu(input[last].request, dropToMenu) {
        assert Shown(input[last], dropToMenu) == [Relayed(RelayClose)];
        assert Last(ShownAll(input, dropToMenu)) == Relayed(RelayClose);
      }
    }
  }

  /** A Close that leads to the menu was not relayed. */
  lemma MenuHidesClose(backend: Backend, dropToMenu: bool, source: MenuSource)
    requires backend.Ending(dropToMenu, source) == [Menu]
    ensures Relayed(RelayClose) !in ShownAll(backend.Read(), dropToMenu)
  {
    var read, n := backend.Read(), FirstStop(backend.input);
    ShownIsRelayed(read, dropToMenu);
    forall i | 0 <= i < |read| && read[i].msg.Close? ensures ShouldReuseMenu(read[i].request, dropToMenu) {
      assert i == n;
    }
  }

  lemma OneCloseShown(incoming: Incoming, dropToMenu: bool)
    ensures multiset(Shown(incoming, dropToMenu))[Relayed(RelayClose)]
         == if incoming.msg.Close? && !ShouldReuseMenu(incoming.request, dropToMenu) then 1 else 0
  {
    var shown := Shown(incoming, dropToMenu);
    if shown == [] {
    } else {
      assert shown == [shown[0]];
    }
  }

  lemma {:induction false} ClosesCounted(input: seq<Incoming>, dropToMenu: bool)
    requires forall i :: 0 <= i < |input| - 1 ==> !input[i].msg.Close?
    ensures multiset(ShownAll(input, dropToMenu))[Relayed(RelayClose)]
         == if input != [] && Last(input).msg.Close? && !ShouldReuseMenu(Last(input).request, dropToMenu) then 1 else 0
  {
    if input == [] {
    } else {
      var head, shown := Init(input), Shown(Last(input), dropToMenu);
      assert forall i :: 0 <= i < |head| ==> head[i] == input[i];
      ClosesCounted(head, dropToMenu);
      assert head != [] ==> Last(head) == input[|input| - 2];
      OneCloseShown(Last(input), dropToMenu);
      assert multiset(ShownAll(head, dropToMenu) + shown) == multiset(ShownAll(head, dropToMenu)) + multiset(shown);
    }
  }

  lemma ReadCloses(backend: Backend, dropToMenu: bool)
    ensures multiset(ShownAll(backend.Read(), dropToMenu))[Relayed(RelayClose)]
         == if backend.Closed() && !ShouldReuseMenu(backend.RequestAtStop(), dropToMenu) then 1 else 0
  {
    var read, n := backend.Read(), FirstStop(backend.input);
    assert forall i :: 0 <= i < |read| ==> read[i] == backend.input[i];
    ClosesCounted(read, dropToMenu);
    assert n < |backend.input| ==> Last(read) == backend.input[n];
  }

  lemma EndingShape(backend: Backend, dropToMenu: bool, source: MenuSource)
    ensures var ending := backend.Ending(dropToMenu, source);
            && multiset(ending)[Menu] + multiset(ending)[CloseChannel] == 1
            && ending != [] && (Last(ending) == Menu || Last(ending) == CloseChannel)
            && (Menu in ending <==> ending == [Menu])
  {
  }

  lemma CountEnding(shown: seq<FrontendMsg>, ending: seq<FrontendMsg>)
    requires forall m <- shown :: m.Relayed?
    requires forall m <- ending :: !m.Relayed?
    ensures multiset(shown + ending)[Menu] == multiset(ending)[Menu]
    ensures multiset(shown + ending)[CloseChannel] == multiset(ending)[CloseChannel]
    ensures multiset(shown + ending)[Relayed(RelayClose)] == multiset(shown)[Relayed(RelayClose)]
    ensures Menu in shown + ending <==> Menu in ending
    ensures Relayed(RelayClose) in shown + ending <==> Relayed(RelayClose) in shown
  {
    assert Menu !in multiset(shown) && CloseChannel !in multiset(shown) by {
      assert Menu !in shown && CloseChannel !in shown;
    }
    assert Relayed(RelayClose) !in multiset(ending) by {
      assert Relayed(RelayClose) !in ending;
    }
  }

  /** A transcript ends with one menu or one final close of the frontend channel, never both.  The
      backend's own Close is relayed before the final close, once, exactly when it came and did not
      lead to the menu's reuse of the channel. */
  lemma MenuOrClose(backend: Backend, dropToMenu: bool, source: MenuSource)
    ensures var full := backend.Transcript(dropToMenu, source);
            && multiset(full)[Menu] + multiset(full)[CloseChannel] == 1
            && (Last(full) == Menu || Last(full) == CloseChannel)
            && multiset(full)[Relayed(RelayClose)]
               == (if backend.Closed() && !ShouldReuseMenu(backend.RequestAtStop(), dropToMenu) then 1 else 0)
            && (Menu in full ==> Relayed(RelayClose) !in full)
  {
    var shown, ending := ShownAll(backend.Read(), dropToMenu), backend.Ending(dropToMenu, source);
    ShownIsRelayed(backend.Read(), dropToMenu);
    EndingIsNotRelayed(backend, dropToMenu, source);
    EndingShape(backend, dropToMenu, source);
    ReadCloses(backend, dropToMenu);
    if ending == [Menu] {
      MenuHidesClose(backend, dropToMenu, source);
    }
    CountEnding(shown, ending);
    assert Last(shown + ending) == Last(ending);
  }
}
