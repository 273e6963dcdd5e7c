/** The one shared realtime connection: reconnecting with capped backoff, and replaying
    the latest selection after every reconnect. */
module RealtimeClient {
  import opened Common

  // ----- backoff ------------------------------------------------------------------------

  const BACKOFF_BASE: nat := 1000
  const BACKOFF_MAX: nat := 30000
  const MAX_ATTEMPT: nat := 10

  function Power(n: nat): nat {
    if n == 0 then 1 else 2 * Power(n - 1)
  }

  function BackoffDelay(attempt: nat): nat {
    Min(BACKOFF_MAX, BACKOFF_BASE * Power(attempt))
  }

  lemma {:induction false} PowerGrows(n: nat, m: nat)
    requires n <= m
    ensures Power(n) <= Power(m)
  {
    if n < m {
      PowerGrows(n, m - 1);
    }
  }

  /** Capping the exponent never changes the delay. */
  lemma CapIsHarmless(attempt: nat)
    ensures BackoffDelay(Min(attempt, MAX_ATTEMPT)) == BackoffDelay(attempt)
  {
    if attempt > MAX_ATTEMPT {
      assert Power(5) == 32;
      PowerGrows(5, MAX_ATTEMPT);
      PowerGrows(5, attempt);
    }
  }

  // ----- state --------------------------------------------------------------------------

  datatype Ready = Connecting | Open | Closed

  /** A socket, whether its `onopen` has run, and the selections sent on it. */
  datatype Socket = Socket(ready: Ready, fired: bool, sent: seq<Option<string>>)

  /** Sockets are numbered in the order of their creation; `delay` is that of the pending
      retry timer. */
  datatype State = State(
    sockets: seq<Socket>,
    current: Option<nat>,
    attempt: nat,
    stopped: bool,
    timer: Option<nat>,
    intent: Option<Option<string>>)

  function Initial(): State {
    State([], None, 0, true, None, None)
  }

  predicate Known(st: State) {
    st.current.Some? ==> st.current.value < |st.sockets|
  }

  /** What a listener may call while it is told about a new connection state; a start
      makes a socket or fails to, and tells the listeners again. */
  datatype Call = Start(made: bool, reactions: seq<Call>) | Stop | Select(server: Option<string>)

  function Scheduled(st: State): State {
    st.(timer := Some(BackoffDelay(st.attempt)), attempt := Min(st.attempt + 1, MAX_ATTEMPT))
  }

  /** A new socket, unless stopped; a retry when it cannot be made. */
  function Opened(st: State, made: bool): State {
    if st.stopped then st
    else if made then st.(sockets := st.sockets + [Socket(Connecting, false, [])], current := Some(|st.sockets|))
    else Scheduled(st)
  }

  /** Sent only on an open current socket. */
  function Sent(st: State, server: Option<string>): State
    requires Known(st)
  {
    if st.current.Some? && st.sockets[st.current.value].ready.Open? then
      var s := st.sockets[st.current.value];
      st.(sockets := st.sockets[st.current.value := s.(sent := s.sent + [server])])
    else st
  }

  function Stopped(st: State): State
    requires Known(st)
  {
    var closed :=
      if st.current.Some? then st.sockets[st.current.value := st.sockets[st.current.value].(ready := Closed)]
      else st.sockets;
    st.(stopped := true, timer := None, current := None, sockets := closed)
  }

  function Selected(st: State, server: Option<string>): State
    requires Known(st)
  {
    Sent(st.(intent := Some(server)), server)
  }

  function Called(st: State, call: Call): (r: State)
    requires Known(st)
    ensures Known(r) && |r.sockets| >= |st.sockets|
    decreases call, 0
  {
    match call
    case Stop => Stopped(st)
    case Select(server) => Selected(st, server)
    case Start(made, reactions) =>
      if !st.stopped then st
      else Opened(Reacted(st.(stopped := false, attempt := 0), reactions), made)
  }

  /** Everything the listeners do when told of a new state. */
  function Reacted(st: State, calls: seq<Call>): (r: State)
    requires Known(st)
    ensures Known(r) && |r.sockets| >= |st.sockets|
    decreases calls, 1
  {
    if calls == [] then st
    else
      Called(Reacted(st, calls[..|calls| - 1]), calls[|calls| - 1])
  }

  // ----- socket and timer callbacks -------------------------------------------------------

  /** `onopen` of the current socket: the backoff starts over, the listeners are told, and
      the latest selection is sent. */
  function OnOpen(st: State, i: nat, reactions: seq<Call>): (r: State)
    requires Known(st) && i < |st.sockets|
    ensures Known(r)
  {
    var first := st.(sockets := st.sockets[i := st.sockets[i].(fired := true)]);
    if st.current != Some(i) then first
    else
      var told := Reacted(first.(attempt := 0), reactions);
      if told.intent.Some? then Sent(told, told.intent.value) else told
  }

  /** `onclose` of the current socket: the listeners are told, then a retry is scheduled. */
  function OnClose(st: State, i: nat, reactions: seq<Call>): (r: State)
    requires Known(st) && i < |st.sockets|
    ensures Known(r)
  {
    var gone := st.(sockets := st.sockets[i := st.sockets[i].(ready := Closed)]);
    if st.current != Some(i) then gone
    else if st.stopped then gone.(current := None)
    else Scheduled(Reacted(gone.(current := None), reactions))
  }

  function OnTimer(st: State, made: bool): State {
    if st.timer.None? then st else Opened(st.(timer := None), made)
  }

  // ----- the client object -------------------------------------------------------------------

  class Client {
    var sockets: seq<Socket>
    var current: Option<nat>
    var attempt: nat
    var isStopped: bool
    var timer: Option<nat>
    var intent: Option<Option<string>>

    constructor ()
      ensures Now() == Initial()
    {
      sockets, current, attempt, isStopped, timer, intent := [], None, 0, true, None, None;
    }

    function Now(): State
      reads this
    {
      State(sockets, current, attempt, isStopped, timer, intent)
    }

    method Begin(made: bool, reactions: seq<Call>)
      requires Known(Now())
      modifies this
      ensures Now() == Called(old(Now()), Start(made, reactions))
      decreases Start(made, reactions), 0
    {
      if !isStopped {
        return;
      }
      isStopped := false;
      attempt := 0;
      EmitState(reactions);
      OpenSocket(made);
    }

    /** Telling the listeners: they may call back into the client. */
    method EmitState(calls: seq<Call>)
      requires Known(Now())
      modifies this
      ensures Now() == Reacted(old(Now()), calls)
      decreases calls, 1
    {
      ghost var st := Now();
      NoReaction(st, calls[..0]);
      for i := 0 to |calls|
        invariant Now() == Reacted(st, calls[..i])
      {
        OneReaction(st, calls, i);
        match calls[i] {
          case Stop => End();
          case Select(server) => SendSelect(server);
          case Start(made, reactions) => Begin(made, reactions);
        }
      }
      assert calls[..|calls|] == calls;
    }

    /** Closes the current socket, and drops it and the retry. */
    method End()
      requires Known(Now())
      modifies this
      ensures Now() == Stopped(old(Now()))
      ensures isStopped && current == None && timer == None && intent == old(intent)
      ensures old(current).Some? ==> sockets[old(current).value].ready == Closed
    {
      isStopped := true;
      timer := None;
      var socket := current;
      current := None;
      if socket.Some? {
        sockets := sockets[socket.value := sockets[socket.value].(ready := Closed)];
      }
    }

    /** A selection is kept, and sent if it can be. */
    method SendSelect(server: Option<string>)
      requires Known(Now())
      modifies this
      ensures Now() == Selected(old(Now()), server)
    {
      intent := Some(server);
      Send(server);
    }

    /** Sent once, on an open current socket; nothing is sent otherwise. */
    method Send(server: Option<string>)
      requires Known(Now())
      modifies this`sockets
      ensures Now() == Sent(old(Now()), server)
      ensures sockets ==
              if current.Some? && old(sockets)[current.value].ready == Open then
                var s := old(sockets)[current.value];
                old(sockets)[current.value := Socket(Open, s.fired, s.sent + [server])]
              else old(sockets)
    {
      if current.Some? && sockets[current.value].ready.Open? {
        var s := sockets[current.value];
        sockets := sockets[current.value := s.(sent := s.sent + [server])];
      }
    }

    method OpenSocket(made: bool)
      modifies this
      ensures Now() == Opened(old(Now()), made)
    {
      if isStopped {
        return;
      }
      if !made {
        ScheduleReconnect();
        return;
      }
      sockets := sockets + [Socket(Connecting, false, [])];
      current := Some(|sockets| - 1);
    }

    method ScheduleReconnect()
      modifies this`timer, this`attempt
      ensures Now() == Scheduled(old(Now()))
    {
      timer := None;
      var delay := BackoffDelay(attempt);
      attempt := Min(attempt + 1, MAX_ATTEMPT);
      timer := Some(delay);
    }

    method HandleOpen(i: nat, reactions: seq<Call>)
      requires Known(Now()) && i < |sockets|
      modifies this
      ensures Now() == OnOpen(old(Now()), i, reactions)
    {
      sockets := sockets[i := sockets[i].(fired := true)];
      if current != Some(i) {
        return;
      }
      attempt := 0;
      EmitState(reactions);
      if intent.Some? {
        Send(intent.value);
      }
    }

    method HandleClose(i: nat, reactions: seq<Call>)
      requires Known(Now()) && i < |sockets|
      modifies this
      ensures Now() == OnClose(old(Now()), i, reactions)
    {
      sockets := sockets[i := sockets[i].(ready := Closed)];
      if current != Some(i) {
        return;
      }
      current := None;
      if !isStopped {
        EmitState(reactions);
        ScheduleReconnect();
      }
    }

    method HandleTimer(made: bool)
      modifies this
      ensures Now() == OnTimer(old(Now()), made)
    {
      if timer.Some? {
        timer := None;
        OpenSocket(made);
      }
    }
  }

  lemma NoReaction(st: State, none: seq<Call>)
    requires Known(st) && none == []
    ensures Reacted(st, none) == st
  {
  }

  lemma OneReaction(st: State, calls: seq<Call>, i: nat)
    requires Known(st) && i < |calls|
    ensures Reacted(st, calls[..i + 1]) == Called(Reacted(st, calls[..i]), calls[i])
  {
    assert calls[..i + 1][..i] == calls[..i];
  }

  // ----- what every run keeps ----------------------------------------------------------------

  /** A started client has a current socket or a pending retry, never both; a stopped one
      has neither. */
  predicate OneWayOnly(st: State) {
    if st.stopped then st.current.None? && st.timer.None?
    else st.current.Some? <==> st.timer.None?
  }

  /** On an open current socket whose `onopen` has run, the last selection sent is the
      latest one made. */
  predicate IntentSent(st: State)
    requires Known(st)
  {
    st.current.Some? && st.intent.Some? ==>
      var s := st.sockets[st.current.value];
      s.ready.Open? && s.fired ==> s.sent != [] && s.sent[|s.sent| - 1] == st.intent.value
  }

  predicate Good(st: State) {
    Known(st) && OneWayOnly(st) && IntentSent(st) && st.attempt <= MAX_ATTEMPT
  }

  /** Listeners that only make selections. */
  predicate Gentle(calls: seq<Call>) {
    forall c <- calls :: c.Select?
  }

  datatype Event =
    | Api(call: Call)
    | Ready(socket: nat)
    | Fired(socket: nat, reactions: seq<Call>)
    | Lost(socket: nat)
    | Gone(socket: nat, reactions: seq<Call>)
    | Timer(made: bool)

  predicate Possible(st: State, e: Event) {
    match e
    case Api(_) => true
    case Ready(i) => i < |st.sockets| && st.sockets[i].ready.Connecting? && !st.sockets[i].fired
    case Fired(i, _) => i < |st.sockets| && st.sockets[i].ready.Open? && !st.sockets[i].fired
    case Lost(i) => i < |st.sockets|
    case Gone(i, _) => i < |st.sockets|
    case Timer(_) => st.timer.Some?
  }

  /** A socket becomes open, its `onopen` runs, it is lost, its `onclose` runs; the retry
      timer fires; or the application calls. */
  function Next(st: State, e: Event): (r: State)
    requires Known(st) && Possible(st, e)
    ensures Known(r)
  {
    match e
    case Api(call) => Called(st, call)
    case Ready(i) => st.(sockets := st.sockets[i := st.sockets[i].(ready := Open)])
    case Fired(i, reactions) => OnOpen(st, i, reactions)
    case Lost(i) => st.(sockets := st.sockets[i := st.sockets[i].(ready := Closed)])
    case Gone(i, reactions) => OnClose(st, i, reactions)
    case Timer(made) => OnTimer(st, made)
  }

  predicate GentleEvent(e: Event) {
    match e
    case Api(Start(_, reactions)) => Gentle(reactions)
    case Fired(_, reactions) => Gentle(reactions)
    case Gone(_, reactions) => Gentle(reactions)
    case _ => true
  }

  lemma SelectKeeps(st: State, server: Option<string>)
    requires Known(st)
    ensures var r := Selected(st, server);
            && r.stopped == st.stopped && r.current == st.current && r.timer == st.timer && r.attempt == st.attempt
            && |r.sockets| == |st.sockets| && IntentSent(r)
            && forall i :: 0 <= i < |st.sockets| ==>
              r.sockets[i].ready == st.sockets[i].ready && r.sockets[i].fired == st.sockets[i].fired
  {
  }

  function Run(st: State, events: seq<Event>): Option<State>
    requires Known(st)
    ensures Run(st, events).Some? ==> Known(Run(st, events).value)
  {
    if events == [] then Some(st)
    else
      var before := Run(st, events[..|events| - 1]);
      if before.Some? && Possible(before.value, events[|events| - 1])
      then Some(Next(before.value, events[|events| - 1]))
      else None
  }

  // ----- listeners that stop or start the client ------------------------------------------------

  // What listeners leave behind when they find the client started, with neither a socket
  // nor a retry, told from their calls alone. A start on a started client is void.

  /** The client is stopped. */
  predicate LeavesOff(calls: seq<Call>) {
    calls != [] &&
    match calls[|calls| - 1]
    case Stop => true
    case Select(_) => LeavesOff(calls[..|calls| - 1])
    case Start(_, reactions) => LeavesOff(calls[..|calls| - 1]) && LeavesOff(reactions)
  }

  /** The client is started and has no socket. */
  predicate LeavesNoSocket(calls: seq<Call>) {
    calls == [] ||
    match calls[|calls| - 1]
    case Stop => false
    case Select(_) => LeavesNoSocket(calls[..|calls| - 1])
    case Start(made, reactions) =>
      if LeavesOff(calls[..|calls| - 1]) then !made && LeavesNoSocket(reactions)
      else LeavesNoSocket(calls[..|calls| - 1])
  }

  /** The client is started and has no pending retry. */
  predicate LeavesNoRetry(calls: seq<Call>) {
    calls == [] ||
    match calls[|calls| - 1]
    case Stop => false
    case Select(_) => LeavesNoRetry(calls[..|calls| - 1])
    case Start(made, reactions) =>
      if LeavesOff(calls[..|calls| - 1]) then made && LeavesNoRetry(reactions) else LeavesNoRetry(calls[..|calls| - 1])
  }

  /** A start whose listeners do not clash with what it does after them. */
  predicate StartClear(made: bool, reactions: seq<Call>) {
    LeavesOff(reactions) || if made then LeavesNoRetry(reactions) else LeavesNoSocket(reactions)
  }

  /** Listeners that find a socket or a retry: what counts is the last start of theirs
      that was not void. */
  predicate Clear(calls: seq<Call>) {
    calls == [] ||
    match calls[|calls| - 1]
    case Stop => true
    case Select(_) => Clear(calls[..|calls| - 1])
    case Start(made, reactions) =>
      if LeavesOff(calls[..|calls| - 1]) then StartClear(made, reactions) else Clear(calls[..|calls| - 1])
  }

  predicate Bare(st: State) {
    !st.stopped && st.current.None? && st.timer.None?
  }

  predicate Idle(st: State) {
    st.stopped && st.current.None? && st.timer.None?
  }

  lemma {:induction false} BareReacted(st: State, calls: seq<Call>)
    requires Known(st) && Bare(st)
    ensures var r := Reacted(st, calls);
            && (r.stopped <==> LeavesOff(calls)) && (r.stopped ==> Idle(r))
            && (!r.stopped && r.current.None? <==> LeavesNoSocket(calls))
            && (!r.stopped && r.timer.None? <==> LeavesNoRetry(calls))
    decreases calls
  {
    if calls != [] {
      var before, last := calls[..|calls| - 1], calls[|calls| - 1];
      BareReacted(st, before);
      var mid := Reacted(st, before);
      if last.Start? && mid.stopped {
        BareReacted(mid.(stopped := false, attempt := 0), last.reactions);
      }
    }
  }

  /** The listeners of a client that has a socket or a retry. */
  lemma {:induction false} LiveReacted(st: State, calls: seq<Call>)
    requires Known(st) && !st.stopped && OneWayOnly(st)
    ensures var r := Reacted(st, calls);
            && (r.stopped <==> LeavesOff(calls)) && (r.stopped ==> Idle(r))
            && (OneWayOnly(r) <==> Clear(calls))
    decreases |calls|
  {
    if calls != [] {
      var before, last := calls[..|calls| - 1], calls[|calls| - 1];
      LiveReacted(st, before);
      var mid := Reacted(st, before);
      if last.Start? && mid.stopped {
        BareReacted(mid.(stopped := false, attempt := 0), last.reactions);
      }
    }
  }

  /** With any listeners, after the current socket closed the client is as it should be
      if and only if their calls leave it started and without a socket: the retry is
      scheduled without looking again. */
  lemma CloseKeepsIff(st: State, i: nat, reactions: seq<Call>)
    requires Good(st) && st.current == Some(i)
    ensures OneWayOnly(OnClose(st, i, reactions)) <==> LeavesNoSocket(reactions)
  {
    BareReacted(st.(sockets := st.sockets[i := st.sockets[i].(ready := Closed)], current := None), reactions);
  }

  /** With any listeners, after a start the client is as it should be if and only if
      their calls do not clash with what the start then does. */
  lemma StartKeepsIff(st: State, made: bool, reactions: seq<Call>)
    requires Good(st) && st.stopped
    ensures OneWayOnly(Called(st, Start(made, reactions))) <==> StartClear(made, reactions)
  {
    BareReacted(st.(stopped := false, attempt := 0), reactions);
  }

  /** A listener that stops the client when it loses its socket leaves a retry pending on a
      stopped client, and a later start then has both a socket and a retry. */
  lemma StopInsideClose(st: State, i: nat)
    requires Good(st) && st.current == Some(i)
    ensures var r := OnClose(st, i, [Stop]); r.stopped && r.timer.Some?
    ensures var r := Called(OnClose(st, i, [Stop]), Start(true, [])); !r.stopped && r.current.Some? && r.timer.Some?
  {
    var gone := st.(sockets := st.sockets[i := st.sockets[i].(ready := Closed)], current := None);
    var calls := [Stop];
    NoReaction(gone, calls[..0]);
    assert calls[..|calls| - 1] == calls[..0];
    assert Reacted(gone, calls) == Stopped(gone);
    var late := OnClose(st, i, calls);
    var none: seq<Call> := calls[..0];
    assert none == [];
    NoReaction(late.(stopped := false, attempt := 0), none);
  }

  // Whatever listeners do, the selections and the attempt counter stay right. Socket `i`
  // may lack the latest selection while its own `onopen` still runs.

  predicate IntentBut(st: State, i: int)
    requires Known(st)
  {
    (st.current.Some? && st.current.value == i) || IntentSent(st)
  }

  lemma {:induction false} ReactedIntent(st: State, i: int, calls: seq<Call>)
    requires Known(st) && st.attempt <= MAX_ATTEMPT && IntentBut(st, i) && i < |st.sockets|
    ensures var r := Reacted(st, calls); IntentBut(r, i) && r.attempt <= MAX_ATTEMPT
    decreases calls, 1
  {
    if calls != [] {
      ReactedIntent(st, i, calls[..|calls| - 1]);
      CalledIntent(Reacted(st, calls[..|calls| - 1]), i, calls[|calls| - 1]);
    }
  }

  lemma {:induction false} CalledIntent(st: State, i: int, call: Call)
    requires Known(st) && st.attempt <= MAX_ATTEMPT && IntentBut(st, i) && i < |st.sockets|
    ensures var r := Called(st, call); IntentBut(r, i) && r.attempt <= MAX_ATTEMPT
    decreases call, 0
  {
    match call
    case Stop =>
    case Select(server) => SelectKeeps(st, server);
    case Start(made, reactions) =>
      if st.stopped {
        ReactedIntent(st.(stopped := false, attempt := 0), i, reactions);
      }
  }

  /** The event does no harm: told from the event and what it finds. */
  predicate Harmless(st: State, e: Event) {
    match e
    case Api(Start(made, reactions)) => st.stopped ==> StartClear(made, reactions)
    case Fired(i, reactions) => st.current == Some(i) ==> Clear(reactions)
    case Gone(i, reactions) => st.current == Some(i) ==> LeavesNoSocket(reactions)
    case _ => true
  }

  lemma FiredKeepsIff(st: State, i: nat, reactions: seq<Call>)
    requires Good(st) && st.current == Some(i)
    ensures Good(OnOpen(st, i, reactions)) <==> Clear(reactions)
  {
    var first := st.(sockets := st.sockets[i := st.sockets[i].(fired := true)], attempt := 0);
    LiveReacted(first, reactions);
    ReactedIntent(first, i, reactions);
  }

  lemma StepKeepsIff(st: State, e: Event)
    requires Good(st) && Possible(st, e)
    ensures Good(Next(st, e)) <==> Harmless(st, e)
  {
    match e
    case Api(call) =>
      CalledIntent(st, -1, call);
      if call.Start? && st.stopped {
        StartKeepsIff(st, call.made, call.reactions);
      }
    case Fired(i, reactions) =>
      if st.current == Some(i) {
        FiredKeepsIff(st, i, reactions);
      }
    case Gone(i, reactions) =>
      if st.current == Some(i) {
        CloseKeepsIff(st, i, reactions);
        ReactedIntent(st.(sockets := st.sockets[i := st.sockets[i].(ready := Closed)], current := None), -1, reactions);
      }
    case _ =>
  }

  lemma {:induction false} RunOfPrefix(events: seq<Event>, n: nat)
    requires Run(Initial(), events).Some? && n <= |events|
    ensures Run(Initial(), events[..n]).Some?
    decreases |events|
  {
    if n == |events| {
      assert events[..n] == events;
    } else {
      RunOfPrefix(events[..|events| - 1], n);
      assert events[..|events| - 1][..n] == events[..n];
    }
  }

  predicate GoodAfter(events: seq<Event>, n: nat)
    requires n <= |events|
  {
    Run(Initial(), events[..n]).Some? && Good(Run(Initial(), events[..n]).value)
  }

  predicate HarmlessAt(events: seq<Event>, n: nat)
    requires n < |events|
  {
    Run(Initial(), events[..n]).Some? && Harmless(Run(Initial(), events[..n]).value, events[n])
  }

  lemma OneMoreEvent(events: seq<Event>, n: nat)
    requires Run(Initial(), events).Some? && n < |events| && GoodAfter(events, n)
    ensures GoodAfter(events, n + 1) <==> HarmlessAt(events, n)
  {
    RunOfPrefix(events, n + 1);
    assert events[..n + 1][..n] == events[..n];
    StepKeepsIff(Run(Initial(), events[..n]).value, events[n]);
  }

  lemma {:induction false} HarmlessStaysGood(events: seq<Event>, n: nat)
    requires Run(Initial(), events).Some? && n <= |events|
    requires forall k :: 0 <= k < n ==> HarmlessAt(events, k)
    ensures GoodAfter(events, n)
  {
    if n > 0 {
      HarmlessStaysGood(events, n - 1);
      OneMoreEvent(events, n - 1);
    }
  }

  /** In every run, with any listeners: every state has exactly one of a current socket
      and a pending retry when started, neither when stopped, and an open socket that has
      been sent the latest selection, if and only if every event was harmless. */
  lemma RunKeepsIff(events: seq<Event>)
    requires Run(Initial(), events).Some?
    ensures (forall n :: 0 <= n <= |events| ==> GoodAfter(events, n))
            <==> (forall n :: 0 <= n < |events| ==> HarmlessAt(events, n))
  {
    if forall n :: 0 <= n < |events| ==> HarmlessAt(events, n) {
      forall n | 0 <= n <= |events| ensures GoodAfter(events, n) {
        HarmlessStaysGood(events, n);
      }
    }
    if forall n :: 0 <= n <= |events| ==> GoodAfter(events, n) {
      forall n | 0 <= n < |events| ensures HarmlessAt(events, n) {
        assert GoodAfter(events, n) && GoodAfter(events, n + 1);
        OneMoreEvent(events, n);
      }
    }
  }

  /** Selections move nothing but the selection and what is sent on the current socket. */
  lemma {:induction false} GentleKeeps(st: State, calls: seq<Call>)
    requires Known(st) && Gentle(calls)
    ensures var r := Reacted(st, calls);
            && r.stopped == st.stopped && r.current == st.current && r.timer == st.timer && r.attempt == st.attempt
            && |r.sockets| == |st.sockets|
  {
    if calls != [] {
      assert forall c <- calls[..|calls| - 1] :: c in calls;
      assert calls[|calls| - 1] in calls;
      GentleKeeps(st, calls[..|calls| - 1]);
      SelectKeeps(Reacted(st, calls[..|calls| - 1]), calls[|calls| - 1].server);
    }
  }

  /** However long the client retried before: once its socket has opened, the retry after
      its close waits one second again. */
  lemma FreshBackoff(st: State, i: nat, opening: seq<Call>, closing: seq<Call>)
    requires Known(st) && st.current == Some(i) && !st.stopped && Gentle(opening) && Gentle(closing)
    ensures var live := OnOpen(st, i, opening);
            |live.sockets| == |st.sockets| && OnClose(live, i, closing).timer == Some(1000)
  {
    var first := st.(sockets := st.sockets[i := st.sockets[i].(fired := true)]).(attempt := 0);
    GentleKeeps(first, opening);
    var live := OnOpen(st, i, opening);
    var gone := live.(sockets := live.sockets[i := live.sockets[i].(ready := Closed)]).(current := None);
    GentleKeeps(gone, closing);
    assert Power(0) == 1;
  }

  lemma {:induction false} GentleLeaves(calls: seq<Call>)
    requires Gentle(calls)
    ensures !LeavesOff(calls) && LeavesNoSocket(calls) && LeavesNoRetry(calls) && Clear(calls)
    decreases |calls|
  {
    if calls != [] {
      assert calls[|calls| - 1] in calls && forall c <- calls[..|calls| - 1] :: c in calls;
      GentleLeaves(calls[..|calls| - 1]);
    }
  }

  /** So in every run in which listeners only make selections, a started client has
      exactly one of a current socket and a pending retry, and an open one has been sent
      the latest selection. */
  lemma RunKeepsGood(events: seq<Event>)
    requires Run(Initial(), events).Some? && forall e <- events :: GentleEvent(e)
    ensures Good(Run(Initial(), events).value)
  {
    forall k | 0 <= k < |events| ensures HarmlessAt(events, k) {
      RunOfPrefix(events, k);
      assert events[k] in events;
      match events[k] {
        case Api(Start(_, reactions)) => GentleLeaves(reactions);
        case Fired(_, reactions) => GentleLeaves(reactions);
        case Gone(_, reactions) => GentleLeaves(reactions);
        case _ =>
      }
    }
    HarmlessStaysGood(events, |events|);
    assert events[..|events|] == events;
  }

  // ----- a chain of failed tries --------------------------------------------------------------

  /** The state after a start whose first `n` tries to make a socket all failed. */
  function Tried(st: State, n: nat): State
    requires n > 0
  {
    if n == 1 then Opened(st.(stopped := false, attempt := 0), false) else OnTimer(Tried(st, n - 1), false)
  }

  /** The n-th retry in a row waits min(30000, 1000 * 2^(n-1)) milliseconds. */
  lemma {:induction false} DelayOfTry(st: State, n: nat)
    requires Good(st) && st.stopped && n > 0
    ensures var r := Tried(st, n);
            && r.timer == Some(Min(30000, 1000 * Power(n - 1))) && r.attempt == Min(n, MAX_ATTEMPT)
            && r == st.(stopped := false, attempt := r.attempt, timer := r.timer)
  {
    if n > 1 {
      DelayOfTry(st, n - 1);
      CapIsHarmless(n - 1);
    }
  }

  /** That chain is a run: a start, then the timer each time. */
  lemma {:induction false} TriesAreRun(st: State, n: nat)
    requires Good(st) && st.stopped && n > 0
    ensures Run(st, Tries(n)) == Some(Tried(st, n))
  {
    var none: seq<Call> := [];
    NoReaction(st.(stopped := false, attempt := 0), none);
    if n == 1 {
      var nothing := Tries(1)[..0];
      assert Run(st, nothing) == Some(st);
    } else {
      TriesAreRun(st, n - 1);
      DelayOfTry(st, n - 1);
      assert Tries(n)[..|Tries(n)| - 1] == Tries(n - 1);
    }
  }

  function Tries(n: nat): (events: seq<Event>)
    requires n > 0
    ensures |events| == n && events[n - 1] == if n == 1 then Api(Start(false, [])) else Timer(false)
  {
    if n == 1 then [Api(Start(false, []))] else Tries(n - 1) + [Timer(false)]
  }
}
