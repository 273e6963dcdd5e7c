/** Every interleaving of commands, identity changes and closes over the manager's
    lock sections, and what the retire pattern guarantees in all of them. */
module SshRetire {
  import opened Common
  import opened SshManager

  /** Where a close stands; every state but `Begin` and `Waiting` is an owner's. */
  datatype ClosePc =
    | Begin
    | Waiting(event: nat)
    | Dropping
    | Draining(conn: nat, slot: nat, acquired: nat)
    | Closing(conn: nat, slot: nat)
    | Releasing(slot: nat, acquired: nat)
    | Unlisting

  /** Where a task stands. A command whose entry is stale runs a close in `Retire`. */
  datatype Pc =
    | Start
    | Find
    | Retire(close: ClosePc)
    | Get
    | Queued(conn: nat, slot: nat)
    | Holding(conn: nat, slot: nat)
    | Active(conn: nat, slot: nat)
    | Done

  datatype Kind = Command | Closer
  datatype Task = Task(server: Sid, identity: Identity, kind: Kind, pc: Pc)
  datatype Conn = Conn(server: Sid, identity: Identity, shut: bool)

  /** Permits per server and over all servers. */
  datatype Limits = Limits(perServer: nat, overall: nat)

  datatype State = State(
    tables: Tables,
    conns: seq<Conn>,
    free: seq<nat>,
    fired: seq<bool>,
    spare: nat,
    tasks: seq<Task>)

  function Initial(l: Limits): State {
    State(Tables(map[], map[], map[], {}, map[]), [], [], [], l.overall, [])
  }

  // ----- steps ---------------------------------------------------------------------

  /** A task arrives, is refused by the reconnect backoff, or takes its next step. */
  datatype Event = Arrive(server: Sid, identity: Identity, kind: Kind) | Backoff(task: nat) | Go(task: nat)

  function At(st: State, i: nat, pc: Pc): State
    requires i < |st.tasks|
  {
    st.(tasks := st.tasks[i := st.tasks[i].(pc := pc)])
  }

  function Give(st: State, slot: nat, n: nat): State
    requires slot < |st.free|
  {
    st.(free := st.free[slot := st.free[slot] + n])
  }

  predicate Refers(st: State, t: Task) {
    match t.pc
    case Get => t.server in st.tables.managed ==> t.server in st.tables.slots
    case Queued(c, k) => k < |st.free|
    case Holding(c, k) => k < |st.free|
    case Active(c, k) => k < |st.free|
    case Retire(Waiting(e)) => e < |st.fired|
    case Retire(Draining(c, k, a)) => k < |st.free|
    case Retire(Closing(c, k)) => k < |st.free| && c < |st.conns|
    case Retire(Releasing(k, a)) => k < |st.free|
    case Retire(Unlisting) => t.server in st.tables.events ==> st.tables.events[t.server] < |st.fired|
    case _ => true
  }

  /** A task is blocked only on a semaphore or on an event that is not set. */
  predicate Ready(l: Limits, st: State, t: Task) {
    Refers(st, t) &&
    match t.pc
    case Start => st.spare > 0
    case Queued(c, k) => st.free[k] > 0
    case Retire(Waiting(e)) => st.fired[e]
    case Retire(Draining(c, k, a)) => a < l.perServer ==> st.free[k] > 0
    case Done => false
    case _ => true
  }

  predicate Enabled(l: Limits, st: State, e: Event) {
    match e
    case Arrive(_, _, _) => true
    case Backoff(i) => i < |st.tasks| && st.tasks[i].pc.Start?
    case Go(i) => i < |st.tasks| && Ready(l, st, st.tasks[i])
  }

  function Next(l: Limits, st: State, e: Event): State
    requires Enabled(l, st, e)
  {
    match e
    case Arrive(s, id, kind) =>
      st.(tasks := st.tasks + [Task(s, id, kind, if kind.Closer? then Retire(Begin) else Start)])
    case Backoff(i) => At(st, i, Done)
    case Go(i) =>
      match st.tasks[i].pc
      case Start => At(st, i, Find).(spare := st.spare - 1)
      case Find => Finding(st, i)
      case Get => Getting(l, st, i)
      case Queued(c, k) => At(st, i, Holding(c, k)).(free := st.free[k := st.free[k] - 1])
      case Holding(c, k) => Rechecking(st, i)
      case Active(c, k) => Give(At(st, i, Done), k, 1).(spare := st.spare + 1)
      case Retire(c) => CloseNext(l, st, i)
  }

  function Finding(st: State, i: nat): State
    requires i < |st.tasks|
  {
    var t := st.tasks[i];
    if t.server in st.tables.retiring then At(st, i, Done).(spare := st.spare + 1)
    else if Stale(st.tables, t.server, t.identity) then At(st, i, Retire(Begin))
    else At(st, i, Get)
  }

  function Getting(l: Limits, st: State, i: nat): State
    requires i < |st.tasks| && st.tasks[i].pc.Get? && Refers(st, st.tasks[i])
  {
    var t, number := st.tasks[i], |st.conns|;
    match HandoutFor(st.tables, t.server, number)
    case Entry(c, k) =>
      var found := At(st, i, Queued(c, k));
      if Creates(st.tables, t.server) then
        found.(tables := Installed(st.tables, t.server, t.identity, number),
               conns := st.conns + [Conn(t.server, t.identity, false)], free := st.free + [l.perServer])
      else found
    case _ => At(st, i, Done).(spare := st.spare + 1)
  }

  /** Under the slot: is the connection still the installed one of a server in use? */
  function Rechecking(st: State, i: nat): State
    requires i < |st.tasks| && st.tasks[i].pc.Holding? && Refers(st, st.tasks[i])
  {
    var t := st.tasks[i];
    if t.server in st.tables.retiring || Lookup(st.tables.managed, t.server) != Some(t.pc.conn) then
      Give(At(st, i, Done), t.pc.slot, 1).(spare := st.spare + 1)
    else
      At(st, i, Active(t.pc.conn, t.pc.slot))
  }

  function CloseNext(l: Limits, st: State, i: nat): State
    requires i < |st.tasks| && st.tasks[i].pc.Retire? && Ready(l, st, st.tasks[i])
  {
    var t := st.tasks[i];
    match t.pc.close
    case Begin => Beginning(st, i)
    case Waiting(e) => Returned(st, i)
    case Dropping => At(st, i, Retire(Unlisting)).(tables := Popped(st.tables, t.server))
    case Draining(c, k, a) =>
      if a < l.perServer then At(st, i, Retire(Draining(c, k, a + 1))).(free := st.free[k := st.free[k] - 1])
      else if Lookup(st.tables.managed, t.server) != Some(c) then At(st, i, Retire(Releasing(k, a)))
      else At(st, i, Retire(Closing(c, k))).(tables := Popped(st.tables, t.server))
    case Closing(_, _) => Shutting(l, st, i)
    case Releasing(k, a) => Give(At(st, i, Retire(Unlisting)), k, a)
    case Unlisting => Ending(st, i)
  }

  function Shutting(l: Limits, st: State, i: nat): State
    requires i < |st.tasks| && st.tasks[i].pc.Retire? && st.tasks[i].pc.close.Closing? && Refers(st, st.tasks[i])
  {
    var c := st.tasks[i].pc.close.conn;
    At(st, i, Retire(Releasing(st.tasks[i].pc.close.slot, l.perServer))).(
      conns := st.conns[c := st.conns[c].(shut := true)])
  }

  function Ending(st: State, i: nat): State
    requires i < |st.tasks| && st.tasks[i].pc == Retire(Unlisting) && Refers(st, st.tasks[i])
  {
    var s := st.tasks[i].server;
    Returned(st, i).(
      tables := Released(st.tables, s),
      fired := if s in st.tables.events then st.fired[st.tables.events[s] := true] else st.fired)
  }

  function Beginning(st: State, i: nat): State
    requires i < |st.tasks|
  {
    var s := st.tasks[i].server;
    match TurnFor(st.tables, s)
    case Wait(e) => At(st, i, Retire(Waiting(e)))
    case Own(c, k) =>
      At(st, i, Retire(if c.Some? && k.Some? then Draining(c.value, k.value, 0) else Dropping)).(
        tables := Retired(st.tables, s, |st.fired|), fired := st.fired + [false])
  }

  /** After its close a stale command looks for its entry; a closer is done. */
  function Returned(st: State, i: nat): State
    requires i < |st.tasks|
  {
    At(st, i, if st.tasks[i].kind.Command? then Get else Done)
  }

  /** The state after a sequence of events, `None` when one of them was not possible. */
  ghost function Run(l: Limits, events: seq<Event>): Option<State> {
    if events == [] then Some(Initial(l))
    else
      var before := Run(l, events[..|events| - 1]);
      var e := events[|events| - 1];
      if before.Some? && Enabled(l, before.value, e) then Some(Next(l, before.value, e)) else None
  }

  // ----- the invariant -------------------------------------------------------------

  /** The slot of which a task holds permits, and how many. */
  function SlotOf(pc: Pc): Option<nat> {
    match pc
    case Holding(_, k) => Some(k)
    case Active(_, k) => Some(k)
    case Retire(Draining(_, k, _)) => Some(k)
    case Retire(Closing(_, k)) => Some(k)
    case Retire(Releasing(k, _)) => Some(k)
    case _ => None
  }

  function Units(l: Limits, pc: Pc): nat {
    match pc
    case Holding(_, _) => 1
    case Active(_, _) => 1
    case Retire(Draining(_, _, a)) => a
    case Retire(Closing(_, _)) => l.perServer
    case Retire(Releasing(_, a)) => a
    case _ => 0
  }

  function Held(l: Limits, k: nat, t: Task): nat {
    if SlotOf(t.pc) == Some(k) then Units(l, t.pc) else 0
  }

  function HeldOf(l: Limits, k: nat): Task -> nat {
    (t: Task) => Held(l, k, t)
  }

  /** Every command between admission and its end holds one overall permit. */
  function Inside(t: Task): nat {
    if t.kind.Command? && !t.pc.Start? && !t.pc.Done? then 1 else 0
  }

  predicate Owns(s: Sid, t: Task) {
    t.server == s && t.pc.Retire? && !t.pc.close.Begin? && !t.pc.close.Waiting?
  }

  function OwnsOf(s: Sid): Task -> nat {
    (t: Task) => if Owns(s, t) then 1 else 0
  }

  predicate OpenFor(s: Sid, c: Conn) {
    c.server == s && !c.shut
  }

  /** A server's connection and slot are listed together, and the connection is open to
      use: it belongs to the server and was not closed. */
  ghost predicate EntryOk(st: State, s: Sid) {
    && Lookup(st.tables.managed, s) == Lookup(st.tables.slots, s)
    && (s in st.tables.managed ==>
          st.tables.managed[s] < |st.conns| && OpenFor(s, st.conns[st.tables.managed[s]]))
  }

  ghost predicate TablesOk(st: State) {
    var t := st.tables;
    && SameKeys(t) && |t.managed| <= MAX_MANAGED && |st.conns| == |st.free|
    && (forall s <- t.managed ::
          t.managed[s] == t.slots[s] < |st.conns| && OpenFor(s, st.conns[t.managed[s]]))
    && EventsOk(t.events, st.fired)
  }

  /** Every retiring server has its own event, not set yet. */
  ghost predicate EventsOk(events: map<Sid, nat>, fired: seq<bool>) {
    && (forall s <- events :: events[s] < |fired| && !fired[events[s]])
    && (forall s <- events, r <- events :: events[s] == events[r] ==> s == r)
  }

  lemma EventAdded(events: map<Sid, nat>, fired: seq<bool>, s: Sid)
    requires EventsOk(events, fired) && s !in events
    ensures EventsOk(events[s := |fired|], fired + [false])
  {
  }

  lemma EventSet(events: map<Sid, nat>, fired: seq<bool>, s: Sid)
    requires EventsOk(events, fired) && s in events
    ensures EventsOk(events - {s}, fired[events[s] := true])
  {
  }

  lemma EntryAt(st: State, s: Sid)
    requires TablesOk(st)
    ensures EntryOk(st, s)
  {
  }

  /** Each slot's permits are free or held; so are the overall ones. */
  ghost predicate PermitsOk(l: Limits, st: State) {
    && (forall k :: 0 <= k < |st.free| ==> st.free[k] + Sum(st.tasks, HeldOf(l, k)) == l.perServer)
    && st.spare + Sum(st.tasks, Inside) == l.overall
  }

  /** A server is retiring exactly while one task owns its close. */
  ghost predicate OwnersOk(st: State) {
    forall s: Sid :: Sum(st.tasks, OwnsOf(s)) == if s in st.tables.retiring then 1 else 0
  }

  ghost predicate Installs(st: State, s: Sid, c: nat) {
    s in st.tables.managed && st.tables.managed[s] == c
  }

  ghost predicate TaskOk(l: Limits, st: State, t: Task) {
    match t.pc
    case Start => t.kind.Command?
    case Find => t.kind.Command?
    case Get => t.kind.Command?
    case Queued(c, k) => t.kind.Command? && c == k < |st.conns| && st.conns[c].server == t.server
    case Holding(c, k) => t.kind.Command? && c == k < |st.conns| && st.conns[c].server == t.server
    case Active(c, k) => t.kind.Command? && c == k && Installs(st, t.server, c)
    case Retire(Waiting(e)) =>
      e < |st.fired| && (st.fired[e] || (t.server in st.tables.events && st.tables.events[t.server] == e))
    case Retire(Begin) => true
    case Retire(Draining(c, k, a)) => c == k && a <= l.perServer && Installs(st, t.server, c)
    case Retire(Closing(c, k)) =>
      c == k < |st.conns| && st.conns[c].server == t.server && t.server !in st.tables.managed
    case Retire(Releasing(k, a)) => k < |st.conns| && st.conns[k].server == t.server && t.server !in st.tables.managed
    case Retire(_) => t.server !in st.tables.managed
    case Done => true
  }

  ghost predicate TasksOk(l: Limits, st: State) {
    forall i :: 0 <= i < |st.tasks| ==> TaskOk(l, st, st.tasks[i])
  }

  ghost predicate Inv(l: Limits, st: State) {
    TablesOk(st) && PermitsOk(l, st) && OwnersOk(st) && TasksOk(l, st)
  }

  // ----- sums over the tasks -------------------------------------------------------

  /** Only task `i` moves. */
  ghost predicate Moves(st: State, i: nat, after: State) {
    && i < |st.tasks| == |after.tasks|
    && after.tasks[i].server == st.tasks[i].server
    && after.tasks == st.tasks[i := after.tasks[i]]
  }

  /** The permits that task `i` takes or gives come from or go to the free ones. */
  ghost predicate Pays(l: Limits, st: State, i: nat, after: State)
    requires Moves(st, i, after)
  {
    var was, now := st.tasks[i].pc, after.tasks[i].pc;
    && after.spare + Inside(after.tasks[i]) == st.spare + Inside(st.tasks[i])
    && (if SlotOf(was).None? && SlotOf(now).None? then after.free == st.free
        else
          var k := if SlotOf(was).Some? then SlotOf(was).value else SlotOf(now).value;
          && k < |st.free| == |after.free| && after.free == st.free[k := after.free[k]]
          && (SlotOf(now).Some? ==> SlotOf(now).value == k)
          && after.free[k] + Units(l, now) == st.free[k] + Units(l, was))
  }

  lemma PaysEach(l: Limits, st: State, i: nat, after: State, k: nat)
    requires Moves(st, i, after) && Pays(l, st, i, after) && k < |st.free|
    ensures |after.free| == |st.free|
    ensures after.free[k] + Held(l, k, after.tasks[i]) == st.free[k] + Held(l, k, st.tasks[i])
  {
  }

  lemma PermitsMove(l: Limits, st: State, i: nat, after: State)
    requires PermitsOk(l, st) && Moves(st, i, after) && Pays(l, st, i, after)
    ensures PermitsOk(l, after)
  {
    SumUpdate(st.tasks, i, after.tasks[i], Inside);
    assert |after.free| == |st.free|;
    forall k | 0 <= k < |after.free| ensures after.free[k] + Sum(after.tasks, HeldOf(l, k)) == l.perServer {
      PaysEach(l, st, i, after, k);
      SumUpdate(st.tasks, i, after.tasks[i], HeldOf(l, k));
    }
  }

  lemma {:induction false} SumZero(tasks: seq<Task>, w: Task -> nat)
    requires forall j :: 0 <= j < |tasks| ==> w(tasks[j]) == 0
    ensures Sum(tasks, w) == 0
  {
    if tasks != [] {
      SumZero(tasks[..|tasks| - 1], w);
    }
  }

  lemma OwnersMove(st: State, i: nat, after: State)
    requires OwnersOk(st) && Moves(st, i, after) && Hands(st, i, after)
    ensures OwnersOk(after)
  {
    forall s: Sid ensures Sum(after.tasks, OwnsOf(s)) == if s in after.tables.retiring then 1 else 0 {
      SumUpdate(st.tasks, i, after.tasks[i], OwnsOf(s));
      assert s != st.tasks[i].server ==>
          (s in after.tables.retiring - {st.tasks[i].server} <==> s in st.tables.retiring - {st.tasks[i].server});
    }
  }

  lemma OwnerOfRetiring(st: State, i: nat, s: Sid)
    requires OwnersOk(st) && i < |st.tasks| && Owns(s, st.tasks[i])
    ensures s in st.tables.retiring
    ensures forall j :: 0 <= j < |st.tasks| && Owns(s, st.tasks[j]) ==> j == i
  {
    SumAtLeast(st.tasks, i, OwnsOf(s));
    assert OwnsOf(s)(st.tasks[i]) == 1;
    forall j | 0 <= j < |st.tasks| && Owns(s, st.tasks[j]) ensures j == i {
      assert OwnsOf(s)(st.tasks[j]) == 1;
      if j != i {
        SumAtLeastTwo(st.tasks, Min(i, j), Max(i, j), OwnsOf(s));
      }
    }
  }

  /** Holding every permit of a slot, an owner is alone on it. */
  lemma DrainedAlone(l: Limits, st: State, i: nat, j: nat, k: nat)
    requires PermitsOk(l, st) && k < |st.free| && i < |st.tasks| && j < |st.tasks| && i != j
    requires Held(l, k, st.tasks[i]) == l.perServer
    ensures Held(l, k, st.tasks[j]) == 0
  {
    SumAtLeastTwo(st.tasks, Min(i, j), Max(i, j), HeldOf(l, k));
    assert HeldOf(l, k)(st.tasks[i]) == Held(l, k, st.tasks[i]) && HeldOf(l, k)(st.tasks[j]) == Held(l, k, st.tasks[j]);
  }

  // ----- every step keeps the invariant ----------------------------------------------

  /** Connections keep their server, and set events stay set. */
  ghost predicate Grows(st: State, after: State) {
    && |st.conns| <= |after.conns| && |st.fired| <= |after.fired|
    && (forall c :: 0 <= c < |st.conns| ==> after.conns[c].server == st.conns[c].server)
    && (forall e :: 0 <= e < |st.fired| && st.fired[e] ==> after.fired[e])
  }

  /** A step does not disturb task `t`: its entry stays if it relies on it, and the event
      it waits for stays listed until it is set. */
  ghost predicate Spares(st: State, after: State, t: Task) {
    var s := t.server;
    && (t.pc.Active? || Owns(s, t) ==> Lookup(after.tables.managed, s) == Lookup(st.tables.managed, s))
    && (t.pc.Retire? && t.pc.close.Waiting? && Lookup(st.tables.events, s) == Some(t.pc.close.event) ==>
          || Lookup(after.tables.events, s) == Some(t.pc.close.event)
          || (t.pc.close.event < |after.fired| && after.fired[t.pc.close.event]))
  }

  lemma SparedTask(l: Limits, st: State, after: State, t: Task)
    requires TaskOk(l, st, t) && Grows(st, after) && Spares(st, after, t)
    ensures TaskOk(l, after, t)
  {
    assert Lookup(after.tables.managed, t.server) == None <==> t.server !in after.tables.managed;
  }

  /** A server starts or stops retiring together with the task that owns its close. */
  ghost predicate Hands(st: State, i: nat, after: State)
    requires Moves(st, i, after)
  {
    var s := st.tasks[i].server;
    && after.tables.retiring - {s} == st.tables.retiring - {s}
    && (if s in after.tables.retiring then 1 else 0) + (if Owns(s, st.tasks[i]) then 1 else 0)
       == (if s in st.tables.retiring then 1 else 0) + (if Owns(s, after.tasks[i]) then 1 else 0)
  }

  /** The part of a step that concerns the moving task. */
  ghost predicate Steps(l: Limits, st: State, i: nat, after: State) {
    && Moves(st, i, after) && Pays(l, st, i, after) && Hands(st, i, after) && Grows(st, after)
    && TaskOk(l, after, after.tasks[i])
  }

  lemma MoveKeepsInv(l: Limits, st: State, i: nat, after: State)
    requires Inv(l, st) && Steps(l, st, i, after) && TablesOk(after)
    requires forall j :: 0 <= j < |st.tasks| && j != i ==> Spares(st, after, st.tasks[j])
    ensures Inv(l, after)
  {
    PermitsMove(l, st, i, after);
    OwnersMove(st, i, after);
    forall j | 0 <= j < |st.tasks| && j != i ensures TaskOk(l, after, after.tasks[j]) {
      assert after.tasks[j] == st.tasks[j];
      SparedTask(l, st, after, st.tasks[j]);
    }
  }

  // Steps that leave the tables alone.

  ghost predicate Quiet(l: Limits, st: State, i: nat, after: State) {
    && Moves(st, i, after) && Pays(l, st, i, after)
    && after.tables == st.tables && after.conns == st.conns && after.fired == st.fired
    && Owns(st.tasks[i].server, after.tasks[i]) == Owns(st.tasks[i].server, st.tasks[i])
    && TaskOk(l, after, after.tasks[i])
  }

  lemma QuietStep(l: Limits, st: State, i: nat, after: State)
    requires Inv(l, st) && Quiet(l, st, i, after)
    ensures Inv(l, after)
  {
    MoveKeepsInv(l, st, i, after);
  }

  lemma CommandMoves(l: Limits, st: State, i: nat, after: State)
    requires Enabled(l, st, Go(i)) && TaskOk(l, st, st.tasks[i]) && after == Next(l, st, Go(i))
    requires var pc := st.tasks[i].pc; pc.Start? || pc.Find? || pc.Queued? || pc.Active?
    ensures Quiet(l, st, i, after)
  {
  }

  lemma RecheckMoves(l: Limits, st: State, i: nat, after: State)
    requires i < |st.tasks| && st.tasks[i].pc.Holding? && Refers(st, st.tasks[i]) && TaskOk(l, st, st.tasks[i])
    requires after == Rechecking(st, i)
    ensures Quiet(l, st, i, after)
  {
  }

  lemma HandoutMoves(l: Limits, st: State, i: nat, after: State)
    requires i < |st.tasks| && st.tasks[i].pc.Get? && Refers(st, st.tasks[i]) && TaskOk(l, st, st.tasks[i])
    requires EntryOk(st, st.tasks[i].server) && !Creates(st.tables, st.tasks[i].server) && after == Getting(l, st, i)
    ensures Quiet(l, st, i, after)
  {
  }

  lemma EntryMoves(l: Limits, st: State, i: nat, after: State)
    requires i < |st.tasks| && st.tasks[i].pc.Get? && TaskOk(l, st, st.tasks[i]) && |st.conns| == |st.free|
    requires Creates(st.tables, st.tasks[i].server) && after == Getting(l, st, i)
    ensures Quiet(l, WithEntry(l, st, st.tasks[i].server, st.tasks[i].identity), i, after)
  {
  }

  lemma CloserMoves(l: Limits, st: State, i: nat, after: State)
    requires i < |st.tasks| && st.tasks[i].pc.Retire? && Ready(l, st, st.tasks[i]) && TaskOk(l, st, st.tasks[i])
    requires var c := st.tasks[i].pc.close; c.Waiting? || c.Releasing? || (c.Draining? && c.acquired < l.perServer)
    requires |st.conns| == |st.free| && after == CloseNext(l, st, i)
    ensures Quiet(l, st, i, after)
  {
  }

  lemma WaiterMoves(l: Limits, st: State, i: nat, after: State)
    requires i < |st.tasks| && st.tasks[i].pc == Retire(Begin) && st.tasks[i].server in st.tables.events
    requires st.tables.events[st.tasks[i].server] < |st.fired| && after == Beginning(st, i)
    ensures Quiet(l, st, i, after)
  {
  }

  // Steps that create an entry.

  /** The state in which the new entry exists and no task has moved. */
  function WithEntry(l: Limits, st: State, s: Sid, id: Identity): State {
    st.(tables := Installed(st.tables, s, id, |st.conns|), conns := st.conns + [Conn(s, id, false)],
        free := st.free + [l.perServer])
  }

  lemma EntryTables(l: Limits, st: State, s: Sid, id: Identity)
    requires TablesOk(st) && Creates(st.tables, s)
    ensures TablesOk(WithEntry(l, st, s, id)) && Grows(st, WithEntry(l, st, s, id))
  {
    assert |Installed(st.tables, s, id, |st.conns|).managed| == |st.tables.managed| + 1;
  }

  /** A new slot, on which nobody holds a permit. */
  lemma NewSlot(l: Limits, st: State, after: State)
    requires PermitsOk(l, st) && |st.conns| == |st.free|
             && (forall s <- st.tables.managed :: st.tables.managed[s] < |st.conns|)
    requires TasksOk(l, st)
    requires after.tasks == st.tasks && after.spare == st.spare && after.free == st.free + [l.perServer]
    ensures PermitsOk(l, after)
  {
    forall k | 0 <= k < |after.free| ensures after.free[k] + Sum(after.tasks, HeldOf(l, k)) == l.perServer {
      if k == |st.free| {
        forall j | 0 <= j < |st.tasks| ensures HeldOf(l, k)(st.tasks[j]) == 0 {
          assert TaskOk(l, st, st.tasks[j]);
        }
        SumZero(st.tasks, HeldOf(l, k));
      }
    }
  }

  lemma EntrySpares(l: Limits, st: State, s: Sid, id: Identity, t: Task)
    requires s !in st.tables.managed && TaskOk(l, st, t) && !Owns(s, t)
    ensures Spares(st, WithEntry(l, st, s, id), t)
  {
  }

  lemma EntryStep(l: Limits, st: State, s: Sid, id: Identity)
    requires Inv(l, st) && Creates(st.tables, s)
    ensures Inv(l, WithEntry(l, st, s, id))
  {
    var after := WithEntry(l, st, s, id);
    EntryTables(l, st, s, id);
    NewSlot(l, st, after);
    forall j | 0 <= j < |st.tasks| ensures TaskOk(l, after, st.tasks[j]) {
      if Owns(s, st.tasks[j]) {
        OwnerOfRetiring(st, j, s);
      }
      EntrySpares(l, st, s, id, st.tasks[j]);
      SparedTask(l, st, after, st.tasks[j]);
    }
  }

  lemma GetStep(l: Limits, st: State, i: nat)
    requires Inv(l, st) && i < |st.tasks| && st.tasks[i].pc.Get? && Refers(st, st.tasks[i])
    ensures Inv(l, Getting(l, st, i))
  {
    var t, after := st.tasks[i], Getting(l, st, i);
    if Creates(st.tables, t.server) {
      EntryStep(l, st, t.server, t.identity);
      EntryMoves(l, st, i, after);
      QuietStep(l, WithEntry(l, st, t.server, t.identity), i, after);
    } else {
      EntryAt(st, t.server);
      HandoutMoves(l, st, i, after);
      QuietStep(l, st, i, after);
    }
  }

  // Steps that begin a close.

  lemma OwnerMoves(l: Limits, st: State, i: nat, after: State)
    requires i < |st.tasks| && st.tasks[i].pc == Retire(Begin) && st.tasks[i].server !in st.tables.events
    requires EntryOk(st, st.tasks[i].server) && |st.conns| == |st.free|
    requires st.tasks[i].server !in st.tables.retiring && after == Beginning(st, i)
    ensures Steps(l, st, i, after) && after.tables == Retired(st.tables, st.tasks[i].server, |st.fired|)
    ensures after.fired == st.fired + [false] && after.conns == st.conns && |after.free| == |st.free|
  {
  }

  lemma RetiredTables(st: State, after: State, s: Sid)
    requires TablesOk(st) && s !in st.tables.events && after.tables == Retired(st.tables, s, |st.fired|)
    requires after.fired == st.fired + [false] && after.conns == st.conns && |after.free| == |st.free|
    ensures TablesOk(after)
  {
    EventAdded(st.tables.events, st.fired, s);
  }

  lemma RetiredSpares(st: State, after: State, s: Sid, n: nat, t: Task)
    requires s !in st.tables.events && after.tables == Retired(st.tables, s, n)
    ensures Spares(st, after, t)
  {
  }

  lemma BeginStep(l: Limits, st: State, i: nat)
    requires Inv(l, st) && i < |st.tasks| && st.tasks[i].pc == Retire(Begin)
    ensures Inv(l, Beginning(st, i))
  {
    var s, after := st.tasks[i].server, Beginning(st, i);
    if s in st.tables.events {
      WaiterMoves(l, st, i, after);
      QuietStep(l, st, i, after);
    } else {
      EntryAt(st, s);
      OwnerMoves(l, st, i, after);
      RetiredTables(st, after, s);
      forall j | 0 <= j < |st.tasks| && j != i ensures Spares(st, after, st.tasks[j]) {
        RetiredSpares(st, after, s, |st.fired|, st.tasks[j]);
      }
      MoveKeepsInv(l, st, i, after);
    }
  }

  // Steps that drop an entry.

  /** The owner drops the entry: it holds every permit, or there was no entry. */
  ghost predicate Drops(l: Limits, t: Task, pc: Pc) {
    && t.pc.Retire?
    && (|| (t.pc.close.Dropping? && pc == Retire(Unlisting))
        || (t.pc.close.Draining? && t.pc.close.acquired >= l.perServer
            && pc == Retire(Closing(t.pc.close.conn, t.pc.close.slot))))
  }

  lemma PopMoves(l: Limits, st: State, i: nat, pc: Pc, after: State)
    requires i < |st.tasks| && Drops(l, st.tasks[i], pc) && TaskOk(l, st, st.tasks[i])
    requires EntryOk(st, st.tasks[i].server) && |st.conns| == |st.free|
    requires after == At(st, i, pc).(tables := Popped(st.tables, st.tasks[i].server))
    ensures Steps(l, st, i, after)
  {
  }

  lemma PoppedTables(st: State, after: State, s: Sid)
    requires TablesOk(st) && after.tables == Popped(st.tables, s)
    requires after.conns == st.conns && after.free == st.free && after.fired == st.fired
    ensures TablesOk(after)
  {
    FewerKeys(st.tables.managed, s);
  }

  lemma FewerKeys(m: map<Sid, nat>, s: Sid)
    ensures |m - {s}| <= |m|
  {
    if s in m {
      assert m == (m - {s})[s := m[s]];
    } else {
      assert m == m - {s};
    }
  }

  lemma PoppedSpares(st: State, after: State, s: Sid, t: Task)
    requires after.tables == Popped(st.tables, s)
    requires t.server == s ==> !t.pc.Active? && !Owns(s, t)
    ensures Spares(st, after, t)
  {
  }

  /** Nobody else relies on the entry that a drained owner drops. */
  lemma NoneRelies(l: Limits, st: State, i: nat, j: nat, pc: Pc)
    requires OwnersOk(st) && PermitsOk(l, st) && i < |st.tasks| && j < |st.tasks| && i != j && Drops(l, st.tasks[i], pc)
    requires TaskOk(l, st, st.tasks[i]) && TaskOk(l, st, st.tasks[j])
    requires |st.conns| == |st.free| && forall s <- st.tables.managed :: st.tables.managed[s] < |st.conns|
    ensures st.tasks[j].server == st.tasks[i].server ==>
            !st.tasks[j].pc.Active? && !Owns(st.tasks[i].server, st.tasks[j])
  {
    OwnerOfRetiring(st, i, st.tasks[i].server);
    if st.tasks[i].pc.close.Draining? {
      DrainedAlone(l, st, i, j, st.tasks[i].pc.close.slot);
    }
  }

  lemma PopStep(l: Limits, st: State, i: nat, pc: Pc)
    requires Inv(l, st) && i < |st.tasks| && Drops(l, st.tasks[i], pc)
    ensures Inv(l, At(st, i, pc).(tables := Popped(st.tables, st.tasks[i].server)))
  {
    var s := st.tasks[i].server;
    var after := At(st, i, pc).(tables := Popped(st.tables, s));
    EntryAt(st, s);
    PopMoves(l, st, i, pc, after);
    PoppedTables(st, after, s);
    forall j | 0 <= j < |st.tasks| && j != i ensures Spares(st, after, st.tasks[j]) {
      NoneRelies(l, st, i, j, pc);
      PoppedSpares(st, after, s, st.tasks[j]);
    }
    MoveKeepsInv(l, st, i, after);
  }

  // Steps that close the connection and end the close.

  lemma ShutMoves(l: Limits, st: State, i: nat, c: nat, k: nat, after: State)
    requires i < |st.tasks| && st.tasks[i].pc == Retire(Closing(c, k)) && TaskOk(l, st, st.tasks[i])
    requires |st.conns| == |st.free| && after == Shutting(l, st, i)
    ensures Steps(l, st, i, after) && after.tables == st.tables && after.fired == st.fired && |after.free| == |st.free|
  {
  }

  lemma ShutTables(st: State, after: State, c: nat)
    requires TablesOk(st) && c < |st.conns| && st.conns[c].server !in st.tables.managed
    requires after.tables == st.tables && after.fired == st.fired && |after.free| == |st.free|
    requires after.conns == st.conns[c := st.conns[c].(shut := true)]
    ensures TablesOk(after)
  {
  }

  lemma ShutStep(l: Limits, st: State, i: nat, c: nat, k: nat)
    requires Inv(l, st) && i < |st.tasks| && st.tasks[i].pc == Retire(Closing(c, k)) && Refers(st, st.tasks[i])
    ensures Inv(l, Shutting(l, st, i))
  {
    var after := Shutting(l, st, i);
    ShutMoves(l, st, i, c, k, after);
    ShutTables(st, after, c);
    MoveKeepsInv(l, st, i, after);
  }

  lemma EndMoves(l: Limits, st: State, i: nat, after: State)
    requires i < |st.tasks| && st.tasks[i].pc == Retire(Unlisting) && Refers(st, st.tasks[i])
             && TaskOk(l, st, st.tasks[i])
    requires st.tasks[i].server in st.tables.retiring && after == Ending(st, i)
    ensures Steps(l, st, i, after)
  {
  }

  lemma EndTables(st: State, after: State, s: Sid)
    requires TablesOk(st) && s in st.tables.events && after.tables == Released(st.tables, s)
    requires after.fired == st.fired[st.tables.events[s] := true] && after.conns == st.conns && after.free == st.free
    ensures TablesOk(after)
  {
    EventSet(st.tables.events, st.fired, s);
  }

  lemma EndSpares(st: State, after: State, s: Sid, t: Task)
    requires s in st.tables.events && st.tables.events[s] < |st.fired|
    requires after.tables == Released(st.tables, s) && after.fired == st.fired[st.tables.events[s] := true]
    ensures Spares(st, after, t)
  {
  }

  lemma EndStep(l: Limits, st: State, i: nat)
    requires Inv(l, st) && i < |st.tasks| && st.tasks[i].pc == Retire(Unlisting) && Refers(st, st.tasks[i])
    ensures Inv(l, Ending(st, i))
  {
    var s, after := st.tasks[i].server, Ending(st, i);
    OwnerOfRetiring(st, i, s);
    EndMoves(l, st, i, after);
    EndTables(st, after, s);
    forall j | 0 <= j < |st.tasks| && j != i ensures Spares(st, after, st.tasks[j]) {
      EndSpares(st, after, s, st.tasks[j]);
    }
    MoveKeepsInv(l, st, i, after);
  }

  lemma CloseStep(l: Limits, st: State, i: nat)
    requires Inv(l, st) && i < |st.tasks| && st.tasks[i].pc.Retire? && Ready(l, st, st.tasks[i])
    ensures Inv(l, CloseNext(l, st, i))
  {
    match st.tasks[i].pc.close
    case Begin => BeginStep(l, st, i);
    case Dropping => PopStep(l, st, i, Retire(Unlisting));
    case Closing(c, k) => ShutStep(l, st, i, c, k);
    case Unlisting => EndStep(l, st, i);
    case Draining(c, k, a) =>
      if a < l.perServer {
        CloserMoves(l, st, i, CloseNext(l, st, i));
        QuietStep(l, st, i, CloseNext(l, st, i));
      } else {
        assert TaskOk(l, st, st.tasks[i]) && Installs(st, st.tasks[i].server, c);
        PopStep(l, st, i, Retire(Closing(c, k)));
      }
    case _ =>
      CloserMoves(l, st, i, CloseNext(l, st, i));
      QuietStep(l, st, i, CloseNext(l, st, i));
  }

  lemma ArriveStep(l: Limits, st: State, e: Event)
    requires Inv(l, st) && e.Arrive?
    ensures Inv(l, Next(l, st, e))
  {
    var after := Next(l, st, e);
    var t := after.tasks[|st.tasks|];
    SumAppend(st.tasks, t, Inside);
    forall k | 0 <= k < |st.free| ensures after.free[k] + Sum(after.tasks, HeldOf(l, k)) == l.perServer {
      SumAppend(st.tasks, t, HeldOf(l, k));
    }
    forall s: Sid ensures Sum(after.tasks, OwnsOf(s)) == if s in after.tables.retiring then 1 else 0 {
      SumAppend(st.tasks, t, OwnsOf(s));
    }
    forall j | 0 <= j < |after.tasks| ensures TaskOk(l, after, after.tasks[j]) {
      assert j < |st.tasks| ==> TaskOk(l, st, st.tasks[j]);
    }
  }

  /** Every step of every task keeps the invariant. */
  lemma StepKeepsInv(l: Limits, st: State, e: Event)
    requires Inv(l, st) && Enabled(l, st, e)
    ensures Inv(l, Next(l, st, e))
  {
    match e
    case Arrive(_, _, _) => ArriveStep(l, st, e);
    case Backoff(i) =>
      BackoffMoves(l, st, i);
      QuietStep(l, st, i, At(st, i, Done));
    case Go(i) =>
      match st.tasks[i].pc {
        case Get => GetStep(l, st, i);
        case Holding(_, _) =>
          RecheckMoves(l, st, i, Rechecking(st, i));
          QuietStep(l, st, i, Rechecking(st, i));
        case Retire(_) => CloseStep(l, st, i);
        case Done => assert false;
        case _ =>
          CommandMoves(l, st, i, Next(l, st, e));
          QuietStep(l, st, i, Next(l, st, e));
      }
  }

  lemma BackoffMoves(l: Limits, st: State, i: nat)
    requires i < |st.tasks| && st.tasks[i].pc.Start?
    ensures Quiet(l, st, i, At(st, i, Done))
  {
  }

  lemma {:induction false} RunKeepsInv(l: Limits, events: seq<Event>)
    requires Run(l, events).Some?
    ensures Inv(l, Run(l, events).value)
  {
    if events == [] {
      assert forall k, t: Task :: k in [] ==> HeldOf(l, k)(t) == 0;
    } else {
      var before := Run(l, events[..|events| - 1]);
      RunKeepsInv(l, events[..|events| - 1]);
      StepKeepsInv(l, before.value, events[|events| - 1]);
    }
  }
}
