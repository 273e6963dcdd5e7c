/** For whom the entry was built that a command is handed: over all runs, when it is
    another identity than the command's own. */
module SshIdentity {
  import opened Common
  import opened SshManager
  import opened SshRetire
  import opened SshSafety

  // ----- what happened when -------------------------------------------------------------

  /** The task that moves with event `n`, before it moves. */
  ghost function Mover(l: Limits, events: seq<Event>, n: nat): Option<Task> {
    if n < |events| && events[n].Go? && Run(l, events[..n]).Some? && events[n].task < |Run(l, events[..n]).value.tasks|
    then Some(Run(l, events[..n]).value.tasks[events[n].task]) else None
  }

  /** Event `a` is the first lock section of task `i`: it found nothing stale, or goes to
      close what it found. */
  ghost predicate LooksAt(l: Limits, events: seq<Event>, a: nat, i: nat) {
    Mover(l, events, a).Some? && events[a].task == i && Mover(l, events, a).value.pc.Find?
  }

  /** Event `b` is the second lock section of task `i`. */
  ghost predicate TakesAt(l: Limits, events: seq<Event>, b: nat, i: nat) {
    Mover(l, events, b).Some? && events[b].task == i && Mover(l, events, b).value.pc.Get?
  }

  /** Event `m` builds connection `c`, for the identity of the task that moves. */
  ghost predicate BuildsAt(l: Limits, events: seq<Event>, m: nat, c: nat) {
    && Mover(l, events, m).Some? && Created(Run(l, events[..m]).value, events[m])
    && |Run(l, events[..m]).value.conns| == c
  }

  predicate Created(st: State, e: Event) {
    e.Go? && e.task < |st.tasks| && st.tasks[e.task].pc.Get? && Creates(st.tables, st.tasks[e.task].server)
  }

  // ----- what one step changes --------------------------------------------------------------

  lemma StepConns(l: Limits, st: State, e: Event)
    requires Enabled(l, st, e)
    ensures var after := Next(l, st, e);
            && |after.conns| == |st.conns| + (if Created(st, e) then 1 else 0)
            && (forall c :: 0 <= c < |st.conns| ==> after.conns[c].identity == st.conns[c].identity)
            && (Created(st, e) ==> after.conns[|st.conns|].identity == st.tasks[e.task].identity)
  {
  }

  /** Only the moving task changes, and only where it stands. */
  ghost predicate OnlyMoves(st: State, i: nat, after: State) {
    && i < |st.tasks| == |after.tasks| && after.tasks[i] == st.tasks[i].(pc := after.tasks[i].pc)
    && forall j :: 0 <= j < |st.tasks| && j != i ==> after.tasks[j] == st.tasks[j]
  }

  lemma CloseTask(l: Limits, st: State, i: nat)
    requires i < |st.tasks| && st.tasks[i].pc.Retire? && Ready(l, st, st.tasks[i])
    ensures OnlyMoves(st, i, CloseNext(l, st, i))
  {
  }

  lemma StepTask(l: Limits, st: State, i: nat)
    requires Enabled(l, st, Go(i))
    ensures OnlyMoves(st, i, Next(l, st, Go(i)))
  {
    if st.tasks[i].pc.Retire? {
      CloseTask(l, st, i);
    }
  }

  /** What one step may do to the entry of `s`: keep it, drop it, or build it. */
  ghost predicate EntryMoves(st: State, e: Event, after: State, s: Sid) {
    match Lookup(after.tables.managed, s)
    case None => true
    case Some(c) =>
      || (Lookup(st.tables.managed, s) == Some(c)
          && Lookup(after.tables.identities, s) == Lookup(st.tables.identities, s))
      || (c == |st.conns| && Created(st, e) && Lookup(after.tables.identities, s) == Some(st.tasks[e.task].identity))
  }

  lemma CloseManaged(l: Limits, st: State, i: nat, s: Sid)
    requires i < |st.tasks| && st.tasks[i].pc.Retire? && Ready(l, st, st.tasks[i])
    ensures EntryMoves(st, Go(i), CloseNext(l, st, i), s)
  {
  }

  lemma StepManaged(l: Limits, st: State, e: Event, s: Sid)
    requires Enabled(l, st, e)
    ensures EntryMoves(st, e, Next(l, st, e), s)
  {
    if e.Go? && st.tasks[e.task].pc.Retire? {
      CloseManaged(l, st, e.task, s);
    }
  }

  /** Only the end of a close sets an event: the one listed for its server. */
  lemma StepFired(l: Limits, st: State, e: Event, n: nat)
    requires Enabled(l, st, e) && n < |Next(l, st, e).fired| && Next(l, st, e).fired[n]
             && !(n < |st.fired| && st.fired[n])
    ensures e.Go? && st.tasks[e.task].pc == Retire(Unlisting)
            && Lookup(st.tables.events, st.tasks[e.task].server) == Some(n)
  {
    if e.Go? && st.tasks[e.task].pc.Retire? {
      CloseFired(l, st, e.task, n);
    }
  }

  lemma CloseFired(l: Limits, st: State, i: nat, n: nat)
    requires i < |st.tasks| && st.tasks[i].pc.Retire? && Ready(l, st, st.tasks[i])
    requires n < |CloseNext(l, st, i).fired| && CloseNext(l, st, i).fired[n] && !(n < |st.fired| && st.fired[n])
    ensures st.tasks[i].pc == Retire(Unlisting) && Lookup(st.tables.events, st.tasks[i].server) == Some(n)
  {
  }

  // ----- the history of a run ------------------------------------------------------------------

  /** With which event each connection was built, and each task ran its two sections. */
  datatype Log = Log(built: seq<nat>, looked: map<nat, nat>, took: map<nat, nat>)

  function Logged(st: State, e: Event, n: nat, log: Log): Log {
    if !e.Go? || e.task >= |st.tasks| then log
    else match st.tasks[e.task].pc
      case Find => log.(looked := log.looked[e.task := n])
      case Get => log.(took := log.took[e.task := n], built := if Created(st, e) then log.built + [n] else log.built)
      case _ => log
  }

  ghost function LogOf(l: Limits, events: seq<Event>): Log
    requires Run(l, events).Some?
  {
    if events == [] then Log([], map[], map[])
    else
      var n := |events| - 1;
      Logged(Run(l, events[..n]).value, events[n], n, LogOf(l, events[..n]))
  }

  /** The entry listed for the task's server is built for the task's identity, or it was
      built after the task looked. */
  ghost predicate Unseen(st: State, log: Log, t: Task, looked: nat) {
    t.server in st.tables.managed ==>
      var c := st.tables.managed[t.server];
      c < |st.conns| == |log.built| && (st.conns[c].identity == t.identity || looked < log.built[c])
  }

  /** The same of the connection the task was handed. */
  ghost predicate Handed(st: State, log: Log, t: Task, c: nat, looked: nat, took: nat) {
    c < |st.conns| == |log.built| && looked < took
    && (st.conns[c].identity == t.identity || looked < log.built[c] < took)
  }

  ghost predicate Past(st: State, log: Log, n: nat, i: nat)
    requires i < |st.tasks|
  {
    var t := st.tasks[i];
    && (i in log.looked ==> log.looked[i] < n)
    && match t.pc
      case Get => i in log.looked && Unseen(st, log, t, log.looked[i])
      case Queued(c, _) => i in log.looked && i in log.took && Handed(st, log, t, c, log.looked[i], log.took[i])
      case Holding(c, _) => i in log.looked && i in log.took && Handed(st, log, t, c, log.looked[i], log.took[i])
      case Active(c, _) => i in log.looked && i in log.took && Handed(st, log, t, c, log.looked[i], log.took[i])
      case Retire(close) =>
        t.kind.Command? ==>
          && i in log.looked
          && (close.Waiting? && close.event < |st.fired| && st.fired[close.event] ==> Unseen(st, log, t, log.looked[i]))
      case _ => true
  }

  ghost predicate EntryBuilt(st: State, s: Sid) {
    s in st.tables.managed ==>
      && st.tables.managed[s] < |st.conns|
      && Lookup(st.tables.identities, s) == Some(st.conns[st.tables.managed[s]].identity)
  }

  ghost predicate History(st: State, log: Log, n: nat) {
    && |log.built| == |st.conns| && (forall c :: 0 <= c < |log.built| ==> log.built[c] < n)
    && (forall i <- log.looked :: i < |st.tasks|)
    && (forall s: Sid :: EntryBuilt(st, s))
    && (forall i :: 0 <= i < |st.tasks| ==> Past(st, log, n, i))
  }

  lemma EntryStays(l: Limits, st: State, e: Event, s: Sid)
    requires Enabled(l, st, e) && EntryBuilt(st, s)
    ensures EntryBuilt(Next(l, st, e), s)
  {
    StepConns(l, st, e);
    StepManaged(l, st, e, s);
  }

  lemma UnseenStays(l: Limits, st: State, e: Event, log: Log, n: nat, t: Task, looked: nat)
    requires Enabled(l, st, e) && Unseen(st, log, t, looked) && looked < n && |log.built| == |st.conns|
    ensures Unseen(Next(l, st, e), Logged(st, e, n, log), t, looked)
  {
    StepConns(l, st, e);
    StepManaged(l, st, e, t.server);
  }

  lemma HandedStays(l: Limits, st: State, e: Event, log: Log, n: nat, t: Task, c: nat, looked: nat, took: nat)
    requires Enabled(l, st, e) && Handed(st, log, t, c, looked, took)
    ensures Handed(Next(l, st, e), Logged(st, e, n, log), t, c, looked, took)
  {
    StepConns(l, st, e);
  }

  /** A task that does not move keeps its history. */
  lemma PastStays(l: Limits, st: State, e: Event, log: Log, n: nat, j: nat)
    requires Inv(l, st) && Enabled(l, st, e) && j < |st.tasks| && Past(st, log, n, j) && |log.built| == |st.conns|
    requires e.Go? ==> e.task != j
    requires j < |Next(l, st, e).tasks| && Next(l, st, e).tasks[j] == st.tasks[j]
    ensures Past(Next(l, st, e), Logged(st, e, n, log), n + 1, j)
  {
    var t, after := st.tasks[j], Next(l, st, e);
    match t.pc
    case Get => UnseenStays(l, st, e, log, n, t, log.looked[j]);
    case Queued(c, _) => HandedStays(l, st, e, log, n, t, c, log.looked[j], log.took[j]);
    case Holding(c, _) => HandedStays(l, st, e, log, n, t, c, log.looked[j], log.took[j]);
    case Active(c, _) => HandedStays(l, st, e, log, n, t, c, log.looked[j], log.took[j]);
    case Retire(Waiting(v)) =>
      if t.kind.Command? && v < |after.fired| && after.fired[v] {
        if v < |st.fired| && st.fired[v] {
          UnseenStays(l, st, e, log, n, t, log.looked[j]);
        } else {
          ReleasedEntryGone(l, st, e, j, v);
        }
      }
    case _ =>
  }

  /** When the event a task waits for is set, its server has no entry. */
  lemma ReleasedEntryGone(l: Limits, st: State, e: Event, j: nat, v: nat)
    requires Inv(l, st) && Enabled(l, st, e) && j < |st.tasks| && st.tasks[j].pc == Retire(Waiting(v))
    requires v < |Next(l, st, e).fired| && Next(l, st, e).fired[v] && !(v < |st.fired| && st.fired[v])
    ensures st.tasks[j].server !in Next(l, st, e).tables.managed
  {
    StepFired(l, st, e, v);
    assert TaskOk(l, st, st.tasks[j]) && TaskOk(l, st, st.tasks[e.task]);
    assert EventsOk(st.tables.events, st.fired);
    assert st.tasks[e.task].server == st.tasks[j].server;
    StepManaged(l, st, e, st.tasks[j].server);
  }

  /** A task past its two sections: it queues, is admitted or put aside, runs, ends. */
  lemma HeldMoves(l: Limits, st: State, i: nat, log: Log, n: nat)
    requires Inv(l, st) && Enabled(l, st, Go(i)) && Past(st, log, n, i) && |log.built| == |st.conns|
    requires st.tasks[i].pc.Queued? || st.tasks[i].pc.Holding? || st.tasks[i].pc.Active?
    requires OnlyMoves(st, i, Next(l, st, Go(i)))
    ensures Past(Next(l, st, Go(i)), Logged(st, Go(i), n, log), n + 1, i)
  {
    assert TaskOk(l, st, st.tasks[i]);
  }

  lemma PastMoves(l: Limits, st: State, i: nat, log: Log, n: nat)
    requires Inv(l, st) && Enabled(l, st, Go(i)) && Past(st, log, n, i) && |log.built| == |st.conns|
    requires EntryBuilt(st, st.tasks[i].server) && forall c :: 0 <= c < |log.built| ==> log.built[c] < n
    requires OnlyMoves(st, i, Next(l, st, Go(i)))
    ensures Past(Next(l, st, Go(i)), Logged(st, Go(i), n, log), n + 1, i)
  {
    match st.tasks[i].pc
    case Get => TookNow(l, st, i, log, n);
    case Retire(_) => ClosePast(l, st, i, log, n);
    case Queued(_, _) => HeldMoves(l, st, i, log, n);
    case Holding(_, _) => HeldMoves(l, st, i, log, n);
    case Active(_, _) => HeldMoves(l, st, i, log, n);
    case _ =>
  }

  lemma TookNow(l: Limits, st: State, i: nat, log: Log, n: nat)
    requires i < |st.tasks| && st.tasks[i].pc.Get? && Refers(st, st.tasks[i])
    requires Past(st, log, n, i) && |log.built| == |st.conns|
    requires EntryBuilt(st, st.tasks[i].server) && forall c :: 0 <= c < |log.built| ==> log.built[c] < n
    ensures i < |Getting(l, st, i).tasks| && Past(Getting(l, st, i), Logged(st, Go(i), n, log), n + 1, i)
  {
  }

  lemma ClosePast(l: Limits, st: State, i: nat, log: Log, n: nat)
    requires i < |st.tasks| && st.tasks[i].pc.Retire? && Ready(l, st, st.tasks[i]) && TaskOk(l, st, st.tasks[i])
    requires EventsOk(st.tables.events, st.fired) && Past(st, log, n, i)
    requires OnlyMoves(st, i, CloseNext(l, st, i))
    ensures Past(CloseNext(l, st, i), log, n + 1, i)
  {
  }

  lemma StepHistory(l: Limits, st: State, e: Event, log: Log, n: nat)
    requires Inv(l, st) && Enabled(l, st, e) && History(st, log, n)
    ensures History(Next(l, st, e), Logged(st, e, n, log), n + 1)
  {
    var after, later, next := Next(l, st, e), Logged(st, e, n, log), n + 1;
    LogGrows(l, st, e, log, n);
    forall s: Sid ensures EntryBuilt(after, s) {
      assert EntryBuilt(st, s);
      EntryStays(l, st, e, s);
    }
    forall j | 0 <= j < |after.tasks| ensures Past(after, later, next, j) {
      PastStep(l, st, e, log, n, j);
    }
  }

  lemma LogGrows(l: Limits, st: State, e: Event, log: Log, n: nat)
    requires Enabled(l, st, e) && |log.built| == |st.conns|
    requires (forall c :: 0 <= c < |log.built| ==> log.built[c] < n) && (forall i <- log.looked :: i < |st.tasks|)
    ensures var after, later := Next(l, st, e), Logged(st, e, n, log);
            && |later.built| == |after.conns| && (forall c :: 0 <= c < |later.built| ==> later.built[c] < n + 1)
            && (forall i <- later.looked :: i < |after.tasks|)
  {
    StepConns(l, st, e);
    if e.Go? {
      StepTask(l, st, e.task);
    }
  }

  lemma PastStep(l: Limits, st: State, e: Event, log: Log, n: nat, j: nat)
    requires Inv(l, st) && Enabled(l, st, e) && History(st, log, n) && j < |Next(l, st, e).tasks|
    ensures Past(Next(l, st, e), Logged(st, e, n, log), n + 1, j)
  {
    assert j < |st.tasks| ==> Past(st, log, n, j);
    match e
    case Go(i) =>
      StepTask(l, st, i);
      if i == j {
        assert EntryBuilt(st, st.tasks[i].server);
        PastMoves(l, st, i, log, n);
      } else {
        PastStays(l, st, e, log, n, j);
      }
    case Backoff(i) =>
      if i != j {
        PastStays(l, st, e, log, n, j);
      }
    case Arrive(_, _, _) =>
      if j < |st.tasks| {
        PastStays(l, st, e, log, n, j);
      }
  }

  lemma {:induction false} RunHistory(l: Limits, events: seq<Event>)
    requires Run(l, events).Some?
    ensures History(Run(l, events).value, LogOf(l, events), |events|)
  {
    if events != [] {
      var n := |events| - 1;
      RunHistory(l, events[..n]);
      RunKeepsInv(l, events[..n]);
      StepHistory(l, Run(l, events[..n]).value, events[n], LogOf(l, events[..n]), n);
    }
  }

  // ----- what the history says about the run ------------------------------------------------------

  lemma MoverStays(l: Limits, events: seq<Event>, m: nat, n: nat)
    requires n < m <= |events|
    ensures Mover(l, events[..m], n) == Mover(l, events, n) && events[..m][n] == events[n]
            && events[..m][..n] == events[..n]
  {
    assert events[..m][..n] == events[..n];
  }

  /** The recorded indices are those of the sections they stand for. */
  lemma {:induction false} LogIsTrue(l: Limits, events: seq<Event>)
    requires Run(l, events).Some?
    ensures var st, log := Run(l, events).value, LogOf(l, events);
            && (forall i <- log.looked :: LooksAt(l, events, log.looked[i], i))
            && (forall i <- log.took :: TakesAt(l, events, log.took[i], i))
            && |log.built| == |st.conns| && (forall c :: 0 <= c < |log.built| ==> BuildsAt(l, events, log.built[c], c))
  {
    if events != [] {
      var n := |events| - 1;
      var before, log := events[..n], LogOf(l, events[..n]);
      LogIsTrue(l, before);
      StepConns(l, Run(l, before).value, events[n]);
      forall m | 0 <= m < n
        ensures Mover(l, before, m) == Mover(l, events, m) && before[m] == events[m] && before[..m] == events[..m]
      {
        MoverStays(l, events, n, m);
      }
    }
  }

  /** The identity a connection was built for, at whatever event that was. */
  lemma {:induction false} BuiltFor(l: Limits, events: seq<Event>, m: nat, c: nat)
    requires Run(l, events).Some? && BuildsAt(l, events, m, c)
    ensures c < |Run(l, events).value.conns|
            && Run(l, events).value.conns[c].identity == Mover(l, events, m).value.identity
    decreases |events|
  {
    var n := |events| - 1;
    var before := Run(l, events[..n]).value;
    StepConns(l, before, events[n]);
    if m < n {
      MoverStays(l, events, n, m);
      BuiltFor(l, events[..n], m, c);
    }
  }

  predicate Uses(pc: Pc, c: nat) {
    match pc
    case Queued(d, _) => d == c
    case Holding(d, _) => d == c
    case Active(d, _) => d == c
    case _ => false
  }

  /** Between the two lock sections of task `i`, with events `a` and `b`, event `m` builds
      connection `c` for another identity than the task's. */
  ghost predicate ForeignBuild(l: Limits, events: seq<Event>, i: nat, id: Identity, c: nat, a: nat, m: nat, b: nat) {
    && a < m < b && LooksAt(l, events, a, i) && BuildsAt(l, events, m, c) && TakesAt(l, events, b, i)
    && Mover(l, events, m).value.identity != id
  }

  lemma HandedAt(l: Limits, events: seq<Event>, i: nat, c: nat)
    requires Run(l, events).Some? && i < |Run(l, events).value.tasks| && Uses(Run(l, events).value.tasks[i].pc, c)
    ensures var st, log := Run(l, events).value, LogOf(l, events);
            i in log.looked && i in log.took && Handed(st, log, st.tasks[i], c, log.looked[i], log.took[i])
  {
    RunHistory(l, events);
    assert Past(Run(l, events).value, LogOf(l, events), |events|, i);
  }

  /** The connection a command waits for or uses was built for another identity if and
      only if a task with another identity built it between the two lock sections of the
      command's lookup. */
  lemma ForeignEntryIff(l: Limits, events: seq<Event>, i: nat, c: nat)
    requires Run(l, events).Some? && i < |Run(l, events).value.tasks| && Uses(Run(l, events).value.tasks[i].pc, c)
    ensures c < |Run(l, events).value.conns|
    ensures var mine := Run(l, events).value.tasks[i].identity;
            Run(l, events).value.conns[c].identity != mine
            <==> exists a: nat, m: nat, b: nat :: ForeignBuild(l, events, i, mine, c, a, m, b)
  {
    var mine, log := Run(l, events).value.tasks[i].identity, LogOf(l, events);
    HandedAt(l, events, i, c);
    if Run(l, events).value.conns[c].identity != mine {
      LogIsTrue(l, events);
      BuiltFor(l, events, log.built[c], c);
      assert ForeignBuild(l, events, i, mine, c, log.looked[i], log.built[c], log.took[i]);
    }
    forall a: nat, m: nat, b: nat | ForeignBuild(l, events, i, mine, c, a, m, b)
      ensures Run(l, events).value.conns[c].identity != mine
    {
      BuiltFor(l, events, m, c);
    }
  }

  // ----- it does happen --------------------------------------------------------------------------

  lemma RunMore(l: Limits, events: seq<Event>, st: State, e: Event)
    requires Run(l, events) == Some(st) && Enabled(l, st, e)
    ensures Run(l, events + [e]) == Some(Next(l, st, e))
  {
    assert (events + [e])[..|events|] == events;
  }

  /** Two commands that both find no entry: the later one queues on a connection built
      for the other identity. */
  lemma IdentityCanDiffer(l: Limits, s: Sid, mine: Identity, other: Identity) returns (st: State)
    requires mine != other && l.overall >= 2
    ensures Reachable(l, st) && |st.tasks| == 2
    ensures st.tasks[1].pc.Queued? && st.tasks[1].identity == mine
    ensures Installs(st, s, st.tasks[1].pc.conn) && Lookup(st.tables.identities, s) == Some(other)
    ensures st.tasks[1].pc.conn < |st.conns| && st.conns[st.tasks[1].pc.conn].identity == other
    ensures st.tasks == [Task(s, other, Command, Queued(0, 0)), Task(s, mine, Command, Queued(0, 0))]
    ensures st.conns == [Conn(s, other, false)] && st.free == [l.perServer] && st.tables.retiring == {}
  {
    var events: seq<Event> := [];
    st := Initial(l);
    var plan := [Arrive(s, other, Command), Arrive(s, mine, Command), Go(0), Go(1), Go(0), Go(1)];
    for n := 0 to |plan|
      invariant Run(l, events) == Some(st)
      invariant st.tables == Initial(l).tables && st.conns == [] && st.free == [] && st.fired == []
      invariant n >= 1 ==>
                |st.tasks| >= 1
                && st.tasks[0] == Task(s, other, Command, if n < 3 then Start else if n < 5 then Find else Get)
      invariant n >= 2 ==>
                |st.tasks| == 2
                && st.tasks[1] == Task(s, mine, Command, if n < 4 then Start else if n < 6 then Find else Get)
      invariant n == 1 ==> |st.tasks| == 1
      invariant n == 0 ==> st.tasks == []
      invariant st.spare == l.overall - (if n < 3 then 0 else if n < 4 then 1 else 2)
    {
      RunMore(l, events, st, plan[n]);
      events, st := events + [plan[n]], Next(l, st, plan[n]);
    }
    RunMore(l, events, st, Go(0));
    events, st := events + [Go(0)], Next(l, st, Go(0));
    RunMore(l, events, st, Go(1));
    events, st := events + [Go(1)], Next(l, st, Go(1));
  }
}
