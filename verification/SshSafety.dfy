/** What every reachable state of the SSH manager guarantees, and that a close ends. */
module SshSafety {
  import opened Common
  import opened SshManager
  import opened SshRetire

  ghost predicate Reachable(l: Limits, st: State) {
    exists events :: Run(l, events) == Some(st)
  }

  lemma ReachableInv(l: Limits, st: State)
    requires Reachable(l, st)
    ensures Inv(l, st)
  {
    var events :| Run(l, events) == Some(st);
    RunKeepsInv(l, events);
  }

  /** A command past its recheck uses the connection and the slot installed for its
      server, and that connection has not been closed. */
  lemma ActiveUsesInstalled(l: Limits, st: State, i: nat, c: nat, k: nat)
    requires Reachable(l, st) && i < |st.tasks| && st.tasks[i].pc == Active(c, k)
    ensures Lookup(st.tables.managed, st.tasks[i].server) == Some(c)
    ensures Lookup(st.tables.slots, st.tasks[i].server) == Some(k)
    ensures c < |st.conns| && OpenFor(st.tasks[i].server, st.conns[c])
  {
    ReachableInv(l, st);
    assert TaskOk(l, st, st.tasks[i]);
    EntryAt(st, st.tasks[i].server);
  }

  /** When a close reaches the connection it drained, no command of that server is
      active and nobody else holds a permit of the slot. */
  lemma ClosedWhileIdle(l: Limits, st: State, i: nat, c: nat, k: nat, j: nat)
    requires Reachable(l, st) && i < |st.tasks| && st.tasks[i].pc == Retire(Closing(c, k))
    requires j < |st.tasks| && j != i
    ensures st.tasks[j].server == st.tasks[i].server ==> !st.tasks[j].pc.Active?
    ensures SlotOf(st.tasks[j].pc) == Some(k) ==> Units(l, st.tasks[j].pc) == 0
    ensures forall x :: st.tasks[j].pc != Active(c, x)
  {
    ReachableInv(l, st);
    assert TaskOk(l, st, st.tasks[i]) && TaskOk(l, st, st.tasks[j]);
    DrainedAlone(l, st, i, j, k);
    EntryAt(st, st.tasks[j].server);
  }

  /** While an owner drains, the entry stays the one it found: its connection is listed and
      open, so the comparison after the drain never fails and a drained close always
      reaches its connection. */
  lemma DrainedOwn(l: Limits, st: State, i: nat, c: nat, k: nat, a: nat)
    requires Reachable(l, st) && i < |st.tasks| && st.tasks[i].pc == Retire(Draining(c, k, a))
    ensures Lookup(st.tables.managed, st.tasks[i].server) == Some(c)
            && Lookup(st.tables.slots, st.tasks[i].server) == Some(k)
    ensures c < |st.conns| && OpenFor(st.tasks[i].server, st.conns[c])
    ensures a >= l.perServer ==> Enabled(l, st, Go(i)) && Next(l, st, Go(i)).tasks[i].pc == Retire(Closing(c, k))
  {
    ReachableInv(l, st);
    assert TaskOk(l, st, st.tasks[i]);
    EntryAt(st, st.tasks[i].server);
  }

  /** Two tasks never own the close of one server, and a server is refused to new
      commands exactly while somebody owns its close. */
  lemma OneOwner(l: Limits, st: State, s: Sid)
    requires Reachable(l, st)
    ensures forall i, j ::
              0 <= i < |st.tasks| && 0 <= j < |st.tasks| && Owns(s, st.tasks[i]) && Owns(s, st.tasks[j]) ==> i == j
    ensures s in st.tables.retiring <==> exists i :: 0 <= i < |st.tasks| && Owns(s, st.tasks[i])
  {
    ReachableInv(l, st);
    forall i | 0 <= i < |st.tasks| && Owns(s, st.tasks[i])
      ensures s in st.tables.retiring
      ensures forall j :: 0 <= j < |st.tasks| && Owns(s, st.tasks[j]) ==> j == i
    {
      OwnerOfRetiring(st, i, s);
    }
    if s in st.tables.retiring {
      var i := SumWitness(st.tasks, OwnsOf(s));
      assert Owns(s, st.tasks[i]);
    }
  }

  // ----- bounds on running commands ------------------------------------------------------

  function ActiveOn(s: Sid): Task -> nat {
    (t: Task) => if t.pc.Active? && t.server == s then 1 else 0
  }

  function ActiveAnywhere(t: Task): nat {
    if t.pc.Active? then 1 else 0
  }

  /** At most the configured number of commands run per server, whatever connections it
      had before, and at most the overall number on all servers together. */
  lemma InFlightBounds(l: Limits, st: State, s: Sid)
    requires Reachable(l, st)
    ensures Sum(st.tasks, ActiveOn(s)) <= l.perServer
    ensures Sum(st.tasks, ActiveAnywhere) <= l.overall
    ensures |st.tables.managed| <= MAX_MANAGED
  {
    ReachableInv(l, st);
    forall t <- st.tasks
      ensures ActiveAnywhere(t) <= Inside(t)
      ensures s in st.tables.managed ==> ActiveOn(s)(t) <= HeldOf(l, st.tables.managed[s])(t)
      ensures s !in st.tables.managed ==> ActiveOn(s)(t) == 0
    {
      var j :| 0 <= j < |st.tasks| && st.tasks[j] == t;
      assert TaskOk(l, st, st.tasks[j]);
      ActiveHolds(l, st, s, t);
    }
    SumMonotone(st.tasks, ActiveAnywhere, Inside);
    if s in st.tables.managed {
      EntryAt(st, s);
      SumMonotone(st.tasks, ActiveOn(s), HeldOf(l, st.tables.managed[s]));
    } else {
      SumZero(st.tasks, ActiveOn(s));
    }
  }

  lemma ActiveHolds(l: Limits, st: State, s: Sid, t: Task)
    requires TaskOk(l, st, t)
    ensures ActiveAnywhere(t) <= Inside(t)
    ensures s in st.tables.managed ==> ActiveOn(s)(t) <= HeldOf(l, st.tables.managed[s])(t)
    ensures s !in st.tables.managed ==> ActiveOn(s)(t) == 0
  {
  }

  /** While a server retires no command gets past its recheck and none joins the queue:
      whoever runs or queues afterwards did so before. */
  lemma NothingStartsWhileRetiring(l: Limits, st: State, e: Event, j: nat)
    requires Enabled(l, st, e) && j < |Next(l, st, e).tasks|
    requires Next(l, st, e).tasks[j].server in st.tables.retiring
    ensures var pc := Next(l, st, e).tasks[j].pc;
            pc.Active? || pc.Queued? ==> j < |st.tasks| && st.tasks[j].pc == pc
  {
    if e.Go? {
      OnlyTaskMoves(l, st, e.task);
      if j == e.task {
        RefusedWhileRetiring(l, st, j);
      }
    }
  }

  lemma OnlyTaskMoves(l: Limits, st: State, i: nat)
    requires Enabled(l, st, Go(i))
    ensures |Next(l, st, Go(i)).tasks| == |st.tasks|
    ensures forall j :: 0 <= j < |st.tasks| && j != i ==> Next(l, st, Go(i)).tasks[j] == st.tasks[j]
    ensures Next(l, st, Go(i)).tasks[i].server == st.tasks[i].server
  {
  }

  lemma RefusedWhileRetiring(l: Limits, st: State, i: nat)
    requires Enabled(l, st, Go(i)) && st.tasks[i].server in st.tables.retiring
    ensures i < |Next(l, st, Go(i)).tasks|
    ensures var pc := Next(l, st, Go(i)).tasks[i].pc; !pc.Active? && !pc.Queued?
  {
    if st.tasks[i].pc.Retire? {
      CloseNotActive(l, st, i);
    }
  }

  lemma CloseNotActive(l: Limits, st: State, i: nat)
    requires i < |st.tasks| && st.tasks[i].pc.Retire? && Ready(l, st, st.tasks[i])
    ensures i < |CloseNext(l, st, i).tasks|
    ensures var pc := CloseNext(l, st, i).tasks[i].pc; pc.Retire? || pc.Get? || pc.Done?
  {
  }

  // ----- a close ends ----------------------------------------------------------------------

  /** What is left to do before the close of server `s` ends. */
  function Left(l: Limits, s: Sid, t: Task): nat {
    if t.server != s then 0
    else match t.pc
      case Queued(_, _) => 3
      case Holding(_, _) => 2
      case Active(_, _) => 1
      case Retire(Dropping) => 2
      case Retire(Draining(_, _, a)) => (if a < l.perServer then l.perServer - a else 0) + 4
      case Retire(Closing(_, _)) => 3
      case Retire(Releasing(_, _)) => 2
      case Retire(Unlisting) => 1
      case _ => 0
  }

  function LeftOf(l: Limits, s: Sid): Task -> nat {
    (t: Task) => Left(l, s, t)
  }

  ghost function Work(l: Limits, s: Sid, st: State): nat {
    Sum(st.tasks, LeftOf(l, s))
  }

  /** A step that works towards the end of the close of `s`. */
  predicate Drains(l: Limits, s: Sid, st: State, e: Event) {
    e.Go? && e.task < |st.tasks| && Left(l, s, st.tasks[e.task]) > 0
  }

  lemma TaskDrains(l: Limits, s: Sid, st: State, i: nat, after: State)
    requires Enabled(l, st, Go(i)) && after == Next(l, st, Go(i))
    requires s in st.tables.retiring && s in st.tables.events && TaskOk(l, st, st.tasks[i])
    ensures |after.tasks| == |st.tasks| && after.tasks == st.tasks[i := after.tasks[i]]
    ensures Left(l, s, after.tasks[i]) <= Left(l, s, st.tasks[i])
    ensures Drains(l, s, st, Go(i)) ==> Left(l, s, after.tasks[i]) < Left(l, s, st.tasks[i])
  {
  }

  /** While a server retires, no step of anybody adds work to its close, and every step
      of the commands and the owner it waits for takes some away. */
  lemma StepDrains(l: Limits, s: Sid, st: State, e: Event)
    requires Inv(l, st) && Enabled(l, st, e) && s in st.tables.retiring
    ensures Work(l, s, Next(l, st, e)) <= Work(l, s, st)
    ensures Drains(l, s, st, e) ==> Work(l, s, Next(l, st, e)) < Work(l, s, st)
  {
    var after := Next(l, st, e);
    match e
    case Arrive(_, _, _) => SumAppend(st.tasks, after.tasks[|st.tasks|], LeftOf(l, s));
    case Backoff(i) => SumUpdate(st.tasks, i, after.tasks[i], LeftOf(l, s));
    case Go(i) =>
      assert TaskOk(l, st, st.tasks[i]);
      TaskDrains(l, s, st, i, after);
      SumUpdate(st.tasks, i, after.tasks[i], LeftOf(l, s));
  }

  /** The events `more` are possible from `st`, and `s` retires until the last of them. */
  ghost predicate Retires(l: Limits, s: Sid, st: State, more: seq<Event>)
    decreases |more|
  {
    more != [] ==>
      && Enabled(l, st, more[0]) && s in st.tables.retiring
      && Retires(l, s, Next(l, st, more[0]), more[1..])
  }

  ghost function DrainSteps(l: Limits, s: Sid, st: State, more: seq<Event>): nat
    requires Retires(l, s, st, more)
    decreases |more|
  {
    if more == [] then 0
    else (if Drains(l, s, st, more[0]) then 1 else 0) + DrainSteps(l, s, Next(l, st, more[0]), more[1..])
  }

  lemma {:induction false} DrainStepsBounded(l: Limits, s: Sid, st: State, more: seq<Event>)
    requires Inv(l, st) && Retires(l, s, st, more)
    ensures DrainSteps(l, s, st, more) <= Work(l, s, st)
    decreases |more|
  {
    if more != [] {
      StepDrains(l, s, st, more[0]);
      StepKeepsInv(l, st, more[0]);
      DrainStepsBounded(l, s, Next(l, st, more[0]), more[1..]);
    }
  }

  /** Another task than the owner holds a permit the owner still lacks: a command of the
      same server that is about to recheck or runs. */
  lemma Straggler(l: Limits, st: State, i: nat, c: nat, k: nat, a: nat) returns (j: nat)
    requires Inv(l, st) && i < |st.tasks| && st.tasks[i].pc == Retire(Draining(c, k, a)) && a < l.perServer
    requires k < |st.free| && st.free[k] == 0
    ensures j < |st.tasks| && Left(l, st.tasks[i].server, st.tasks[j]) > 0 && Ready(l, st, st.tasks[j])
  {
    var s, idle := st.tasks[i].server, st.tasks[i].(pc := Done);
    SumUpdate(st.tasks, i, idle, HeldOf(l, k));
    j := SumWitness(st.tasks[i := idle], HeldOf(l, k));
    assert j != i && HeldOf(l, k)(st.tasks[j]) == Held(l, k, st.tasks[j]) > 0;
    assert TaskOk(l, st, st.tasks[i]) && TaskOk(l, st, st.tasks[j]);
    EntryAt(st, s);
    EntryAt(st, st.tasks[j].server);
    assert st.tasks[j].server == s;
    OwnerOfRetiring(st, i, s);
  }

  /** A close is never stuck: while a server retires, some step that works towards the
      end of its close is possible. */
  lemma CloseNeverStuck(l: Limits, st: State, s: Sid) returns (e: Event)
    requires Reachable(l, st) && s in st.tables.retiring
    ensures Enabled(l, st, e) && Drains(l, s, st, e)
  {
    ReachableInv(l, st);
    var i := SumWitness(st.tasks, OwnsOf(s));
    assert Owns(s, st.tasks[i]) && TaskOk(l, st, st.tasks[i]);
    EntryAt(st, s);
    e := Go(i);
    match st.tasks[i].pc.close {
      case Draining(c, k, a) =>
        if a < l.perServer && st.free[k] == 0 {
          var j := Straggler(l, st, i, c, k, a);
          e := Go(j);
        }
      case _ =>
    }
  }

  /** In any run during which a server keeps retiring, at most `Work` steps are steps of
      its close; so with every task allowed to run, the close ends. */
  lemma CloseEnds(l: Limits, st: State, s: Sid, more: seq<Event>)
    requires Reachable(l, st) && Retires(l, s, st, more)
    ensures DrainSteps(l, s, st, more) <= Work(l, s, st)
  {
    ReachableInv(l, st);
    DrainStepsBounded(l, s, st, more);
  }

  /** Once a server no longer retires, everybody who waited for its close can go on. */
  lemma WaitersReleased(l: Limits, st: State, i: nat)
    requires Reachable(l, st) && i < |st.tasks| && st.tasks[i].pc.Retire? && st.tasks[i].pc.close.Waiting?
    requires st.tasks[i].server !in st.tables.retiring
    ensures Ready(l, st, st.tasks[i])
  {
    ReachableInv(l, st);
    assert TaskOk(l, st, st.tasks[i]);
  }
}
