/** Every order of reconciliations, demand changes and worker steps between start and
    stop: whose telemetry is held, one worker per server, no lost wake-up. */
module SchedulerRuns {
  import opened Common
  import opened Telemetry
  import opened DemandScheduler

  function Initial(): State {
    State(map[], map[], map[], [], 0, 0, {}, Empty())
  }

  // ----- steps -------------------------------------------------------------------------

  /** What a worker does between two awaits. */
  datatype Act = Begin | Look | Store(change: Change) | Sleep | Rouse | Finish

  /** A cancelled task only finishes; any other one may also fail and finish. */
  predicate Can(w: Worker, act: Act) {
    match act
    case Begin => w.phase.Created? && !w.cancelled
    case Rouse => w.phase.Waiting? && !w.cancelled
    case Finish => !w.phase.Ended? && (w.phase.Created? ==> w.cancelled)
    case _ => w.phase.Busy? && !w.cancelled
  }

  function Unregistered(a: State, k: nat): map<Id, nat>
    requires k < |a.tasks|
  {
    var id := a.tasks[k].record.id;
    if Lookup(a.wakeups, id) == Some(k) then a.wakeups - {id} else a.wakeups
  }

  function With(a: State, k: nat, phase: Phase, woken: bool): State
    requires k < |a.tasks|
  {
    a.(tasks := a.tasks[k := a.tasks[k].(phase := phase, woken := woken)])
  }

  /** `Sleep` clears the event and only then compares the revision it has observed. */
  function Acted(a: State, k: nat, act: Act): State
    requires k < |a.tasks| && Can(a.tasks[k], act)
  {
    var w := a.tasks[k];
    match act
    case Begin => With(a, k, Busy(-1), false).(wakeups := a.wakeups[w.record.id := k])
    case Look => With(a, k, Busy(a.revision), w.woken)
    case Store(change) => a.(data := Updated(a.data, w.record.id, w.record.endpoint, change))
    case Sleep => With(a, k, if w.phase.observed == a.revision then Waiting(w.phase.observed) else w.phase, false)
    case Rouse => With(a, k, Busy(w.phase.observed), w.woken)
    case Finish => With(a, k, Ended, w.woken).(wakeups := Unregistered(a, k))
  }

  datatype Event = Registry(list: seq<Record>) | Demand(clients: int, detail: set<Id>) | Work(task: nat, act: Act)

  ghost predicate Step(a: State, e: Event, b: State) {
    match e
    case Registry(list) => Reconciled(a, EnabledOf(list), b)
    case Demand(clients, detail) => Demanded(a, clients, detail, b)
    case Work(k, act) => k < |a.tasks| && Can(a.tasks[k], act) && b == Acted(a, k, act)
  }

  /** The states of a run: the initial one, then one after each event. */
  ghost predicate Run(events: seq<Event>, states: seq<State>) {
    && |states| == |events| + 1 && states[0] == Initial()
    && forall i :: 0 <= i < |events| ==> Step(states[i], events[i], states[i + 1])
  }

  // ----- the invariant -----------------------------------------------------------------

  ghost predicate ListOk(a: State) {
    && Indexed(a) && a.records.Keys == a.workers.Keys
    && (forall id <- a.workers ::
          && !a.tasks[a.workers[id]].cancelled
          && a.tasks[a.workers[id]].record.endpoint == a.records[id].endpoint
          && a.tasks[a.workers[id]].record.interval == a.records[id].interval)
  }

  /** Task `k`, unless cancelled or ended, is its server's listed worker; once begun its
      event is the registered one; blocked on the unset event it knows the demand. */
  ghost predicate TaskOk(a: State, k: nat)
    requires k < |a.tasks|
  {
    var w := a.tasks[k];
    !w.cancelled && !w.phase.Ended? ==>
      && Lookup(a.workers, w.record.id) == Some(k)
      && (!w.phase.Created? ==> Lookup(a.wakeups, w.record.id) == Some(k))
      && (w.phase.Waiting? && !w.woken ==> w.phase.observed == a.revision)
  }

  ghost predicate TasksOk(a: State) {
    forall k :: 0 <= k < |a.tasks| ==> TaskOk(a, k)
  }

  /** All data held for `id` comes from its record's endpoint, and there is none without
      a record. */
  ghost predicate DataOk(a: State, id: Id) {
    var held := ServerOf(a.data, id).sources + Sources(a.data.history, id) + Sources(a.data.baselines, id);
    && (if id in a.records then held <= {a.records[id].endpoint} else id !in a.data.servers)
    && (id in a.data.history || id in a.data.baselines ==> id in a.data.servers)
  }

  ghost predicate AllDataOk(a: State) {
    forall id: Id :: DataOk(a, id)
  }

  ghost predicate Inv(a: State) {
    ListOk(a) && TasksOk(a) && AllDataOk(a)
  }

  // ----- a reconciliation keeps it --------------------------------------------------------

  ghost predicate ListedAt(b: State, id: Id) {
    && id in b.workers && id in b.records && b.workers[id] < |b.tasks|
    && b.tasks[b.workers[id]].record.id == id && !b.tasks[b.workers[id]].cancelled
    && b.tasks[b.workers[id]].record.endpoint == b.records[id].endpoint
    && b.tasks[b.workers[id]].record.interval == b.records[id].interval
  }

  lemma WorkerReconciled(a: State, enabled: map<Id, Record>, b: State, id: Id)
    requires id in enabled && enabled[id].id == id && b.records == enabled && Staffed(a, enabled[id], b)
    requires id in a.workers ==> ListedAt(a, id) && Carried(a, enabled, b, a.workers[id])
    ensures ListedAt(b, id)
  {
  }

  lemma ListFrom(b: State)
    requires b.records.Keys == b.workers.Keys && (forall id <- b.wakeups :: b.wakeups[id] < |b.tasks|)
    requires forall id <- b.workers :: ListedAt(b, id)
    ensures ListOk(b)
  {
    forall id <- b.workers
      ensures b.workers[id] < |b.tasks| && b.tasks[b.workers[id]].record.id == id
      ensures !b.tasks[b.workers[id]].cancelled
      ensures b.tasks[b.workers[id]].record.endpoint == b.records[id].endpoint
      ensures b.tasks[b.workers[id]].record.interval == b.records[id].interval
    {
      assert ListedAt(b, id);
    }
  }

  lemma ReconciledList(a: State, enabled: map<Id, Record>, b: State)
    requires ListOk(a) && Keyed(enabled) && Reconciled(a, enabled, b)
    ensures ListOk(b)
  {
    forall id <- b.workers ensures ListedAt(b, id) {
      assert Staffed(a, enabled[id], b);
      if id in a.workers {
        assert Carried(a, enabled, b, a.workers[id]);
      }
      WorkerReconciled(a, enabled, b, id);
    }
    ListFrom(b);
  }

  lemma TaskReconciled(a: State, enabled: map<Id, Record>, b: State, k: nat)
    requires ListOk(a) && Keyed(enabled) && Reconciled(a, enabled, b) && k < |b.tasks|
    requires k < |a.tasks| ==> TaskOk(a, k)
    ensures TaskOk(b, k)
  {
    if k < |a.tasks| {
      var id := a.tasks[k].record.id;
      assert Carried(a, enabled, b, k);
      assert id in enabled ==> Staffed(a, enabled[id], b);
    } else {
      assert NewTask(enabled, b, k);
    }
  }

  lemma DataReconciled(a: State, enabled: map<Id, Record>, b: State, id: Id)
    requires DataOk(a, id) && Keyed(enabled) && b.records == enabled
    requires b.data ==
             Without(Without(a.data, MovedIds(a, enabled)), (a.data.servers.Keys - MovedIds(a, enabled)) - enabled.Keys)
    ensures DataOk(b, id)
  {
    assert id in MovedIds(a, enabled) <==> id in enabled && Moved(a, enabled[id]);
  }

  lemma RegistryStep(a: State, enabled: map<Id, Record>, b: State)
    requires Inv(a) && Keyed(enabled) && Reconciled(a, enabled, b)
    ensures Inv(b)
  {
    ReconciledList(a, enabled, b);
    forall k | 0 <= k < |b.tasks| ensures TaskOk(b, k) {
      TaskReconciled(a, enabled, b, k);
    }
    forall id: Id ensures DataOk(b, id) {
      assert DataOk(a, id);
      DataReconciled(a, enabled, b, id);
    }
  }

  // ----- a change of demand keeps it ---------------------------------------------------------

  lemma TaskDemanded(a: State, clients: int, detail: set<Id>, b: State, k: nat)
    requires k < |a.tasks| == |b.tasks| && TaskOk(a, k) && Demanded(a, clients, detail, b)
    ensures TaskOk(b, k) && b.tasks[k] == a.tasks[k].(woken := b.tasks[k].woken)
  {
    if Lookup(a.wakeups, a.tasks[k].record.id) == Some(k) {
      assert a.wakeups[a.tasks[k].record.id] == k;
      assert k in a.wakeups.Values;
    }
  }

  lemma DemandStep(a: State, clients: int, detail: set<Id>, b: State)
    requires Inv(a) && Demanded(a, clients, detail, b)
    ensures Inv(b)
  {
    assert |b.tasks| == |a.tasks|;
    forall k | 0 <= k < |b.tasks| ensures TaskOk(b, k) && b.tasks[k] == a.tasks[k].(woken := b.tasks[k].woken) {
      TaskDemanded(a, clients, detail, b, k);
    }
    forall id: Id ensures DataOk(b, id) {
      assert DataOk(a, id);
    }
  }

  // ----- a worker's step keeps it --------------------------------------------------------------

  lemma ActedTask(a: State, k: nat, act: Act, b: State, j: nat)
    requires k < |a.tasks| && j < |a.tasks| && Can(a.tasks[k], act) && b == Acted(a, k, act)
    requires TaskOk(a, k) && TaskOk(a, j)
    ensures TaskOk(b, j)
  {
  }

  lemma ActedList(a: State, k: nat, act: Act, b: State)
    requires ListOk(a) && k < |a.tasks| && Can(a.tasks[k], act) && b == Acted(a, k, act)
    ensures ListOk(b)
  {
    assert |b.tasks| == |a.tasks| && b.workers == a.workers && b.records == a.records;
    forall j | 0 <= j < |a.tasks|
      ensures b.tasks[j].record == a.tasks[j].record && b.tasks[j].cancelled == a.tasks[j].cancelled
    {
    }
  }

  lemma ActedData(a: State, k: nat, act: Act, b: State, id: Id)
    requires ListOk(a) && k < |a.tasks| && Can(a.tasks[k], act) && b == Acted(a, k, act)
    requires TaskOk(a, k) && DataOk(a, id)
    ensures DataOk(b, id)
  {
  }

  lemma WorkStep(a: State, k: nat, act: Act, b: State)
    requires Inv(a) && k < |a.tasks| && Can(a.tasks[k], act) && b == Acted(a, k, act)
    ensures Inv(b)
  {
    ActedList(a, k, act, b);
    assert |b.tasks| == |a.tasks|;
    forall j | 0 <= j < |b.tasks| ensures TaskOk(b, j) {
      assert TaskOk(a, k) && TaskOk(a, j);
      ActedTask(a, k, act, b, j);
    }
    forall id: Id ensures DataOk(b, id) {
      assert TaskOk(a, k) && DataOk(a, id);
      ActedData(a, k, act, b, id);
    }
  }

  // ----- all runs --------------------------------------------------------------------------------

  lemma StepKeepsInv(a: State, e: Event, b: State)
    requires Inv(a) && Step(a, e, b)
    ensures Inv(b)
  {
    match e {
      case Registry(list) =>
        EnabledKeyed(list);
        RegistryStep(a, EnabledOf(list), b);
      case Demand(clients, detail) => DemandStep(a, clients, detail, b);
      case Work(k, act) => WorkStep(a, k, act, b);
    }
  }

  lemma {:induction false} RunKeepsInv(events: seq<Event>, states: seq<State>, i: nat)
    requires Run(events, states) && i < |states|
    ensures Inv(states[i])
  {
    if i > 0 {
      RunKeepsInv(events, states, i - 1);
      assert Step(states[i - 1], events[i - 1], states[i - 1 + 1]);
      StepKeepsInv(states[i - 1], events[i - 1], states[i]);
    }
  }

  /** Between start and stop: everything held for an enabled server was collected under
      its current endpoint, and nothing is held for any other server. */
  lemma HeldUnderCurrentEndpoint(events: seq<Event>, states: seq<State>, i: nat, id: Id)
    requires Run(events, states) && i < |states|
    ensures var a := states[i];
            if id in a.records then
              && ServerOf(a.data, id).sources <= {a.records[id].endpoint}
              && Sources(a.data.history, id) <= {a.records[id].endpoint}
              && Sources(a.data.baselines, id) <= {a.records[id].endpoint}
            else id !in a.data.servers && id !in a.data.history && id !in a.data.baselines
  {
    RunKeepsInv(events, states, i);
    assert DataOk(states[i], id);
  }

  /** At most one task per server can still run: the listed one. */
  lemma OneWorkerPerServer(events: seq<Event>, states: seq<State>, i: nat, j: nat, k: nat)
    requires Run(events, states) && i < |states| && j < |states[i].tasks| && k < |states[i].tasks|
    requires states[i].tasks[j].record.id == states[i].tasks[k].record.id
    requires !states[i].tasks[j].cancelled && !states[i].tasks[j].phase.Ended?
    requires !states[i].tasks[k].cancelled && !states[i].tasks[k].phase.Ended?
    ensures j == k && Lookup(states[i].workers, states[i].tasks[k].record.id) == Some(k)
    ensures states[i].tasks[k].record.id in states[i].records
  {
    RunKeepsInv(events, states, i);
    assert TaskOk(states[i], j) && TaskOk(states[i], k);
  }

  /** In every state, a worker that can still run samples the endpoint of its server's
      record, at the interval of that record. */
  lemma WorkersFollowRecords(events: seq<Event>, states: seq<State>, i: nat, k: nat)
    requires Run(events, states) && i < |states| && k < |states[i].tasks|
    requires !states[i].tasks[k].cancelled && !states[i].tasks[k].phase.Ended?
    ensures var a, w := states[i], states[i].tasks[k].record;
            w.id in a.records && w.endpoint == a.records[w.id].endpoint && w.interval == a.records[w.id].interval
  {
    RunKeepsInv(events, states, i);
    assert TaskOk(states[i], k);
  }

  /** A reconciliation cancels a running worker if and only if its server is no longer
      enabled, or enabled with another endpoint or interval than the worker's own; any
      other running worker goes on untouched, as the listed one. */
  lemma CancelledIff(events: seq<Event>, states: seq<State>, i: nat, list: seq<Record>, k: nat)
    requires Run(events, states) && i < |events| && events[i] == Registry(list)
    requires k < |states[i].tasks| && !states[i].tasks[k].cancelled && !states[i].tasks[k].phase.Ended?
    ensures k < |states[i + 1].tasks|
    ensures var w, enabled := states[i].tasks[k].record, EnabledOf(list);
            if w.id in enabled && enabled[w.id].endpoint == w.endpoint && enabled[w.id].interval == w.interval then
              states[i + 1].tasks[k] == states[i].tasks[k] && Lookup(states[i + 1].workers, w.id) == Some(k)
            else states[i + 1].tasks[k] == states[i].tasks[k].(cancelled := true)
  {
    RunKeepsInv(events, states, i);
    assert Step(states[i], events[i], states[i + 1]);
    EnabledKeyed(list);
    OneCancelled(states[i], EnabledOf(list), states[i + 1], k);
  }

  lemma OneCancelled(a: State, enabled: map<Id, Record>, b: State, k: nat)
    requires Inv(a) && Keyed(enabled) && Reconciled(a, enabled, b)
    requires k < |a.tasks| && !a.tasks[k].cancelled && !a.tasks[k].phase.Ended?
    ensures k < |b.tasks|
    ensures var w := a.tasks[k].record;
            if w.id in enabled && enabled[w.id].endpoint == w.endpoint && enabled[w.id].interval == w.interval then
              b.tasks[k] == a.tasks[k] && Lookup(b.workers, w.id) == Some(k)
            else b.tasks[k] == a.tasks[k].(cancelled := true)
  {
    assert TaskOk(a, k) && Carried(a, enabled, b, k);
    if a.tasks[k].record.id in enabled {
      assert Staffed(a, enabled[a.tasks[k].record.id], b);
    }
  }

  /** After a reconciliation every enabled server has a worker that can run, for the
      endpoint and interval of its record. */
  lemma EveryEnabledWorks(events: seq<Event>, states: seq<State>, i: nat, list: seq<Record>, id: Id)
    requires Run(events, states) && i < |events| && events[i] == Registry(list) && id in EnabledOf(list)
    ensures var b := states[i + 1];
            && id in b.workers && b.workers[id] < |b.tasks|
            && var w := b.tasks[b.workers[id]];
               && !w.cancelled && !w.phase.Ended? && w.record.id == id
               && w.record.endpoint == EnabledOf(list)[id].endpoint && w.record.interval == EnabledOf(list)[id].interval
  {
    RunKeepsInv(events, states, i);
    assert Step(states[i], events[i], states[i + 1]);
    EnabledKeyed(list);
    OneStaffed(states[i], EnabledOf(list), states[i + 1], id);
  }

  lemma OneStaffed(a: State, enabled: map<Id, Record>, b: State, id: Id)
    requires Inv(a) && Keyed(enabled) && Reconciled(a, enabled, b) && id in enabled
    ensures && id in b.workers && b.workers[id] < |b.tasks|
            && var w := b.tasks[b.workers[id]];
               && !w.cancelled && !w.phase.Ended? && w.record.id == id
               && w.record.endpoint == enabled[id].endpoint && w.record.interval == enabled[id].interval
  {
    assert Staffed(a, enabled[id], b);
    if id in a.workers {
      assert Carried(a, enabled, b, a.workers[id]);
    }
  }

  /** A reconciliation keeps everything held for a server that stays enabled at the endpoint
      it was collected from, and drops everything held for any other. */
  lemma DataKeptIff(events: seq<Event>, states: seq<State>, i: nat, list: seq<Record>, id: Id)
    requires Run(events, states) && i < |events| && events[i] == Registry(list)
    ensures var a, b, enabled := states[i], states[i + 1], EnabledOf(list);
            if id in enabled && id in a.records && enabled[id].endpoint == a.records[id].endpoint then
              && Lookup(b.data.servers, id) == Lookup(a.data.servers, id)
              && Lookup(b.data.history, id) == Lookup(a.data.history, id)
              && Lookup(b.data.baselines, id) == Lookup(a.data.baselines, id)
            else id !in b.data.servers && id !in b.data.history && id !in b.data.baselines
  {
    RunKeepsInv(events, states, i);
    assert Step(states[i], events[i], states[i + 1]) && DataOk(states[i], id);
    EnabledKeyed(list);
    OneDataKept(states[i], EnabledOf(list), states[i + 1], id);
  }

  lemma OneDataKept(a: State, enabled: map<Id, Record>, b: State, id: Id)
    requires DataOk(a, id) && Keyed(enabled) && b.records == enabled
    requires b.data == Without(Without(a.data, MovedIds(a, enabled)),
                               (a.data.servers.Keys - MovedIds(a, enabled)) - enabled.Keys)
    ensures if id in enabled && id in a.records && enabled[id].endpoint == a.records[id].endpoint then
              && Lookup(b.data.servers, id) == Lookup(a.data.servers, id)
              && Lookup(b.data.history, id) == Lookup(a.data.history, id)
              && Lookup(b.data.baselines, id) == Lookup(a.data.baselines, id)
            else id !in b.data.servers && id !in b.data.history && id !in b.data.baselines
  {
    var mid, gone := Without(a.data, MovedIds(a, enabled)), (a.data.servers.Keys - MovedIds(a, enabled)) - enabled.Keys;
    WithoutAt(a.data, MovedIds(a, enabled), id);
    WithoutAt(mid, gone, id);
  }

  /** A demand that differs in clients, not counted below zero, or in the servers shown wakes
      every blocked worker; one that differs in neither changes nothing. */
  lemma DemandWakes(events: seq<Event>, states: seq<State>, i: nat, clients: int, detail: set<Id>, k: nat)
    requires Run(events, states) && i < |events| && events[i] == Demand(clients, detail) && k < |states[i].tasks|
    requires !states[i].tasks[k].cancelled && states[i].tasks[k].phase.Waiting?
    ensures var a, b, now := states[i], states[i + 1], if clients < 0 then 0 else clients;
            && b.clients == now && b.detail == detail && k < |b.tasks|
            && if now != a.clients || detail != a.detail then
                 b.revision == a.revision + 1 && b.tasks[k] == a.tasks[k].(woken := true)
               else b == a
  {
    RunKeepsInv(events, states, i);
    assert Step(states[i], events[i], states[i + 1]);
    assert TaskOk(states[i], k);
    OneWoken(states[i], clients, detail, states[i + 1], k);
  }

  lemma OneWoken(a: State, clients: int, detail: set<Id>, b: State, k: nat)
    requires k < |a.tasks| && TaskOk(a, k) && Demanded(a, clients, detail, b)
    requires !a.tasks[k].cancelled && a.tasks[k].phase.Waiting?
    ensures var now := if clients < 0 then 0 else clients;
            && b.clients == now && b.detail == detail && k < |b.tasks|
            && if now != a.clients || detail != a.detail then
                 b.revision == a.revision + 1 && b.tasks[k] == a.tasks[k].(woken := true)
               else b == a
  {
    assert a.wakeups[a.tasks[k].record.id] == k;
  }

  /** No wake-up is lost: a worker blocked on its unset event has observed the current
      demand revision, so a change of demand leaves no worker blocked on an unset event. */
  lemma NoLostWakeup(events: seq<Event>, states: seq<State>, i: nat, k: nat)
    requires Run(events, states) && i < |states| && k < |states[i].tasks|
    requires !states[i].tasks[k].cancelled && states[i].tasks[k].phase.Waiting?
    ensures states[i].tasks[k].woken || states[i].tasks[k].phase.observed == states[i].revision
    ensures i > 0 && states[i].revision > states[i - 1].revision ==> states[i].tasks[k].woken
  {
    RunKeepsInv(events, states, i);
    assert TaskOk(states[i], k);
    if i > 0 && states[i].revision > states[i - 1].revision {
      RunKeepsInv(events, states, i - 1);
      assert Step(states[i - 1], events[i - 1], states[i - 1 + 1]);
      DemandLeavesNobody(states[i - 1], events[i - 1], states[i], k);
    }
  }

  lemma DemandLeavesNobody(a: State, e: Event, b: State, k: nat)
    requires Inv(a) && Step(a, e, b) && b.revision > a.revision && k < |b.tasks|
    requires !b.tasks[k].cancelled && b.tasks[k].phase.Waiting?
    ensures b.tasks[k].woken
  {
    assert e.Demand? && Woken(a, b);
    assert TaskOk(a, k);
    assert a.wakeups[a.tasks[k].record.id] == k;
  }

  // ----- across a stop ---------------------------------------------------------------------------

  /** After `stop` every task has ended and the records are forgotten; the telemetry is
      not touched. */
  function Stopped(a: State): State {
    a.(records := map[], workers := map[], wakeups := map[],
       tasks := seq(|a.tasks|, k requires 0 <= k < |a.tasks| => a.tasks[k].(cancelled := true, phase := Ended)))
  }

  /** After a stop and a new reconciliation the held telemetry is again the enabled
      servers' own exactly when no enabled server with held data changed its endpoint
      while the scheduler was stopped. */
  lemma RestartIff(a: State, enabled: map<Id, Record>, c: State)
    requires Inv(a) && Keyed(enabled) && Reconciled(Stopped(a), enabled, c)
    ensures AllDataOk(c)
            <==> forall id: Id :: id in enabled && Held(a, id) != {} ==> enabled[id].endpoint == a.records[id].endpoint
  {
    StoppedData(a, enabled, c);
    forall id: Id
      ensures DataOk(c, id) <==> (id in enabled && Held(a, id) != {} ==> enabled[id].endpoint == a.records[id].endpoint)
    {
      assert DataOk(a, id);
      RestartOne(a, enabled, c, id);
    }
  }

  ghost function Held(a: State, id: Id): (held: set<Endpoint>)
    ensures DataOk(a, id) && held != {} ==> id in a.records && held == {a.records[id].endpoint}
  {
    ServerOf(a.data, id).sources + Sources(a.data.history, id) + Sources(a.data.baselines, id)
  }

  lemma StoppedData(a: State, enabled: map<Id, Record>, c: State)
    requires Reconciled(Stopped(a), enabled, c)
    ensures c.records == enabled && c.data == Without(a.data, a.data.servers.Keys - enabled.Keys)
  {
    var moved := MovedIds(Stopped(a), enabled);
    assert moved == {};
    WithoutNone(a.data, moved);
    assert (a.data.servers.Keys - moved) - enabled.Keys == a.data.servers.Keys - enabled.Keys;
  }

  lemma RestartOne(a: State, enabled: map<Id, Record>, c: State, id: Id)
    requires DataOk(a, id) && c.records == enabled && c.data == Without(a.data, a.data.servers.Keys - enabled.Keys)
    ensures DataOk(c, id) <==> (id in enabled && Held(a, id) != {} ==> enabled[id].endpoint == a.records[id].endpoint)
  {
    WithoutAt(a.data, a.data.servers.Keys - enabled.Keys, id);
    if id in enabled {
      var held := Held(a, id);
      assert Held(c, id) == held;
      assert DataOk(c, id) <==> held <= {enabled[id].endpoint};
      assert held == {} || held == {a.records[id].endpoint};
    }
  }

  /** Such a change is possible: data of one host shown under another. */
  lemma RestartCanExpose(id: Id, mine: Endpoint, other: Endpoint)
    returns (events: seq<Event>, states: seq<State>, c: State)
    requires mine != other
    ensures Run(events, states) && |states| == 4
    ensures Reconciled(Stopped(states[3]), map[id := Record(id, other, None, true)], c)
    ensures c.records[id].endpoint == other && ServerOf(c.data, id).sources == {mine}
  {
    var r, later := Record(id, mine, None, true), Record(id, other, None, true);
    events := [Registry([r]), Work(0, Begin), Work(0, Store(Cpu))];
    var s3;
    states, s3 := FirstSample(r, events);
    c := Stopped(s3).(records := map[id := later], workers := map[id := |s3.tasks|],
                      tasks := Stopped(s3).tasks + [NewWorker(later)]);
    ReconciledAfterStop(s3, later, c);
  }

  /** A server is enabled, its worker begins and stores a first sample. */
  lemma FirstSample(r: Record, events: seq<Event>) returns (states: seq<State>, last: State)
    requires r.enabled && events == [Registry([r]), Work(0, Begin), Work(0, Store(Cpu))]
    ensures |states| == 4 && states[3] == last && Run(events, states)
    ensures last.data.servers.Keys == {r.id} && ServerOf(last.data, r.id).sources == {r.endpoint}
  {
    var s1 := One(Initial(), r);
    FirstReconcile(r);
    assert s1.tasks == [NewWorker(r)];
    var s2 := Acted(s1, 0, Begin);
    last := FirstStored(s1, s2, r, events[2].act.change);
    states := [Initial(), s1, s2, last];
    RunOfThree(events, states);
  }

  lemma RunOfThree(events: seq<Event>, states: seq<State>)
    requires |events| == 3 && |states| == 4 && states[0] == Initial()
    requires Step(states[0], events[0], states[1]) && Step(states[1], events[1], states[2])
             && Step(states[2], events[2], states[3])
    ensures Run(events, states)
  {
    forall i | 0 <= i < |events| ensures Step(states[i], events[i], states[i + 1]) {
      assert i == 0 || i == 1 || i == 2;
    }
  }

  lemma FirstStored(s1: State, s2: State, r: Record, change: Change) returns (last: State)
    requires change.Cpu? && s1.tasks == [NewWorker(r)] && s1.data == Initial().data && s2 == Acted(s1, 0, Begin)
    ensures Can(s2.tasks[0], Store(change)) && last == Acted(s2, 0, Store(change))
    ensures last.data.servers.Keys == {r.id} && ServerOf(last.data, r.id).sources == {r.endpoint}
  {
    assert s2.tasks == [Worker(r, false, Busy(-1), false)];
    last := Acted(s2, 0, Store(change));
  }

  lemma FirstReconcile(r: Record)
    requires r.enabled
    ensures Reconciled(Initial(), EnabledOf([r]), One(Initial(), r))
  {
    var a, none := Initial(), EnabledOf([r][..0]);
    assert [r][..0] == [];
    assert EnabledOf([r]) == none[r.id := r];
    NoneRenewed(a, none);
    OneMore(a, none, a, r);
    var b := One(a, r);
    assert b.workers.Keys - EnabledOf([r]).Keys == {};
    NoneDropped(b, b.workers.Keys - EnabledOf([r]).Keys);
    WithoutNone(b.data, b.data.servers.Keys - EnabledOf([r]).Keys);
    EnabledKeyed([r]);
    PhasesReconcile(a, EnabledOf([r]), b, b, b);
  }

  lemma ReconciledAfterStop(a: State, r: Record, c: State)
    requires c == Stopped(a).(records := map[r.id := r], workers := map[r.id := |a.tasks|],
                              tasks := Stopped(a).tasks + [NewWorker(r)])
    requires a.data.servers.Keys <= {r.id}
    ensures Reconciled(Stopped(a), map[r.id := r], c)
  {
    var s, enabled := Stopped(a), map[r.id := r];
    assert MovedIds(s, enabled) == {};
    WithoutNone(s.data, MovedIds(s, enabled));
    assert (s.data.servers.Keys - MovedIds(s, enabled)) - enabled.Keys == {};
    WithoutNone(s.data, (s.data.servers.Keys - MovedIds(s, enabled)) - enabled.Keys);
    assert Staffed(s, enabled[r.id], c);
    assert NewTask(enabled, c, |a.tasks|);
  }
}
