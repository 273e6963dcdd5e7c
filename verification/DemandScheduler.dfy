/** The demand-aware scheduler: reconciling the registry with one worker task per
    server, and waking workers when demand changes. */
module DemandScheduler {
  import opened Common
  import opened Telemetry

  datatype Record = Record(id: Id, endpoint: Endpoint, interval: Option<real>, enabled: bool)

  /** Where a worker's coroutine stands, with the demand revision it has observed. */
  datatype Phase = Created | Busy(observed: int) | Waiting(observed: int) | Ended

  /** `woken` is the worker's own wake-up event. A cancelled task never resumes its body. */
  datatype Worker = Worker(record: Record, cancelled: bool, phase: Phase, woken: bool)

  /** Tasks are numbered in the order of their creation. */
  datatype State = State(
    records: map<Id, Record>,
    workers: map<Id, nat>,
    wakeups: map<Id, nat>,
    tasks: seq<Worker>,
    revision: int,
    clients: nat,
    detail: set<Id>,
    data: Data)

  // ----- what reconciling one record does -------------------------------------------

  function Cancelled(w: Worker): Worker {
    if w.phase.Ended? then w else w.(cancelled := true)
  }

  /** Every listed worker is a task of its own server. */
  ghost predicate Listed(a: State) {
    forall id <- a.workers :: a.workers[id] < |a.tasks| && a.tasks[a.workers[id]].record.id == id
  }

  ghost predicate Indexed(a: State) {
    && Listed(a)
    && (forall id <- a.wakeups :: a.wakeups[id] < |a.tasks|)
  }

  predicate Alive(a: State, id: Id) {
    id in a.workers && a.workers[id] < |a.tasks| && !a.tasks[a.workers[id]].phase.Ended?
  }

  predicate Moved(a: State, r: Record) {
    r.id in a.records && a.records[r.id].endpoint != r.endpoint
  }

  /** The record's worker goes on as it is. */
  predicate Keeps(a: State, r: Record) {
    Alive(a, r.id)
    && (r.id in a.records ==> a.records[r.id].endpoint == r.endpoint && a.records[r.id].interval == r.interval)
  }

  function NewWorker(r: Record): Worker {
    Worker(r, false, Created, false)
  }

  function One(a: State, r: Record): State {
    var dropped :=
      if Alive(a, r.id) && !Keeps(a, r) then a.tasks[a.workers[r.id] := Cancelled(a.tasks[a.workers[r.id]])]
      else a.tasks;
    a.(records := a.records[r.id := r],
       workers := if Keeps(a, r) then a.workers else a.workers[r.id := |a.tasks|],
       tasks := if Keeps(a, r) then a.tasks else dropped + [NewWorker(r)],
       data := if Moved(a, r) then Without(a.data, {r.id}) else a.data)
  }

  function DropOne(a: State, id: Id): State
    requires id in a.workers && a.workers[id] < |a.tasks|
  {
    a.(records := a.records - {id}, workers := a.workers - {id},
       tasks := a.tasks[a.workers[id] := Cancelled(a.tasks[a.workers[id]])])
  }

  /** The enabled records by id; of two with one id the later one counts. */
  function EnabledOf(list: seq<Record>): map<Id, Record> {
    if list == [] then map[]
    else
      var m, r := EnabledOf(list[..|list| - 1]), list[|list| - 1];
      if r.enabled then m[r.id := r] else m
  }

  // ----- what reconciling the registry does -------------------------------------------

  /** The worker a state lists for `id` after `some` of the records were reconciled. */
  ghost predicate WorkerFor(a: State, some: map<Id, Record>, b: State, id: Id) {
    && (id in b.workers <==> id in a.workers || id in some)
    && (id in some && !Keeps(a, some[id]) ==>
          |a.tasks| <= b.workers[id] < |b.tasks| && b.tasks[b.workers[id]] == NewWorker(some[id]))
    && (id in a.workers && (id in some ==> Keeps(a, some[id])) ==> b.workers[id] == a.workers[id])
  }

  /** What became of task `k` of the state before. */
  ghost predicate TaskAfter(a: State, some: map<Id, Record>, b: State, k: nat)
    requires k < |a.tasks|
  {
    var id := a.tasks[k].record.id;
    k < |b.tasks| &&
    b.tasks[k] == if id in some && id in a.workers && a.workers[id] == k && !Keeps(a, some[id])
                  then Cancelled(a.tasks[k]) else a.tasks[k]
  }

  ghost predicate NewTask(some: map<Id, Record>, b: State, k: nat) {
    k < |b.tasks| && b.tasks[k].record.id in some && b.tasks[k] == NewWorker(some[b.tasks[k].record.id])
    && Lookup(b.workers, b.tasks[k].record.id) == Some(k)
  }

  function MovedIds(a: State, some: map<Id, Record>): set<Id> {
    set id <- some | Moved(a, some[id])
  }

  ghost predicate Renewed(a: State, some: map<Id, Record>, b: State) {
    && |a.tasks| <= |b.tasks|
    && b.records == a.records + some
    && (forall id: Id :: WorkerFor(a, some, b, id))
    && (forall k :: 0 <= k < |a.tasks| ==> TaskAfter(a, some, b, k))
    && (forall k :: |a.tasks| <= k < |b.tasks| ==> NewTask(some, b, k))
    && b.wakeups == a.wakeups && b.revision == a.revision && b.clients == a.clients && b.detail == a.detail
    && b.data == Without(a.data, MovedIds(a, some))
  }

  lemma OneMore(a: State, some: map<Id, Record>, b: State, r: Record)
    requires Indexed(a) && Renewed(a, some, b) && r.id !in some
    ensures Renewed(a, some[r.id := r], One(b, r))
  {
    var more, c := some[r.id := r], One(b, r);
    SameVerdicts(a, some, b, r);
    assert WorkerFor(a, some, b, r.id);
    assert c.records == a.records + more;
    forall id: Id ensures WorkerFor(a, more, c, id) {
      assert WorkerFor(a, some, b, id);
      WorkerMore(a, some, b, r, id);
    }
    forall k | 0 <= k < |a.tasks| ensures TaskAfter(a, more, c, k) {
      assert TaskAfter(a, some, b, k);
      TaskMore(a, some, b, r, k);
    }
    forall k | |a.tasks| <= k < |c.tasks| ensures NewTask(more, c, k) {
      assert k < |b.tasks| ==> NewTask(some, b, k);
      NewMore(a, some, b, r, k);
    }
    MovedMore(a, some, r);
  }

  ghost predicate Agree(a: State, b: State, r: Record) {
    && |a.tasks| <= |b.tasks|
    && Keeps(b, r) == Keeps(a, r) && Alive(b, r.id) == Alive(a, r.id)
    && Lookup(b.workers, r.id) == Lookup(a.workers, r.id)
    && (r.id in a.workers ==> a.workers[r.id] < |a.tasks| && b.tasks[a.workers[r.id]] == a.tasks[a.workers[r.id]])
  }

  lemma WorkerMore(a: State, some: map<Id, Record>, b: State, r: Record, id: Id)
    requires Agree(a, b, r) && WorkerFor(a, some, b, id) && r.id !in some
    ensures WorkerFor(a, some[r.id := r], One(b, r), id)
  {
  }

  lemma TaskMore(a: State, some: map<Id, Record>, b: State, r: Record, k: nat)
    requires Agree(a, b, r) && k < |a.tasks| && TaskAfter(a, some, b, k) && r.id !in some
    requires r.id in a.workers ==> a.tasks[a.workers[r.id]].record.id == r.id
    ensures TaskAfter(a, some[r.id := r], One(b, r), k)
  {
  }

  lemma NewMore(a: State, some: map<Id, Record>, b: State, r: Record, k: nat)
    requires Agree(a, b, r) && |a.tasks| <= k < |One(b, r).tasks| && r.id !in some
    requires k < |b.tasks| ==> NewTask(some, b, k)
    ensures NewTask(some[r.id := r], One(b, r), k)
  {
  }

  /** Reconciling other records first does not change what happens to a record. */
  lemma SameVerdicts(a: State, some: map<Id, Record>, b: State, r: Record)
    requires Indexed(a) && Renewed(a, some, b) && r.id !in some
    ensures Agree(a, b, r) && Moved(b, r) == Moved(a, r)
  {
    assert WorkerFor(a, some, b, r.id);
    if r.id in a.workers {
      assert TaskAfter(a, some, b, a.workers[r.id]);
    }
  }

  lemma MovedMore(a: State, some: map<Id, Record>, r: Record)
    requires r.id !in some
    ensures var more := some[r.id := r];
            Without(a.data, MovedIds(a, more))
            == if Moved(a, r) then Without(Without(a.data, MovedIds(a, some)), {r.id})
              else Without(a.data, MovedIds(a, some))
  {
    var more := some[r.id := r];
    if Moved(a, r) {
      assert MovedIds(a, more) == MovedIds(a, some) + {r.id};
      WithoutMore(a.data, MovedIds(a, some), r.id);
    } else {
      assert MovedIds(a, more) == MovedIds(a, some);
    }
  }

  // ----- dropping the servers that are no longer enabled -------------------------------

  ghost predicate DroppedTask(b: State, gone: set<Id>, c: State, k: nat)
    requires k < |b.tasks|
  {
    var id := b.tasks[k].record.id;
    k < |c.tasks| &&
    c.tasks[k] == if id in gone && Lookup(b.workers, id) == Some(k) then Cancelled(b.tasks[k]) else b.tasks[k]
  }

  ghost predicate Dropped(b: State, gone: set<Id>, c: State) {
    && c.records == b.records - gone && c.workers == b.workers - gone && |c.tasks| == |b.tasks|
    && (forall k :: 0 <= k < |b.tasks| ==> DroppedTask(b, gone, c, k))
    && c.wakeups == b.wakeups && c.revision == b.revision && c.clients == b.clients && c.detail == b.detail
    && c.data == b.data
  }

  lemma DropMore(b: State, gone: set<Id>, c: State, id: Id)
    requires Listed(b) && Dropped(b, gone, c) && id in b.workers && id !in gone
    ensures id in c.workers && c.workers[id] < |c.tasks| && Dropped(b, gone + {id}, DropOne(c, id))
  {
    var k := b.workers[id];
    assert DroppedTask(b, gone, c, k);
    assert c.records - {id} == b.records - (gone + {id}) && c.workers - {id} == b.workers - (gone + {id});
    forall j | 0 <= j < |b.tasks| ensures DroppedTask(b, gone + {id}, DropOne(c, id), j) {
      assert DroppedTask(b, gone, c, j);
    }
  }

  // ----- the whole reconciliation -------------------------------------------------------

  /** Task `k` stops: it is its server's worker, and its server is gone or was changed. */
  ghost predicate Stops(a: State, enabled: map<Id, Record>, k: nat)
    requires k < |a.tasks|
  {
    var id := a.tasks[k].record.id;
    Lookup(a.workers, id) == Some(k) && !(id in enabled && Keeps(a, enabled[id]))
  }

  ghost predicate Staffed(a: State, r: Record, c: State) {
    && r.id in c.workers
    && (if Keeps(a, r) then r.id in a.workers && c.workers[r.id] == a.workers[r.id]
        else |a.tasks| <= c.workers[r.id] < |c.tasks| && c.tasks[c.workers[r.id]] == NewWorker(r))
  }

  ghost predicate Carried(a: State, enabled: map<Id, Record>, c: State, k: nat)
    requires k < |a.tasks|
  {
    k < |c.tasks| && c.tasks[k] == if Stops(a, enabled, k) then Cancelled(a.tasks[k]) else a.tasks[k]
  }

  /** Exactly the enabled servers have a record and a worker. A worker goes on if it still
      runs and its endpoint and interval are unchanged; every other listed worker is
      cancelled and replaced by a new task for the new record, or by none. Telemetry of
      moved and of disabled servers is dropped, all other telemetry is kept. */
  ghost predicate Reconciled(a: State, enabled: map<Id, Record>, c: State) {
    && c.records == enabled && c.workers.Keys == enabled.Keys && |a.tasks| <= |c.tasks|
    && (forall id <- enabled :: Staffed(a, enabled[id], c))
    && (forall k :: 0 <= k < |a.tasks| ==> Carried(a, enabled, c, k))
    && (forall k :: |a.tasks| <= k < |c.tasks| ==> NewTask(enabled, c, k))
    && c.wakeups == a.wakeups && c.revision == a.revision && c.clients == a.clients && c.detail == a.detail
    && c.data == Without(Without(a.data, MovedIds(a, enabled)),
                         (a.data.servers.Keys - MovedIds(a, enabled)) - enabled.Keys)
  }

  ghost predicate Keyed(enabled: map<Id, Record>) {
    forall id <- enabled :: enabled[id].id == id
  }

  lemma {:induction false} EnabledKeyed(list: seq<Record>)
    ensures Keyed(EnabledOf(list))
    ensures forall id: Id :: id in EnabledOf(list) ==> EnabledOf(list)[id] in list && EnabledOf(list)[id].enabled
    ensures forall r <- list :: r.enabled ==> r.id in EnabledOf(list)
  {
    if list != [] {
      EnabledKeyed(list[..|list| - 1]);
    }
  }

  /** No later record of the list is enabled under this id. */
  ghost predicate LastEnabled(list: seq<Record>, id: Id, r: Record) {
    exists i :: 0 <= i < |list| && list[i] == r && NoneLater(list, id, i)
  }

  ghost predicate NoneLater(list: seq<Record>, id: Id, i: int) {
    forall j :: 0 <= i < j < |list| ==> !(list[j].enabled && list[j].id == id)
  }

  /** Of several enabled records with one id the last one counts. */
  lemma {:induction false} LastCounts(list: seq<Record>, id: Id)
    requires id in EnabledOf(list)
    ensures LastEnabled(list, id, EnabledOf(list)[id])
  {
    var n := |list| - 1;
    if list[n].enabled && list[n].id == id {
      assert NoneLater(list, id, n);
    } else {
      LastCounts(list[..n], id);
      LastStays(list, id, EnabledOf(list)[id]);
    }
  }

  lemma LastStays(list: seq<Record>, id: Id, r: Record)
    requires list != [] && LastEnabled(list[..|list| - 1], id, r)
    requires !(list[|list| - 1].enabled && list[|list| - 1].id == id)
    ensures LastEnabled(list, id, r)
  {
    var before := list[..|list| - 1];
    var i :| 0 <= i < |before| && before[i] == r && NoneLater(before, id, i);
    forall j | i < j < |list| ensures !(list[j].enabled && list[j].id == id) {
      assert j < |before| ==> before[j] == list[j];
    }
    assert list[i] == r && NoneLater(list, id, i);
  }

  lemma StaffedAtEnd(a: State, enabled: map<Id, Record>, b: State, d: State, id: Id)
    requires id in enabled && enabled[id].id == id && WorkerFor(a, enabled, b, id)
    requires (Keeps(a, enabled[id]) ==> id in a.workers) && |d.tasks| == |b.tasks|
    requires id in d.workers && id in b.workers && d.workers[id] == b.workers[id]
    requires b.workers[id] < |b.tasks| && b.tasks[b.workers[id]] == NewWorker(enabled[id]) ==>
               d.tasks[b.workers[id]] == b.tasks[b.workers[id]]
    ensures Staffed(a, enabled[id], d)
  {
  }

  lemma CarriedAtEnd(a: State, enabled: map<Id, Record>, b: State, c: State, k: nat)
    requires k < |a.tasks| && TaskAfter(a, enabled, b, k) && WorkerFor(a, enabled, b, a.tasks[k].record.id)
    requires k < |b.tasks| && DroppedTask(b, b.workers.Keys - enabled.Keys, c, k)
    ensures Carried(a, enabled, c, k)
  {
  }

  lemma NewAtEnd(enabled: map<Id, Record>, b: State, c: State, k: nat)
    requires NewTask(enabled, b, k) && DroppedTask(b, b.workers.Keys - enabled.Keys, c, k)
    requires c.workers == b.workers - (b.workers.Keys - enabled.Keys)
    ensures NewTask(enabled, c, k)
  {
  }

  lemma KeysAtEnd(a: State, enabled: map<Id, Record>, b: State)
    requires a.records.Keys == a.workers.Keys && Renewed(a, enabled, b)
    ensures b.records - (b.workers.Keys - enabled.Keys) == enabled
    ensures (b.workers - (b.workers.Keys - enabled.Keys)).Keys == enabled.Keys
  {
    forall id: Id ensures id in b.workers <==> id in a.workers || id in enabled {
      assert WorkerFor(a, enabled, b, id);
    }
  }

  lemma PhasesReconcile(a: State, enabled: map<Id, Record>, b: State, c: State, d: State)
    requires Indexed(a) && a.records.Keys == a.workers.Keys && Keyed(enabled)
    requires Renewed(a, enabled, b) && Dropped(b, b.workers.Keys - enabled.Keys, c)
    requires d == c.(data := Without(c.data, c.data.servers.Keys - enabled.Keys))
    ensures Reconciled(a, enabled, d)
  {
    KeysAtEnd(a, enabled, b);
    forall id <- enabled ensures Staffed(a, enabled[id], d) {
      assert WorkerFor(a, enabled, b, id);
      if b.workers[id] < |b.tasks| {
        assert DroppedTask(b, b.workers.Keys - enabled.Keys, c, b.workers[id]);
      }
      StaffedAtEnd(a, enabled, b, d, id);
    }
    forall k | 0 <= k < |a.tasks| ensures Carried(a, enabled, d, k) {
      assert TaskAfter(a, enabled, b, k) && WorkerFor(a, enabled, b, a.tasks[k].record.id);
      assert DroppedTask(b, b.workers.Keys - enabled.Keys, c, k);
      CarriedAtEnd(a, enabled, b, c, k);
    }
    forall k | |a.tasks| <= k < |d.tasks| ensures NewTask(enabled, d, k) {
      assert NewTask(enabled, b, k) && DroppedTask(b, b.workers.Keys - enabled.Keys, c, k);
      NewAtEnd(enabled, b, c, k);
    }
    assert Without(a.data, MovedIds(a, enabled)).servers.Keys == a.data.servers.Keys - MovedIds(a, enabled);
  }

  lemma RenewedListed(a: State, some: map<Id, Record>, b: State)
    requires Indexed(a) && Keyed(some) && Renewed(a, some, b)
    ensures Listed(b)
  {
    forall id <- b.workers ensures b.workers[id] < |b.tasks| && b.tasks[b.workers[id]].record.id == id {
      assert WorkerFor(a, some, b, id);
      if id in a.workers && b.workers[id] == a.workers[id] {
        assert TaskAfter(a, some, b, a.workers[id]);
      }
    }
  }

  // ----- demand ---------------------------------------------------------------------------

  function Max0(n: int): nat {
    if n < 0 then 0 else n
  }

  predicate DemandChanges(a: State, clients: int, detail: set<Id>) {
    Max0(clients) != a.clients || detail != a.detail
  }

  /** The workers registered in `wakeups` have their events set. */
  ghost predicate Woken(a: State, c: State) {
    && |c.tasks| == |a.tasks|
    && (forall k :: 0 <= k < |a.tasks| ==>
          c.tasks[k] == if k in a.wakeups.Values then a.tasks[k].(woken := true) else a.tasks[k])
  }

  /** A change of demand gets a new revision number and wakes every registered worker. */
  ghost predicate Demanded(a: State, clients: int, detail: set<Id>, c: State) {
    && c == a.(clients := Max0(clients), detail := detail,
               revision := if DemandChanges(a, clients, detail) then a.revision + 1 else a.revision, tasks := c.tasks)
    && (if DemandChanges(a, clients, detail) then Woken(a, c) else c.tasks == a.tasks)
  }

  class Scheduler {
    const telemetry: TelemetryState
    var records: map<Id, Record>
    var workers: map<Id, nat>
    var wakeups: map<Id, nat>
    var tasks: seq<Worker>
    var revision: int
    var clients: nat
    var detail: set<Id>

    constructor (telemetry: TelemetryState)
      ensures this.telemetry == telemetry
      ensures Now() == State(map[], map[], map[], [], 0, 0, {}, telemetry.Now())
    {
      this.telemetry := telemetry;
      records, workers, wakeups, tasks := map[], map[], map[], [];
      revision, clients, detail := 0, 0, {};
    }

    ghost function Now(): State
      reads this, telemetry
    {
      State(records, workers, wakeups, tasks, revision, clients, detail, telemetry.Now())
    }

    method SetDemand(activeClients: int, detailServers: set<Id>)
      requires Indexed(Now())
      modifies this
      ensures Demanded(old(Now()), activeClients, detailServers, Now())
    {
      var changed := Max0(activeClients) != clients || detailServers != detail;
      clients, detail := Max0(activeClients), detailServers;
      if changed {
        revision := revision + 1;
        WakeAll();
      }
    }

    method WakeAll()
      requires Indexed(Now())
      modifies this`tasks
      ensures Woken(old(Now()), Now())
    {
      var todo := wakeups.Values;
      ghost var before := tasks;
      while todo != {}
        invariant todo <= wakeups.Values && |tasks| == |before|
        invariant forall k :: 0 <= k < |before| ==>
                    tasks[k] == if k in wakeups.Values && k !in todo then before[k].(woken := true) else before[k]
        decreases |todo|
      {
        var k :| k in todo;
        tasks := tasks[k := tasks[k].(woken := true)];
        todo := todo - {k};
      }
    }

    method Reconcile(list: seq<Record>)
      requires Indexed(Now()) && records.Keys == workers.Keys
      modifies this, telemetry
      ensures Reconciled(old(Now()), EnabledOf(list), Now())
    {
      ghost var a := Now();
      var enabled := EnabledRecords(list);
      EnabledKeyed(list);
      RenewAll(enabled);
      ghost var b := Now();
      RenewedListed(a, enabled, b);
      DropDisabled(enabled);
      ghost var c := Now();
      telemetry.Prune(enabled.Keys);
      PhasesReconcile(a, enabled, b, c, Now());
    }

    method RenewAll(enabled: map<Id, Record>)
      requires Indexed(Now()) && Keyed(enabled)
      modifies this, telemetry
      ensures Renewed(old(Now()), enabled, Now())
    {
      ghost var a := Now();
      var todo := enabled.Keys;
      NoneRenewed(a, enabled - todo);
      while todo != {}
        invariant todo <= enabled.Keys
        invariant Renewed(a, enabled - todo, Now())
        decreases |todo|
      {
        var id :| id in todo;
        RenewOne(a, enabled, todo, id);
        todo := todo - {id};
      }
      AllRenewed(a, enabled, todo, Now());
    }

    method RenewOne(ghost a: State, enabled: map<Id, Record>, ghost todo: set<Id>, id: Id)
      requires Indexed(a) && Keyed(enabled) && id in todo && todo <= enabled.Keys
      requires Renewed(a, enabled - todo, Now())
      modifies this, telemetry
      ensures Renewed(a, enabled - (todo - {id}), Now())
    {
      RenewNext(a, enabled, todo, Now(), id);
      ReconcileOne(enabled[id]);
    }

    method EnabledRecords(list: seq<Record>) returns (enabled: map<Id, Record>)
      ensures enabled == EnabledOf(list)
    {
      enabled := map[];
      for i := 0 to |list|
        invariant enabled == EnabledOf(list[..i])
      {
        assert list[..i + 1][..i] == list[..i];
        if list[i].enabled {
          enabled := enabled[list[i].id := list[i]];
        }
      }
      assert list[..|list|] == list;
    }

    /** One turn of the loop over the enabled records. */
    method ReconcileOne(record: Record)
      requires record.id in workers ==> workers[record.id] < |tasks|
      modifies this, telemetry
      ensures Now() == One(old(Now()), record)
    {
      ghost var a := Now();
      var id := record.id;
      var running := id in workers && !tasks[workers[id]].phase.Ended?;
      if id in records && records[id].interval != record.interval && running {
        Cancel(workers[id]);
        workers, running := workers - {id}, false;
      }
      if id in records && records[id].endpoint != record.endpoint {
        if running {
          Cancel(workers[id]);
        }
        workers, running := workers - {id}, false;
        telemetry.Clear(id);
      }
      if !running {
        workers := workers[id := |tasks|];
        tasks := tasks + [Worker(record, false, Created, false)];
      }
      records := records[id := record];
      ReplaceKey(a.workers, id, |a.tasks|);
    }

    method Cancel(k: nat)
      requires k < |tasks|
      modifies this`tasks
      ensures tasks == old(tasks)[k := Cancelled(old(tasks)[k])]
    {
      if !tasks[k].phase.Ended? {
        tasks := tasks[k := tasks[k].(cancelled := true)];
      }
    }

    method DropDisabled(enabled: map<Id, Record>)
      requires Listed(Now())
      modifies this
      ensures Dropped(old(Now()), old(workers).Keys - enabled.Keys, Now())
    {
      ghost var b, all := Now(), workers.Keys;
      var todo := workers.Keys;
      NoneDropped(b, all - todo - enabled.Keys);
      while todo != {}
        invariant todo <= all
        invariant Dropped(b, all - todo - enabled.Keys, Now())
        decreases |todo|
      {
        var id :| id in todo;
        ghost var c := Now();
        DropNext(b, all, todo, enabled.Keys, c, id);
        todo := todo - {id};
        if id !in enabled {
          DropWorker(id);
        }
      }
      assert all - todo - enabled.Keys == all - enabled.Keys;
    }

    method DropWorker(id: Id)
      requires id in workers && workers[id] < |tasks|
      modifies this
      ensures Now() == DropOne(old(Now()), id)
    {
      Cancel(workers[id]);
      workers, records := workers - {id}, records - {id};
    }
  }

  lemma ReplaceKey(m: map<Id, nat>, id: Id, n: nat)
    ensures (m - {id})[id := n] == m[id := n] && (m - {id} - {id})[id := n] == m[id := n]
  {
  }

  lemma NoneDropped(b: State, none: set<Id>)
    requires none == {}
    ensures Dropped(b, none, b)
  {
    assert b.records - none == b.records && b.workers - none == b.workers;
  }

  lemma DropNext(b: State, all: set<Id>, todo: set<Id>, keep: set<Id>, c: State, id: Id)
    requires Listed(b) && all == b.workers.Keys && todo <= all && id in todo && Dropped(b, all - todo - keep, c)
    ensures id in keep ==> Dropped(b, all - (todo - {id}) - keep, c)
    ensures id !in keep ==>
              id in c.workers && c.workers[id] < |c.tasks| && Dropped(b, all - (todo - {id}) - keep, DropOne(c, id))
  {
    if id in keep {
      assert all - (todo - {id}) - keep == all - todo - keep;
    } else {
      assert all - (todo - {id}) - keep == (all - todo - keep) + {id};
      DropMore(b, all - todo - keep, c, id);
    }
  }

  lemma NoneRenewed(a: State, none: map<Id, Record>)
    requires Indexed(a) && none == map[]
    ensures Renewed(a, none, a)
  {
    assert MovedIds(a, none) == {};
    WithoutNone(a.data, MovedIds(a, none));
    assert a.records + none == a.records;
  }

  lemma AllRenewed(a: State, enabled: map<Id, Record>, none: set<Id>, b: State)
    requires none == {} && Renewed(a, enabled - none, b)
    ensures Renewed(a, enabled, b)
  {
    assert enabled - none == enabled;
  }

  lemma RenewNext(a: State, enabled: map<Id, Record>, todo: set<Id>, b: State, id: Id)
    requires Indexed(a) && Keyed(enabled) && id in todo && todo <= enabled.Keys && Renewed(a, enabled - todo, b)
    ensures id in b.workers ==> b.workers[id] < |b.tasks|
    ensures Renewed(a, enabled - (todo - {id}), One(b, enabled[id]))
  {
    assert enabled - (todo - {id}) == (enabled - todo)[id := enabled[id]];
    assert WorkerFor(a, enabled - todo, b, id);
    OneMore(a, enabled - todo, b, enabled[id]);
  }
}
