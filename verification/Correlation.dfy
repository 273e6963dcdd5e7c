/** Joining GPU processes with general processes and with GPUs, in both directions. */
module Correlation {
  import opened Common

  datatype Gpu = Gpu(uuid: string, index: int, processCount: nat)
  datatype GpuProcess = GpuProcess(
    pid: nat,
    uuid: string,
    index: Option<int>,
    memory: Option<nat>,
    user: Option<string>,
    command: Option<string>,
    name: string)
  datatype Process = Process(
    pid: nat,
    user: Option<string>,
    command: Option<string>,
    name: string,
    gpuIndexes: seq<int>,
    vram: Option<nat>)
  datatype Meta = Meta(user: Option<string>, command: Option<string>)

  datatype Server = Server(
    gpus: seq<Gpu>,
    gpuProcesses: seq<GpuProcess>,
    processes: seq<Process>,
    meta: map<nat, Meta>,
    pidUsers: map<nat, string>)

  // ----- the join of one GPU process --------------------------------------------------------

  /** What a process says about its pid; of two with one pid the later one counts. */
  datatype General = General(user: Option<string>, command: Option<string>, name: string)

  function ByPid(ps: seq<Process>): map<nat, General> {
    if ps == [] then map[]
    else
      var p := ps[|ps| - 1];
      ByPid(ps[..|ps| - 1])[p.pid := General(p.user, p.command, p.name)]
  }

  function ByUuid(gpus: seq<Gpu>): map<string, int> {
    if gpus == [] then map[]
    else
      var g := gpus[|gpus| - 1];
      if g.uuid == "" then ByUuid(gpus[..|gpus| - 1]) else ByUuid(gpus[..|gpus| - 1])[g.uuid := g.index]
  }

  function Located(uuids: map<string, int>, p: GpuProcess): Option<int> {
    if p.uuid == "" then p.index
    else if p.uuid in uuids then Some(uuids[p.uuid]) else None
  }

  function Else(a: Option<string>, b: Option<string>): Option<string> {
    if a.Some? then a else b
  }

  datatype Tables = Tables(uuids: map<string, int>, general: map<nat, General>, meta: map<nat, Meta>,
                           users: map<nat, string>)

  function TablesOf(s: Server): Tables {
    Tables(ByUuid(s.gpus), ByPid(s.processes), s.meta, s.pidUsers)
  }

  function Joined(t: Tables, p: GpuProcess): GpuProcess {
    var q := p.(index := Located(t.uuids, p));
    if p.pid in t.general then
      var g := t.general[p.pid];
      q.(user := g.user, command := g.command, name := if p.name == "" then g.name else p.name)
    else if p.pid in t.meta then
      q.(user := Else(p.user, t.meta[p.pid].user), command := Else(p.command, t.meta[p.pid].command))
    else if p.user.None? && p.pid in t.users then q.(user := Some(t.users[p.pid]))
    else q
  }

  lemma JoinedTwice(t: Tables, p: GpuProcess)
    ensures Joined(t, Joined(t, p)) == Joined(t, p)
  {
  }

  function AllJoined(t: Tables, ps: seq<GpuProcess>): seq<GpuProcess> {
    if ps == [] then [] else AllJoined(t, ps[..|ps| - 1]) + [Joined(t, ps[|ps| - 1])]
  }

  /** The last GPU of the list with this identifier. */
  ghost predicate LastGpu(gpus: seq<Gpu>, uuid: string, k: int) {
    0 <= k < |gpus| && gpus[k].uuid == uuid && forall j :: k < j < |gpus| ==> gpus[j].uuid != uuid
  }

  /** The last process of the list with this pid. */
  ghost predicate LastProcess(ps: seq<Process>, pid: nat, k: int) {
    0 <= k < |ps| && ps[k].pid == pid && forall j :: k < j < |ps| ==> ps[j].pid != pid
  }

  lemma {:induction false} ByUuidIs(gpus: seq<Gpu>, uuid: string, k: int)
    requires uuid != ""
    ensures LastGpu(gpus, uuid, k) ==> Lookup(ByUuid(gpus), uuid) == Some(gpus[k].index)
    ensures (forall j :: 0 <= j < |gpus| ==> gpus[j].uuid != uuid) ==> uuid !in ByUuid(gpus)
  {
    if gpus != [] {
      ByUuidIs(gpus[..|gpus| - 1], uuid, k);
    }
  }

  lemma {:induction false} ByPidIs(ps: seq<Process>, pid: nat, k: int)
    ensures LastProcess(ps, pid, k) ==>
              Lookup(ByPid(ps), pid) == Some(General(ps[k].user, ps[k].command, ps[k].name))
    ensures (forall j :: 0 <= j < |ps| ==> ps[j].pid != pid) ==> pid !in ByPid(ps)
  {
    if ps != [] {
      ByPidIs(ps[..|ps| - 1], pid, k);
    }
  }

  lemma {:induction false} AllJoinedAt(t: Tables, ps: seq<GpuProcess>, i: nat)
    requires i < |ps|
    ensures |AllJoined(t, ps)| == |ps| && AllJoined(t, ps)[i] == Joined(t, ps[i])
  {
    if i < |ps| - 1 {
      AllJoinedAt(t, ps[..|ps| - 1], i);
    } else if |ps| > 1 {
      AllJoinedAt(t, ps[..|ps| - 1], 0);
    }
  }

  /** Where a GPU process is: on the last GPU with its identifier, nowhere when no GPU has
      it; without an identifier it stays where it was. */
  lemma JoinedIndex(s: Server, p: GpuProcess, g: int)
    ensures var q := Joined(TablesOf(s), p);
            && q.pid == p.pid && q.uuid == p.uuid && q.memory == p.memory
            && (p.uuid == "" ==> q.index == p.index)
            && (p.uuid != "" && LastGpu(s.gpus, p.uuid, g) ==> q.index == Some(s.gpus[g].index))
            && (p.uuid != "" && (forall j :: 0 <= j < |s.gpus| ==> s.gpus[j].uuid != p.uuid) ==> q.index == None)
  {
    if p.uuid != "" {
      ByUuidIs(s.gpus, p.uuid, g);
    }
  }

  /** Whose it is: what the last process with its pid says, which also names it when it has
      no name; without one, what is known of the pid, for what is not known of it yet; and
      failing that too, the owner of the pid. */
  lemma JoinedOwner(s: Server, p: GpuProcess, k: int)
    ensures var q := Joined(TablesOf(s), p);
            && (LastProcess(s.processes, p.pid, k) ==>
                  && q.user == s.processes[k].user && q.command == s.processes[k].command
                  && q.name == if p.name == "" then s.processes[k].name else p.name)
            && ((forall j :: 0 <= j < |s.processes| ==> s.processes[j].pid != p.pid) ==>
                  && q.name == p.name
                  && if p.pid in s.meta then
                       && q.user == (if p.user.Some? then p.user else s.meta[p.pid].user)
                       && q.command == (if p.command.Some? then p.command else s.meta[p.pid].command)
                     else
                       && q.command == p.command
                       && q.user == if p.user.None? && p.pid in s.pidUsers then Some(s.pidUsers[p.pid]) else p.user)
  {
    ByPidIs(s.processes, p.pid, k);
  }

  // ----- order ------------------------------------------------------------------------------

  /** Processes without a GPU come last; then by GPU index, then by pid. */
  predicate Before(a: GpuProcess, b: GpuProcess) {
    if a.index.Some? != b.index.Some? then a.index.Some?
    else if a.index.Some? && a.index != b.index then a.index.value < b.index.value
    else a.pid < b.pid
  }

  /** A stable insertion: after everything that does not come later. */
  function Inserted(s: seq<GpuProcess>, p: GpuProcess): seq<GpuProcess> {
    if s != [] && Before(p, s[|s| - 1]) then Inserted(s[..|s| - 1], p) + [s[|s| - 1]] else s + [p]
  }

  function Sorted(s: seq<GpuProcess>): seq<GpuProcess> {
    if s == [] then [] else Inserted(Sorted(s[..|s| - 1]), s[|s| - 1])
  }

  /** Located processes first, by GPU index and then by pid; the others by pid. */
  predicate NotAfter(a: GpuProcess, b: GpuProcess) {
    match (a.index, b.index)
    case (Some(i), Some(j)) => i < j || (i == j && a.pid <= b.pid)
    case (Some(_), None) => true
    case (None, Some(_)) => false
    case (None, None) => a.pid <= b.pid
  }

  ghost predicate InOrder(s: seq<GpuProcess>) {
    forall i, j :: 0 <= i < j < |s| ==> !Before(s[j], s[i])
  }

  lemma {:induction false} InsertedInOrder(s: seq<GpuProcess>, p: GpuProcess)
    requires InOrder(s)
    ensures InOrder(Inserted(s, p)) && forall q :: q in Inserted(s, p) <==> q in s || q == p
  {
    if s != [] && Before(p, s[|s| - 1]) {
      var front, last := s[..|s| - 1], s[|s| - 1];
      InsertedInOrder(front, p);
      var got := Inserted(front, p);
      forall i | 0 <= i < |got| ensures !Before(last, got[i]) {
        assert got[i] in got;
        if got[i] != p {
          var j :| 0 <= j < |front| && front[j] == got[i];
          assert !Before(s[|s| - 1], s[j]);
        }
      }
      forall q ensures q in s <==> q in front || q == last {
      }
    }
  }

  lemma {:induction false} SortedInOrder(s: seq<GpuProcess>)
    ensures InOrder(Sorted(s)) && forall q :: q in Sorted(s) <==> q in s
  {
    if s != [] {
      SortedInOrder(s[..|s| - 1]);
      InsertedInOrder(Sorted(s[..|s| - 1]), s[|s| - 1]);
      forall q ensures q in s <==> q in s[..|s| - 1] || q == s[|s| - 1] {
      }
    }
  }

  /** The entries that `keep` keeps, in order. */
  function Only(s: seq<GpuProcess>, keep: GpuProcess -> bool): seq<GpuProcess> {
    if s == [] then [] else Only(s[..|s| - 1], keep) + if keep(s[|s| - 1]) then [s[|s| - 1]] else []
  }

  lemma OnlyMore(s: seq<GpuProcess>, p: GpuProcess, keep: GpuProcess -> bool)
    ensures Only(s + [p], keep) == Only(s, keep) + if keep(p) then [p] else []
  {
    assert (s + [p])[..|s|] == s;
  }

  /** The sort is stable: entries that the key does not tell apart keep their order. */
  lemma {:induction false} SortedStable(s: seq<GpuProcess>, like: GpuProcess -> bool)
    requires forall a, b :: like(a) && like(b) ==> !Before(a, b)
    ensures Only(Sorted(s), like) == Only(s, like)
  {
    if s != [] {
      SortedStable(s[..|s| - 1], like);
      InsertedStable(Sorted(s[..|s| - 1]), s[|s| - 1], like);
    }
  }

  lemma {:induction false} InsertedStable(s: seq<GpuProcess>, p: GpuProcess, like: GpuProcess -> bool)
    requires forall a, b :: like(a) && like(b) ==> !Before(a, b)
    ensures Only(Inserted(s, p), like) == Only(s, like) + if like(p) then [p] else []
  {
    if s != [] && Before(p, s[|s| - 1]) {
      var front, last := s[..|s| - 1], s[|s| - 1];
      InsertedStable(front, p, like);
      OnlyMore(Inserted(front, p), last, like);
      assert !(like(p) && like(last));
    } else {
      OnlyMore(s, p, like);
    }
  }

  lemma {:induction false} SortedSame(s: seq<GpuProcess>)
    requires InOrder(s)
    ensures Sorted(s) == s
  {
    if s != [] {
      SortedSame(s[..|s| - 1]);
      assert |s| > 1 ==> !Before(s[|s| - 1], s[|s| - 2]);
      assert s[..|s| - 1] + [s[|s| - 1]] == s;
    }
  }

  lemma {:induction false} SumInserted(s: seq<GpuProcess>, p: GpuProcess, w: GpuProcess -> nat)
    ensures Sum(Inserted(s, p), w) == Sum(s, w) + w(p)
  {
    if s != [] && Before(p, s[|s| - 1]) {
      SumInserted(s[..|s| - 1], p, w);
      SumAppend(Inserted(s[..|s| - 1], p), s[|s| - 1], w);
    } else {
      SumAppend(s, p, w);
    }
  }

  /** Sorting moves nothing in or out: every sum over the processes is unchanged. */
  lemma {:induction false} SumSorted(s: seq<GpuProcess>, w: GpuProcess -> nat)
    ensures Sum(Sorted(s), w) == Sum(s, w)
  {
    if s != [] {
      SumSorted(s[..|s| - 1], w);
      SumInserted(Sorted(s[..|s| - 1]), s[|s| - 1], w);
    }
  }

  // ----- what is counted and listed -------------------------------------------------------------

  function OnGpu(index: int): GpuProcess -> nat {
    (p: GpuProcess) => if p.index == Some(index) then 1 else 0
  }

  /** A process's entries that are located on a GPU. */
  function At(pid: nat, index: int): GpuProcess -> nat {
    (p: GpuProcess) => if p.pid == pid && p.index == Some(index) then 1 else 0
  }

  predicate Measured(pid: nat, p: GpuProcess) {
    p.pid == pid && p.index.Some? && p.memory.Some?
  }

  function MeasuredOf(pid: nat): GpuProcess -> nat {
    (p: GpuProcess) => if Measured(pid, p) then 1 else 0
  }

  function MemoryOf(pid: nat): GpuProcess -> nat {
    (p: GpuProcess) => if Measured(pid, p) then p.memory.value else 0
  }

  ghost function Vram(ps: seq<GpuProcess>, pid: nat): Option<nat> {
    if Sum(ps, MeasuredOf(pid)) > 0 then Some(Sum(ps, MemoryOf(pid))) else None
  }

  /** One more process counts on the GPU it is located on, is listed for its pid there, and
      adds its memory to its pid when it is located and has a figure. */
  lemma TalliesGrow(ps: seq<GpuProcess>, p: GpuProcess, pid: nat, g: int)
    ensures Sum(ps + [p], OnGpu(g)) == Sum(ps, OnGpu(g)) + (if p.index == Some(g) then 1 else 0)
    ensures Sum(ps + [p], At(pid, g)) > 0 <==> Sum(ps, At(pid, g)) > 0 || (p.pid == pid && p.index == Some(g))
    ensures Vram(ps + [p], pid) ==
            if p.pid == pid && p.index.Some? && p.memory.Some? then
              Some((if Vram(ps, pid).Some? then Vram(ps, pid).value else 0) + p.memory.value)
            else Vram(ps, pid)
  {
    SumAppend(ps, p, OnGpu(g));
    SumAppend(ps, p, At(pid, g));
    SumAppend(ps, p, MeasuredOf(pid));
    SumAppend(ps, p, MemoryOf(pid));
    if Sum(ps, MeasuredOf(pid)) == 0 {
      NoneMeasured(ps, pid);
    }
  }

  ghost predicate Ascending(list: seq<int>) {
    forall i, j :: 0 <= i < j < |list| ==> list[i] < list[j]
  }

  /** The sorted list without duplicates of the GPU indexes of a pid. */
  ghost predicate Lists(list: seq<int>, ps: seq<GpuProcess>, pid: nat) {
    Ascending(list) && forall g :: g in list <==> Sum(ps, At(pid, g)) > 0
  }

  lemma {:induction false} AscendingUnique(a: seq<int>, b: seq<int>)
    requires Ascending(a) && Ascending(b) && forall g :: g in a <==> g in b
    ensures a == b
    decreases |a|
  {
    assert a != [] ==> a[0] in a;
    assert b != [] ==> b[0] in b;
    if a != [] {
      var x, y := a[|a| - 1], b[|b| - 1];
      LargestLast(a);
      LargestLast(b);
      assert x in a && y in b;
      var front, back := a[..|a| - 1], b[..|b| - 1];
      forall g ensures g in front <==> g in back {
        assert g in front <==> g in a && g != x;
        assert g in back <==> g in b && g != y;
      }
      AscendingUnique(front, back);
      assert a == front + [x] && b == back + [y];
    }
  }

  lemma LargestLast(a: seq<int>)
    requires Ascending(a) && a != []
    ensures forall g :: g in a ==> g <= a[|a| - 1]
    ensures forall g :: g in a[..|a| - 1] <==> g in a && g != a[|a| - 1]
  {
  }

  // ----- the correlation ------------------------------------------------------------------------

  /** The result of a correlation, up to the lists of indexes, which `Lists` determines. */
  ghost predicate Correlated(s: Server, r: Server) {
    var joined := AllJoined(TablesOf(s), s.gpuProcesses);
    && r.gpuProcesses == Sorted(joined) && r.meta == s.meta && r.pidUsers == s.pidUsers
    && |r.gpus| == |s.gpus| && |r.processes| == |s.processes|
    && (forall i :: 0 <= i < |s.gpus| ==> r.gpus[i] == s.gpus[i].(processCount := Sum(joined, OnGpu(s.gpus[i].index))))
    && (forall i :: 0 <= i < |s.processes| ==> ProcessCorrelated(s.processes[i], joined, r.processes[i]))
  }

  ghost predicate ProcessCorrelated(p: Process, joined: seq<GpuProcess>, q: Process) {
    q == p.(gpuIndexes := q.gpuIndexes, vram := Vram(joined, p.pid)) && Lists(q.gpuIndexes, joined, p.pid)
  }

  /** After a correlation, counted in what it leaves: each GPU's process count is the
      number of GPU processes with its index; each process lists, sorted and once each,
      the indexes of its pid's GPU processes, and its VRAM is the sum over those with an
      index and a memory figure, or none without any. */
  lemma CorrelatedMeans(s: Server, r: Server)
    requires Correlated(s, r)
    ensures forall i, j :: 0 <= i < j < |r.gpuProcesses| ==> NotAfter(r.gpuProcesses[i], r.gpuProcesses[j])
    ensures forall i :: 0 <= i < |r.gpus| ==> r.gpus[i].processCount == Sum(r.gpuProcesses, OnGpu(r.gpus[i].index))
    ensures forall i :: 0 <= i < |r.processes| ==>
              Lists(r.processes[i].gpuIndexes, r.gpuProcesses, r.processes[i].pid)
              && r.processes[i].vram == Vram(r.gpuProcesses, r.processes[i].pid)
  {
    var joined := AllJoined(TablesOf(s), s.gpuProcesses);
    SortedInOrder(joined);
    forall i | 0 <= i < |r.gpus| ensures r.gpus[i].processCount == Sum(r.gpuProcesses, OnGpu(r.gpus[i].index)) {
      SumSorted(joined, OnGpu(s.gpus[i].index));
    }
    forall i | 0 <= i < |r.processes|
      ensures Lists(r.processes[i].gpuIndexes, r.gpuProcesses, r.processes[i].pid)
      ensures r.processes[i].vram == Vram(r.gpuProcesses, r.processes[i].pid)
    {
      assert ProcessCorrelated(s.processes[i], joined, r.processes[i]);
      ListsSorted(r.processes[i].gpuIndexes, joined, r.processes[i].pid);
    }
  }

  lemma ListsSorted(list: seq<int>, ps: seq<GpuProcess>, pid: nat)
    ensures Lists(list, Sorted(ps), pid) <==> Lists(list, ps, pid)
    ensures Vram(Sorted(ps), pid) == Vram(ps, pid)
  {
    forall g: int ensures Sum(Sorted(ps), At(pid, g)) == Sum(ps, At(pid, g)) {
      SumSorted(ps, At(pid, g));
    }
    SumSorted(ps, MeasuredOf(pid));
    SumSorted(ps, MemoryOf(pid));
  }

  // Correlating again changes nothing.

  lemma {:induction false} SameByPid(a: seq<Process>, b: seq<Process>)
    requires |a| == |b|
    requires forall i :: 0 <= i < |a| ==> b[i] == a[i].(gpuIndexes := b[i].gpuIndexes, vram := b[i].vram)
    ensures ByPid(a) == ByPid(b)
  {
    if a != [] {
      SameByPid(a[..|a| - 1], b[..|b| - 1]);
    }
  }

  lemma {:induction false} SameByUuid(a: seq<Gpu>, b: seq<Gpu>)
    requires |a| == |b| && forall i :: 0 <= i < |a| ==> b[i] == a[i].(processCount := b[i].processCount)
    ensures ByUuid(a) == ByUuid(b)
  {
    if a != [] {
      SameByUuid(a[..|a| - 1], b[..|b| - 1]);
    }
  }

  ghost predicate Fixed(t: Tables, ps: seq<GpuProcess>) {
    forall p <- ps :: Joined(t, p) == p
  }

  lemma {:induction false} JoinedFixed(t: Tables, ps: seq<GpuProcess>)
    ensures Fixed(t, AllJoined(t, ps))
  {
    if ps != [] {
      JoinedFixed(t, ps[..|ps| - 1]);
      JoinedTwice(t, ps[|ps| - 1]);
    }
  }

  lemma {:induction false} FixedSame(t: Tables, ps: seq<GpuProcess>)
    requires Fixed(t, ps)
    ensures AllJoined(t, ps) == ps
  {
    if ps != [] {
      assert forall p <- ps[..|ps| - 1] :: p in ps;
      assert ps[|ps| - 1] in ps;
      FixedSame(t, ps[..|ps| - 1]);
      assert ps[..|ps| - 1] + [ps[|ps| - 1]] == ps;
    }
  }

  lemma CorrelateTwice(s: Server, r: Server, again: Server)
    requires Correlated(s, r) && Correlated(r, again)
    ensures again == r
  {
    var t, joined := TablesOf(s), AllJoined(TablesOf(s), s.gpuProcesses);
    forall i | 0 <= i < |s.processes|
      ensures r.processes[i] == s.processes[i].(gpuIndexes := r.processes[i].gpuIndexes, vram := r.processes[i].vram)
    {
      assert ProcessCorrelated(s.processes[i], joined, r.processes[i]);
    }
    SameByPid(s.processes, r.processes);
    SameByUuid(s.gpus, r.gpus);
    assert TablesOf(r) == t;
    JoinedFixed(t, s.gpuProcesses);
    SortedInOrder(joined);
    assert Fixed(t, r.gpuProcesses);
    FixedSame(t, r.gpuProcesses);
    SortedSame(r.gpuProcesses);
    SameCounts(s, r, again, joined);
  }

  lemma SameCounts(s: Server, r: Server, again: Server, joined: seq<GpuProcess>)
    requires joined == AllJoined(TablesOf(s), s.gpuProcesses) && Correlated(s, r) && Correlated(r, again)
    requires AllJoined(TablesOf(r), r.gpuProcesses) == r.gpuProcesses && Sorted(r.gpuProcesses) == r.gpuProcesses
    ensures again == r
  {
    CorrelatedMeans(s, r);
    forall i | 0 <= i < |r.processes| ensures again.processes[i] == r.processes[i] {
      assert ProcessCorrelated(r.processes[i], r.gpuProcesses, again.processes[i]);
      AscendingUnique(again.processes[i].gpuIndexes, r.processes[i].gpuIndexes);
    }
    assert again.gpus == r.gpus;
    assert again.processes == r.processes;
  }

  // ----- the method -----------------------------------------------------------------------------

  function CountOf(counts: map<int, nat>, g: int): nat {
    if g in counts then counts[g] else 0
  }

  function ListOf(lists: map<nat, seq<int>>, pid: nat): seq<int> {
    if pid in lists then lists[pid] else []
  }

  function Once(list: seq<int>, g: int): seq<int> {
    if g in list then list else list + [g]
  }

  ghost predicate NoTwice(list: seq<int>) {
    forall i, j :: 0 <= i < j < |list| ==> list[i] != list[j]
  }

  ghost predicate CountsOk(counts: map<int, nat>, ps: seq<GpuProcess>) {
    forall g: int :: CountOf(counts, g) == Sum(ps, OnGpu(g))
  }

  ghost predicate ListOk(lists: map<nat, seq<int>>, ps: seq<GpuProcess>, pid: nat) {
    NoTwice(ListOf(lists, pid)) && forall g :: g in ListOf(lists, pid) <==> Sum(ps, At(pid, g)) > 0
  }

  ghost predicate VramOk(vram: map<nat, nat>, ps: seq<GpuProcess>, pid: nat) {
    (if pid in vram then Some(vram[pid]) else None) == Vram(ps, pid)
  }

  ghost predicate Tallied(counts: map<int, nat>, lists: map<nat, seq<int>>, vram: map<nat, nat>, ps: seq<GpuProcess>) {
    && CountsOk(counts, ps)
    && (forall pid: nat :: ListOk(lists, ps, pid))
    && (forall pid: nat :: VramOk(vram, ps, pid))
  }

  lemma NothingTallied(none: seq<GpuProcess>)
    requires none == []
    ensures Tallied(map[], map[], map[], none)
  {
    forall pid: nat ensures VramOk(map[], none, pid) {
      assert Sum(none, MeasuredOf(pid)) == 0;
    }
  }

  /** Looking at one more joined process. */
  lemma TalliedNext(counts: map<int, nat>, lists: map<nat, seq<int>>, vram: map<nat, nat>, ps: seq<GpuProcess>,
                    p: GpuProcess)
    requires Tallied(counts, lists, vram, ps)
    ensures Tallied(NextCounts(counts, p), NextLists(lists, p), NextVram(vram, p), ps + [p])
  {
    forall g: int ensures CountOf(NextCounts(counts, p), g) == Sum(ps + [p], OnGpu(g)) {
      SumAppend(ps, p, OnGpu(g));
      assert CountOf(counts, g) == Sum(ps, OnGpu(g));
    }
    forall pid: nat ensures ListOk(NextLists(lists, p), ps + [p], pid) {
      assert ListOk(lists, ps, pid);
      NextListOk(lists, ps, p, pid);
    }
    forall pid: nat ensures VramOk(NextVram(vram, p), ps + [p], pid) {
      assert VramOk(vram, ps, pid);
      SumAppend(ps, p, MeasuredOf(pid));
      SumAppend(ps, p, MemoryOf(pid));
      if Sum(ps, MeasuredOf(pid)) == 0 {
        NoneMeasured(ps, pid);
      }
    }
  }

  lemma {:induction false} NoneMeasured(ps: seq<GpuProcess>, pid: nat)
    requires Sum(ps, MeasuredOf(pid)) == 0
    ensures Sum(ps, MemoryOf(pid)) == 0
  {
    if ps != [] {
      NoneMeasured(ps[..|ps| - 1], pid);
    }
  }

  lemma NextListOk(lists: map<nat, seq<int>>, ps: seq<GpuProcess>, p: GpuProcess, pid: nat)
    requires ListOk(lists, ps, pid)
    ensures ListOk(NextLists(lists, p), ps + [p], pid)
  {
    forall g: int ensures Sum(ps + [p], At(pid, g)) == Sum(ps, At(pid, g)) + At(pid, g)(p) {
      SumAppend(ps, p, At(pid, g));
    }
  }

  function NextCounts(counts: map<int, nat>, p: GpuProcess): map<int, nat> {
    if p.index.Some? then counts[p.index.value := CountOf(counts, p.index.value) + 1] else counts
  }

  function NextLists(lists: map<nat, seq<int>>, p: GpuProcess): map<nat, seq<int>> {
    if p.index.Some? then lists[p.pid := Once(ListOf(lists, p.pid), p.index.value)] else lists
  }

  function NextVram(vram: map<nat, nat>, p: GpuProcess): map<nat, nat> {
    if p.index.Some? && p.memory.Some? then
      vram[p.pid := (if p.pid in vram then vram[p.pid] else 0) + p.memory.value]
    else vram
  }

  function Placed(list: seq<int>, g: int): seq<int> {
    if list != [] && g < list[|list| - 1] then Placed(list[..|list| - 1], g) + [list[|list| - 1]] else list + [g]
  }

  /** The list in ascending order. */
  function InAscent(list: seq<int>): seq<int> {
    if list == [] then [] else Placed(InAscent(list[..|list| - 1]), list[|list| - 1])
  }

  lemma {:induction false} PlacedAscending(list: seq<int>, g: int)
    requires Ascending(list) && g !in list
    ensures Ascending(Placed(list, g)) && forall x :: x in Placed(list, g) <==> x in list || x == g
  {
    if list != [] {
      LargestLast(list);
      if g < list[|list| - 1] {
        var front, last := list[..|list| - 1], list[|list| - 1];
        PlacedAscending(front, g);
        var got := Placed(front, g);
        forall i | 0 <= i < |got| ensures got[i] < last {
          assert got[i] in got;
        }
      }
    }
  }

  lemma {:induction false} InAscentIs(list: seq<int>)
    requires NoTwice(list)
    ensures Ascending(InAscent(list)) && forall x :: x in InAscent(list) <==> x in list
  {
    if list != [] {
      var front, last := list[..|list| - 1], list[|list| - 1];
      InAscentIs(front);
      forall x ensures x in list <==> x in front || x == last {
      }
      PlacedAscending(InAscent(front), last);
    }
  }

  lemma JoinedNext(t: Tables, ps: seq<GpuProcess>, i: nat)
    requires i < |ps|
    ensures AllJoined(t, ps[..i + 1]) == AllJoined(t, ps[..i]) + [Joined(t, ps[i])]
  {
    assert ps[..i + 1][..i] == ps[..i];
  }

  lemma OneReplaced(front: seq<GpuProcess>, all: seq<GpuProcess>, i: nat, q: GpuProcess)
    requires i < |all| && |front| == i
    ensures (front + all[i..])[i := q] == (front + [q]) + all[i + 1..]
  {
  }

  class ServerState {
    var gpus: seq<Gpu>
    var gpuProcesses: seq<GpuProcess>
    var processes: seq<Process>
    var meta: map<nat, Meta>
    var pidUsers: map<nat, string>

    function Now(): Server
      reads this
    {
      Server(gpus, gpuProcesses, processes, meta, pidUsers)
    }

    method Correlate()
      modifies this
      ensures Correlated(old(Now()), Now())
    {
      var t := TablesOf(Now());
      var counts, lists, vram := JoinAll(t);
      ghost var joined := gpuProcesses;
      gpuProcesses := Sorted(gpuProcesses);
      WriteCounts(counts, joined);
      WriteProcesses(lists, vram, joined);
    }

    /** The loop over the GPU processes: each is joined in place and tallied. */
    method JoinAll(t: Tables) returns (counts: map<int, nat>, lists: map<nat, seq<int>>, vram: map<nat, nat>)
      modifies this`gpuProcesses
      ensures gpuProcesses == AllJoined(t, old(gpuProcesses))
      ensures Tallied(counts, lists, vram, gpuProcesses)
    {
      ghost var before := gpuProcesses;
      counts, lists, vram := map[], map[], map[];
      ghost var joined := AllJoined(t, before[..0]);
      NothingTallied(joined);
      for i := 0 to |gpuProcesses|
        invariant |gpuProcesses| == |before| && joined == AllJoined(t, before[..i]) && |joined| == i
        invariant gpuProcesses == joined + before[i..]
        invariant Tallied(counts, lists, vram, joined)
      {
        var p := gpuProcesses[i];
        assert p == before[i];
        var q := Joined(t, p);
        JoinedNext(t, before, i);
        TalliedNext(counts, lists, vram, joined, q);
        OneReplaced(joined, before, i, q);
        gpuProcesses := gpuProcesses[i := q];
        joined := joined + [q];
        counts, lists, vram := NextCounts(counts, q), NextLists(lists, q), NextVram(vram, q);
      }
      assert before[..|before|] == before;
    }

    method WriteCounts(counts: map<int, nat>, ghost joined: seq<GpuProcess>)
      requires CountsOk(counts, joined)
      modifies this`gpus
      ensures |gpus| == |old(gpus)|
      ensures forall i :: 0 <= i < |gpus| ==>
              gpus[i] == old(gpus)[i].(processCount := Sum(joined, OnGpu(old(gpus)[i].index)))
    {
      for i := 0 to |gpus|
        invariant |gpus| == |old(gpus)|
        invariant forall j :: 0 <= j < i ==>
                  gpus[j] == old(gpus)[j].(processCount := Sum(joined, OnGpu(old(gpus)[j].index)))
        invariant forall j :: i <= j < |gpus| ==> gpus[j] == old(gpus)[j]
      {
        var g := gpus[i];
        gpus := gpus[i := g.(processCount := CountOf(counts, g.index))];
      }
    }

    method WriteProcesses(lists: map<nat, seq<int>>, vram: map<nat, nat>, ghost joined: seq<GpuProcess>)
      requires forall pid: nat :: ListOk(lists, joined, pid) && VramOk(vram, joined, pid)
      modifies this`processes
      ensures |processes| == |old(processes)|
      ensures forall i :: 0 <= i < |processes| ==> ProcessCorrelated(old(processes)[i], joined, processes[i])
    {
      for i := 0 to |processes|
        invariant |processes| == |old(processes)|
        invariant forall j :: 0 <= j < i ==> ProcessCorrelated(old(processes)[j], joined, processes[j])
        invariant forall j :: i <= j < |processes| ==> processes[j] == old(processes)[j]
      {
        var p := processes[i];
        assert ListOk(lists, joined, p.pid) && VramOk(vram, joined, p.pid);
        InAscentIs(ListOf(lists, p.pid));
        processes := processes[i := p.(gpuIndexes := InAscent(ListOf(lists, p.pid)),
                                       vram := if p.pid in vram then Some(vram[p.pid]) else None)];
      }
    }
  }
}
