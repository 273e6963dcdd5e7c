/** On whose host a command runs: the first command that finds a connection without a peer
    connects it with its own record, and everybody else uses what is there. */
module SshPeers {
  import opened Common
  import opened SshManager
  import opened SshRetire
  import opened SshSafety
  import opened SshIdentity

  /** `peers` tells for every connection with whose identity it is connected, if it is, and
      `on` for every running command with whose identity the connection it runs on was. */
  datatype Hosts = Hosts(st: State, peers: seq<Option<Identity>>, on: map<nat, Identity>)

  /** A step of the manager; a command that passed its recheck connects, or uses what is
      connected; and a connection is lost or dropped. */
  datatype Act = Manage(event: Event) | Connect(task: nat) | Use(task: nat) | Lose(conn: nat)

  /** A command past its recheck, on connection `c`, that does not run yet. */
  predicate Admitted(h: Hosts, i: nat, c: nat) {
    i < |h.st.tasks| && h.st.tasks[i].pc.Active? && h.st.tasks[i].pc.conn == c < |h.peers| && i !in h.on
  }

  predicate Possible(l: Limits, h: Hosts, a: Act) {
    match a
    case Manage(e) => Enabled(l, h.st, e)
    case Connect(i) => i < |h.st.tasks| && h.st.tasks[i].pc.Active? && Admitted(h, i, h.st.tasks[i].pc.conn)
                       && h.peers[h.st.tasks[i].pc.conn].None?
    case Use(i) => i < |h.st.tasks| && h.st.tasks[i].pc.Active? && Admitted(h, i, h.st.tasks[i].pc.conn)
                   && h.peers[h.st.tasks[i].pc.conn].Some?
    case Lose(c) => c < |h.peers|
  }

  /** The connection that a step of the manager closes. */
  function Shuts(st: State, e: Event): Option<nat> {
    if e.Go? && e.task < |st.tasks| && st.tasks[e.task].pc.Retire? && st.tasks[e.task].pc.close.Closing?
    then Some(st.tasks[e.task].pc.close.conn) else None
  }

  predicate Finishes(st: State, e: Event) {
    e.Go? && e.task < |st.tasks| && st.tasks[e.task].pc.Active?
  }

  function Managed(l: Limits, h: Hosts, e: Event): Hosts
    requires Enabled(l, h.st, e)
  {
    var shut := Shuts(h.st, e);
    Hosts(Next(l, h.st, e),
          if Created(h.st, e) then h.peers + [None]
          else if shut.Some? && shut.value < |h.peers| then h.peers[shut.value := None] else h.peers,
          if Finishes(h.st, e) then h.on - {e.task} else h.on)
  }

  function After(l: Limits, h: Hosts, a: Act): Hosts
    requires Possible(l, h, a)
  {
    match a
    case Manage(e) => Managed(l, h, e)
    case Connect(i) =>
      var mine := h.st.tasks[i].identity;
      h.(peers := h.peers[h.st.tasks[i].pc.conn := Some(mine)], on := h.on[i := mine])
    case Use(i) => h.(on := h.on[i := h.peers[h.st.tasks[i].pc.conn].value])
    case Lose(c) => h.(peers := h.peers[c := None])
  }

  ghost function RunOf(l: Limits, acts: seq<Act>): Option<Hosts> {
    if acts == [] then Some(Hosts(Initial(l), [], map[]))
    else
      var before, a := RunOf(l, acts[..|acts| - 1]), acts[|acts| - 1];
      if before.Some? && Possible(l, before.value, a) then Some(After(l, before.value, a)) else None
  }

  // ----- the manager's results hold ------------------------------------------------------

  function Managements(acts: seq<Act>): seq<Event> {
    if acts == [] then []
    else
      var a := acts[|acts| - 1];
      Managements(acts[..|acts| - 1]) + if a.Manage? then [a.event] else []
  }

  /** The manager does not notice who connects: its states are those of its own runs. */
  lemma {:induction false} ManagerRuns(l: Limits, acts: seq<Act>)
    requires RunOf(l, acts).Some?
    ensures Run(l, Managements(acts)) == Some(RunOf(l, acts).value.st) && Reachable(l, RunOf(l, acts).value.st)
  {
    if acts != [] {
      var a := acts[|acts| - 1];
      ManagerRuns(l, acts[..|acts| - 1]);
      if a.Manage? {
        RunMore(l, Managements(acts[..|acts| - 1]), RunOf(l, acts[..|acts| - 1]).value.st, a.event);
      } else {
        assert Managements(acts[..|acts| - 1]) + [] == Managements(acts[..|acts| - 1]);
      }
    }
  }

  // ----- what one act changes --------------------------------------------------------------

  /** Every connection has a place for its peer. */
  predicate Paired(h: Hosts) {
    |h.peers| == |h.st.conns|
  }

  lemma ManagedPeers(l: Limits, h: Hosts, e: Event)
    requires Enabled(l, h.st, e) && Paired(h)
    ensures Paired(Managed(l, h, e))
  {
    StepConns(l, h.st, e);
  }

  /** A task stays where it is, or it is the one that moves. */
  lemma ManagedTask(l: Limits, h: Hosts, e: Event, i: nat)
    requires Enabled(l, h.st, e) && i < |h.st.tasks|
    ensures var after := Managed(l, h, e).st;
            && i < |after.tasks| && after.tasks[i] == h.st.tasks[i].(pc := after.tasks[i].pc)
            && (h.st.tasks[i].pc.Active? ==> after.tasks[i].pc == if e == Go(i) then Done else h.st.tasks[i].pc)
            && (h.st.tasks[i].pc.Done? ==> after.tasks[i].pc.Done?)
  {
    if e.Go? {
      StepTask(l, h.st, e.task);
    }
  }

  /** A connected peer stays until the connection is lost or closed. */
  lemma PeerKept(l: Limits, h: Hosts, a: Act, c: nat)
    requires Possible(l, h, a) && c < |h.peers| && h.peers[c].Some?
    requires a != Lose(c) && !(a.Manage? && Shuts(h.st, a.event) == Some(c))
    ensures c < |After(l, h, a).peers| && After(l, h, a).peers[c] == h.peers[c]
  {
  }

  /** A peer is there because it was, or because somebody connects. */
  lemma PeerBefore(l: Limits, h: Hosts, a: Act, c: nat)
    requires Possible(l, h, a) && c < |After(l, h, a).peers| && After(l, h, a).peers[c].Some?
    ensures var after := After(l, h, a);
            if a.Connect? && Admitted(h, a.task, c) then after.peers[c] == Some(h.st.tasks[a.task].identity)
            else c < |h.peers| && after.peers[c] == h.peers[c] && a != Lose(c)
                 && !(a.Manage? && Shuts(h.st, a.event) == Some(c))
  {
  }

  /** A running command stays on what it started on, until it is done. */
  predicate RunsOn(h: Hosts, i: nat, c: nat, id: Identity, peer: Identity) {
    && i < |h.st.tasks| && h.st.tasks[i].identity == id
    && (|| h.st.tasks[i].pc.Done?
        || (h.st.tasks[i].pc.Active? && h.st.tasks[i].pc.conn == c && i in h.on && h.on[i] == peer))
  }

  lemma RunsOnKept(l: Limits, h: Hosts, a: Act, i: nat, c: nat, id: Identity, peer: Identity)
    requires Possible(l, h, a) && RunsOn(h, i, c, id, peer)
    ensures RunsOn(After(l, h, a), i, c, id, peer)
  {
    if a.Manage? {
      ManagedTask(l, h, a.event, i);
    }
  }

  /** Only commands past their recheck run. */
  predicate OnlyActive(h: Hosts) {
    forall i <- h.on :: i < |h.st.tasks| && h.st.tasks[i].pc.Active?
  }

  lemma OnlyActiveKept(l: Limits, h: Hosts, a: Act)
    requires Possible(l, h, a) && OnlyActive(h)
    ensures OnlyActive(After(l, h, a))
  {
    if a.Manage? {
      forall i <- After(l, h, a).on ensures i < |After(l, h, a).st.tasks| && After(l, h, a).st.tasks[i].pc.Active? {
        ManagedTask(l, h, a.event, i);
      }
    }
  }

  // ----- along a run ------------------------------------------------------------------------

  ghost function HostsAt(l: Limits, acts: seq<Act>, n: nat): Option<Hosts> {
    if n <= |acts| then RunOf(l, acts[..n]) else None
  }

  /** With act `m` a command connects connection `c`, for its own identity. */
  ghost predicate ConnectsAt(l: Limits, acts: seq<Act>, m: nat, c: nat) {
    m < |acts| && HostsAt(l, acts, m).Some? && acts[m].Connect? && Admitted(HostsAt(l, acts, m).value, acts[m].task, c)
  }

  ghost function Connector(l: Limits, acts: seq<Act>, m: nat): Option<Identity> {
    if m < |acts| && HostsAt(l, acts, m).Some? && acts[m].Connect?
      && acts[m].task < |HostsAt(l, acts, m).value.st.tasks|
    then Some(HostsAt(l, acts, m).value.st.tasks[acts[m].task].identity) else None
  }

  /** With act `q` connection `c` is lost or closed. */
  ghost predicate ClearsAt(l: Limits, acts: seq<Act>, q: nat, c: nat) {
    q < |acts| && (acts[q] == Lose(c)
                   || (HostsAt(l, acts, q).Some? && acts[q].Manage?
                       && Shuts(HostsAt(l, acts, q).value.st, acts[q].event) == Some(c)))
  }

  /** With act `b` command `i` starts to run, on what it connected or on what was there. */
  ghost predicate StartsAt(l: Limits, acts: seq<Act>, b: nat, i: nat) {
    b < |acts| && HostsAt(l, acts, b).Some? && (acts[b] == Connect(i) || acts[b] == Use(i))
  }

  lemma ActAt(l: Limits, acts: seq<Act>, n: nat)
    requires n < |acts| && HostsAt(l, acts, n + 1).Some?
    ensures HostsAt(l, acts, n).Some? && Possible(l, HostsAt(l, acts, n).value, acts[n])
    ensures HostsAt(l, acts, n + 1).value == After(l, HostsAt(l, acts, n).value, acts[n])
  {
    assert acts[..n + 1][..n] == acts[..n];
  }

  lemma {:induction false} OnlyActiveRuns(l: Limits, acts: seq<Act>, n: nat)
    requires HostsAt(l, acts, n).Some?
    ensures OnlyActive(HostsAt(l, acts, n).value)
  {
    if n > 0 {
      ActAt(l, acts, n - 1);
      OnlyActiveRuns(l, acts, n - 1);
      OnlyActiveKept(l, HostsAt(l, acts, n - 1).value, acts[n - 1]);
    }
  }

  lemma Connected(l: Limits, h: Hosts, i: nat, c: nat)
    requires Possible(l, h, Connect(i)) && Admitted(h, i, c)
    ensures c < |After(l, h, Connect(i)).peers| && i < |h.st.tasks|
    ensures After(l, h, Connect(i)).peers[c] == Some(h.st.tasks[i].identity)
  {
  }

  /** After the first `n` acts connection `c` has this peer. */
  ghost predicate PeerAt(l: Limits, acts: seq<Act>, n: nat, c: nat, peer: Option<Identity>) {
    HostsAt(l, acts, n).Some? && c < |HostsAt(l, acts, n).value.peers| && HostsAt(l, acts, n).value.peers[c] == peer
  }

  lemma ConnectedAt(l: Limits, acts: seq<Act>, m: nat, n: nat, c: nat)
    requires ConnectsAt(l, acts, m, c) && n == m + 1 && HostsAt(l, acts, n).Some?
    ensures PeerAt(l, acts, n, c, Connector(l, acts, m)) && Connector(l, acts, m).Some?
  {
    ActAt(l, acts, m);
    Connected(l, HostsAt(l, acts, m).value, acts[m].task, c);
  }

  lemma KeptAt(l: Limits, acts: seq<Act>, before: nat, n: nat, c: nat, peer: Option<Identity>)
    requires before < |acts| && n == before + 1 && HostsAt(l, acts, n).Some?
    requires PeerAt(l, acts, before, c, peer) && peer.Some? && !ClearsAt(l, acts, before, c)
    ensures PeerAt(l, acts, n, c, peer)
  {
    ActAt(l, acts, before);
    PeerKept(l, HostsAt(l, acts, before).value, acts[before], c);
  }

  lemma ThereBefore(l: Limits, acts: seq<Act>, before: nat, n: nat)
    requires n == before + 1 && HostsAt(l, acts, n).Some?
    ensures before < |acts| && HostsAt(l, acts, before).Some?
  {
    ActAt(l, acts, before);
  }

  lemma {:induction false} PeerStays(l: Limits, acts: seq<Act>, m: nat, n: nat, c: nat)
    requires ConnectsAt(l, acts, m, c) && m < n && HostsAt(l, acts, n).Some?
    requires forall q :: m < q < n ==> !ClearsAt(l, acts, q, c)
    ensures PeerAt(l, acts, n, c, Connector(l, acts, m)) && Connector(l, acts, m).Some?
  {
    if m == n - 1 {
      ConnectedAt(l, acts, m, n, c);
    } else {
      ThereBefore(l, acts, n - 1, n);
      PeerStays(l, acts, m, n - 1, c);
      KeptAt(l, acts, n - 1, n, c, Connector(l, acts, m));
    }
  }

  lemma {:induction false} PeerFrom(l: Limits, acts: seq<Act>, n: nat, c: nat) returns (m: nat)
    requires HostsAt(l, acts, n).Some? && c < |HostsAt(l, acts, n).value.peers|
             && HostsAt(l, acts, n).value.peers[c].Some?
    ensures m < n && ConnectsAt(l, acts, m, c) && Connector(l, acts, m) == HostsAt(l, acts, n).value.peers[c]
    ensures forall q :: m < q < n ==> !ClearsAt(l, acts, q, c)
  {
    ActAt(l, acts, n - 1);
    var before := HostsAt(l, acts, n - 1).value;
    PeerBefore(l, before, acts[n - 1], c);
    if acts[n - 1].Connect? && Admitted(before, acts[n - 1].task, c) {
      m := n - 1;
    } else {
      m := PeerFrom(l, acts, n - 1, c);
      assert !ClearsAt(l, acts, n - 1, c);
    }
  }

  lemma Starting(l: Limits, acts: seq<Act>, b: nat, i: nat)
    requires StartsAt(l, acts, b, i) && HostsAt(l, acts, b + 1).Some?
    ensures var h := HostsAt(l, acts, b).value;
            && i < |h.st.tasks| && h.st.tasks[i].pc.Active? && h.st.tasks[i].pc.conn < |h.peers|
            && (acts[b] == Connect(i) <==> h.peers[h.st.tasks[i].pc.conn].None?)
            && RunsOn(HostsAt(l, acts, b + 1).value, i, h.st.tasks[i].pc.conn, h.st.tasks[i].identity,
                      if acts[b] == Connect(i) then h.st.tasks[i].identity else h.peers[h.st.tasks[i].pc.conn].value)
  {
    ActAt(l, acts, b);
  }

  lemma {:induction false} StartLasts(l: Limits, acts: seq<Act>, b: nat, n: nat, i: nat, c: nat, id: Identity,
                                      peer: Identity)
    requires b < n && HostsAt(l, acts, n).Some?
             && (HostsAt(l, acts, b + 1).Some? ==> RunsOn(HostsAt(l, acts, b + 1).value, i, c, id, peer))
    ensures HostsAt(l, acts, b + 1).Some? && RunsOn(HostsAt(l, acts, n).value, i, c, id, peer)
  {
    if b + 1 < n {
      ActAt(l, acts, n - 1);
      StartLasts(l, acts, b, n - 1, i, c, id, peer);
      RunsOnKept(l, HostsAt(l, acts, n - 1).value, acts[n - 1], i, c, id, peer);
    }
  }

  lemma {:induction false} StartFrom(l: Limits, acts: seq<Act>, n: nat, i: nat) returns (b: nat)
    requires HostsAt(l, acts, n).Some? && i in HostsAt(l, acts, n).value.on
    ensures b < n && StartsAt(l, acts, b, i)
  {
    ActAt(l, acts, n - 1);
    b := n - 1;
    if i in HostsAt(l, acts, n - 1).value.on {
      b := StartFrom(l, acts, n - 1, i);
    }
  }

  lemma {:induction false} RunsBefore(l: Limits, acts: seq<Act>, m: nat, n: nat)
    requires m <= n && HostsAt(l, acts, n).Some?
    ensures HostsAt(l, acts, m).Some?
  {
    if m < n {
      ActAt(l, acts, n - 1);
      RunsBefore(l, acts, m, n - 1);
    }
  }

  /** Before command `i` starts with act `b`, another identity's command connected the
      connection with act `m`, and it was not without a peer since. */
  ghost predicate ForeignPeer(l: Limits, acts: seq<Act>, i: nat, c: nat, id: Identity, m: nat, b: nat) {
    && m < b && StartsAt(l, acts, b, i) && ConnectsAt(l, acts, m, c) && Connector(l, acts, m) != Some(id)
    && forall q :: m < q < b ==> !ClearsAt(l, acts, q, c)
  }

  /** In every run, a command runs on a host reached with another identity than its own if
      and only if a command with another identity connected its connection before it
      started, and the connection was not without a peer in between: whatever identity the
      entry was built for. */
  lemma PeerForeignIff(l: Limits, acts: seq<Act>, i: nat)
    requires RunOf(l, acts).Some? && i in RunOf(l, acts).value.on
    ensures i < |RunOf(l, acts).value.st.tasks| && RunOf(l, acts).value.st.tasks[i].pc.Active?
    ensures var t := RunOf(l, acts).value.st.tasks[i];
            RunOf(l, acts).value.on[i] != t.identity
            <==> exists m: nat, b: nat :: ForeignPeer(l, acts, i, t.pc.conn, t.identity, m, b)
  {
    var n := |acts|;
    assert acts[..n] == acts;
    OnlyActiveRuns(l, acts, n);
    var t := RunOf(l, acts).value.st.tasks[i];
    var b := StartFrom(l, acts, n, i);
    StartedOn(l, acts, b, i);
    if RunOf(l, acts).value.on[i] != t.identity {
      var m := PeerFrom(l, acts, b, t.pc.conn);
      assert ForeignPeer(l, acts, i, t.pc.conn, t.identity, m, b);
    }
    forall m: nat, start: nat | ForeignPeer(l, acts, i, t.pc.conn, t.identity, m, start)
      ensures RunOf(l, acts).value.on[i] != t.identity
    {
      StartedOn(l, acts, start, i);
      PeerStays(l, acts, m, start, t.pc.conn);
    }
  }

  /** What a running command found when it started. */
  lemma StartedOn(l: Limits, acts: seq<Act>, b: nat, i: nat)
    requires RunOf(l, acts).Some? && i in RunOf(l, acts).value.on && StartsAt(l, acts, b, i)
    requires i < |RunOf(l, acts).value.st.tasks| && RunOf(l, acts).value.st.tasks[i].pc.Active?
    ensures var h, t := HostsAt(l, acts, b).value, RunOf(l, acts).value.st.tasks[i];
            && t.pc.conn < |h.peers|
            && RunOf(l, acts).value.on[i] == if h.peers[t.pc.conn].None? then t.identity else h.peers[t.pc.conn].value
  {
    var n := |acts|;
    assert acts[..n] == acts;
    RunsBefore(l, acts, b + 1, n);
    Starting(l, acts, b, i);
    var h := HostsAt(l, acts, b).value;
    var c, id := h.st.tasks[i].pc.conn, h.st.tasks[i].identity;
    StartLasts(l, acts, b, n, i, c, id, if acts[b] == Connect(i) then id else h.peers[c].value);
  }

  // ----- it does happen, on an entry of one's own -----------------------------------------------

  lemma ActMore(l: Limits, acts: seq<Act>, h: Hosts, a: Act)
    requires RunOf(l, acts) == Some(h) && Possible(l, h, a)
    ensures RunOf(l, acts + [a]) == Some(After(l, h, a))
  {
    assert (acts + [a])[..|acts|] == acts;
  }

  /** A run of the manager in which nobody connects. */
  lemma {:induction false} ManagerAlone(l: Limits, events: seq<Event>) returns (acts: seq<Act>)
    requires Run(l, events).Some?
    ensures RunOf(l, acts).Some?
    ensures var h := RunOf(l, acts).value; h.st == Run(l, events).value && |h.peers| == |h.st.conns| && h.on == map[]
    ensures forall c :: 0 <= c < |RunOf(l, acts).value.peers| ==> RunOf(l, acts).value.peers[c].None?
  {
    acts := [];
    if events != [] {
      var e := events[|events| - 1];
      acts := ManagerAlone(l, events[..|events| - 1]);
      var h := RunOf(l, acts).value;
      ManagedPeers(l, h, e);
      ActMore(l, acts, h, Manage(e));
      acts := acts + [Manage(e)];
    }
  }

  /** One more act of the run. */
  lemma Continued(l: Limits, acts: seq<Act>, h: Hosts, a: Act) returns (more: seq<Act>, after: Hosts)
    requires RunOf(l, acts) == Some(h) && Possible(l, h, a)
    ensures RunOf(l, more) == Some(after) && after == After(l, h, a)
  {
    ActMore(l, acts, h, a);
    more, after := acts + [a], After(l, h, a);
  }

  /** Two commands queue on the entry that the first one built; the other one, which has
      another identity, is the first to connect, and the builder runs on its host. */
  lemma PeerCanDiffer(l: Limits, s: Sid, mine: Identity, other: Identity) returns (acts: seq<Act>, h: Hosts)
    requires mine != other && l.overall >= 2 && l.perServer >= 2
    ensures RunOf(l, acts) == Some(h) && |h.st.tasks| == 2 && h.st.tasks[0].identity == mine
    ensures h.st.tasks[0].pc == Active(0, 0) && |h.st.conns| == 1 && h.st.conns[0].identity == mine
    ensures 0 in h.on && h.on[0] == other
  {
    var st := IdentityCanDiffer(l, s, other, mine);
    var events :| Run(l, events) == Some(st);
    acts := ManagerAlone(l, events);
    h := RunOf(l, acts).value;
    acts, h := Admit(l, acts, h, 1, s);
    acts, h := Continued(l, acts, h, Connect(1));
    acts, h := Admit(l, acts, h, 0, s);
    acts, h := Continued(l, acts, h, Use(0));
  }

  /** Command `i` takes its permit and passes its recheck. */
  lemma Admit(l: Limits, acts0: seq<Act>, h0: Hosts, i: nat, s: Sid) returns (acts: seq<Act>, h: Hosts)
    requires RunOf(l, acts0) == Some(h0) && i < |h0.st.tasks| && h0.st.tasks[i].pc == Queued(0, 0)
             && h0.st.tasks[i].server == s
    requires |h0.st.free| > 0 && h0.st.free[0] > 0 && s !in h0.st.tables.retiring
             && Lookup(h0.st.tables.managed, s) == Some(0)
    ensures RunOf(l, acts) == Some(h)
    ensures h == h0.(st := h0.st.(tasks := h0.st.tasks[i := h0.st.tasks[i].(pc := Active(0, 0))],
                                  free := h0.st.free[0 := h0.st.free[0] - 1]))
  {
    acts, h := Continued(l, acts0, h0, Manage(Go(i)));
    acts, h := Continued(l, acts, h, Manage(Go(i)));
  }
}
