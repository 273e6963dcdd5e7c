/** What the frames pushed to a client show, over all runs of the hub: when the last fleet
    frame and the last snapshot are still true while the loop waits. */
module HubFrames {
  import opened Common
  import opened Telemetry
  import opened RealtimeHub

  predicate PushesFleet(a: HubState, e: Event, c: Cid) {
    e.Round? && FleetDue(a, c)
  }

  predicate PushesSnapshot(a: HubState, e: Event, c: Cid) {
    e.Round? && c in a.clients && SnapshotDue(a.data, a.selected, a.clients[c])
  }

  /** Changes what the fleet summary shows without raising the fleet revision. */
  predicate HiddenChange(e: Event) {
    e.Mutate? && (e.change.PidUsers? || e.change.GpuProcesses? || e.change.Processes? || e.change.Storage?
                  || e.change.Network?)
  }

  /** Replaces or changes the content of `id` without a new version number: the server is
      forgotten, or the owners of its processes are stored. */
  predicate Disguises(e: Event, id: Id) {
    (e.Forget? && id in e.gone) || (e.Mutate? && e.id == id && e.change.PidUsers?)
  }

  /** These five are exactly the updates shown in the fleet that raise nothing. */
  lemma HiddenIff(d: Data, e: Event)
    requires e.Mutate?
    ensures HiddenChange(e) <==>
            Alters(d, e.id, e.change) && ShowsInFleet(ServerOf(d, e.id), e.change)
            && !RaisesFleet(ServerOf(d, e.id), e.change)
  {
  }

  // Proofs over runs see the hub's steps as a function `step`.

  ghost predicate Chain(step: (HubState, Event, HubState) -> bool, es: seq<Event>, states: seq<HubState>) {
    |states| == |es| + 1 && forall i :: 0 <= i < |es| ==> step(states[i], es[i], states[i + 1])
  }

  // ----- the fleet ----------------------------------------------------------------------

  /** Client `c` was last sent the fleet with this revision and content; `hidden` tells
      whether a hidden change came since. */
  ghost predicate FleetTrack(a: HubState, c: Cid, revision: nat, shows: nat, hidden: bool) {
    && c in a.clients && a.clients[c].fleet == Some(shows)
    && (a.clients[c].fleetSeen == revision || a.clients[c].fleetSeen == -1)
    && a.data.fleetRevision >= revision && shows <= a.data.clock
    && (if hidden then a.data.fleetStamp > shows else a.data.fleetStamp == shows || a.data.fleetRevision > revision)
  }

  lemma FleetUpdated(a: HubState, e: Event, b: HubState, c: Cid, revision: nat, shows: nat, hidden: bool)
    requires e.Mutate? && b == a.(data := Updated(a.data, e.id, e.source, e.change))
    requires FleetTrack(a, c, revision, shows, hidden) && a.data.fleetStamp <= a.data.clock
    ensures FleetTrack(b, c, revision, shows, hidden || HiddenChange(e))
  {
    HiddenIff(a.data, e);
  }

  lemma FleetTrackStep(size: nat, a: HubState, e: Event, b: HubState, c: Cid, revision: nat, shows: nat, hidden: bool)
    requires Step(size, a, e, b) && FleetTrack(a, c, revision, shows, hidden) && a.data.fleetStamp <= a.data.clock
    requires !PushesFleet(a, e, c) && e != Leave(c)
    ensures FleetTrack(b, c, revision, shows, hidden || HiddenChange(e))
  {
    match e
    case Mutate(_, _, _) => FleetUpdated(a, e, b, c, revision, shows, hidden);
    case Forget(gone) =>
      if gone == {} {
        WithoutNone(a.data, gone);
      }
    case _ =>
  }

  ghost predicate AnyHidden(events: seq<Event>, p: nat, i: nat)
    requires i <= |events|
  {
    exists q :: p < q < i && HiddenChange(events[q])
  }

  /** After event `p` the client stays and is sent no other fleet frame before state `i`. */
  ghost predicate NoFleetSince(events: seq<Event>, states: seq<HubState>, p: nat, i: nat, c: Cid)
    requires i <= |events| < |states|
  {
    forall q :: p < q < i ==> !PushesFleet(states[q], events[q], c) && events[q] != Leave(c)
  }

  /** One step of a run, with `step` for the hub's steps. */
  lemma FleetTrackAt(size: nat, step: (HubState, Event, HubState) -> bool, a: HubState, e: Event, b: HubState, c: Cid,
                     revision: nat, shows: nat, hidden: bool)
    requires forall x, f, y {:trigger Step(size, x, f, y)} :: step(x, f, y) ==> Step(size, x, f, y)
    requires step(a, e, b) && FleetTrack(a, c, revision, shows, hidden) && a.data.fleetStamp <= a.data.clock
    requires !PushesFleet(a, e, c) && e != Leave(c)
    ensures FleetTrack(b, c, revision, shows, hidden || HiddenChange(e))
  {
    assert Step(size, a, e, b);
    FleetTrackStep(size, a, e, b, c, revision, shows, hidden);
  }

  lemma {:induction false} FleetTracked(size: nat, step: (HubState, Event, HubState) -> bool, events: seq<Event>,
                                        states: seq<HubState>, p: nat, i: nat, c: Cid, revision: nat, shows: nat)
    requires forall x, f, y {:trigger Step(size, x, f, y)} :: step(x, f, y) ==> Step(size, x, f, y)
    requires Chain(step, events, states) && p < i <= |events| && NoFleetSince(events, states, p, i, c)
    requires forall q :: 0 <= q < |states| ==> states[q].data.fleetStamp <= states[q].data.clock
    requires FleetTrack(states[p + 1], c, revision, shows, false)
    ensures FleetTrack(states[i], c, revision, shows, AnyHidden(events, p, i))
  {
    if i - 1 > p {
      FleetTracked(size, step, events, states, p, i - 1, c, revision, shows);
      assert step(states[i - 1], events[i - 1], states[i - 1 + 1]);
      FleetTrackAt(size, step, states[i - 1], events[i - 1], states[i], c, revision, shows,
                   AnyHidden(events, p, i - 1));
      OneMoreHidden(events, p, i);
    }
  }

  lemma StepOf(size: nat, events: seq<Event>, states: seq<HubState>, n: nat)
    requires size > 0 && Run(size, events, states) && n < |events|
    ensures Step(size, states[n], events[n], states[n + 1]) && Inv(size, states[n])
  {
    RunKeepsInv(size, events, states, n);
  }

  lemma FirstFleet(size: nat, a: HubState, e: Event, b: HubState, c: Cid)
    requires Inv(size, a) && Step(size, a, e, b) && PushesFleet(a, e, c)
    ensures FleetTrack(b, c, a.data.fleetRevision, a.data.fleetStamp, false)
  {
    assert b.clients[c] ==
           Told(SnapshotPushed(a.data, a.selected, size, FleetPushed(a.data, size, a.clients[c])), size, e.news);
  }

  lemma OneMoreHidden(events: seq<Event>, p: nat, i: nat)
    requires p + 1 < i <= |events|
    ensures AnyHidden(events, p, i) <==> AnyHidden(events, p, i - 1) || HiddenChange(events[i - 1])
    ensures !AnyHidden(events, p, p + 1)
  {
  }

  /** While the loop waits on the unset event, the last fleet frame pushed to a client
      still shows the fleet as it is if and only if since that push no storage, network or
      process update and no owners of processes were stored. */
  lemma FleetShowsIff(size: nat, events: seq<Event>, states: seq<HubState>, p: nat, i: nat, c: Cid)
    requires size > 0 && Run(size, events, states) && p < i <= |events|
    requires PushesFleet(states[p], events[p], c) && NoFleetSince(events, states, p, i, c)
    requires states[i].blocked && !states[i].data.wake
    ensures c in states[i].clients
    ensures states[i].clients[c].fleet == Some(states[i].data.fleetStamp)
            <==> forall q :: p < q < i ==> !HiddenChange(events[q])
  {
    StampsInTime(size, events, states);
    StepOf(size, events, states, p);
    FirstFleet(size, states[p], events[p], states[p + 1], c);
    FleetTracked(size, (a: HubState, e: Event, b: HubState) => Step(size, a, e, b), events, states, p, i, c,
                 states[p].data.fleetRevision, states[p].data.fleetStamp);
    BlockedHasPushed(size, events, states, i);
    assert ClientUpToDate(states[i], states[i].clients[c]);
  }

  lemma StampsInTime(size: nat, events: seq<Event>, states: seq<HubState>)
    requires size > 0 && Run(size, events, states)
    ensures forall q :: 0 <= q < |states| ==> states[q].data.fleetStamp <= states[q].data.clock
  {
    forall q | 0 <= q < |states| ensures states[q].data.fleetStamp <= states[q].data.clock {
      RunKeepsInv(size, events, states, q);
    }
  }

  // ----- the selected server ---------------------------------------------------------------

  /** Client `c` was last sent content `stamp` of server `id`, as this version; `touched`
      tells whether the content was disguised since. */
  ghost predicate SnapshotTrack(a: HubState, c: Cid, id: Id, version: nat, stamp: nat, touched: bool) {
    && c in a.clients && a.clients[c].snapshot == Some(Picture(id, stamp)) && stamp <= a.data.clock
    && if touched then id in a.data.servers ==> a.data.servers[id].stamp > stamp
       else
         && id in a.data.servers && version <= a.data.servers[id].version
         && (a.data.servers[id].stamp == stamp || a.data.servers[id].version > version)
         && (|| a.clients[c].snapshotSeen == version
             || (a.clients[c].snapshotSeen == -1 && (a.data.wake || a.selected != Some(id))))
  }

  lemma SnapshotUpdated(a: HubState, e: Event, b: HubState, c: Cid, id: Id, version: nat, stamp: nat, touched: bool)
    requires e.Mutate? && b == a.(data := Updated(a.data, e.id, e.source, e.change))
    requires SnapshotTrack(a, c, id, version, stamp, touched)
    ensures SnapshotTrack(b, c, id, version, stamp, touched || Disguises(e, id))
  {
  }

  lemma SnapshotRound(size: nat, a: HubState, news: seq<Frame>, b: HubState, c: Cid, id: Id, version: nat, stamp: nat,
                      touched: bool)
    requires Pushed(a, size, news, b) && SnapshotTrack(a, c, id, version, stamp, touched)
    requires !SnapshotDue(a.data, a.selected, a.clients[c])
    ensures SnapshotTrack(b, c, id, version, stamp, touched)
  {
    assert b.clients[c] ==
           Told(SnapshotPushed(a.data, a.selected, size, FleetPushed(a.data, size, a.clients[c])), size, news);
    assert !SnapshotDue(a.data, a.selected, FleetPushed(a.data, size, a.clients[c]));
  }

  lemma SnapshotTrackStep(size: nat, a: HubState, e: Event, b: HubState, c: Cid, id: Id, version: nat, stamp: nat,
                          touched: bool)
    requires Step(size, a, e, b) && SnapshotTrack(a, c, id, version, stamp, touched)
    requires !PushesSnapshot(a, e, c) && e != Leave(c)
    ensures SnapshotTrack(b, c, id, version, stamp, touched || Disguises(e, id))
  {
    match e
    case Mutate(_, _, _) => SnapshotUpdated(a, e, b, c, id, version, stamp, touched);
    case Round(news) => SnapshotRound(size, a, news, b, c, id, version, stamp, touched);
    case _ =>
  }

  ghost predicate AnyDisguise(events: seq<Event>, id: Id, p: nat, i: nat)
    requires i <= |events|
  {
    exists q :: p < q < i && Disguises(events[q], id)
  }

  ghost predicate NoSnapshotSince(events: seq<Event>, states: seq<HubState>, p: nat, i: nat, c: Cid)
    requires i <= |events| < |states|
  {
    forall q :: p < q < i ==> !PushesSnapshot(states[q], events[q], c) && events[q] != Leave(c)
  }

  lemma FirstSnapshot(size: nat, a: HubState, e: Event, b: HubState, c: Cid)
    requires Inv(size, a) && Step(size, a, e, b) && PushesSnapshot(a, e, c)
    ensures var id := a.selected.value;
            SnapshotTrack(b, c, id, a.data.servers[id].version, a.data.servers[id].stamp, false)
  {
    assert b.clients[c] ==
           Told(SnapshotPushed(a.data, a.selected, size, FleetPushed(a.data, size, a.clients[c])), size, e.news);
  }

  lemma SnapshotTrackAt(size: nat, step: (HubState, Event, HubState) -> bool, a: HubState, e: Event, b: HubState,
                        c: Cid, id: Id, version: nat, stamp: nat, touched: bool)
    requires forall x, f, y {:trigger Step(size, x, f, y)} :: step(x, f, y) ==> Step(size, x, f, y)
    requires step(a, e, b) && SnapshotTrack(a, c, id, version, stamp, touched)
    requires !PushesSnapshot(a, e, c) && e != Leave(c)
    ensures SnapshotTrack(b, c, id, version, stamp, touched || Disguises(e, id))
  {
    assert Step(size, a, e, b);
    SnapshotTrackStep(size, a, e, b, c, id, version, stamp, touched);
  }

  lemma {:induction false} SnapshotTracked(size: nat, step: (HubState, Event, HubState) -> bool, events: seq<Event>,
                                           states: seq<HubState>, p: nat, i: nat, c: Cid, id: Id, version: nat,
                                           stamp: nat)
    requires forall x, f, y {:trigger Step(size, x, f, y)} :: step(x, f, y) ==> Step(size, x, f, y)
    requires Chain(step, events, states) && p < i <= |events| && NoSnapshotSince(events, states, p, i, c)
    requires SnapshotTrack(states[p + 1], c, id, version, stamp, false)
    ensures SnapshotTrack(states[i], c, id, version, stamp, AnyDisguise(events, id, p, i))
  {
    if i - 1 > p {
      SnapshotTracked(size, step, events, states, p, i - 1, c, id, version, stamp);
      assert step(states[i - 1], events[i - 1], states[i - 1 + 1]);
      SnapshotTrackAt(size, step, states[i - 1], events[i - 1], states[i], c, id, version, stamp,
                      AnyDisguise(events, id, p, i - 1));
      OneMoreDisguise(events, id, p, i);
    }
  }

  lemma OneMoreDisguise(events: seq<Event>, id: Id, p: nat, i: nat)
    requires p + 1 < i <= |events|
    ensures AnyDisguise(events, id, p, i) <==> AnyDisguise(events, id, p, i - 1) || Disguises(events[i - 1], id)
  {
  }

  /** While the loop waits on the unset event, the last snapshot pushed to a client shows
      the selected server as it is if and only if it was a snapshot of that server, and
      since then the server was not forgotten and no owners of its processes were stored.
      A forgotten server's version numbers start again, so a new one with the version the
      client was sent last is not pushed. */
  lemma SnapshotShowsIff(size: nat, events: seq<Event>, states: seq<HubState>, p: nat, i: nat, c: Cid, id: Id)
    requires size > 0 && Run(size, events, states) && p < i <= |events|
    requires PushesSnapshot(states[p], events[p], c) && NoSnapshotSince(events, states, p, i, c)
    requires states[i].blocked && !states[i].data.wake && states[i].selected == Some(id) && id in states[i].data.servers
    ensures c in states[i].clients
    ensures states[i].clients[c].snapshot == Some(PictureOf(states[i].data, id))
            <==> states[p].selected == Some(id) && forall q :: p < q < i ==> !Disguises(events[q], id)
  {
    var first := states[p].selected.value;
    StepOf(size, events, states, p);
    FirstSnapshot(size, states[p], events[p], states[p + 1], c);
    SnapshotTracked(size, (a: HubState, e: Event, b: HubState) => Step(size, a, e, b), events, states, p, i, c,
                    first, states[p].data.servers[first].version, states[p].data.servers[first].stamp);
    BlockedHasPushed(size, events, states, i);
    assert ClientUpToDate(states[i], states[i].clients[c]);
    assert AnyDisguise(events, id, p, i) <==> !(forall q :: p < q < i ==> !Disguises(events[q], id));
  }

  // ----- both happen ---------------------------------------------------------------------------

  lemma Link(step: (HubState, Event, HubState) -> bool, es: seq<Event>, states: seq<HubState>, e: Event, s: HubState)
    requires Chain(step, es, states) && step(states[|es|], e, s)
    ensures Chain(step, es + [e], states + [s])
  {
  }

  lemma ChainIsRun(size: nat, step: (HubState, Event, HubState) -> bool, es: seq<Event>, states: seq<HubState>)
    requires Chain(step, es, states) && states[0] == Initial()
    requires forall a, e, b {:trigger step(a, e, b)} :: step(a, e, b) ==> Step(size, a, e, b)
    ensures Run(size, es, states)
  {
    forall i | 0 <= i < |es| ensures Step(size, states[i], es[i], states[i + 1]) {
      assert step(states[i], es[i], states[i + 1]);
    }
  }

  function RoundOf(a: HubState, size: nat): HubState {
    a.(data := a.data.(wake := false), blocked := true, sent := a.sent + Statuses(a.data),
       clients := map c <- a.clients ::
                    Told(SnapshotPushed(a.data, a.selected, size, FleetPushed(a.data, size, a.clients[c])), size, []))
  }

  /** A round over servers whose status is not known. */
  lemma QuietRound(size: nat, a: HubState, step: (HubState, Event, HubState) -> bool) returns (b: HubState)
    requires forall x, e, y {:trigger Step(size, x, e, y)} :: Step(size, x, e, y) ==> step(x, e, y)
    requires !a.blocked && forall id <- a.data.servers :: a.data.servers[id].status == "unknown"
    ensures b == RoundOf(a, size) && step(a, Round([]), b)
  {
    b := RoundOf(a, size);
    assert Pushed(a, size, [], b);
    assert Step(size, a, Round([]), b);
  }

  lemma Moves(size: nat, a: HubState, e: Event, b: HubState, step: (HubState, Event, HubState) -> bool)
    requires forall x, f, y {:trigger Step(size, x, f, y)} :: Step(size, x, f, y) ==> step(x, f, y)
    requires Step(size, a, e, b)
    ensures step(a, e, b)
  {
  }

  /** A client connects, server `id` is selected and first updated, a round is pushed. */
  lemma FirstRound(size: nat, id: Id, source: Endpoint, step: (HubState, Event, HubState) -> bool)
      returns (es: seq<Event>, states: seq<HubState>, s: HubState)
    requires forall x, e, y {:trigger Step(size, x, e, y)} :: Step(size, x, e, y) ==> step(x, e, y)
    ensures Chain(step, es, states) && states[0] == Initial() && |es| == 4 && states[4] == s
    ensures s.blocked && !s.data.wake && s.selected == Some(id) && s.data.servers.Keys == {id}
    ensures s.data.clock == 1 == s.data.fleetStamp
    ensures var v := s.data.servers[id]; v.version == 1 == v.stamp && v.status == "unknown" && v.sources == {source}
    ensures s.clients.Keys == {0} && s.clients[0].fleet == Some(1) && s.clients[0].snapshot == Some(Picture(id, 1))
    ensures s.clients[0].fleetSeen == s.data.fleetRevision && s.clients[0].snapshotSeen == 1
  {
    var s1 := Connected(Initial(), size, 0);
    var s2 := Selected(s1, Some(id));
    var s3 := s2.(data := Updated(s2.data, id, source, Cpu));
    Moves(size, Initial(), Join(0), s1, step);
    Moves(size, s1, Select(Some(id)), s2, step);
    Moves(size, s2, Mutate(id, source, Cpu), s3, step);
    assert s3.data.servers.Keys == {id};
    s := QuietRound(size, s3, step);
    es, states := [], [Initial()];
    Link(step, es, states, Join(0), s1);
    es, states := es + [Join(0)], states + [s1];
    Link(step, es, states, Select(Some(id)), s2);
    es, states := es + [Select(Some(id))], states + [s2];
    Link(step, es, states, Mutate(id, source, Cpu), s3);
    es, states := es + [Mutate(id, source, Cpu)], states + [s3];
    Link(step, es, states, Round([]), s);
    es, states := es + [Round([])], states + [s];
  }

  /** An event, then a round of the loop. */
  lemma EventAndRound(size: nat, es0: seq<Event>, states0: seq<HubState>, a: HubState, e: Event, b: HubState,
                      step: (HubState, Event, HubState) -> bool)
      returns (es: seq<Event>, states: seq<HubState>, s: HubState)
    requires forall x, f, y {:trigger Step(size, x, f, y)} :: Step(size, x, f, y) ==> step(x, f, y)
    requires Chain(step, es0, states0) && states0[|es0|] == a && step(a, e, b)
    requires b.blocked && forall id <- b.data.servers :: b.data.servers[id].status == "unknown"
    ensures Chain(step, es, states) && |es| == |es0| + 3 && es0 + [e] <= es && states0 <= states && states[|es|] == s
    ensures s == RoundOf(b.(blocked := false), size)
  {
    var c := b.(blocked := false);
    Moves(size, b, Rouse, c, step);
    s := QuietRound(size, c, step);
    Link(step, es0, states0, e, b);
    es, states := es0 + [e], states0 + [b];
    Link(step, es, states, Rouse, c);
    es, states := es + [Rouse], states + [c];
    Link(step, es, states, Round([]), s);
    es, states := es + [Round([])], states + [s];
  }

  /** A client can keep the snapshot of another host while the loop waits: the selected
      server was forgotten, and its successor, collected from elsewhere, has reached the
      same version when the loop comes round. */
  lemma SnapshotCanBeMissed(size: nat, id: Id, mine: Endpoint, other: Endpoint)
    returns (events: seq<Event>, states: seq<HubState>)
    requires size > 0
    ensures Run(size, events, states) && |events| == 8
    ensures var before := states[4];
            before.clients.Keys == {0} && before.clients[0].snapshot == Some(PictureOf(before.data, id))
            && ServerOf(before.data, id).sources == {mine}
    ensures var now := states[8];
            && now.blocked && !now.data.wake && now.selected == Some(id) && id in now.data.servers
            && ServerOf(now.data, id).sources == {other} && now.clients.Keys == {0}
            && now.clients[0].snapshot == Some(PictureOf(states[4].data, id)) != Some(PictureOf(now.data, id))
  {
    var step := (a: HubState, e: Event, b: HubState) => Step(size, a, e, b);
    events, states := MissedSnapshot(size, id, mine, other, step);
    ChainIsRun(size, step, events, states);
  }

  lemma MissedSnapshot(size: nat, id: Id, mine: Endpoint, other: Endpoint, step: (HubState, Event, HubState) -> bool)
      returns (es: seq<Event>, states: seq<HubState>)
    requires forall x, e, y {:trigger Step(size, x, e, y)} :: Step(size, x, e, y) ==> step(x, e, y)
    ensures Chain(step, es, states) && states[0] == Initial() && |es| == 8
    ensures var before := states[4];
            before.clients.Keys == {0} && before.clients[0].snapshot == Some(PictureOf(before.data, id))
            && ServerOf(before.data, id).sources == {mine}
    ensures var now := states[8];
            && now.blocked && !now.data.wake && now.selected == Some(id) && id in now.data.servers
            && ServerOf(now.data, id).sources == {other} && now.clients.Keys == {0}
            && now.clients[0].snapshot == Some(PictureOf(states[4].data, id)) != Some(PictureOf(now.data, id))
  {
    var s4;
    es, states, s4 := FirstRound(size, id, mine, step);
    var s5 := s4.(data := Without(s4.data, {id}));
    Moves(size, s4, Forget({id}), s5, step);
    Link(step, es, states, Forget({id}), s5);
    es, states := es + [Forget({id})], states + [s5];
    var s6 := s5.(data := Updated(s5.data, id, other, Cpu));
    Moves(size, s5, Mutate(id, other, Cpu), s6, step);
    var s8;
    es, states, s8 := EventAndRound(size, es, states, s5, Mutate(id, other, Cpu), s6, step);
  }

  /** And it can keep a fleet frame that no longer shows the fleet: a full disk is stored
      and notified, and the round it wakes pushes no fleet frame. */
  lemma FleetCanBeStale(size: nat, id: Id, source: Endpoint) returns (events: seq<Event>, states: seq<HubState>)
    requires size > 0
    ensures Run(size, events, states) && |events| == 7 && events[4] == Mutate(id, source, Storage)
    ensures var now := states[7];
            && now.blocked && !now.data.wake && now.clients.Keys == {0}
            && states[4].clients.Keys == {0} && states[4].clients[0].fleet == Some(states[4].data.fleetStamp)
            && now.clients[0].fleet == states[4].clients[0].fleet != Some(now.data.fleetStamp)
  {
    var step := (a: HubState, e: Event, b: HubState) => Step(size, a, e, b);
    events, states := StaleFleet(size, id, source, step);
    ChainIsRun(size, step, events, states);
  }

  lemma StaleFleet(size: nat, id: Id, source: Endpoint, step: (HubState, Event, HubState) -> bool)
      returns (es: seq<Event>, states: seq<HubState>)
    requires forall x, e, y {:trigger Step(size, x, e, y)} :: Step(size, x, e, y) ==> step(x, e, y)
    ensures Chain(step, es, states) && states[0] == Initial() && |es| == 7 && es[4] == Mutate(id, source, Storage)
    ensures var now := states[7];
            && now.blocked && !now.data.wake && now.clients.Keys == {0}
            && states[4].clients.Keys == {0} && states[4].clients[0].fleet == Some(states[4].data.fleetStamp)
            && now.clients[0].fleet == states[4].clients[0].fleet != Some(now.data.fleetStamp)
  {
    var s4;
    es, states, s4 := FirstRound(size, id, source, step);
    var s5 := s4.(data := Updated(s4.data, id, source, Storage));
    Moves(size, s4, Mutate(id, source, Storage), s5, step);
    var s7;
    es, states, s7 := EventAndRound(size, es, states, s4, Mutate(id, source, Storage), s5, step);
  }
}
