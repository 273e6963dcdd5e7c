/** The broadcast hub: clients with bounded newest-wins queues, and a broadcast loop
    that is woken by every change it still has to push. */
module RealtimeHub {
  import opened Common
  import opened Telemetry
  import Text

  const ID_MAX: nat := 128

  /** Which content of which server a snapshot shows. */
  datatype Picture = Picture(id: Id, stamp: nat)

  /** A fleet frame carries the summary as it is, a snapshot one server's content. */
  datatype Frame =
    | Hello
    | Fleet(revision: nat, shows: nat)
    | Snapshot(version: nat, picture: Picture)
    | News(id: Id, status: string)

  /** The revisions of the frames last pushed to a client, -1 for none or not any more, and
      what those frames showed. */
  datatype Client = Client(fleetSeen: int, snapshotSeen: int, queue: seq<Frame>, fleet: Option<nat>,
                           snapshot: Option<Picture>)

  // ----- the bounded queue ---------------------------------------------------------

  /** Newest wins: a full queue drops its oldest frame. */
  function Enqueued(queue: seq<Frame>, size: nat, f: Frame): seq<Frame> {
    (if |queue| >= size && queue != [] then queue[1..] else queue) + [f]
  }

  function AllEnqueued(queue: seq<Frame>, size: nat, fs: seq<Frame>): seq<Frame> {
    if fs == [] then queue else Enqueued(AllEnqueued(queue, size, fs[..|fs| - 1]), size, fs[|fs| - 1])
  }

  lemma EnqueuedTail(all: seq<Frame>, got: seq<Frame>, size: nat, f: Frame)
    requires size > 0 && |got| == Min(|all|, size) && got == all[|all| - |got|..]
    ensures var more, longer := Enqueued(got, size, f), all + [f];
            |more| == Min(|longer|, size) && more == longer[|longer| - |more|..]
  {
  }

  /** After any number of pushes a queue holds the newest frames, in order, within its
      bound. */
  lemma {:induction false} NewestWins(queue: seq<Frame>, size: nat, fs: seq<Frame>)
    requires |queue| <= size && size > 0
    ensures var got, all := AllEnqueued(queue, size, fs), queue + fs;
            && |got| == Min(|all|, size) && got == all[|all| - |got|..]
  {
    if fs == [] {
      assert queue + fs == queue;
    } else {
      var before := fs[..|fs| - 1];
      NewestWins(queue, size, before);
      EnqueuedTail(queue + before, AllEnqueued(queue, size, before), size, fs[|fs| - 1]);
      assert queue + fs == (queue + before) + [fs[|fs| - 1]];
    }
  }

  // ----- one push ------------------------------------------------------------------------

  function Offer(c: Client, size: nat, f: Frame): Client {
    c.(queue := Enqueued(c.queue, size, f))
  }

  function FleetPushed(d: Data, size: nat, c: Client): Client {
    if c.fleetSeen == d.fleetRevision then c
    else Offer(c, size, Fleet(d.fleetRevision, d.fleetStamp)).(fleetSeen := d.fleetRevision,
                                                               fleet := Some(d.fleetStamp))
  }

  /** The selected server is there and the client was not sent this version of it. */
  predicate SnapshotDue(d: Data, selected: Option<Id>, c: Client) {
    selected.Some? && selected.value in d.servers && c.snapshotSeen != d.servers[selected.value].version
  }

  function PictureOf(d: Data, id: Id): Picture {
    Picture(id, ServerOf(d, id).stamp)
  }

  function SnapshotPushed(d: Data, selected: Option<Id>, size: nat, c: Client): Client {
    if !SnapshotDue(d, selected, c) then c
    else
      var version, picture := d.servers[selected.value].version, PictureOf(d, selected.value);
      Offer(c, size, Snapshot(version, picture)).(snapshotSeen := version, snapshot := Some(picture))
  }

  function Told(c: Client, size: nat, news: seq<Frame>): Client {
    c.(queue := AllEnqueued(c.queue, size, news))
  }

  /** The frames a client lacks: the fleet, then the selected server's snapshot. */
  function Lacking(d: Data, selected: Option<Id>, c: Client): seq<Frame> {
    LackedFleet(d, c) + LackedSnapshot(d, selected, c)
  }

  function LackedFleet(d: Data, c: Client): seq<Frame> {
    if c.fleetSeen == d.fleetRevision then [] else [Fleet(d.fleetRevision, d.fleetStamp)]
  }

  function LackedSnapshot(d: Data, selected: Option<Id>, c: Client): seq<Frame> {
    if !SnapshotDue(d, selected, c) then []
    else [Snapshot(d.servers[selected.value].version, PictureOf(d, selected.value))]
  }

  lemma {:induction false} EnqueuedInTurn(queue: seq<Frame>, size: nat, fs: seq<Frame>, more: seq<Frame>)
    ensures AllEnqueued(AllEnqueued(queue, size, fs), size, more) == AllEnqueued(queue, size, fs + more)
  {
    if more == [] {
      assert fs + more == fs;
    } else {
      assert (fs + more)[..|fs + more| - 1] == fs + more[..|more| - 1];
      EnqueuedInTurn(queue, size, fs, more[..|more| - 1]);
    }
  }

  lemma OneEnqueued(queue: seq<Frame>, size: nat, fs: seq<Frame>)
    requires |fs| <= 1
    ensures AllEnqueued(queue, size, fs) == if fs == [] then queue else Enqueued(queue, size, fs[0])
  {
    if fs != [] {
      var none := fs[..0];
      assert AllEnqueued(queue, size, none) == queue;
    }
  }

  lemma PushedFleet(d: Data, selected: Option<Id>, size: nat, c: Client)
    ensures FleetPushed(d, size, c).queue == AllEnqueued(c.queue, size, LackedFleet(d, c))
    ensures LackedSnapshot(d, selected, FleetPushed(d, size, c)) == LackedSnapshot(d, selected, c)
  {
    OneEnqueued(c.queue, size, LackedFleet(d, c));
  }

  lemma PushedSnapshot(d: Data, selected: Option<Id>, size: nat, c: Client)
    ensures SnapshotPushed(d, selected, size, c).queue == AllEnqueued(c.queue, size, LackedSnapshot(d, selected, c))
  {
    OneEnqueued(c.queue, size, LackedSnapshot(d, selected, c));
  }

  lemma ThreeInTurn(queue: seq<Frame>, size: nat, a: seq<Frame>, b: seq<Frame>, c: seq<Frame>)
    ensures AllEnqueued(AllEnqueued(AllEnqueued(queue, size, a), size, b), size, c) ==
            AllEnqueued(queue, size, a + b + c)
  {
    EnqueuedInTurn(queue, size, a, b);
    EnqueuedInTurn(queue, size, a + b, c);
  }

  /** A round leaves in a client's queue the newest frames of what was there; the fleet
      frame, exactly when the client was not sent this revision; the snapshot of the selected
      server, exactly when it is there and the client was not sent this version; and the
      status news, in this order. */
  lemma RoundQueue(d: Data, selected: Option<Id>, size: nat, news: seq<Frame>, c: Client)
    requires size > 0 && |c.queue| <= size
    ensures var got := Told(SnapshotPushed(d, selected, size, FleetPushed(d, size, c)), size, news).queue;
            var fleet := if c.fleetSeen == d.fleetRevision then [] else [Fleet(d.fleetRevision, d.fleetStamp)];
            var snapshot :=
              if selected.None? || selected.value !in d.servers then []
              else
                var s := d.servers[selected.value];
                if c.snapshotSeen == s.version then [] else [Snapshot(s.version, Picture(selected.value, s.stamp))];
            var all := c.queue + (fleet + snapshot + news);
            |got| == Min(|all|, size) && got == all[|all| - |got|..]
  {
    PushedFleet(d, selected, size, c);
    PushedSnapshot(d, selected, size, FleetPushed(d, size, c));
    ThreeInTurn(c.queue, size, LackedFleet(d, c), LackedSnapshot(d, selected, c), news);
    NewestWins(c.queue, size, Lacking(d, selected, c) + news);
  }

  /** Status news are the statuses that differ from what was last sent, once each; a
      server nobody has collected yet is not news. */
  ghost predicate IsNews(d: Data, sent: map<Id, string>, news: seq<Frame>) {
    && (forall i, j :: 0 <= i < j < |news| ==> news[i] != news[j])
    && (forall f: Frame :: f in news <==>
          && f.News? && f.id in d.servers && d.servers[f.id].status == f.status
          && f.status != "unknown" && !(f.id in sent && sent[f.id] == f.status))
  }

  function Statuses(d: Data): map<Id, string> {
    map id <- d.servers :: d.servers[id].status
  }

  type Cid = nat

  datatype HubState = HubState(
    data: Data,
    clients: map<Cid, Client>,
    selected: Option<Id>,
    sent: map<Id, string>,
    blocked: bool)

  /** The effect of one round of the loop: the event is cleared before anything is
      compared, every client gets the frames it lacks, and the loop blocks. */
  ghost predicate Pushed(a: HubState, size: nat, news: seq<Frame>, b: HubState) {
    && IsNews(a.data, a.sent, news)
    && b == a.(data := a.data.(wake := false), blocked := true, sent := a.sent + Statuses(a.data), clients := b.clients)
    && b.clients.Keys == a.clients.Keys
    && forall c <- a.clients ::
         b.clients[c] ==
             Told(SnapshotPushed(a.data, a.selected, size, FleetPushed(a.data, size, a.clients[c])), size, news)
  }

  // ----- the hub object --------------------------------------------------------------------

  class Hub {
    const telemetry: TelemetryState
    const size: nat
    var clients: map<Cid, Client>
    var selected: Option<Id>
    var sent: map<Id, string>
    var blocked: bool

    constructor (telemetry: TelemetryState, queueSize: int)
      ensures this.telemetry == telemetry && size == Max(1, queueSize)
      ensures Now() == HubState(telemetry.Now(), map[], None, map[], false)
    {
      this.telemetry, size := telemetry, Max(1, queueSize);
      clients, selected, sent, blocked := map[], None, map[], false;
    }

    ghost function Now(): HubState
      reads this, telemetry
    {
      HubState(telemetry.Now(), clients, selected, sent, blocked)
    }

    method Connect(c: Cid)
      requires c !in clients
      modifies this, telemetry
      ensures Now() == Connected(old(Now()), size, c)
    {
      clients := clients[c := Client(-1, -1, Enqueued([], size, Hello), None, None)];
      telemetry.wake := true;
    }

    method Disconnect(c: Cid)
      modifies this`clients
      ensures Now() == old(Now()).(clients := old(clients) - {c})
    {
      clients := clients - {c};
    }

    /** A new selection, stripped and cut, makes every client's frames due again; an empty
        one is refused. */
    method SetIntent(text: Text.Unicode, server: Option<Id>) returns (ok: bool)
      modifies this, telemetry
      ensures ok <==> (server.Some? ==> Text.Strip(server.value, text.space) != "")
      ensures Now() == if ok then Selected(old(Now()), Candidate(text, server)) else old(Now())
      ensures ok ==> (server.None? <==> selected.None?)
      ensures ok && server.Some? ==>
                var name := Text.Strip(server.value, text.space);
                selected.value == if |name| > 128 then name[..128] else name
    {
      if server.Some? {
        var candidate := Text.Strip(server.value, text.space);
        candidate := if |candidate| > ID_MAX then candidate[..ID_MAX] else candidate;
        if candidate == "" {
          return false;
        }
        selected := Some(candidate);
      } else {
        selected := None;
      }
      clients := map c <- clients :: clients[c].(fleetSeen := -1, snapshotSeen := -1);
      telemetry.wake := true;
      return true;
    }

    /** One round of the broadcast loop, up to the wait. */
    method Broadcast() returns (news: seq<Frame>)
      modifies this, telemetry
      ensures Pushed(old(Now()), size, news, Now())
    {
      ghost var a := Now();
      telemetry.wake := false;
      PushFleet();
      ghost var fleet := clients;
      PushSnapshot();
      ghost var both := clients;
      news := PushStatuses();
      blocked := true;
      RoundPushed(a, size, telemetry.Now(), fleet, both, news, Now());
    }

    method PushFleet()
      modifies this`clients
      ensures clients == map c <- old(clients) :: FleetPushed(telemetry.Now(), size, old(clients)[c])
    {
      var todo := clients.Keys;
      while todo != {}
        invariant todo <= clients.Keys == old(clients).Keys
        invariant forall c <- clients ::
                    clients[c] == if c in todo then old(clients)[c]
                                  else FleetPushed(telemetry.Now(), size, old(clients)[c])
        decreases |todo|
      {
        var c :| c in todo;
        todo := todo - {c};
        var client := clients[c];
        if client.fleetSeen != telemetry.fleetRevision {
          client := client.(queue := Enqueued(client.queue, size, Fleet(telemetry.fleetRevision, telemetry.fleetStamp)),
                            fleetSeen := telemetry.fleetRevision, fleet := Some(telemetry.fleetStamp));
          clients := clients[c := client];
        }
      }
    }

    method PushSnapshot()
      modifies this`clients
      ensures clients == map c <- old(clients) :: SnapshotPushed(telemetry.Now(), selected, size, old(clients)[c])
    {
      if selected.None? || selected.value !in telemetry.servers {
        return;
      }
      var version, picture := telemetry.servers[selected.value].version,
          Picture(selected.value, telemetry.servers[selected.value].stamp);
      var todo := clients.Keys;
      while todo != {}
        invariant todo <= clients.Keys == old(clients).Keys
        invariant forall c <- clients ::
                    clients[c] == if c in todo then old(clients)[c]
                                  else SnapshotPushed(telemetry.Now(), selected, size, old(clients)[c])
        decreases |todo|
      {
        var c :| c in todo;
        todo := todo - {c};
        var client := clients[c];
        if client.snapshotSeen != version {
          client := client.(queue := Enqueued(client.queue, size, Snapshot(version, picture)),
                            snapshotSeen := version, snapshot := Some(picture));
          clients := clients[c := client];
        }
      }
    }

    method PushStatuses() returns (news: seq<Frame>)
      modifies this`clients, this`sent
      ensures IsNews(telemetry.Now(), old(sent), news)
      ensures sent == old(sent) + Statuses(telemetry.Now())
      ensures clients == AllTold(old(clients), size, news)
    {
      ghost var d := telemetry.Now();
      var todo := telemetry.servers.Keys;
      news := [];
      while todo != {}
        invariant d == telemetry.Now() && todo <= d.servers.Keys
        invariant NewsSoFar(d, old(sent), d.servers.Keys - todo, news)
        invariant SentSoFar(d, old(sent), d.servers.Keys - todo, sent)
        invariant clients == AllTold(old(clients), size, news)
        decreases |todo|
      {
        var id :| id in todo;
        NextNews(d, old(sent), todo, id, news, sent);
        todo := todo - {id};
        news := PushStatus(id, old(clients), news);
      }
      AllNews(d, old(sent), d.servers.Keys - todo, news, sent);
    }

    /** Tells every client the status of `id` when it differs from what was last sent. */
    method PushStatus(id: Id, ghost was: map<Cid, Client>, news: seq<Frame>) returns (more: seq<Frame>)
      requires id in telemetry.servers && clients == AllTold(was, size, news)
      modifies this`clients, this`sent
      ensures var status := telemetry.servers[id].status;
              && sent == old(sent)[id := status]
              && more == if Lookup(old(sent), id) == Some(status) || status == "unknown" then news
                         else news + [News(id, status)]
      ensures clients == AllTold(was, size, more)
    {
      var status := telemetry.servers[id].status;
      more := news;
      if id in sent && sent[id] == status {
        return;
      }
      sent := sent[id := status];
      if status != "unknown" {
        OfferAll(News(id, status));
        ToldMore(was, size, news, News(id, status));
        more := news + [News(id, status)];
      }
    }

    method OfferAll(f: Frame)
      modifies this`clients
      ensures clients == AllOffered(old(clients), size, f)
    {
      var todo := clients.Keys;
      while todo != {}
        invariant todo <= clients.Keys == old(clients).Keys
        invariant forall c <- clients ::
                    clients[c] == if c in todo then old(clients)[c] else Offer(old(clients)[c], size, f)
        decreases |todo|
      {
        var c :| c in todo;
        todo := todo - {c};
        clients := clients[c := Offer(clients[c], size, f)];
      }
    }
  }

  /** The three pushes, one after the other, are a round. */
  lemma RoundPushed(a: HubState, size: nat, d: Data, fleet: map<Cid, Client>, both: map<Cid, Client>, news: seq<Frame>,
                    b: HubState)
    requires d == a.data.(wake := false) && IsNews(d, a.sent, news)
    requires fleet == map c <- a.clients :: FleetPushed(d, size, a.clients[c])
    requires both == map c <- fleet :: SnapshotPushed(d, a.selected, size, fleet[c])
    requires b == HubState(d, AllTold(both, size, news), a.selected, a.sent + Statuses(d), true)
    ensures Pushed(a, size, news, b)
  {
  }

  function AllTold(clients: map<Cid, Client>, size: nat, news: seq<Frame>): map<Cid, Client> {
    map c <- clients :: Told(clients[c], size, news)
  }

  function AllOffered(clients: map<Cid, Client>, size: nat, f: Frame): map<Cid, Client> {
    map c <- clients :: Offer(clients[c], size, f)
  }

  // ----- the status loop ---------------------------------------------------------------------

  ghost predicate IsNewsOf(d: Data, sent: map<Id, string>, some: set<Id>, f: Frame) {
    && f.News? && f.id in some && f.id in d.servers && d.servers[f.id].status == f.status
    && f.status != "unknown" && !(f.id in sent && sent[f.id] == f.status)
  }

  ghost predicate NewsSoFar(d: Data, sent: map<Id, string>, some: set<Id>, news: seq<Frame>) {
    && (forall i, j :: 0 <= i < j < |news| ==> news[i] != news[j])
    && (forall f: Frame :: f in news <==> IsNewsOf(d, sent, some, f))
  }

  ghost predicate SentSoFar(d: Data, before: map<Id, string>, some: set<Id>, sent: map<Id, string>) {
    forall id: Id ::
      Lookup(sent, id) == if id in some && id in d.servers then Some(d.servers[id].status) else Lookup(before, id)
  }

  lemma NextNews(d: Data, before: map<Id, string>, todo: set<Id>, id: Id, news: seq<Frame>, sent: map<Id, string>)
    requires todo <= d.servers.Keys && id in todo
    requires NewsSoFar(d, before, d.servers.Keys - todo, news) && SentSoFar(d, before, d.servers.Keys - todo, sent)
    ensures var status, more := d.servers[id].status, d.servers.Keys - (todo - {id});
            && Lookup(sent, id) == Lookup(before, id)
            && SentSoFar(d, before, more, sent[id := status])
            && (Lookup(sent, id) == Some(status) ==> SentSoFar(d, before, more, sent))
            && (if Lookup(sent, id) == Some(status) || status == "unknown" then NewsSoFar(d, before, more, news)
                else NewsSoFar(d, before, more, news + [News(id, status)]))
  {
    var status, some, more := d.servers[id].status, d.servers.Keys - todo, d.servers.Keys - (todo - {id});
    assert more == some + {id} && id !in some;
    assert Lookup(sent, id) == Lookup(before, id);
    forall r: Id
      ensures Lookup(sent[id := status], r) ==
              if r in more && r in d.servers then Some(d.servers[r].status) else Lookup(before, r)
    {
      assert Lookup(sent, r) == if r in some && r in d.servers then Some(d.servers[r].status) else Lookup(before, r);
    }
    assert Lookup(sent, id) == Some(status) ==> sent[id := status] == sent;
    NextNewsFrames(d, before, some, more, id, news);
  }

  lemma NextNewsFrames(d: Data, before: map<Id, string>, some: set<Id>, more: set<Id>, id: Id, news: seq<Frame>)
    requires id in d.servers && id !in some && more == some + {id} && NewsSoFar(d, before, some, news)
    ensures var status := d.servers[id].status;
            if Lookup(before, id) == Some(status) || status == "unknown" then NewsSoFar(d, before, more, news)
            else NewsSoFar(d, before, more, news + [News(id, status)])
  {
    var f := News(id, d.servers[id].status);
    assert !IsNewsOf(d, before, some, f);
    forall g: Frame
      ensures IsNewsOf(d, before, more, g) <==> IsNewsOf(d, before, some, g) || (g == f && IsNewsOf(d, before, more, f))
    {
    }
  }

  lemma AllNews(d: Data, before: map<Id, string>, some: set<Id>, news: seq<Frame>, sent: map<Id, string>)
    requires some == d.servers.Keys && NewsSoFar(d, before, some, news) && SentSoFar(d, before, some, sent)
    ensures IsNews(d, before, news) && sent == before + Statuses(d)
  {
    forall f: Frame
      ensures f in news <==>
        && f.News? && f.id in d.servers && d.servers[f.id].status == f.status
        && f.status != "unknown" && !(f.id in before && before[f.id] == f.status)
    {
      assert f in news <==> IsNewsOf(d, before, some, f);
    }
    forall id: Id ensures Lookup(sent, id) == Lookup(before + Statuses(d), id) {
    }
    SameStatuses(sent, before + Statuses(d));
  }

  lemma SameStatuses(a: map<Id, string>, b: map<Id, string>)
    requires forall id: Id :: Lookup(a, id) == Lookup(b, id)
    ensures a == b
  {
    forall id: Id ensures id in a <==> id in b {
      assert Lookup(a, id) == Lookup(b, id);
    }
    forall id: Id | id in a ensures a[id] == b[id] {
      assert Lookup(a, id) == Lookup(b, id);
    }
  }

  lemma ToldMore(clients: map<Cid, Client>, size: nat, news: seq<Frame>, f: Frame)
    ensures AllOffered(AllTold(clients, size, news), size, f) == AllTold(clients, size, news + [f])
  {
    assert (news + [f])[..|news|] == news;
  }

  function Connected(a: HubState, size: nat, c: Cid): HubState {
    a.(clients := a.clients[c := Client(-1, -1, Enqueued([], size, Hello), None, None)], data := a.data.(wake := true))
  }

  function Selected(a: HubState, server: Option<Id>): HubState {
    a.(selected := server, data := a.data.(wake := true),
       clients := map c <- a.clients :: a.clients[c].(fleetSeen := -1, snapshotSeen := -1))
  }

  /** The server that a selection names. */
  function Candidate(text: Text.Unicode, server: Option<Id>): Option<Id> {
    if server.None? then None
    else
      var name := Text.Strip(server.value, text.space);
      Some(if |name| > ID_MAX then name[..ID_MAX] else name)
  }

  // ----- every interleaving ---------------------------------------------------------------------

  /** Mutations by the scheduler, clients coming and going, selections, and the loop. */
  datatype Event =
    | Mutate(id: Id, source: Endpoint, change: Change)
    | Forget(gone: set<Id>)
    | Join(client: Cid)
    | Leave(client: Cid)
    | Select(server: Option<Id>)
    | Sent(client: Cid)
    | Round(news: seq<Frame>)
    | Rouse

  ghost predicate Step(size: nat, a: HubState, e: Event, b: HubState) {
    match e
    case Mutate(id, source, change) => b == a.(data := Updated(a.data, id, source, change))
    case Forget(gone) => b == a.(data := Without(a.data, gone))
    case Join(c) => c !in a.clients && b == Connected(a, size, c)
    case Leave(c) => b == a.(clients := a.clients - {c})
    case Select(server) => b == Selected(a, server)
    case Sent(c) => c in a.clients && a.clients[c].queue != []
                    && b == a.(clients := a.clients[c := a.clients[c].(queue := a.clients[c].queue[1..])])
    case Round(news) => !a.blocked && Pushed(a, size, news, b)
    case Rouse => a.blocked && b == a.(blocked := false)
  }

  function Initial(): HubState {
    HubState(Empty(), map[], None, map[], false)
  }

  ghost predicate Run(size: nat, events: seq<Event>, states: seq<HubState>) {
    && |states| == |events| + 1 && states[0] == Initial()
    && forall i :: 0 <= i < |events| ==> Step(size, states[i], events[i], states[i + 1])
  }

  /** A server whose version is still 0 was never notified: only silent updates made it. */
  ghost predicate ClientUpToDate(a: HubState, c: Client) {
    && c.fleetSeen == a.data.fleetRevision
    && (a.selected.Some? && a.selected.value in a.data.servers && a.data.servers[a.selected.value].version > 0 ==>
          c.snapshotSeen == a.data.servers[a.selected.value].version)
  }

  /** Nothing is left to push. */
  ghost predicate UpToDate(a: HubState) {
    && (forall c <- a.clients :: ClientUpToDate(a, a.clients[c]))
    && (forall id <- a.data.servers :: a.data.servers[id].status != "unknown" ==>
        Lookup(a.sent, id) == Some(a.data.servers[id].status))
  }

  ghost predicate Inv(size: nat, a: HubState) {
    && (a.blocked && !a.data.wake ==> UpToDate(a))
    && (forall c <- a.clients :: a.clients[c].fleetSeen <= a.data.fleetRevision && |a.clients[c].queue| <= size)
    && a.data.fleetStamp <= a.data.clock && (forall id <- a.data.servers :: a.data.servers[id].stamp <= a.data.clock)
  }

  lemma RoundClient(a: HubState, size: nat, news: seq<Frame>, c: Client, b: HubState)
    requires size > 0 && |c.queue| <= size
    requires b.data == a.data.(wake := false) && b.selected == a.selected
    ensures var got := Told(SnapshotPushed(a.data, a.selected, size, FleetPushed(a.data, size, c)), size, news);
            ClientUpToDate(b, got) && |got.queue| <= size
  {
    var before := SnapshotPushed(a.data, a.selected, size, FleetPushed(a.data, size, c));
    NewestWins(before.queue, size, news);
  }

  lemma RoundStep(size: nat, a: HubState, news: seq<Frame>, b: HubState)
    requires size > 0 && Inv(size, a) && Pushed(a, size, news, b)
    ensures Inv(size, b)
  {
    forall c <- b.clients ensures ClientUpToDate(b, b.clients[c]) && |b.clients[c].queue| <= size {
      RoundClient(a, size, news, a.clients[c], b);
    }
    forall id <- b.data.servers ensures Lookup(b.sent, id) == Some(b.data.servers[id].status) {
      assert id in Statuses(a.data);
    }
  }

  /** An update that does not wake the loop leaves nothing to push. */
  lemma UpdateStep(size: nat, a: HubState, id: Id, source: Endpoint, change: Change)
    requires Inv(size, a)
    ensures Inv(size, a.(data := Updated(a.data, id, source, change)))
  {
    var d := Updated(a.data, id, source, change);
    forall x <- d.servers
      ensures d.servers[x].stamp <= d.clock
      ensures !d.wake && d.servers[x].status != "unknown" ==>
                x in a.data.servers && d.servers[x].status == a.data.servers[x].status
      ensures !d.wake && d.servers[x].version > 0 ==>
              x in a.data.servers && d.servers[x].version == a.data.servers[x].version
    {
    }
  }

  lemma StepKeepsInv(size: nat, a: HubState, e: Event, b: HubState)
    requires size > 0 && Inv(size, a) && Step(size, a, e, b)
    ensures Inv(size, b)
  {
    match e
    case Mutate(id, source, change) => UpdateStep(size, a, id, source, change);
    case Round(news) => RoundStep(size, a, news, b);
    case Forget(gone) =>
      if gone == {} {
        WithoutNone(a.data, gone);
      }
    case _ =>
  }

  lemma {:induction false} RunKeepsInv(size: nat, events: seq<Event>, states: seq<HubState>, i: nat)
    requires size > 0 && Run(size, events, states) && i < |states|
    ensures Inv(size, states[i])
  {
    if i > 0 {
      RunKeepsInv(size, events, states, i - 1);
      assert Step(size, states[i - 1], events[i - 1], states[i - 1 + 1]);
      StepKeepsInv(size, states[i - 1], events[i - 1], states[i]);
    }
  }

  /** No wake-up of the broadcast loop is lost: while it blocks on the unset event, the
      current fleet revision, the selected server's current version and every known
      status have been pushed to every client. The one exception is a server that no
      notified update has touched yet: its version is still 0. */
  lemma BlockedHasPushed(size: nat, events: seq<Event>, states: seq<HubState>, i: nat)
    requires size > 0 && Run(size, events, states) && i < |states|
    requires states[i].blocked && !states[i].data.wake
    ensures UpToDate(states[i])
    ensures forall c <- states[i].clients :: |states[i].clients[c].queue| <= size
  {
    RunKeepsInv(size, events, states, i);
  }

  // ----- what a client is shown ------------------------------------------------------------------

  predicate FleetDue(a: HubState, c: Cid) {
    c in a.clients && a.clients[c].fleetSeen != a.data.fleetRevision
  }

  /** In every run, an event between two rounds makes a fleet frame due for a client that
      stays exactly when one was due before, or it raises the fleet revision, or it is a
      selection: the revision never comes back to a value a client was sent. */
  lemma FleetDueIff(size: nat, events: seq<Event>, states: seq<HubState>, i: nat, c: Cid)
    requires size > 0 && Run(size, events, states) && i < |events| && !events[i].Round?
    requires c in states[i].clients && c in states[i + 1].clients
    ensures FleetDue(states[i + 1], c) <==>
            || FleetDue(states[i], c) || events[i].Select? || (events[i].Forget? && events[i].gone != {})
            || (events[i].Mutate? && Alters(states[i].data, events[i].id, events[i].change)
                && RaisesFleet(ServerOf(states[i].data, events[i].id), events[i].change))
  {
    RunKeepsInv(size, events, states, i);
    assert Step(size, states[i], events[i], states[i + 1]);
    if events[i].Forget? && events[i].gone == {} {
      WithoutNone(states[i].data, events[i].gone);
    }
  }
}
