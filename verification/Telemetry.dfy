/** The shared telemetry state: per-server data with version counters, GPU history and
    network baselines, and the change notification that wakes the broadcast hub. */
module Telemetry {
  import opened Common

  type Id = string

  /** The host, user and port that a record points to. */
  datatype Endpoint = Endpoint(host: string, user: Option<string>, port: Option<int>)

  /** `sources` remembers under which endpoints the held data was collected, and `stamp`
      numbers its content: every change of it takes a new number. */
  datatype Server = Server(version: nat, status: string, detail: string, errors: map<string, string>,
                           sources: set<Endpoint>, stamp: nat)

  /** `clock` counts the changes of content; `fleetStamp` is the last one that changed
      something the fleet summary shows. */
  datatype Data = Data(
    servers: map<Id, Server>,
    history: map<Id, set<Endpoint>>,
    baselines: map<Id, set<Endpoint>>,
    revision: nat,
    fleetRevision: nat,
    wake: bool,
    clock: nat,
    fleetStamp: nat)

  function Empty(): Data {
    Data(map[], map[], map[], 0, 0, false, 0, 0)
  }

  /** The updates of one server. An error has its text stripped and cut; `known` tells
      whether its section is one of the collectors'. */
  datatype Change =
    | Status(status: string, detail: string)
    | Cpu | Memory | System | Gpus
    | PidUsers | GpuProcesses | Processes | Storage | Network
    | Error(known: bool, section: string, text: string)

  const DETAIL_MAX: nat := 300

  function Sources(m: map<Id, set<Endpoint>>, id: Id): set<Endpoint> {
    if id in m then m[id] else {}
  }

  function ServerOf(d: Data, id: Id): Server {
    if id in d.servers then d.servers[id] else Server(0, "unknown", "", map[], {}, 0)
  }

  /** The same status with the same detail, or the same error text, is not stored again. */
  predicate Repeats(s: Server, ch: Change) {
    match ch
    case Status(status, detail) => s.status == status && s.detail == detail
    case Error(_, section, text) => text != "" && section in s.errors && s.errors[section] == text
    case _ => false
  }

  /** The owners of processes are stored without a notification. */
  predicate Notifies(s: Server, ch: Change) {
    !Repeats(s, ch) && !ch.PidUsers?
  }

  predicate RaisesFleet(s: Server, ch: Change) {
    Notifies(s, ch) && (ch.Status? || ch.Cpu? || ch.Memory? || ch.System? || ch.Gpus? || ch.Error?)
  }

  /** The summary shows the status, figures of every section or when it was updated, and
      the owners of GPU processes, but no errors. */
  predicate ShowsInFleet(s: Server, ch: Change) {
    !Repeats(s, ch) && !ch.Error?
  }

  function Stored(s: Server, source: Endpoint, ch: Change, stamp: nat): Server {
    if Repeats(s, ch) then s.(stamp := stamp)
    else
      Server(if ch.PidUsers? then s.version else s.version + 1,
             if ch.Status? then ch.status else s.status,
             if ch.Status? then (if |ch.detail| > DETAIL_MAX then ch.detail[..DETAIL_MAX] else ch.detail) else s.detail,
             if !ch.Error? then s.errors
             else if ch.text == "" then s.errors - {ch.section}
             else s.errors[ch.section := ch.text],
             s.sources + {source}, stamp)
  }

  predicate Ignored(ch: Change) {
    ch.Error? && !ch.known
  }

  /** A server that is not there yet is created even by an update that stores nothing. */
  predicate Alters(d: Data, id: Id, ch: Change) {
    !Ignored(ch) && (id !in d.servers || !Repeats(d.servers[id], ch))
  }

  /** Server `id` updated with data collected from `source`. */
  function Updated(d: Data, id: Id, source: Endpoint, ch: Change): Data {
    var s := ServerOf(d, id);
    if !Alters(d, id, ch) then d
    else
      d.(servers := d.servers[id := Stored(s, source, ch, d.clock + 1)],
         history := if ch.Gpus? then d.history[id := Sources(d.history, id) + {source}] else d.history,
         baselines := if ch.Network? then d.baselines[id := Sources(d.baselines, id) + {source}] else d.baselines,
         revision := if Notifies(s, ch) then d.revision + 1 else d.revision,
         fleetRevision := if RaisesFleet(s, ch) then d.fleetRevision + 1 else d.fleetRevision,
         wake := d.wake || Notifies(s, ch),
         clock := d.clock + 1,
         fleetStamp := if ShowsInFleet(s, ch) then d.clock + 1 else d.fleetStamp)
  }

  /** Whether an update tells something new: another status or detail, another error text or
      none any more, new figures of a section; the owners of processes never do. */
  predicate Tells(s: Server, ch: Change) {
    match ch
    case Status(status, detail) => s.status != status || s.detail != detail
    case Error(known, section, text) => known && (text == "" || Lookup(s.errors, section) != Some(text))
    case PidUsers => false
    case _ => true
  }

  /** An update raises the version of its server, the revision and the wake flag exactly when
      it tells something new, and the fleet revision unless it is one of storage, network,
      processes or GPU processes. */
  lemma UpdateTells(d: Data, id: Id, source: Endpoint, ch: Change)
    ensures var s, b := ServerOf(d, id), Updated(d, id, source, ch);
            && b.revision == d.revision + (if Tells(s, ch) then 1 else 0)
            && b.wake == (d.wake || Tells(s, ch))
            && b.fleetRevision == d.fleetRevision +
                 (if Tells(s, ch) && !ch.Storage? && !ch.Network? && !ch.Processes? && !ch.GpuProcesses? then 1 else 0)
            && ServerOf(b, id).version == s.version + (if Tells(s, ch) then 1 else 0)
  {
  }

  /** And what it stores: a status with its detail cut to 300 characters, an error under its
      section, or its removal; each leaves the rest as it was. */
  lemma UpdateStores(d: Data, id: Id, source: Endpoint, ch: Change)
    requires Tells(ServerOf(d, id), ch)
    ensures var s, r := ServerOf(d, id), ServerOf(Updated(d, id, source, ch), id);
            && (if ch.Status? then
                  r.status == ch.status && r.detail == (if |ch.detail| > 300 then ch.detail[..300] else ch.detail)
                else r.status == s.status && r.detail == s.detail)
            && r.errors == (if !ch.Error? then s.errors
                            else if ch.text == "" then s.errors - {ch.section}
                            else s.errors[ch.section := ch.text])
            && source in r.sources && r.sources <= s.sources + {source}
    ensures forall other: Id :: other != id ==> ServerOf(Updated(d, id, source, ch), other) == ServerOf(d, other)
  {
  }

  /** Everything of the servers in `gone` dropped, one notification each. */
  function Without(d: Data, gone: set<Id>): Data {
    d.(servers := d.servers - gone, history := d.history - gone, baselines := d.baselines - gone,
       revision := d.revision + |gone|, fleetRevision := d.fleetRevision + |gone|,
       wake := d.wake || gone != {},
       clock := d.clock + |gone|, fleetStamp := if gone == {} then d.fleetStamp else d.clock + |gone|)
  }

  lemma WithoutAt(d: Data, gone: set<Id>, id: Id)
    ensures id in gone ==>
            id !in Without(d, gone).servers && id !in Without(d, gone).history && id !in Without(d, gone).baselines
    ensures id !in gone ==>
              && (id in Without(d, gone).servers <==> id in d.servers)
              && (id in Without(d, gone).history <==> id in d.history)
              && (id in Without(d, gone).baselines <==> id in d.baselines)
              && ServerOf(Without(d, gone), id) == ServerOf(d, id)
              && Sources(Without(d, gone).history, id) == Sources(d.history, id)
              && Sources(Without(d, gone).baselines, id) == Sources(d.baselines, id)
  {
  }

  lemma WithoutMore(d: Data, gone: set<Id>, id: Id)
    requires id !in gone
    ensures Without(Without(d, gone), {id}) == Without(d, gone + {id})
  {
    assert d.servers - gone - {id} == d.servers - (gone + {id});
    assert d.history - gone - {id} == d.history - (gone + {id});
    assert d.baselines - gone - {id} == d.baselines - (gone + {id});
    assert |gone + {id}| == |gone| + 1;
  }

  class TelemetryState {
    var servers: map<Id, Server>
    var history: map<Id, set<Endpoint>>
    var baselines: map<Id, set<Endpoint>>
    var revision: nat
    var fleetRevision: nat
    var wake: bool
    var clock: nat
    var fleetStamp: nat

    function Now(): Data
      reads this
    {
      Data(servers, history, baselines, revision, fleetRevision, wake, clock, fleetStamp)
    }

    /** Counts a change of server `id` and notifies the listener. */
    method Bump(id: Id, fleet: bool)
      requires id in servers
      modifies this`servers, this`revision, this`fleetRevision, this`wake
      ensures servers == old(servers)[id := old(servers)[id].(version := old(servers)[id].version + 1)]
      ensures revision == old(revision) + 1 && wake
      ensures fleetRevision == if fleet then old(fleetRevision) + 1 else old(fleetRevision)
    {
      servers := servers[id := servers[id].(version := servers[id].version + 1)];
      revision := revision + 1;
      if fleet {
        fleetRevision := fleetRevision + 1;
      }
      wake := true;
    }

    /** The record of server `id`, made when there is none. */
    method Get(id: Id) returns (s: Server)
      modifies this`servers, this`clock
      ensures s == ServerOf(old(Now()), id).(stamp := s.stamp) && servers == old(servers)[id := s]
      ensures clock == (if id in old(servers) then old(clock) else old(clock) + 1)
      ensures s.stamp == (if id in old(servers) then old(servers)[id].stamp else clock)
    {
      if id !in servers {
        clock := clock + 1;
        servers := servers[id := Server(0, "unknown", "", map[], {}, clock)];
      }
      s := servers[id];
    }

    /** Puts the changed record back and counts the change, once for a new record. */
    method Put(id: Id, s: Server, added: bool, shown: bool)
      modifies this`servers, this`clock, this`fleetStamp
      ensures clock == if added then old(clock) else old(clock) + 1
      ensures fleetStamp == if shown then clock else old(fleetStamp)
      ensures servers == old(servers)[id := s.(stamp := clock)]
    {
      if !added {
        clock := clock + 1;
      }
      if shown {
        fleetStamp := clock;
      }
      servers := servers[id := s.(stamp := clock)];
    }

    method SetStatus(id: Id, source: Endpoint, status: string, detail: string)
      modifies this
      ensures Now() == Updated(old(Now()), id, source, Status(status, detail))
    {
      var added := id !in servers;
      var s := Get(id);
      if s.status == status && s.detail == detail {
        return;
      }
      var cut := if |detail| > DETAIL_MAX then detail[..DETAIL_MAX] else detail;
      Put(id, s.(status := status, detail := cut, sources := s.sources + {source}), added, true);
      PutTwice(old(servers), id, s, servers[id]);
      ghost var put := servers[id];
      Bump(id, true);
      PutTwice(old(servers), id, put, servers[id]);
    }

    method SetError(id: Id, source: Endpoint, known: bool, section: string, text: string)
      modifies this
      ensures Now() == Updated(old(Now()), id, source, Error(known, section, text))
    {
      if !known {
        return;
      }
      var added := id !in servers;
      var s := Get(id);
      if text != "" && section in s.errors && s.errors[section] == text {
        return;
      }
      var errors := if text == "" then s.errors - {section} else s.errors[section := text];
      Put(id, s.(errors := errors, sources := s.sources + {source}), added, false);
      PutTwice(old(servers), id, s, servers[id]);
      ghost var put := servers[id];
      Bump(id, true);
      PutTwice(old(servers), id, put, servers[id]);
    }

    /** An update of one section with what a collector read. */
    method UpdateSection(id: Id, source: Endpoint, section: Change)
      requires !section.Status? && !section.Error?
      modifies this
      ensures Now() == Updated(old(Now()), id, source, section)
    {
      var added := id !in servers;
      var s := Get(id);
      Put(id, s.(sources := s.sources + {source}), added, true);
      PutTwice(old(servers), id, s, servers[id]);
      ghost var put := servers[id];
      if section.Gpus? {
        history := history[id := Sources(history, id) + {source}];
      }
      if section.Network? {
        baselines := baselines[id := Sources(baselines, id) + {source}];
      }
      if !section.PidUsers? {
        Bump(id, section.Cpu? || section.Memory? || section.System? || section.Gpus?);
        PutTwice(old(servers), id, put, servers[id]);
      }
    }

    method Clear(id: Id)
      modifies this
      ensures Now() == Without(old(Now()), {id})
    {
      servers, history, baselines := servers - {id}, history - {id}, baselines - {id};
      revision, fleetRevision := revision + 1, fleetRevision + 1;
      clock := clock + 1;
      fleetStamp := clock;
      wake := true;
    }

    /** Drops every server that is not in `keep`. */
    method Prune(keep: set<Id>)
      modifies this
      ensures Now() == Without(old(Now()), old(servers).Keys - keep)
    {
      var todo := servers.Keys;
      ghost var before, all := Now(), todo;
      WithoutNone(before, all - todo - keep);
      while todo != {}
        invariant todo <= all
        invariant Now() == Without(before, all - todo - keep)
        decreases |todo|
      {
        var id :| id in todo;
        PruneNext(before, all, todo, keep, id);
        todo := todo - {id};
        if id !in keep {
          Clear(id);
        }
      }
      assert all - todo - keep == all - keep;
    }
  }

  lemma WithoutNone(d: Data, none: set<Id>)
    requires none == {}
    ensures Without(d, none) == d
  {
    assert d.servers - none == d.servers && d.history - none == d.history && d.baselines - none == d.baselines;
  }

  lemma PruneNext(d: Data, all: set<Id>, todo: set<Id>, keep: set<Id>, id: Id)
    requires id in todo && todo <= all
    ensures Without(d, all - (todo - {id}) - keep)
            == if id in keep then Without(d, all - todo - keep) else Without(Without(d, all - todo - keep), {id})
  {
    if id in keep {
      assert all - (todo - {id}) - keep == all - todo - keep;
    } else {
      assert all - (todo - {id}) - keep == (all - todo - keep) + {id};
      WithoutMore(d, all - todo - keep, id);
    }
  }
}
