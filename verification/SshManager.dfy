/** The SSH manager's tables: one connection and one slot per server, the servers being
    retired, and the lock sections that change them. */
module SshManager {
  import opened Common

  type Sid = string

  /** Host (casefolded), user and port: a change of any part rebuilds the connection. */
  datatype Identity = Identity(host: string, user: Option<string>, port: Option<int>)

  const MAX_MANAGED: nat := 512

  /** Connections, slots and retire events are numbered in the order of their creation. */
  datatype Tables = Tables(
    managed: map<Sid, nat>,
    identities: map<Sid, Identity>,
    slots: map<Sid, nat>,
    retiring: set<Sid>,
    events: map<Sid, nat>)

  ghost predicate SameKeys(t: Tables) {
    t.managed.Keys == t.identities.Keys == t.slots.Keys && t.events.Keys == t.retiring
  }

  /** Answers of the lock section that hands out an entry. */
  datatype Handout = Refused | TooMany | Entry(conn: nat, slot: nat)

  /** Answers of the lock section that begins a close. */
  datatype Turn = Wait(event: nat) | Own(conn: Option<nat>, slot: Option<nat>)

  predicate Stale(t: Tables, s: Sid, id: Identity) {
    s in t.managed && Lookup(t.identities, s) != Some(id)
  }

  /** Entries `number` are created only for a server that has none and is not retiring. */
  function HandoutFor(t: Tables, s: Sid, number: nat): Handout
    requires s in t.managed ==> s in t.slots
  {
    if s in t.retiring then Refused
    else if s in t.managed then Entry(t.managed[s], t.slots[s])
    else if |t.managed| >= MAX_MANAGED then TooMany
    else Entry(number, number)
  }

  predicate Creates(t: Tables, s: Sid) {
    s !in t.retiring && s !in t.managed && |t.managed| < MAX_MANAGED
  }

  function Installed(t: Tables, s: Sid, id: Identity, number: nat): Tables {
    t.(managed := t.managed[s := number], identities := t.identities[s := id], slots := t.slots[s := number])
  }

  function TurnFor(t: Tables, s: Sid): Turn {
    if s in t.events then Wait(t.events[s]) else Own(Lookup(t.managed, s), Lookup(t.slots, s))
  }

  function Retired(t: Tables, s: Sid, event: nat): Tables {
    t.(retiring := t.retiring + {s}, events := t.events[s := event])
  }

  function Popped(t: Tables, s: Sid): Tables {
    t.(managed := t.managed - {s}, identities := t.identities - {s}, slots := t.slots - {s})
  }

  function Released(t: Tables, s: Sid): Tables {
    t.(retiring := t.retiring - {s}, events := t.events - {s})
  }

  /** The manager object; each method is one section under the manager lock. */
  class Manager {
    var managed: map<Sid, nat>
    var identities: map<Sid, Identity>
    var slots: map<Sid, nat>
    var retiring: set<Sid>
    var events: map<Sid, nat>
    var connections: nat
    var eventCount: nat

    constructor ()
      ensures Now() == Tables(map[], map[], map[], {}, map[]) && connections == eventCount == 0
    {
      managed, identities, slots, retiring, events := map[], map[], map[], {}, map[];
      connections, eventCount := 0, 0;
    }

    ghost function Now(): Tables
      reads this
    {
      Tables(managed, identities, slots, retiring, events)
    }

    /** First section of the entry lookup: refuse a retiring server, else report whether
        its entry was built for another identity. */
    method FindStale(s: Sid, id: Identity) returns (refused: bool, stale: bool)
      ensures refused == (s in retiring)
      ensures stale == (!refused && Stale(Now(), s, id))
    {
      if s in retiring {
        return true, false;
      }
      return false, s in managed && !(s in identities && identities[s] == id);
    }

    /** Second section: hand out the entry, creating it when there is none. */
    method GetEntry(s: Sid, id: Identity) returns (answer: Handout)
      requires SameKeys(Now())
      modifies this
      ensures answer == HandoutFor(old(Now()), s, old(connections))
      ensures Now() == if Creates(old(Now()), s) then Installed(old(Now()), s, id, old(connections)) else old(Now())
      ensures connections == if Creates(old(Now()), s) then old(connections) + 1 else old(connections)
      ensures eventCount == old(eventCount) && SameKeys(Now())
    {
      if s in retiring {
        return Refused;
      }
      if s !in managed {
        if |managed| >= MAX_MANAGED {
          return TooMany;
        }
        managed := managed[s := connections];
        identities := identities[s := id];
        slots := slots[s := connections];
        connections := connections + 1;
      }
      answer := Entry(managed[s], slots[s]);
    }

    /** First section of a close: wait for the running one, or own it. */
    method BeginClose(s: Sid) returns (turn: Turn)
      requires SameKeys(Now())
      modifies this
      ensures turn == TurnFor(old(Now()), s)
      ensures Now() == if turn.Own? then Retired(old(Now()), s, old(eventCount)) else old(Now())
      ensures eventCount == if turn.Own? then old(eventCount) + 1 else old(eventCount)
      ensures connections == old(connections) && SameKeys(Now())
    {
      if s in events {
        return Wait(events[s]);
      }
      events := events[s := eventCount];
      eventCount := eventCount + 1;
      retiring := retiring + {s};
      turn := Own(Lookup(managed, s), Lookup(slots, s));
    }

    /** The drained owner's section: drop the entry if it is still the one drained. */
    method PopDrained(s: Sid, conn: nat) returns (popped: bool)
      requires SameKeys(Now())
      modifies this
      ensures popped == (Lookup(old(managed), s) == Some(conn))
      ensures Now() == if popped then Popped(old(Now()), s) else old(Now())
      ensures connections == old(connections) && eventCount == old(eventCount) && SameKeys(Now())
    {
      popped := s in managed && managed[s] == conn;
      if popped {
        PopEntry(s);
      }
    }

    method PopEntry(s: Sid)
      requires SameKeys(Now())
      modifies this
      ensures Now() == Popped(old(Now()), s)
      ensures connections == old(connections) && eventCount == old(eventCount) && SameKeys(Now())
    {
      managed, slots, identities := managed - {s}, slots - {s}, identities - {s};
    }

    /** Last section of a close: the server may be used again and its waiters wake up. */
    method EndClose(s: Sid) returns (wake: Option<nat>)
      requires SameKeys(Now())
      modifies this
      ensures Now() == Released(old(Now()), s) && wake == Lookup(old(events), s)
      ensures connections == old(connections) && eventCount == old(eventCount) && SameKeys(Now())
    {
      wake := Lookup(events, s);
      retiring, events := retiring - {s}, events - {s};
    }
  }
}
