/** What the lock sections of a command decide in every run, told from the connections that
    were built, and what follows for a server that everybody reaches with one identity. */
module SshReuse {
  import opened Common
  import opened SshManager
  import opened SshRetire
  import opened SshSafety
  import opened SshIdentity

  /** The server's listed connection was built for somebody else. */
  ghost predicate BuiltForOther(st: State, s: Sid, id: Identity) {
    s in st.tables.managed && st.tables.managed[s] < |st.conns| && st.conns[st.tables.managed[s]].identity != id
  }

  /** In every run, a command that looks for its entry goes to close it if and only if its
      server is not retiring and has an entry whose connection was built for another
      identity; while the server retires it gives up, and otherwise it goes on to take the
      entry. */
  lemma FindRetiresIff(l: Limits, events: seq<Event>, i: nat)
    requires Run(l, events).Some? && i < |Run(l, events).value.tasks| && Run(l, events).value.tasks[i].pc.Find?
    ensures Enabled(l, Run(l, events).value, Go(i)) && i < |Next(l, Run(l, events).value, Go(i)).tasks|
    ensures var st := Run(l, events).value;
            var s, id, pc := st.tasks[i].server, st.tasks[i].identity, Next(l, st, Go(i)).tasks[i].pc;
            && (pc == Retire(Begin) <==> s !in st.tables.retiring && BuiltForOther(st, s, id))
            && (pc == Get <==> s !in st.tables.retiring && !BuiltForOther(st, s, id))
            && (pc == Done <==> s in st.tables.retiring)
  {
    RunHistory(l, events);
    assert EntryBuilt(Run(l, events).value, Run(l, events).value.tasks[i].server);
  }

  /** Then it takes the listed entry; it builds one, for its own identity, exactly when
      there is none and fewer than 512 are listed, and gives up when it may not. */
  lemma GetTakesIff(l: Limits, events: seq<Event>, i: nat)
    requires Run(l, events).Some? && i < |Run(l, events).value.tasks| && Run(l, events).value.tasks[i].pc.Get?
    ensures Enabled(l, Run(l, events).value, Go(i)) && i < |Next(l, Run(l, events).value, Go(i)).tasks|
    ensures var st := Run(l, events).value;
            var after, s := Next(l, st, Go(i)), st.tasks[i].server;
            var pc, listed := after.tasks[i].pc, Lookup(st.tables.managed, s);
            if s in st.tables.retiring || (listed.None? && |st.tables.managed| >= 512) then
              pc == Done && after.conns == st.conns && after.tables == st.tables
            else if listed.Some? then pc == Queued(listed.value, listed.value) && after.conns == st.conns
            else
              && pc == Queued(|st.conns|, |st.conns|) && Lookup(after.tables.managed, s) == Some(|st.conns|)
              && after.conns == st.conns + [Conn(s, st.tasks[i].identity, false)]
  {
    RunKeepsInv(l, events);
    EntryAt(Run(l, events).value, Run(l, events).value.tasks[i].server);
  }

  /** And with its permit it runs exactly while the entry it took is still the listed one
      of a server that is not retiring. */
  lemma RunsIff(l: Limits, events: seq<Event>, i: nat, c: nat, k: nat)
    requires Run(l, events).Some? && i < |Run(l, events).value.tasks|
    requires Run(l, events).value.tasks[i].pc == Holding(c, k)
    ensures Enabled(l, Run(l, events).value, Go(i)) && i < |Next(l, Run(l, events).value, Go(i)).tasks|
    ensures var st := Run(l, events).value;
            var s, pc := st.tasks[i].server, Next(l, st, Go(i)).tasks[i].pc;
            && (pc == Active(c, k) <==> s !in st.tables.retiring && Lookup(st.tables.managed, s) == Some(c))
            && (pc == Done <==> pc != Active(c, k))
  {
    RunKeepsInv(l, events);
    var st := Run(l, events).value;
    assert TaskOk(l, st, st.tasks[i]);
  }

  /** A command whose close is over, its own or the one it waited for, goes on to take an
      entry; a closer is done. */
  lemma CloseReturns(l: Limits, events: seq<Event>, i: nat)
    requires Run(l, events).Some? && Enabled(l, Run(l, events).value, Go(i))
    requires Run(l, events).value.tasks[i].pc == Retire(Unlisting) || (Run(l, events).value.tasks[i].pc.Retire?
             && Run(l, events).value.tasks[i].pc.close.Waiting?)
    ensures i < |Next(l, Run(l, events).value, Go(i)).tasks|
    ensures var t := Run(l, events).value.tasks[i];
            Next(l, Run(l, events).value, Go(i)).tasks[i].pc == if t.kind == Command then Get else Done
  {
  }

  // ----- one identity ------------------------------------------------------------------

  /** Whoever comes for `s` is a command with identity `id`. */
  ghost predicate OnlyFor(events: seq<Event>, s: Sid, id: Identity) {
    forall n :: 0 <= n < |events| && events[n].Arrive? && events[n].server == s ==>
      events[n].identity == id && events[n].kind.Command?
  }

  predicate CalmTask(t: Task, s: Sid, id: Identity) {
    t.server == s ==> t.identity == id && t.kind.Command? && !t.pc.Retire?
  }

  ghost predicate CalmConn(st: State, c: nat, s: Sid, id: Identity)
    requires c < |st.conns|
  {
    st.conns[c].server == s ==> !st.conns[c].shut && st.conns[c].identity == id && Installs(st, s, c)
  }

  ghost predicate Calm(st: State, s: Sid, id: Identity) {
    && s !in st.tables.retiring
    && (forall i :: 0 <= i < |st.tasks| ==> CalmTask(st.tasks[i], s, id))
    && (forall c :: 0 <= c < |st.conns| ==> CalmConn(st, c, s, id))
  }

  /** A close touches the entry of its own server only. */
  lemma CloseElsewhere(l: Limits, st: State, i: nat, s: Sid)
    requires i < |st.tasks| && st.tasks[i].pc.Retire? && Ready(l, st, st.tasks[i]) && st.tasks[i].server != s
    ensures var after := CloseNext(l, st, i);
            && (s in after.tables.retiring <==> s in st.tables.retiring)
            && Lookup(after.tables.managed, s) == Lookup(st.tables.managed, s)
            && |after.conns| == |st.conns|
            && forall c :: 0 <= c < |st.conns| ==>
                 after.conns[c] == if st.tasks[i].pc.close.Closing? && st.tasks[i].pc.close.conn == c
                                   then st.conns[c].(shut := true) else st.conns[c]
  {
  }

  lemma CloseCalm(l: Limits, st: State, i: nat, s: Sid, id: Identity, c: nat)
    requires i < |st.tasks| && st.tasks[i].pc.Retire? && Ready(l, st, st.tasks[i]) && TaskOk(l, st, st.tasks[i])
    requires st.tasks[i].server != s && c < |st.conns| == |CloseNext(l, st, i).conns| && CalmConn(st, c, s, id)
    ensures CalmConn(CloseNext(l, st, i), c, s, id)
  {
    CloseElsewhere(l, st, i, s);
  }

  /** A command's step leaves the entry of `s` as it is, or builds it where there was none. */
  lemma CommandConns(l: Limits, st: State, i: nat, s: Sid)
    requires Enabled(l, st, Go(i)) && !st.tasks[i].pc.Retire?
    ensures var after := Next(l, st, Go(i));
            && after.tables.retiring == st.tables.retiring
            && (Lookup(after.tables.managed, s) == Lookup(st.tables.managed, s)
                || (Created(st, Go(i)) && st.tasks[i].server == s && Installs(after, s, |st.conns|)))
            && after.conns == if Created(st, Go(i))
                              then st.conns + [Conn(st.tasks[i].server, st.tasks[i].identity, false)] else st.conns
  {
  }

  lemma CommandCalm(l: Limits, st: State, i: nat, s: Sid, id: Identity, c: nat)
    requires Enabled(l, st, Go(i)) && !st.tasks[i].pc.Retire? && CalmTask(st.tasks[i], s, id)
    requires c < |Next(l, st, Go(i)).conns| && (c < |st.conns| ==> CalmConn(st, c, s, id))
    ensures CalmConn(Next(l, st, Go(i)), c, s, id)
  {
    CommandConns(l, st, i, s);
  }

  lemma NotStale(st: State, s: Sid, id: Identity)
    requires EntryBuilt(st, s) && EntryOk(st, s)
    requires s in st.tables.managed && st.tables.managed[s] < |st.conns| ==> CalmConn(st, st.tables.managed[s], s, id)
    ensures !Stale(st.tables, s, id)
  {
  }

  lemma MoverCalm(l: Limits, st: State, i: nat, s: Sid, id: Identity)
    requires Enabled(l, st, Go(i)) && CalmTask(st.tasks[i], s, id) && !Stale(st.tables, s, id)
    requires OnlyMoves(st, i, Next(l, st, Go(i)))
    ensures CalmTask(Next(l, st, Go(i)).tasks[i], s, id)
  {
  }

  lemma GoCalm(l: Limits, st: State, i: nat, s: Sid, id: Identity)
    requires Inv(l, st) && EntryBuilt(st, s) && Enabled(l, st, Go(i)) && Calm(st, s, id)
    ensures Calm(Next(l, st, Go(i)), s, id)
  {
    var after := Next(l, st, Go(i));
    StepTask(l, st, i);
    EntryAt(st, s);
    NotStale(st, s, id);
    assert CalmTask(st.tasks[i], s, id) && TaskOk(l, st, st.tasks[i]);
    forall j | 0 <= j < |after.tasks| ensures CalmTask(after.tasks[j], s, id) {
      assert CalmTask(st.tasks[j], s, id);
      if j == i {
        MoverCalm(l, st, i, s, id);
      }
    }
    if st.tasks[i].pc.Retire? {
      CloseElsewhere(l, st, i, s);
    } else {
      CommandConns(l, st, i, s);
    }
    forall c | 0 <= c < |after.conns| ensures CalmConn(after, c, s, id) {
      assert c < |st.conns| ==> CalmConn(st, c, s, id);
      if st.tasks[i].pc.Retire? {
        CloseCalm(l, st, i, s, id, c);
      } else {
        CommandCalm(l, st, i, s, id, c);
      }
    }
  }

  lemma StepCalm(l: Limits, st: State, e: Event, s: Sid, id: Identity)
    requires Inv(l, st) && EntryBuilt(st, s) && Enabled(l, st, e) && Calm(st, s, id)
    requires e.Arrive? && e.server == s ==> e.identity == id && e.kind.Command?
    ensures Calm(Next(l, st, e), s, id)
  {
    if e.Go? {
      GoCalm(l, st, e.task, s, id);
    } else {
      var after := Next(l, st, e);
      forall c | 0 <= c < |after.conns| ensures CalmConn(after, c, s, id) {
        assert CalmConn(st, c, s, id);
      }
      forall j | 0 <= j < |after.tasks| ensures CalmTask(after.tasks[j], s, id) {
        assert j < |st.tasks| ==> CalmTask(st.tasks[j], s, id);
      }
    }
  }

  lemma {:induction false} RunCalm(l: Limits, events: seq<Event>, s: Sid, id: Identity)
    requires Run(l, events).Some? && OnlyFor(events, s, id)
    ensures Calm(Run(l, events).value, s, id)
  {
    if events != [] {
      var n := |events| - 1;
      RunCalm(l, events[..n], s, id);
      RunKeepsInv(l, events[..n]);
      RunHistory(l, events[..n]);
      assert EntryBuilt(Run(l, events[..n]).value, s);
      StepCalm(l, Run(l, events[..n]).value, events[n], s, id);
    }
  }

  /** A server that everybody reaches with one identity, and that nobody closes, is never
      retired: in every run all its commands share one connection, built once, listed ever
      since and never closed. */
  lemma OneIdentityReuses(l: Limits, events: seq<Event>, s: Sid, id: Identity)
    requires Run(l, events).Some? && OnlyFor(events, s, id)
    ensures var st := Run(l, events).value;
            && s !in st.tables.retiring
            && (forall i :: 0 <= i < |st.tasks| && st.tasks[i].server == s ==> !st.tasks[i].pc.Retire?)
            && (forall c :: 0 <= c < |st.conns| && st.conns[c].server == s ==>
                  !st.conns[c].shut && Lookup(st.tables.managed, s) == Some(c))
            && (forall c, d :: 0 <= c < d < |st.conns| ==> !(st.conns[c].server == st.conns[d].server == s))
  {
    RunCalm(l, events, s, id);
    var st := Run(l, events).value;
    forall i | 0 <= i < |st.tasks| && st.tasks[i].server == s ensures !st.tasks[i].pc.Retire? {
      assert CalmTask(st.tasks[i], s, id);
    }
    forall c | 0 <= c < |st.conns| && st.conns[c].server == s
      ensures !st.conns[c].shut && Lookup(st.tables.managed, s) == Some(c)
    {
      assert CalmConn(st, c, s, id);
    }
  }
}
