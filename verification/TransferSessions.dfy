/** The cached transfer session of one server: looked up, rebuilt when dead, and created
    by one caller at a time, in every interleaving of callers, losses and closes. */
module TransferSessions {
  import opened Common

  /** Where a caller stands; `Recheck` to `Connecting` holds the server's creation lock. */
  datatype Pc =
    | Look
    | DropFirst(session: nat)
    | Queue
    | Recheck
    | DropSecond(session: nat)
    | Connecting
    | Got(session: nat)
    | Failed

  /** Sessions are numbered in the order of their creation; a lost one never recovers. */
  datatype State = State(cache: Option<nat>, usable: seq<bool>, holder: Option<nat>, callers: seq<Pc>)

  datatype Event =
    | Call
    | Lose(session: nat)
    | Close
    | Go(caller: nat)
    | Connect(caller: nat, usable: bool)
    | Refuse(caller: nat)

  function Initial(): State {
    State(None, [], None, [])
  }

  predicate HoldsLock(pc: Pc) {
    pc.Recheck? || pc.DropSecond? || pc.Connecting?
  }

  predicate Cached(st: State) {
    st.cache.Some? && st.cache.value < |st.usable|
  }

  predicate Enabled(st: State, e: Event) {
    match e
    case Call => true
    case Lose(s) => s < |st.usable|
    case Close => st.cache.Some? ==> Cached(st)
    case Go(i) =>
      && i < |st.callers| && (st.cache.Some? ==> Cached(st))
      && (st.callers[i].Queue? ==> st.holder.None?)
      && !st.callers[i].Connecting? && !st.callers[i].Got? && !st.callers[i].Failed?
    case Connect(i, _) => i < |st.callers| && st.callers[i].Connecting?
    case Refuse(i) => i < |st.callers| && st.callers[i].Connecting?
  }

  function At(st: State, i: nat, pc: Pc): State
    requires i < |st.callers|
  {
    st.(callers := st.callers[i := pc])
  }

  /** A dead session leaves the cache only if it is still the cached one. */
  function Dropped(st: State, s: nat): State {
    if st.cache == Some(s) then st.(cache := None) else st
  }

  function Next(st: State, e: Event): State
    requires Enabled(st, e)
  {
    match e
    case Call => st.(callers := st.callers + [Look])
    case Lose(s) => st.(usable := st.usable[s := false])
    case Close => if st.cache.None? then st else st.(cache := None, usable := st.usable[st.cache.value := false])
    case Go(i) =>
      (match st.callers[i]
       case Look =>
         if st.cache.None? then At(st, i, Queue)
         else if st.usable[st.cache.value] then At(st, i, Got(st.cache.value))
         else At(st, i, DropFirst(st.cache.value))
       case DropFirst(s) => At(Dropped(st, s), i, Queue)
       case Queue => At(st, i, Recheck).(holder := Some(i))
       case Recheck =>
         if st.cache.None? then At(st, i, Connecting)
         else if st.usable[st.cache.value] then At(st, i, Got(st.cache.value)).(holder := None)
         else At(st, i, DropSecond(st.cache.value))
       case DropSecond(s) => At(Dropped(st, s), i, Connecting))
    case Connect(i, usable) =>
      At(st, i, Got(|st.usable|)).(cache := Some(|st.usable|), usable := st.usable + [usable], holder := None)
    case Refuse(i) => At(st, i, Failed).(holder := None)
  }

  ghost predicate CallerOk(st: State, i: nat)
    requires i < |st.callers|
  {
    var pc := st.callers[i];
    && (HoldsLock(pc) <==> st.holder == Some(i))
    && (pc.Connecting? ==> st.cache.None?)
    && (pc.DropFirst? || pc.DropSecond? ==> pc.session < |st.usable| && !st.usable[pc.session])
    && (pc.DropSecond? ==> st.cache == None || st.cache == Some(pc.session))
    && (pc.Got? ==> pc.session < |st.usable|)
  }

  ghost predicate CallersOk(st: State) {
    forall i :: 0 <= i < |st.callers| ==> CallerOk(st, i)
  }

  /** The only session that can still be usable is the cached one. */
  ghost predicate CacheOk(st: State) {
    && (st.cache.Some? ==> Cached(st))
    && (forall s :: 0 <= s < |st.usable| && st.usable[s] ==> st.cache == Some(s))
    && (st.holder.Some? ==> st.holder.value < |st.callers|)
  }

  ghost predicate Inv(st: State) {
    CacheOk(st) && CallersOk(st)
  }

  lemma MovedCaller(st: State, e: Event, i: nat)
    requires Inv(st) && Enabled(st, e) && i < |st.callers|
    ensures i < |Next(st, e).callers| && CallerOk(Next(st, e), i)
  {
    assert CallerOk(st, i);
    match e
    case Go(k) => assert CallerOk(st, k);
    case Connect(k, _) => assert CallerOk(st, k);
    case Refuse(k) => assert CallerOk(st, k);
    case _ =>
  }

  lemma CacheStep(st: State, e: Event)
    requires Inv(st) && Enabled(st, e)
    ensures CacheOk(Next(st, e))
  {
    match e
    case Go(k) => assert CallerOk(st, k);
    case Connect(k, _) => assert CallerOk(st, k);
    case _ =>
  }

  lemma StepKeepsInv(st: State, e: Event)
    requires Inv(st) && Enabled(st, e)
    ensures Inv(Next(st, e))
  {
    CacheStep(st, e);
    forall i | 0 <= i < |Next(st, e).callers| ensures CallerOk(Next(st, e), i) {
      if i < |st.callers| {
        MovedCaller(st, e, i);
      }
    }
  }

  ghost function Run(events: seq<Event>): Option<State> {
    if events == [] then Some(Initial())
    else
      var before := Run(events[..|events| - 1]);
      if before.Some? && Enabled(before.value, events[|events| - 1]) then Some(Next(before.value, events[|events| - 1]))
      else None
  }

  lemma {:induction false} RunKeepsInv(events: seq<Event>)
    requires Run(events).Some?
    ensures Inv(Run(events).value)
  {
    if events != [] {
      RunKeepsInv(events[..|events| - 1]);
      StepKeepsInv(Run(events[..|events| - 1]).value, events[|events| - 1]);
    }
  }

  /** Callers share one session: whatever sessions any two callers were given, at most one
      session in all is usable, and it is the cached one. */
  lemma OneUsableSession(events: seq<Event>, st: State, i: nat, j: nat)
    requires Run(events) == Some(st) && i < |st.callers| && j < |st.callers|
    requires st.callers[i].Got? && st.callers[j].Got?
    ensures var a, b := st.callers[i].session, st.callers[j].session;
            a < |st.usable| && b < |st.usable| && (st.usable[a] && st.usable[b] ==> a == b && st.cache == Some(a))
  {
    RunKeepsInv(events);
    assert CallerOk(st, i) && CallerOk(st, j);
  }

  /** A new session never replaces another: when one is stored, nothing is cached and no
      earlier session is usable; and a caller is given a usable session or a new one. */
  lemma CreatedOnlyWhenNoneUsable(events: seq<Event>, st: State, e: Event)
    requires Run(events) == Some(st) && Enabled(st, e)
    ensures e.Connect? ==> st.cache.None? && forall s :: 0 <= s < |st.usable| ==> !st.usable[s]
    ensures e.Go? && Next(st, e).callers[e.caller].Got? ==>
              st.cache == Some(Next(st, e).callers[e.caller].session) && st.usable[st.cache.value]
  {
    RunKeepsInv(events);
    if e.Connect? {
      assert CallerOk(st, e.caller);
    }
  }

  /** Nobody waits for ever for a lock that nobody gives back: while a caller queues, the
      lock is free or its holder can go on. */
  lemma LockMovesOn(events: seq<Event>, st: State, i: nat) returns (e: Event)
    requires Run(events) == Some(st) && i < |st.callers| && st.callers[i].Queue?
    ensures Enabled(st, e)
            && (e == Go(i) || (st.holder.Some? && (e == Go(st.holder.value) || e == Refuse(st.holder.value))))
  {
    RunKeepsInv(events);
    if st.holder.None? {
      e := Go(i);
    } else {
      var h := st.holder.value;
      assert CallerOk(st, h);
      e := if st.callers[h].Connecting? then Refuse(h) else Go(h);
    }
  }
}
