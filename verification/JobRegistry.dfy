/** The transfer job registry: active jobs, bounded history, and the table of target
    locks that keeps two jobs from writing one target. */
module JobRegistry {
  import opened Common
  import opened Text
  import opened RemotePaths

  datatype JobState = Queued | Planning | Running | Verifying | Completed | Failed | Cancelled

  predicate Terminal(s: JobState) {
    s.Completed? || s.Failed? || s.Cancelled?
  }

  /** One lock per target path, however it is written. */
  datatype Key = Key(server: string, path: string)

  function NormalTarget(path: string): string {
    Trimmed(Normpath(path))
  }

  function TargetKey(server: string, path: string): Key {
    Key(server, NormalTarget(path))
  }

  class Job {
    const id: string
    const server: string
    const path: string
    var state: JobState

    constructor (id: string, server: string, path: string)
      ensures this.id == id && this.server == server && this.path == path && state == Queued
    {
      this.id, this.server, this.path, state := id, server, path, Queued;
    }
  }

  /** A job's lock key, for the normalisation of target paths that a registry uses. */
  function KeyOf(normal: string -> string, job: Job): Key {
    Key(job.server, normal(job.path))
  }

  class Registry {
    const limit: nat
    const normal: string -> string
    var active: map<string, Job>
    var history: seq<Job>
    var locks: map<Key, string>

    constructor (limit: nat)
      ensures Valid() && this.limit == limit && active == map[] && history == [] && locks == map[]
      ensures normal == NormalTarget
    {
      this.limit, normal := limit, NormalTarget;
      active, history, locks := map[], [], map[];
    }

    /** The lock table is exactly the map from the active jobs' target keys to their ids. */
    ghost predicate Valid()
      reads this, active.Values
    {
      && Mirrors(locks, TargetsOf(normal, active)) && |history| <= limit
      && (forall id <- active :: active[id].id == id && !Terminal(active[id].state))
    }

    /** A new job gets its target, unless an active job has it. Job ids are new. */
    method Create(id: string, server: string, path: string) returns (r: Result<Job, Key>)
      requires Valid() && id !in active
      modifies this
      ensures Valid() && history == old(history)
      ensures r.Err? <==> Key(server, normal(path)) in old(locks)
      ensures r.Err? ==> active == old(active) && locks == old(locks) && r.error == Key(server, normal(path))
      ensures r.Ok? ==>
                && fresh(r.value) && r.value.id == id && r.value.server == server && r.value.path == path
                && r.value.state == Queued
                && active == old(active)[id := r.value] && locks == old(locks)[Key(server, normal(path)) := id]
    {
      var key := Key(server, normal(path));
      if key in locks {
        return Err(key);
      }
      var job := new Job(id, server, path);
      LockTaken(locks, TargetsOf(normal, active), key, id);
      TargetsAdded(normal, active, id, job);
      locks := locks[key := id];
      active := active[id := job];
      return Ok(job);
    }

    /** A job reaches a new state. With a terminal one it leaves the active jobs and gives
        up its lock; doing so again, as an archived job, changes nothing but the history. */
    method Transition(job: Job, state: JobState)
      requires Valid() && (job.id in active ==> active[job.id] == job)
      modifies this, job
      ensures Valid() && job.state == state
      ensures !Terminal(state) ==> active == old(active) && locks == old(locks) && history == old(history)
      ensures state.Completed? || state.Failed? || state.Cancelled? <==> Terminal(state)
      ensures Terminal(state) ==>
                && |history| == Min(limit, |old(history)| + 1) && (limit > 0 ==> history[0] == job)
                && forall i :: 1 <= i < |history| ==> history[i] == old(history)[i - 1]
      ensures Terminal(state) ==>
                && active == old(active) - {job.id}
                && history == Archived(old(history), job, limit)
                && locks == if job.id in old(active) then old(locks) - {KeyOf(normal, job)} else old(locks)
    {
      job.state := state;
      if Terminal(state) {
        LockDropped(locks, TargetsOf(normal, active), KeyOf(normal, job), job.id);
        TargetsDropped(normal, active, job.id);
        ReleaseTargetLock(job);
        active := active - {job.id};
        history := Archived(history, job, limit);
      }
    }

    method ReleaseTargetLock(job: Job)
      modifies this`locks
      ensures locks == if HoldsLock(normal, old(locks), job) then old(locks) - {KeyOf(normal, job)} else old(locks)
    {
      var key := KeyOf(normal, job);
      if key in locks && locks[key] == job.id {
        locks := locks - {key};
      }
    }

    method TargetLockHolder(server: string, path: string) returns (holder: Option<string>)
      requires Valid()
      ensures holder.Some? ==>
              holder.value in active && KeyOf(normal, active[holder.value]) == Key(server, normal(path))
      ensures holder.None? ==> forall id <- active :: KeyOf(normal, active[id]) != Key(server, normal(path))
    {
      var key := Key(server, normal(path));
      assert forall id <- active :: TargetsOf(normal, active)[id] == KeyOf(normal, active[id]);
      return if key in locks then Some(locks[key]) else None;
    }

    /** Drops every terminal entry of the history; the active jobs and locks stay. */
    method ClearHistory() returns (removed: nat)
      requires Valid()
      modifies this`history
      ensures Valid() && history == OpenJobs(old(history)) && removed == |old(history)| - |history|
      ensures forall job: Job :: job in history <==>
                job in old(history) && !job.state.Completed? && !job.state.Failed? && !job.state.Cancelled?
    {
      var kept: seq<Job> := [];
      ghost var all := history;
      NoOpenJobs(all[..0]);
      for i := 0 to |history|
        invariant history == all && kept == OpenJobs(all[..i])
      {
        OpenNext(all, i);
        if !Terminal(history[i].state) {
          kept := kept + [history[i]];
        }
      }
      assert all[..|all|] == all;
      OpenShorter(all);
      OpenAre(all);
      removed := |history| - |kept|;
      if removed > 0 {
        history := kept;
      }
    }

    /** No two active jobs share a target. */
    lemma TargetsDiffer(a: string, b: string)
      requires Valid() && a in active && b in active && KeyOf(normal, active[a]) == KeyOf(normal, active[b])
      ensures a == b
    {
      assert TargetsOf(normal, active)[a] == TargetsOf(normal, active)[b];
    }
  }

  /** The target keys of the active jobs. */
  ghost function TargetsOf(normal: string -> string, active: map<string, Job>): map<string, Key> {
    map id <- active :: KeyOf(normal, active[id])
  }

  lemma TargetsAdded(normal: string -> string, active: map<string, Job>, id: string, job: Job)
    ensures TargetsOf(normal, active[id := job]) == TargetsOf(normal, active)[id := KeyOf(normal, job)]
  {
  }

  lemma TargetsDropped(normal: string -> string, active: map<string, Job>, id: string)
    ensures TargetsOf(normal, active - {id}) == TargetsOf(normal, active) - {id}
  {
  }

  ghost predicate Mirrors(locks: map<Key, string>, targets: map<string, Key>) {
    && (forall id <- targets :: targets[id] in locks && locks[targets[id]] == id)
    && (forall k <- locks :: locks[k] in targets && targets[locks[k]] == k)
  }

  lemma LockTaken(locks: map<Key, string>, targets: map<string, Key>, k: Key, id: string)
    requires Mirrors(locks, targets) && k !in locks && id !in targets
    ensures Mirrors(locks[k := id], targets[id := k])
  {
  }

  /** Releasing the lock a job holds, if it holds one, and forgetting the job. */
  lemma LockDropped(locks: map<Key, string>, targets: map<string, Key>, k: Key, id: string)
    requires Mirrors(locks, targets) && (id in targets ==> targets[id] == k)
    ensures Mirrors(if k in locks && locks[k] == id then locks - {k} else locks, targets - {id})
    ensures (k in locks && locks[k] == id) <==> id in targets
  {
  }

  predicate HoldsLock(normal: string -> string, locks: map<Key, string>, job: Job) {
    KeyOf(normal, job) in locks && locks[KeyOf(normal, job)] == job.id
  }

  /** A bounded history, newest first. */
  function Archived(history: seq<Job>, job: Job, limit: nat): seq<Job> {
    var all := [job] + history;
    if |all| > limit then all[..limit] else all
  }

  ghost function OpenJobs(history: seq<Job>): seq<Job>
    reads history
  {
    if history == [] then []
    else
      var before, last := OpenJobs(history[..|history| - 1]), history[|history| - 1];
      if Terminal(last.state) then before else before + [last]
  }

  lemma NoOpenJobs(none: seq<Job>)
    requires none == []
    ensures OpenJobs(none) == []
  {
  }

  lemma OpenNext(history: seq<Job>, i: nat)
    requires i < |history|
    ensures OpenJobs(history[..i + 1])
            == OpenJobs(history[..i]) + if Terminal(history[i].state) then [] else [history[i]]
  {
    assert history[..i + 1][..i] == history[..i];
  }

  lemma {:induction false} OpenAre(history: seq<Job>)
    ensures forall job: Job :: job in OpenJobs(history) <==>
              job in history && !job.state.Completed? && !job.state.Failed? && !job.state.Cancelled?
  {
    if history != [] {
      OpenAre(history[..|history| - 1]);
      assert history[..|history| - 1] + [history[|history| - 1]] == history;
    }
  }

  lemma {:induction false} OpenShorter(history: seq<Job>)
    ensures |OpenJobs(history)| <= |history|
    ensures |OpenJobs(history)| == |history| ==> OpenJobs(history) == history
  {
    if history != [] {
      OpenShorter(history[..|history| - 1]);
      assert history[..|history| - 1] + [history[|history| - 1]] == history;
    }
  }

  // ----- when two paths share a lock --------------------------------------------------------

  ghost function Kept(path: string): seq<string> {
    Reduced(Split(path, '/'), LeadingSlashes(path) > 0)
  }

  lemma KeyText(path: string)
    requires LeadingSlashes(path) > 0
    ensures Trimmed(Normpath(path)) ==
            if Kept(path) == [] then "/" else Slashes(LeadingSlashes(path)) + Join(Kept(path), '/')
    ensures Clean(Kept(path))
  {
    var slashes := LeadingSlashes(path);
    SplitParts(path, '/');
    ReducedClean(Split(path, '/'), true);
    if Kept(path) == [] {
      OnlySlashes(slashes);
      assert Slashes(slashes) + "" == Slashes(slashes);
    } else {
      NormalizedNonEmpty(slashes, Kept(path));
    }
  }

  lemma FirstNonSlash(n: nat, a: string)
    requires a != "" && a[0] != '/'
    ensures var s := Slashes(n) + a;
            n < |s| && s[n] == a[0] && s[n..] == a && forall i :: 0 <= i < n ==> s[i] == '/'
  {
    OnlySlashes(n);
  }

  lemma SlashesCounted(n: nat, m: nat, a: string, b: string)
    requires Slashes(n) + a == Slashes(m) + b && a != "" && b != "" && a[0] != '/' && b[0] != '/'
    ensures n == m && a == b
  {
    FirstNonSlash(n, a);
    FirstNonSlash(m, b);
  }

  /** Two absolute paths on one server share a lock exactly when they have the same
      components and, unless they name the root, both or neither start with exactly two
      slashes. */
  lemma SharedLockIff(server: string, p: string, q: string)
    requires LeadingSlashes(p) > 0 && LeadingSlashes(q) > 0
    ensures TargetKey(server, p) == TargetKey(server, q)
            <==> Kept(p) == Kept(q) && (Kept(p) == [] || LeadingSlashes(p) == LeadingSlashes(q))
  {
    KeyText(p);
    KeyText(q);
    if Kept(p) != [] {
      JoinedStart(Kept(p));
      RootIsNoOther(LeadingSlashes(p), Join(Kept(p), '/'));
    }
    if Kept(q) != [] {
      JoinedStart(Kept(q));
      RootIsNoOther(LeadingSlashes(q), Join(Kept(q), '/'));
    }
    if Kept(p) != [] && Kept(q) != [] && TargetKey(server, p) == TargetKey(server, q) {
      SlashesCounted(LeadingSlashes(p), LeadingSlashes(q), Join(Kept(p), '/'), Join(Kept(q), '/'));
      SplitJoin(Kept(p), '/');
      SplitJoin(Kept(q), '/');
    }
  }

  lemma RootIsNoOther(n: nat, joined: string)
    requires joined != "" && joined[0] != '/'
    ensures Slashes(n) + joined != "/"
  {
    OnlySlashes(n);
    assert (Slashes(n) + joined)[n] == joined[0];
  }

  /** So one more slash in front of an absolute path gives the same directory tree a
      second lock. */
  lemma ExtraSlashSecondLock(server: string, p: string)
    requires LeadingSlashes(p) == 1 && (|p| == 1 || p[1] != '/') && Kept(p) != []
    ensures Kept("/" + p) == Kept(p) && TargetKey(server, "/" + p) != TargetKey(server, p)
  {
    MoreSlashes(p);
    FrontEmptyPiece(Split(p, '/'));
    SharedLockIff(server, p, "/" + p);
  }

  lemma MoreSlashes(p: string)
    requires LeadingSlashes(p) == 1 && (|p| == 1 || p[1] != '/') && Kept(p) != []
    ensures LeadingSlashes("/" + p) == 2 && Split("/" + p, '/') == [""] + Split(p, '/')
  {
    var q := "/" + p;
    assert q[1..] == p && q[0] == '/' && q[1] == p[0];
    if |p| > 1 {
      assert q[2] == p[1];
    }
  }

  lemma {:induction false} FrontEmptyPiece(parts: seq<string>)
    ensures Reduced([""] + parts, true) == Reduced(parts, true)
  {
    if parts == [] {
      assert [""] + parts == [""] && [""][..0] == parts;
    } else {
      assert ([""] + parts)[..|parts|] == [""] + parts[..|parts| - 1];
      FrontEmptyPiece(parts[..|parts| - 1]);
    }
  }

  // ----- jobs that write into one tree --------------------------------------------------------

  /** One path lies below the other; or they name one directory below the root, of which
      only one starts with exactly two slashes. */
  ghost predicate SlipsPast(p: string, q: string) {
    || Kept(p) < Kept(q) || Kept(q) < Kept(p)
    || (Kept(p) == Kept(q) != [] && LeadingSlashes(p) != LeadingSlashes(q))
  }

  lemma OverlapWithoutLockIff(server: string, p: string, q: string)
    requires LeadingSlashes(p) > 0 && LeadingSlashes(q) > 0
    ensures Overlap(Kept(p), Kept(q)) && TargetKey(server, p) != TargetKey(server, q) <==> SlipsPast(p, q)
  {
    var a, b := Kept(p), Kept(q);
    SharedLockIff(server, p, q);
    assert a <= b <==> |a| <= |b| && b[..|a|] == a;
    assert b <= a <==> |b| <= |a| && a[..|b|] == b;
  }

  /** The keys of a registry that normalises as the console does. */
  lemma KeysAre(normal: string -> string, server: string, path: string)
    requires normal == NormalTarget
    ensures Key(server, normal(path)) == TargetKey(server, path)
  {
  }

  lemma ActiveKeysDiffer(r: Registry, first: string, second: string)
    requires r.Valid() && first in r.active && second in r.active && first != second
    ensures KeyOf(r.normal, r.active[first]) != KeyOf(r.normal, r.active[second])
  {
    if KeyOf(r.normal, r.active[first]) == KeyOf(r.normal, r.active[second]) {
      r.TargetsDiffer(first, second);
    }
  }

  lemma DifferentTreesIff(normal: string -> string, server: string, p: string, q: string)
    requires normal == NormalTarget && LeadingSlashes(p) > 0 && LeadingSlashes(q) > 0
    ensures Overlap(Kept(p), Kept(q)) && Key(server, normal(p)) != Key(server, normal(q)) <==> SlipsPast(p, q)
  {
    KeysAre(normal, server, p);
    KeysAre(normal, server, q);
    OverlapWithoutLockIff(server, p, q);
  }

  /** The lock is one per path, not one per tree: two active jobs on one server write into
      overlapping trees if and only if one target lies below the other, or they differ in
      a second leading slash. */
  lemma ActiveTreesOverlapIff(r: Registry, first: string, second: string)
    requires r.Valid() && r.normal == NormalTarget && first in r.active && second in r.active && first != second
    requires r.active[first].server == r.active[second].server
    requires LeadingSlashes(r.active[first].path) > 0 && LeadingSlashes(r.active[second].path) > 0
    ensures var p, q := r.active[first].path, r.active[second].path; Overlap(Kept(p), Kept(q)) <==> SlipsPast(p, q)
  {
    ActiveKeysDiffer(r, first, second);
    DifferentTreesIff(r.normal, r.active[first].server, r.active[first].path, r.active[second].path);
  }

  /** And any two such targets can be active together. */
  method AdmitBoth(first: string, second: string, server: string, p: string, q: string) returns (r: Registry)
    requires first != second && LeadingSlashes(p) > 0 && LeadingSlashes(q) > 0 && SlipsPast(p, q)
    ensures fresh(r) && r.Valid() && first in r.active && second in r.active
    ensures r.active[first].server == r.active[second].server == server
    ensures r.active[first].path == p && r.active[second].path == q && Overlap(Kept(p), Kept(q))
  {
    r := new Registry(0);
    DifferentTreesIff(r.normal, server, p, q);
    r := Admitted(r, first, second, server, p, q);
  }

  method Admitted(r0: Registry, first: string, second: string, server: string, p: string, q: string)
    returns (r: Registry)
    requires r0.Valid() && r0.active == map[] && r0.locks == map[] && first != second
    requires Key(server, r0.normal(p)) != Key(server, r0.normal(q))
    modifies r0
    ensures r == r0 && r.Valid() && first in r.active && second in r.active
    ensures r.active[first].server == r.active[second].server == server && r.active[first].path == p
            && r.active[second].path == q
  {
    r := r0;
    var one := r.Create(first, server, p);
    var two := r.Create(second, server, q);
  }
}
