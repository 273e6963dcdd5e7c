/** The source tree as a session sees it, the order in which the recursive copy
    walk visits it, and the explicit-stack walk that counts it beforehand. */
module SourceTree {
  import opened Common
  import opened RelayFile

  /** A link keeps what stat() and a listing show through it, `None` when it dangles. */
  datatype Node = Regular(src: Source) | Symlink(leads: Option<Node>) | Folder(entries: seq<Entry>)
  datatype Entry = Entry(name: string, node: Node)

  /** The project's exclude patterns, as a test on one entry name. */
  type Excludes = string -> bool

  predicate Skipped(name: string, ex: Excludes) {
    name == "." || name == ".." || ex(name)
  }

  /** A folder never lists one name twice. */
  predicate WellFormed(n: Node) {
    match n
    case Regular(_) => true
    case Symlink(leads) => leads.Some? ==> WellFormed(leads.value)
    case Folder(es) =>
      && (forall i, j :: 0 <= i < j < |es| ==> es[i].name != es[j].name)
      && (forall e <- es :: WellFormed(e.node))
  }

  // ----- what the session answers ----------------------------------------------------

  function Find(es: seq<Entry>, name: string): Option<Node> {
    if es == [] then None
    else if es[0].name == name then Some(es[0].node)
    else Find(es[1..], name)
  }

  function At(root: Node, p: Path): Option<Node> {
    if p == [] then Some(root)
    else match At(root, p[..|p| - 1])
      case Some(Folder(es)) => Find(es, p[|p| - 1])
      case _ => None
  }

  function Names(es: seq<Entry>): seq<string> {
    seq(|es|, i requires 0 <= i < |es| => es[i].name)
  }

  lemma {:induction false} FindHere(es: seq<Entry>, i: nat)
    requires i < |es| && forall j, k :: 0 <= j < k < |es| ==> es[j].name != es[k].name
    ensures Find(es, es[i].name) == Some(es[i].node)
  {
    if i > 0 {
      assert es[0].name != es[i].name;
      FindHere(es[1..], i - 1);
    }
  }

  lemma {:induction false} FindFound(es: seq<Entry>, name: string) returns (i: nat)
    requires Find(es, name).Some?
    ensures i < |es| && es[i].name == name && es[i].node == Find(es, name).value
  {
    if es[0].name == name {
      i := 0;
    } else {
      var k := FindFound(es[1..], name);
      i := k + 1;
    }
  }

  /** Looking up a listed child of a folder gives that child. */
  lemma ChildAt(root: Node, p: Path, i: nat)
    requires WellFormed(root) && At(root, p).Some? && At(root, p).value.Folder?
    requires i < |At(root, p).value.entries|
    ensures var es := At(root, p).value.entries;
            At(root, p + [es[i].name]) == Some(es[i].node) && WellFormed(es[i].node)
  {
    var es := At(root, p).value.entries;
    AtWellFormed(root, p);
    FindHere(es, i);
    assert (p + [es[i].name])[..|p|] == p;
    assert es[i] in es;
  }

  lemma {:induction false} AtWellFormed(root: Node, p: Path)
    requires WellFormed(root) && At(root, p).Some?
    ensures WellFormed(At(root, p).value)
  {
    if p != [] {
      AtWellFormed(root, p[..|p| - 1]);
      var es := At(root, p[..|p| - 1]).value.entries;
      var i := FindFound(es, p[|p| - 1]);
      assert es[i] in es;
    }
  }

  // ----- what a walk by stat() sees -----------------------------------------------------

  /** The tree with every link replaced by what it leads to; only dangling ones stay. */
  function Followed(n: Node): Node {
    match n
    case Regular(_) => n
    case Symlink(leads) => if leads.Some? then Followed(leads.value) else n
    case Folder(es) => Folder(AllFollowed(es))
  }

  function AllFollowed(es: seq<Entry>): (r: seq<Entry>)
    ensures |r| == |es| && forall i :: 0 <= i < |es| ==> r[i].name == es[i].name && r[i].node == Followed(es[i].node)
  {
    if es == [] then [] else [Entry(es[0].name, Followed(es[0].node))] + AllFollowed(es[1..])
  }

  lemma {:induction false} FollowedWellFormed(n: Node)
    requires WellFormed(n)
    ensures WellFormed(Followed(n))
  {
    match n
    case Regular(_) =>
    case Symlink(leads) =>
      if leads.Some? {
        FollowedWellFormed(leads.value);
      }
    case Folder(es) =>
      forall e <- AllFollowed(es) ensures WellFormed(e.node) {
        var i :| 0 <= i < |es| && AllFollowed(es)[i] == e;
        assert es[i] in es;
        FollowedWellFormed(es[i].node);
      }
  }

  lemma {:induction false} FindFollowed(es: seq<Entry>, name: string)
    requires Find(es, name).Some?
    ensures Find(AllFollowed(es), name) == Some(Followed(Find(es, name).value))
  {
    assert AllFollowed(es)[0] == Entry(es[0].name, Followed(es[0].node));
    if es[0].name != name {
      assert AllFollowed(es)[1..] == AllFollowed(es[1..]);
      FindFollowed(es[1..], name);
    }
  }

  /** What is found without following links is found there as well. */
  lemma {:induction false} AtFollowed(root: Node, p: Path)
    requires At(root, p).Some?
    ensures At(Followed(root), p) == Some(Followed(At(root, p).value))
  {
    if p != [] {
      AtFollowed(root, p[..|p| - 1]);
      FindFollowed(At(root, p[..|p| - 1]).value.entries, p[|p| - 1]);
    }
  }

  // ----- the recursive walk, as the list of what it does ----------------------------

  /** The recursive walk enters a folder or meets a regular file. */
  datatype Step = Enter(rel: Path) | Copy(rel: Path, src: Source)

  function Steps(n: Node, at: Path, ex: Excludes): seq<Step>
    decreases n, 1
  {
    match n
    case Regular(src) => [Copy(at, src)]
    case Symlink(_) => []
    case Folder(es) => [Enter(at)] + EntriesSteps(es, at, ex)
  }

  function EntriesSteps(es: seq<Entry>, at: Path, ex: Excludes): seq<Step>
    decreases es, 0
  {
    if es == [] then []
    else EntriesSteps(es[..|es| - 1], at, ex) + EntrySteps(es[|es| - 1], at, ex)
  }

  function EntrySteps(e: Entry, at: Path, ex: Excludes): seq<Step>
    decreases e, 2
  {
    if Skipped(e.name, ex) then [] else Steps(e.node, at + [e.name], ex)
  }

  lemma EntriesStepsNext(es: seq<Entry>, i: nat, at: Path, ex: Excludes)
    requires i < |es|
    ensures EntriesSteps(es[..i + 1], at, ex) == EntriesSteps(es[..i], at, ex) + EntrySteps(es[i], at, ex)
  {
    assert es[..i + 1][..i] == es[..i];
  }

  lemma LinkIsSkipped(e: Entry, at: Path, ex: Excludes)
    requires e.node.Symlink?
    ensures EntrySteps(e, at, ex) == []
  {
  }

  /** `rel` is a regular file of the tree, and no component below the root is excluded or a
      dot entry. */
  ghost predicate Wanted(root: Node, rel: Path, src: Source, ex: Excludes) {
    && At(root, rel) == Some(Regular(src))
    && forall name <- rel :: name != "." && name != ".." && !ex(name)
  }

  /** The walk visits a file exactly when it is wanted: from the tree's side. */
  lemma {:induction false} WantedIsVisited(root: Node, at: Path, rel: Path, src: Source, ex: Excludes)
    requires WellFormed(root) && At(root, at + rel) == Some(Regular(src)) && At(root, at).Some?
    requires forall name <- rel :: name != "." && name != ".." && !ex(name)
    ensures Copy(at + rel, src) in Steps(At(root, at).value, at, ex)
    decreases |rel|
  {
    if rel == [] {
      assert at + rel == at;
    } else {
      var n := At(root, at).value;
      FolderOnTheWay(root, at, rel);
      var here := at + rel[..1];
      assert here + rel[1..] == at + rel;
      FolderChild(root, at, rel[0]);
      var i := FindFound(n.entries, rel[0]);
      assert At(root, here).Some?;
      assert forall name <- rel[1..] :: name in rel;
      assert rel[0] in rel;
      WantedIsVisited(root, here, rel[1..], src, ex);
      AtPrefix(root, here, rel[1..]);
      assert here == at + [rel[0]];
      EntriesStepsHave(n.entries, i, at, ex, Copy(at + rel, src));
    }
  }

  lemma FolderChild(root: Node, at: Path, name: string)
    requires At(root, at).Some? && At(root, at).value.Folder?
    ensures At(root, at + [name]) == Find(At(root, at).value.entries, name)
  {
    assert (at + [name])[..|at|] == at;
  }

  lemma {:induction false} AtPrefix(root: Node, p: Path, rest: Path)
    requires At(root, p + rest).Some?
    ensures At(root, p).Some?
  {
    if rest == [] {
      assert p + rest == p;
    } else {
      assert (p + rest)[..|p + rest| - 1] == p + rest[..|rest| - 1];
      AtPrefix(root, p, rest[..|rest| - 1]);
    }
  }

  lemma FolderOnTheWay(root: Node, at: Path, rel: Path)
    requires At(root, at + rel).Some? && rel != []
    ensures At(root, at).Some? && At(root, at).value.Folder?
    ensures At(root, at + rel[..1]).Some?
  {
    assert at + rel == (at + rel[..1]) + rel[1..];
    AtPrefix(root, at + rel[..1], rel[1..]);
    assert (at + rel[..1])[..|at|] == at;
  }

  lemma {:induction false} EntriesStepsHave(es: seq<Entry>, i: nat, at: Path, ex: Excludes, s: Step)
    requires i < |es| && s in EntrySteps(es[i], at, ex)
    ensures s in EntriesSteps(es, at, ex)
  {
    if i < |es| - 1 {
      EntriesStepsHave(es[..|es| - 1], i, at, ex, s);
    }
  }

  /** The walk visits a file exactly when it is wanted: from the walk's side. Every
      visited place lies below the start, with no skipped component after it. */
  lemma {:induction false} VisitedIsWanted(root: Node, at: Path, ex: Excludes, s: Step)
    requires WellFormed(root) && At(root, at).Some?
    requires s in Steps(At(root, at).value, at, ex)
    ensures at <= s.rel && forall k :: |at| <= k < |s.rel| ==> !Skipped(s.rel[k], ex)
    ensures s.Copy? ==> At(root, s.rel) == Some(Regular(s.src))
    ensures s.Enter? ==> At(root, s.rel).Some? && At(root, s.rel).value.Folder?
    decreases At(root, at).value, 1
  {
    var n := At(root, at).value;
    if n.Folder? && s != Enter(at) {
      EntryVisitedIsWanted(root, at, n.entries, ex, s);
    }
  }

  lemma {:induction false} EntryVisitedIsWanted(root: Node, at: Path, es: seq<Entry>, ex: Excludes, s: Step)
    requires WellFormed(root) && At(root, at).Some? && At(root, at).value.Folder?
    requires es <= At(root, at).value.entries && s in EntriesSteps(es, at, ex)
    ensures at < s.rel && forall k :: |at| <= k < |s.rel| ==> !Skipped(s.rel[k], ex)
    ensures exists e <- es :: s.rel[|at|] == e.name && s in EntrySteps(e, at, ex)
    ensures s.Copy? ==> At(root, s.rel) == Some(Regular(s.src))
    ensures s.Enter? ==> At(root, s.rel).Some? && At(root, s.rel).value.Folder?
    decreases At(root, at).value, 0, |es|
  {
    var all := At(root, at).value.entries;
    var k := StepOfEntry(es, at, ex, s);
    var e := es[k];
    assert all[k] == e && all[k] in all && e in es;
    ChildAt(root, at, k);
    VisitedIsWanted(root, at + [e.name], ex, s);
    assert (at + [e.name])[|at|] == e.name;
  }

  lemma {:induction false} StepOfEntry(es: seq<Entry>, at: Path, ex: Excludes, s: Step) returns (k: nat)
    requires s in EntriesSteps(es, at, ex)
    ensures k < |es| && s in EntrySteps(es[k], at, ex)
  {
    k := |es| - 1;
    if s !in EntrySteps(es[k], at, ex) {
      k := StepOfEntry(es[..|es| - 1], at, ex, s);
    }
  }

  /** No place is visited twice. */
  ghost predicate Distinct(steps: seq<Step>) {
    forall i, j :: 0 <= i < j < |steps| ==> steps[i].rel != steps[j].rel
  }

  lemma {:induction false} VisitedOnce(root: Node, at: Path, ex: Excludes)
    requires WellFormed(root) && At(root, at).Some?
    ensures Distinct(Steps(At(root, at).value, at, ex))
    decreases At(root, at).value, 1
  {
    var n := At(root, at).value;
    if n.Folder? {
      EntriesVisitedOnce(root, at, n.entries, ex);
      assert n.entries <= n.entries;
      forall s <- EntriesSteps(n.entries, at, ex) ensures s.rel != at {
        EntryVisitedIsWanted(root, at, n.entries, ex, s);
      }
    }
  }

  lemma {:induction false} EntriesVisitedOnce(root: Node, at: Path, es: seq<Entry>, ex: Excludes)
    requires WellFormed(root) && At(root, at).Some? && At(root, at).value.Folder?
    requires es <= At(root, at).value.entries
    ensures Distinct(EntriesSteps(es, at, ex))
    decreases At(root, at).value, 0, |es|
  {
    if es != [] {
      var last, before := es[|es| - 1], es[..|es| - 1];
      var all := At(root, at).value.entries;
      EntriesVisitedOnce(root, at, before, ex);
      ChildAt(root, at, |es| - 1);
      assert last == all[|es| - 1] && last in all && all[..|es| - 1] == before;
      if !Skipped(last.name, ex) {
        VisitedOnce(root, at + [last.name], ex);
      }
      EntriesApart(root, at, |es| - 1, ex);
    }
  }

  /** The walk of one entry never meets the walk of an earlier entry. */
  lemma EntriesApart(root: Node, at: Path, last: nat, ex: Excludes)
    requires WellFormed(root) && At(root, at).Some? && At(root, at).value.Folder?
    requires last < |At(root, at).value.entries|
    ensures var es := At(root, at).value.entries;
            forall s <- EntriesSteps(es[..last], at, ex), t <- EntrySteps(es[last], at, ex) :: s.rel != t.rel
  {
    var es := At(root, at).value.entries;
    AtWellFormed(root, at);
    ChildAt(root, at, last);
    forall s <- EntriesSteps(es[..last], at, ex), t <- EntrySteps(es[last], at, ex) ensures s.rel != t.rel {
      EntryVisitedIsWanted(root, at, es[..last], ex, s);
      VisitedIsWanted(root, at + [es[last].name], ex, t);
      assert t.rel[|at|] == es[last].name;
    }
  }

  // ----- the explicit-stack count -----------------------------------------------------

  /** Files, bytes and folders met by a piece of the walk. */
  function Files(steps: seq<Step>): nat {
    if |steps| == 0 then 0 else Files(steps[..|steps| - 1]) + if steps[|steps| - 1].Copy? then 1 else 0
  }

  function Volume(steps: seq<Step>): nat {
    if |steps| == 0 then 0
    else Volume(steps[..|steps| - 1]) + if steps[|steps| - 1].Copy? then |steps[|steps| - 1].src.data| else 0
  }

  function Entered(steps: seq<Step>): nat {
    if |steps| == 0 then 0 else Entered(steps[..|steps| - 1]) + if steps[|steps| - 1].Enter? then 1 else 0
  }

  lemma {:induction false} TotalsConcat(a: seq<Step>, b: seq<Step>)
    ensures Files(a + b) == Files(a) + Files(b)
    ensures Volume(a + b) == Volume(a) + Volume(b)
    ensures Entered(a + b) == Entered(a) + Entered(b)
  {
    if |b| == 0 {
      assert a + b == a;
    } else {
      LastOfConcat(a, b);
      TotalsConcat(a, b[..|b| - 1]);
    }
  }

  lemma TotalsOne(s: Step)
    ensures Files([s]) == (if s.Copy? then 1 else 0) && Entered([s]) == (if s.Enter? then 1 else 0)
    ensures Volume([s]) == if s.Copy? then |s.src.data| else 0
  {
    var none: seq<Step> := [s][..0];
    assert Files(none) == Volume(none) == Entered(none) == 0;
  }

  function StepsAt(root: Node, p: Path, ex: Excludes): seq<Step> {
    if At(root, p).Some? then Steps(At(root, p).value, p, ex) else []
  }

  /** What the recursive walk would still do for the folders on the stack. */
  function Pending(root: Node, stack: seq<Path>, ex: Excludes): seq<Step> {
    if |stack| == 0 then [] else Pending(root, stack[..|stack| - 1], ex) + StepsAt(root, stack[|stack| - 1], ex)
  }

  ghost predicate IsFolder(root: Node, p: Path) {
    At(root, p).Some? && At(root, p).value.Folder?
  }

  ghost predicate IsFile(root: Node, p: Path) {
    At(root, p).Some? && At(root, p).value.Regular?
  }

  ghost predicate Folders(root: Node, stack: seq<Path>) {
    forall i :: 0 <= i < |stack| ==> IsFolder(root, stack[i])
  }

  /** One more folder on the stack. */
  lemma PendingPush(root: Node, stack: seq<Path>, p: Path, ex: Excludes)
    ensures var more, rest, here := Pending(root, stack + [p], ex), Pending(root, stack, ex), StepsAt(root, p, ex);
            Files(more) == Files(rest) + Files(here) && Volume(more) == Volume(rest) + Volume(here)
            && Entered(more) == Entered(rest) + Entered(here)
  {
    assert (stack + [p])[..|stack|] == stack;
    TotalsConcat(Pending(root, stack, ex), StepsAt(root, p, ex));
  }

  lemma FolderTotals(es: seq<Entry>, at: Path, ex: Excludes)
    ensures var all, inside := Steps(Folder(es), at, ex), EntriesSteps(es[..|es|], at, ex);
            Files(all) == Files(inside) && Volume(all) == Volume(inside) && Entered(all) == 1 + Entered(inside)
  {
    var rest := EntriesSteps(es, at, ex);
    assert es[..|es|] == es;
    assert Steps(Folder(es), at, ex) == [Enter(at)] + rest;
    TotalsConcat([Enter(at)], rest);
    TotalsOne(Enter(at));
  }

  /** What one entry adds: nothing, itself, or the whole walk of its folder. */
  lemma EntryTotals(root: Node, at: Path, i: nat, ex: Excludes)
    requires WellFormed(root) && At(root, at).Some? && At(root, at).value.Folder?
    requires i < |At(root, at).value.entries|
    ensures var es := At(root, at).value.entries;
            var here, before := EntriesSteps(es[..i + 1], at, ex), EntriesSteps(es[..i], at, ex);
            var child := at + [es[i].name];
            if !Skipped(es[i].name, ex) && IsFolder(root, child) then
              && Files(here) == Files(before) + Files(StepsAt(root, child, ex))
              && Volume(here) == Volume(before) + Volume(StepsAt(root, child, ex))
              && Entered(here) == Entered(before) + Entered(StepsAt(root, child, ex))
            else if !Skipped(es[i].name, ex) && IsFile(root, child) then
              && Files(here) == Files(before) + 1
              && Volume(here) == Volume(before) + |At(root, child).value.src.data|
              && Entered(here) == Entered(before)
            else Files(here) == Files(before) && Volume(here) == Volume(before) && Entered(here) == Entered(before)
  {
    var es := At(root, at).value.entries;
    EntriesStepsNext(es, i, at, ex);
    TotalsConcat(EntriesSteps(es[..i], at, ex), EntrySteps(es[i], at, ex));
    ChildAt(root, at, i);
    if es[i].node.Regular? {
      TotalsOne(Copy(at + [es[i].name], es[i].node.src));
    }
  }

  /** The body of the counting loop, for one name: a file is counted, a folder is
      pushed. */
  method CountEntry(root: Node, current: Path, i: nat, stack0: seq<Path>, files0: nat, bytes0: nat, ex: Excludes)
    returns (stack: seq<Path>, files: nat, bytes: nat)
    requires WellFormed(root) && Folders(root, stack0) && IsFolder(root, current)
             && i < |At(root, current).value.entries|
    ensures Folders(root, stack)
    ensures var es := At(root, current).value.entries;
            var now, was := EntriesSteps(es[..i + 1], current, ex), EntriesSteps(es[..i], current, ex);
            && files + Files(Pending(root, stack, ex)) + Files(was) ==
                files0 + Files(Pending(root, stack0, ex)) + Files(now)
            && bytes + Volume(Pending(root, stack, ex)) + Volume(was) ==
                bytes0 + Volume(Pending(root, stack0, ex)) + Volume(now)
            && Entered(Pending(root, stack, ex)) + Entered(was) == Entered(Pending(root, stack0, ex)) + Entered(now)
  {
    stack, files, bytes := stack0, files0, bytes0;
    var name := Names(At(root, current).value.entries)[i];
    var child := current + [name];
    EntryTotals(root, current, i, ex);
    if Skipped(name, ex) {
      return;
    }
    match At(root, child) {
      case Some(Folder(_)) =>
        PendingPush(root, stack, child, ex);
        stack := stack + [child];
      case Some(Regular(src)) =>
        files, bytes := files + 1, bytes + |src.data|;
      case _ =>
    }
  }

  /** One round of the counting walk: files of this folder are counted, its folders
      are pushed. */
  method CountFolder(root: Node, current: Path, stack0: seq<Path>, files0: nat, bytes0: nat, ex: Excludes)
    returns (stack: seq<Path>, files: nat, bytes: nat)
    requires WellFormed(root) && Folders(root, stack0) && IsFolder(root, current)
    ensures Folders(root, stack)
    ensures files + Files(Pending(root, stack, ex))
            == files0 + Files(Pending(root, stack0, ex)) + Files(StepsAt(root, current, ex))
    ensures bytes + Volume(Pending(root, stack, ex))
            == bytes0 + Volume(Pending(root, stack0, ex)) + Volume(StepsAt(root, current, ex))
    ensures 1 + Entered(Pending(root, stack, ex))
            == Entered(Pending(root, stack0, ex)) + Entered(StepsAt(root, current, ex))
  {
    ghost var es := At(root, current).value.entries;
    FolderTotals(es, current, ex);
    stack, files, bytes := CountEntries(root, current, stack0, files0, bytes0, ex);
  }

  /** The loop over the folder's names. */
  method CountEntries(root: Node, current: Path, stack0: seq<Path>, files0: nat, bytes0: nat, ex: Excludes)
    returns (stack: seq<Path>, files: nat, bytes: nat)
    requires WellFormed(root) && Folders(root, stack0) && IsFolder(root, current)
    ensures Folders(root, stack)
    ensures var es := At(root, current).value.entries;
            var inside := EntriesSteps(es[..|es|], current, ex);
            && files + Files(Pending(root, stack, ex)) == files0 + Files(Pending(root, stack0, ex)) + Files(inside)
            && bytes + Volume(Pending(root, stack, ex)) == bytes0 + Volume(Pending(root, stack0, ex)) + Volume(inside)
            && Entered(Pending(root, stack, ex)) == Entered(Pending(root, stack0, ex)) + Entered(inside)
  {
    stack, files, bytes := stack0, files0, bytes0;
    var es := At(root, current).value.entries;
    NothingInside(es[..0], current, ex);
    for i := 0 to |es|
      invariant Folders(root, stack)
      invariant files + Files(Pending(root, stack, ex)) ==
                files0 + Files(Pending(root, stack0, ex)) + Files(EntriesSteps(es[..i], current, ex))
      invariant bytes + Volume(Pending(root, stack, ex)) ==
                bytes0 + Volume(Pending(root, stack0, ex)) + Volume(EntriesSteps(es[..i], current, ex))
      invariant Entered(Pending(root, stack, ex)) ==
                Entered(Pending(root, stack0, ex)) + Entered(EntriesSteps(es[..i], current, ex))
    {
      stack, files, bytes := CountEntry(root, current, i, stack, files, bytes, ex);
    }
  }

  lemma NothingInside(none: seq<Entry>, at: Path, ex: Excludes)
    requires none == []
    ensures Files(EntriesSteps(none, at, ex)) == Volume(EntriesSteps(none, at, ex)) ==
            Entered(EntriesSteps(none, at, ex)) == 0
  {
  }

  /** The counting walk pops and pushes folders on a stack, while the copy walk
      recurses: they agree on the number of files and bytes. None when cancelled. */
  method CountTree(root: Node, at: Path, ex: Excludes) returns (totals: Option<(nat, nat)>)
    requires WellFormed(root) && IsFolder(root, at)
    ensures totals.Some? ==>
              && totals.value.0 == Files(StepsAt(root, at, ex))
              && totals.value.1 == Volume(StepsAt(root, at, ex))
  {
    var files: nat, bytes: nat := 0, 0;
    var stack := [at];
    ghost var whole := StepsAt(root, at, ex);
    PendingOne(root, at, ex);
    while stack != []
      invariant Folders(root, stack)
      invariant files + Files(Pending(root, stack, ex)) == Files(whole)
      invariant bytes + Volume(Pending(root, stack, ex)) == Volume(whole)
      decreases Entered(Pending(root, stack, ex))
    {
      var cancelled := *;
      if cancelled {
        return None;
      }
      var current, rest := stack[|stack| - 1], stack[..|stack| - 1];
      TopOfStack(root, stack, ex);
      stack, files, bytes := CountFolder(root, current, rest, files, bytes, ex);
    }
    totals := Some((files, bytes));
  }

  /** The folder on top of the stack and what is pending below it. */
  lemma TopOfStack(root: Node, stack: seq<Path>, ex: Excludes)
    requires stack != [] && Folders(root, stack)
    ensures var current, rest := stack[|stack| - 1], stack[..|stack| - 1];
            && Folders(root, rest) && IsFolder(root, current)
            && Files(Pending(root, stack, ex)) == Files(Pending(root, rest, ex)) + Files(StepsAt(root, current, ex))
            && Volume(Pending(root, stack, ex)) == Volume(Pending(root, rest, ex)) + Volume(StepsAt(root, current, ex))
            && Entered(Pending(root, stack, ex)) ==
                Entered(Pending(root, rest, ex)) + Entered(StepsAt(root, current, ex))
  {
    TotalsConcat(Pending(root, stack[..|stack| - 1], ex), StepsAt(root, stack[|stack| - 1], ex));
  }

  lemma PendingOne(root: Node, at: Path, ex: Excludes)
    ensures Pending(root, [at], ex) == StepsAt(root, at, ex)
  {
    var none: seq<Path> := [at][..0];
    assert Pending(root, none, ex) == [];
    assert [] + StepsAt(root, at, ex) == StepsAt(root, at, ex);
  }
}
