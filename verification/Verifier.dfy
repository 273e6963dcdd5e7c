/** The quick check of a finished transfer: counter parity first, else a second walk
    over the source that compares sizes file by file. */
module Verifier {
  import opened Common
  import opened RelayFile
  import opened RelayCopy
  import opened SourceTree
  import opened RelayTree
  import opened RelayJob

  /** stat() follows a link and reports what the link points at. */
  function Stat(fs: Fs, p: Path): FileStat {
    if p in fs && fs[p].Link? then
      match fs[p].sees
      case None => MISSING
      case Some(size) => FileStat(true, false, size, false, 0)
    else Lstat(fs, p)
  }

  predicate SameSize(fs: Fs, p: Path, size: nat) {
    Stat(fs, p).exists_ && Stat(fs, p).size == size
  }

  /** The target's entry is a file with that many bytes, or a directory or a link that leads
      to something of that size. */
  ghost predicate HasSize(fs: Fs, p: Path, size: nat) {
    p in fs && ((fs[p].File? && |fs[p].data| == size) || fs[p] == Directory(size) || fs[p] == Link(Some(size)))
  }

  lemma SameSizeIff(fs: Fs, p: Path, size: nat)
    ensures SameSize(fs, p, size) <==> HasSize(fs, p, size)
  {
  }

  /** Every file of this piece of the walk has a mirror of equal size. */
  ghost predicate Sized(trip: Trip, fs: Fs, steps: seq<Step>) {
    |steps| > 0 ==>
      && Sized(trip, fs, steps[..|steps| - 1])
      && var s := steps[|steps| - 1];
      (s.Copy? ==> SameSize(fs, Mirror(trip, s.rel), |s.src.data|))
  }

  ghost predicate StackSized(trip: Trip, fs: Fs, root: Node, stack: seq<Path>, ex: Excludes) {
    |stack| > 0 ==>
      && StackSized(trip, fs, root, stack[..|stack| - 1], ex)
      && Sized(trip, fs, StepsAt(root, stack[|stack| - 1], ex))
  }

  lemma {:induction false} SizedConcat(trip: Trip, fs: Fs, a: seq<Step>, b: seq<Step>)
    ensures Sized(trip, fs, a + b) <==> Sized(trip, fs, a) && Sized(trip, fs, b)
  {
    if |b| == 0 {
      assert a + b == a;
    } else {
      assert (a + b)[..|a + b| - 1] == a + b[..|b| - 1];
      SizedConcat(trip, fs, a, b[..|b| - 1]);
    }
  }

  lemma {:induction false} SizedAt(trip: Trip, fs: Fs, steps: seq<Step>, i: nat)
    requires Sized(trip, fs, steps) && i < |steps| && steps[i].Copy?
    ensures SameSize(fs, Mirror(trip, steps[i].rel), |steps[i].src.data|)
  {
    if i < |steps| - 1 {
      SizedAt(trip, fs, steps[..|steps| - 1], i);
    }
  }

  lemma SizedOne(trip: Trip, fs: Fs, s: Step)
    ensures Sized(trip, fs, [s]) <==> (s.Copy? ==> SameSize(fs, Mirror(trip, s.rel), |s.src.data|))
  {
  }

  lemma StackSizedPush(trip: Trip, fs: Fs, root: Node, stack: seq<Path>, p: Path, ex: Excludes)
    ensures StackSized(trip, fs, root, stack + [p], ex)
            <==> StackSized(trip, fs, root, stack, ex) && Sized(trip, fs, StepsAt(root, p, ex))
  {
    assert (stack + [p])[..|stack|] == stack;
  }

  lemma StackSizedOne(trip: Trip, fs: Fs, root: Node, p: Path, ex: Excludes)
    ensures StackSized(trip, fs, root, [p], ex) <==> Sized(trip, fs, StepsAt(root, p, ex))
  {
  }

  ghost predicate ChildSized(trip: Trip, fs: Fs, root: Node, child: Path, ex: Excludes) {
    match At(root, child)
    case Some(Folder(_)) => Sized(trip, fs, StepsAt(root, child, ex))
    case Some(Regular(src)) => SameSize(fs, Mirror(trip, child), |src.data|)
    case _ => true
  }

  /** What one entry contributes to the comparison. */
  lemma EntrySized(trip: Trip, fs: Fs, root: Node, at: Path, i: nat, ex: Excludes)
    requires WellFormed(root) && IsFolder(root, at) && i < |At(root, at).value.entries|
    ensures var es := At(root, at).value.entries;
            var child := at + [es[i].name];
            Sized(trip, fs, EntriesSteps(es[..i + 1], at, ex)) <==>
            Sized(trip, fs, EntriesSteps(es[..i], at, ex))
            && (Skipped(es[i].name, ex) || ChildSized(trip, fs, root, child, ex))
  {
    var es := At(root, at).value.entries;
    EntriesStepsNext(es, i, at, ex);
    SizedConcat(trip, fs, EntriesSteps(es[..i], at, ex), EntrySteps(es[i], at, ex));
    ChildAt(root, at, i);
    if es[i].node.Regular? {
      SizedOne(trip, fs, Copy(at + [es[i].name], es[i].node.src));
    }
  }

  lemma {:induction false} EntriesSizedDown(trip: Trip, fs: Fs, es: seq<Entry>, i: nat, at: Path, ex: Excludes)
    requires i <= |es| && Sized(trip, fs, EntriesSteps(es, at, ex))
    ensures Sized(trip, fs, EntriesSteps(es[..i], at, ex))
    decreases |es|
  {
    if i == |es| {
      assert es[..i] == es;
    } else {
      var init := es[..|es| - 1];
      SizedConcat(trip, fs, EntriesSteps(init, at, ex), EntrySteps(es[|es| - 1], at, ex));
      assert init[..i] == es[..i];
      EntriesSizedDown(trip, fs, init, i, at, ex);
    }
  }

  lemma FolderSized(trip: Trip, fs: Fs, root: Node, at: Path, ex: Excludes)
    requires IsFolder(root, at)
    ensures var es := At(root, at).value.entries;
            Sized(trip, fs, StepsAt(root, at, ex)) == Sized(trip, fs, EntriesSteps(es[..|es|], at, ex))
  {
    var es := At(root, at).value.entries;
    assert es[..|es|] == es;
    SizedConcat(trip, fs, [Enter(at)], EntriesSteps(es, at, ex));
    SizedOne(trip, fs, Enter(at));
  }

  /** The body of the re-walk's loop, for one name. */
  method CheckEntry(trip: Trip, fs: Fs, root: Node, current: Path, es: seq<Entry>, i: nat, stack0: seq<Path>,
                    ex: Excludes)
    returns (missing: Option<Path>, stack: seq<Path>)
    requires WellFormed(root) && Folders(root, stack0) && At(root, current) == Some(Folder(es)) && i < |es|
    ensures missing.Some? ==> !Sized(trip, fs, EntriesSteps(es[..i + 1], current, ex))
    ensures missing == None ==> Folders(root, stack)
    ensures missing == None ==> (StackSized(trip, fs, root, stack, ex) ==> StackSized(trip, fs, root, stack0, ex))
    ensures missing == None ==>
              (StackSized(trip, fs, root, stack, ex) && Sized(trip, fs, EntriesSteps(es[..i], current, ex)))
              == (StackSized(trip, fs, root, stack0, ex) && Sized(trip, fs, EntriesSteps(es[..i + 1], current, ex)))
    ensures missing == None ==>
              Entered(Pending(root, stack, ex)) + Entered(EntriesSteps(es[..i], current, ex))
              == Entered(Pending(root, stack0, ex)) + Entered(EntriesSteps(es[..i + 1], current, ex))
  {
    missing, stack := None, stack0;
    var name := Names(es)[i];
    EntryTotals(root, current, i, ex);
    EntrySized(trip, fs, root, current, i, ex);
    if Skipped(name, ex) {
      return;
    }
    var child := current + [name];
    match At(root, child) {
      case Some(Folder(_)) =>
        PendingPush(root, stack, child, ex);
        StackSizedPush(trip, fs, root, stack, child, ex);
        stack := stack + [child];
      case Some(Regular(src)) =>
        if !SameSize(fs, Mirror(trip, child), |src.data|) {
          missing := Some(Mirror(trip, child));
        }
      case _ =>
    }
  }

  /** One round of the re-walk: stops at the first file whose mirror is missing or has
      another size; folders are pushed. */
  method CheckFolder(trip: Trip, fs: Fs, root: Node, current: Path, stack0: seq<Path>, ex: Excludes)
    returns (missing: Option<Path>, stack: seq<Path>)
    requires WellFormed(root) && Folders(root, stack0) && IsFolder(root, current)
    ensures missing.Some? ==> !Sized(trip, fs, StepsAt(root, current, ex))
    ensures missing == None ==>
              && Folders(root, stack)
              && (StackSized(trip, fs, root, stack, ex)
                  <==> StackSized(trip, fs, root, stack0, ex) && Sized(trip, fs, StepsAt(root, current, ex)))
              && 1 + Entered(Pending(root, stack, ex))
                 == Entered(Pending(root, stack0, ex)) + Entered(StepsAt(root, current, ex))
  {
    var es := At(root, current).value.entries;
    assert At(root, current).value == Folder(es);
    FolderSized(trip, fs, root, current, ex);
    FolderTotals(es, current, ex);
    missing, stack := CheckEntries(trip, fs, root, current, es, stack0, ex);
  }

  /** The same of the folder on top of the stack. */
  method CheckTop(trip: Trip, fs: Fs, root: Node, stack0: seq<Path>, ex: Excludes)
    returns (missing: Option<Path>, stack: seq<Path>)
    requires WellFormed(root) && Folders(root, stack0) && stack0 != []
    ensures missing.Some? ==> !StackSized(trip, fs, root, stack0, ex)
    ensures missing == None ==>
              && Folders(root, stack)
              && (StackSized(trip, fs, root, stack, ex) <==> StackSized(trip, fs, root, stack0, ex))
              && Entered(Pending(root, stack, ex)) < Entered(Pending(root, stack0, ex))
  {
    var current, rest := stack0[|stack0| - 1], stack0[..|stack0| - 1];
    assert stack0 == rest + [current] && IsFolder(root, current);
    PendingPush(root, rest, current, ex);
    StackSizedPush(trip, fs, root, rest, current, ex);
    missing, stack := CheckFolder(trip, fs, root, current, rest, ex);
  }

  /** The loop over the folder's names. */
  method CheckEntries(trip: Trip, fs: Fs, root: Node, current: Path, es: seq<Entry>, stack0: seq<Path>, ex: Excludes)
    returns (missing: Option<Path>, stack: seq<Path>)
    requires WellFormed(root) && Folders(root, stack0) && IsFolder(root, current)
             && es == At(root, current).value.entries
    ensures missing.Some? ==> !Sized(trip, fs, EntriesSteps(es[..|es|], current, ex))
    ensures missing == None ==>
              && Folders(root, stack)
              && (StackSized(trip, fs, root, stack, ex)
                  <==> StackSized(trip, fs, root, stack0, ex) && Sized(trip, fs, EntriesSteps(es[..|es|], current, ex)))
              && Entered(Pending(root, stack, ex))
                 == Entered(Pending(root, stack0, ex)) + Entered(EntriesSteps(es[..|es|], current, ex))
  {
    missing, stack := None, stack0;
    ghost var below, whole := StackSized(trip, fs, root, stack0, ex),
        Sized(trip, fs, EntriesSteps(es[..|es|], current, ex));
    ghost var base := Entered(Pending(root, stack0, ex));
    NoEntries(trip, fs, es[..0], current, ex);
    for i := 0 to |es|
      invariant missing == None && Folders(root, stack)
      invariant StackSized(trip, fs, root, stack, ex) == (below && Sized(trip, fs, EntriesSteps(es[..i], current, ex)))
      invariant Entered(Pending(root, stack, ex)) == base + Entered(EntriesSteps(es[..i], current, ex))
    {
      EntriesSizedFrom(trip, fs, es, i, current, ex);
      missing, stack := CheckEntry(trip, fs, root, current, es, i, stack, ex);
      if missing.Some? {
        assert !whole;
        return;
      }
    }
  }

  lemma NoEntries(trip: Trip, fs: Fs, none: seq<Entry>, at: Path, ex: Excludes)
    requires none == []
    ensures Sized(trip, fs, EntriesSteps(none, at, ex)) && Entered(EntriesSteps(none, at, ex)) == 0
  {
  }

  /** A file list that is sized is sized up to any entry. */
  lemma EntriesSizedFrom(trip: Trip, fs: Fs, es: seq<Entry>, i: nat, at: Path, ex: Excludes)
    requires i < |es|
    ensures Sized(trip, fs, EntriesSteps(es[..|es|], at, ex)) ==> Sized(trip, fs, EntriesSteps(es[..i + 1], at, ex))
    ensures Sized(trip, fs, EntriesSteps(es[..i + 1], at, ex)) ==> Sized(trip, fs, EntriesSteps(es[..i], at, ex))
  {
    var whole, some := es[..|es|], es[..i + 1];
    assert whole[..i + 1] == some && some[..i] == es[..i];
    if Sized(trip, fs, EntriesSteps(whole, at, ex)) {
      EntriesSizedDown(trip, fs, whole, i + 1, at, ex);
    }
    if Sized(trip, fs, EntriesSteps(some, at, ex)) {
      EntriesSizedDown(trip, fs, some, i, at, ex);
    }
  }

  /** The re-walk answers None exactly when every wanted file of the tree it sees has a
      mirror of equal size. It asks stat(), so it sees what the links lead to. */
  method FirstMissing(trip: Trip, fs: Fs, root: Node, at: Path, ex: Excludes) returns (missing: Option<Path>)
    requires WellFormed(root) && IsFolder(root, at)
    ensures missing == None <==> Sized(trip, fs, StepsAt(root, at, ex))
  {
    var stack := [at];
    PendingOne(root, at, ex);
    StackSizedOne(trip, fs, root, at, ex);
    while stack != []
      invariant Folders(root, stack)
      invariant StackSized(trip, fs, root, stack, ex) <==> Sized(trip, fs, StepsAt(root, at, ex))
      decreases Entered(Pending(root, stack, ex))
    {
      missing, stack := CheckTop(trip, fs, root, stack, ex);
      if missing.Some? {
        return;
      }
    }
    missing := None;
  }

  /** When the quick check says yes, of a source path that stat() shows as `root`. */
  ghost predicate Verdict(filesTotal: Option<nat>, filesDone: nat, bytesTotal: Option<nat>, bytesDone: nat,
                          trip: Trip, fs: Fs, root: Node, at: Path, ex: Excludes) {
    && Stat(fs, trip.targetRoot).exists_
    && if root.Regular? then
         && (bytesTotal.Some? ==> Stat(fs, trip.targetRoot).size == bytesTotal.value)
         && Stat(fs, trip.targetRoot).size > 0
       else
         || (filesTotal == Some(filesDone) && bytesTotal == Some(bytesDone))
         || (root.Folder? && Sized(trip, fs, StepsAt(Followed(root), at, ex)))
  }

  /** None: the source path is gone, so that its listing fails. */
  method QuickVerify(job: Job, trip: Trip, fs: Fs, root: Node, at: Path, ex: Excludes) returns (answer: Option<bool>)
    requires WellFormed(root) && at == [] && (root.Symlink? ==> root.leads == None)
    ensures answer.Some? ==>
              (answer.value
               <==> Verdict(job.filesTotal, job.filesDone, job.bytesTotal, job.bytesDone, trip, fs, root, at, ex))
    ensures answer == None <==>
            root.Symlink? && Stat(fs, trip.targetRoot).exists_
            && (job.filesTotal != Some(job.filesDone) || job.bytesTotal != Some(job.bytesDone))
  {
    var there := Stat(fs, trip.targetRoot);
    if !there.exists_ {
      return Some(false);
    }
    if root.Regular? {
      if job.bytesTotal.Some? && there.size != job.bytesTotal.value {
        return Some(false);
      }
      return Some(there.size > 0);
    }
    if job.filesTotal == Some(job.filesDone) && job.bytesTotal == Some(job.bytesDone) {
      return Some(true);
    }
    if root.Symlink? {
      return None;
    }
    FollowedWellFormed(root);
    var missing := FirstMissing(trip, fs, Followed(root), at, ex);
    answer := Some(missing == None);
  }

  /** A single file verifies exactly when its target is there, links followed, is not empty
      and has the size that was counted, if one was. */
  lemma SingleVerdictIff(job: Job, trip: Trip, fs: Fs, root: Node, at: Path, ex: Excludes)
    requires root.Regular?
    ensures Verdict(job.filesTotal, job.filesDone, job.bytesTotal, job.bytesDone, trip, fs, root, at, ex)
            <==> exists size: nat ::
                   HasSize(fs, trip.targetRoot, size) && size > 0
                   && (job.bytesTotal.Some? ==> size == job.bytesTotal.value)
  {
    TargetHasSize(trip, fs);
  }

  lemma TargetHasSize(trip: Trip, fs: Fs)
    ensures Stat(fs, trip.targetRoot).exists_ ==> HasSize(fs, trip.targetRoot, Stat(fs, trip.targetRoot).size)
    ensures forall size: nat :: HasSize(fs, trip.targetRoot, size) ==>
              Stat(fs, trip.targetRoot).exists_ && Stat(fs, trip.targetRoot).size == size
  {
  }

  /** A folder, or what is gone, verifies only when its target is there: by the counters, if
      both totals are known and met; otherwise a folder by the second walk, when every file
      wanted of it, links followed, has a mirror of equal size. */
  lemma FolderVerdictIff(job: Job, trip: Trip, fs: Fs, root: Node, at: Path, ex: Excludes)
    requires WellFormed(root) && at == [] && !root.Regular?
    ensures Verdict(job.filesTotal, job.filesDone, job.bytesTotal, job.bytesDone, trip, fs, root, at, ex)
            <==> && (exists size: nat :: HasSize(fs, trip.targetRoot, size))
                 && ((job.filesTotal == Some(job.filesDone) && job.bytesTotal == Some(job.bytesDone))
                     || (root.Folder? && forall rel: Path, src: Source :: Wanted(Followed(root), rel, src, ex) ==>
                                           HasSize(fs, Mirror(trip, rel), |src.data|)))
  {
    TargetHasSize(trip, fs);
    FollowedWellFormed(root);
    SizedIff(trip, fs, Followed(root), at, ex);
  }

  /** Soundness of the re-walk: a yes that does not come from the counters means that
      every wanted file, also one behind links, has a mirror of equal size. */
  lemma RewalkIsSound(job: Job, trip: Trip, fs: Fs, root: Node, at: Path, ex: Excludes, rel: Path, src: Source)
    requires WellFormed(root) && root.Folder? && at == []
    requires Verdict(job.filesTotal, job.filesDone, job.bytesTotal, job.bytesDone, trip, fs, root, at, ex)
    requires job.filesTotal != Some(job.filesDone) || job.bytesTotal != Some(job.bytesDone)
    requires Wanted(root, rel, src, ex) || Wanted(Followed(root), rel, src, ex)
    ensures HasSize(fs, Mirror(trip, rel), |src.data|)
  {
    if Wanted(root, rel, src, ex) {
      AtFollowed(root, rel);
    }
    FolderVerdictIff(job, trip, fs, root, at, ex);
  }

  /** A piece of the walk is sized exactly when every wanted file has its mirror. */
  lemma SizedIff(trip: Trip, fs: Fs, root: Node, at: Path, ex: Excludes)
    requires WellFormed(root) && at == []
    ensures Sized(trip, fs, StepsAt(root, at, ex))
            <==> forall rel: Path, src: Source :: Wanted(root, rel, src, ex) ==>
              HasSize(fs, Mirror(trip, rel), |src.data|)
  {
    var steps := StepsAt(root, at, ex);
    if Sized(trip, fs, steps) {
      forall rel: Path, src: Source | Wanted(root, rel, src, ex) ensures HasSize(fs, Mirror(trip, rel), |src.data|) {
        assert at + rel == rel;
        WantedIsVisited(root, at, rel, src, ex);
        var i :| 0 <= i < |steps| && steps[i] == Copy(rel, src);
        SizedAt(trip, fs, steps, i);
        SameSizeIff(fs, Mirror(trip, rel), |src.data|);
      }
    } else {
      var i := Unsized(trip, fs, steps);
      VisitedIsWanted(root, at, ex, steps[i]);
      assert Wanted(root, steps[i].rel, steps[i].src, ex);
      SameSizeIff(fs, Mirror(trip, steps[i].rel), |steps[i].src.data|);
    }
  }

  lemma {:induction false} Unsized(trip: Trip, fs: Fs, steps: seq<Step>) returns (i: nat)
    requires !Sized(trip, fs, steps)
    ensures i < |steps| && steps[i].Copy? && !SameSize(fs, Mirror(trip, steps[i].rel), |steps[i].src.data|)
  {
    i := |steps| - 1;
    if Sized(trip, fs, steps[..i]) {
    } else {
      i := Unsized(trip, fs, steps[..i]);
    }
  }

  /** A file that the re-walk sees and the copy walk does not: its path goes through a
      link or ends in one. */
  ghost predicate BehindLink(root: Node, rel: Path, src: Source, ex: Excludes) {
    Wanted(Followed(root), rel, src, ex) && !Wanted(root, rel, src, ex)
  }

  /** After a copy walk that finished, the re-walk says yes if and only if the files
      behind links have mirrors of equal size too, although nothing ever copies them. */
  lemma RewalkAgreesIff(trip: Trip, fs: Fs, root: Node, at: Path, ex: Excludes)
    requires WellFormed(root) && at == [] && Sized(trip, fs, StepsAt(root, at, ex))
    ensures Sized(trip, fs, StepsAt(Followed(root), at, ex))
            <==> forall rel: Path, src: Source :: BehindLink(root, rel, src, ex) ==>
              HasSize(fs, Mirror(trip, rel), |src.data|)
  {
    FollowedWellFormed(root);
    SizedIff(trip, fs, root, at, ex);
    SizedIff(trip, fs, Followed(root), at, ex);
  }

  /** So a re-walk refuses the finished copy of a folder with one link to a file: the
      walk made the folder, and nothing in it. */
  lemma LinkToFileRefused(c: Codec, trip: Trip, w: World, root: Node, at: Path, ex: Excludes, name: string, src: Source,
                          luck: Luck)
    requires root == Folder([Entry(name, Symlink(Some(Regular(src))))]) && at == [] && !Skipped(name, ex)
    requires Happened(c, trip, w, StepsAt(root, at, ex), [luck], true) && Mirror(trip, [name]) !in w.fs
    ensures !Sized(trip, Walk(c, trip, w, StepsAt(root, at, ex), [luck]).fs, StepsAt(Followed(root), at, ex))
  {
    var es := root.entries;
    var child := Mirror(trip, [name]);
    LinkIsSkipped(es[0], at, ex);
    EntriesStepsNext(es, 0, at, ex);
    assert es[..0 + 1] == es;
    assert StepsAt(root, at, ex) == [Enter(at)];
    OneStepWalk(c, trip, w, Enter(at), luck);
    var after := Walk(c, trip, w, [Enter(at)], [luck]).fs;
    assert child !in after by {
      assert |child| > |Mirror(trip, at)|;
    }
    LinkIsSeen(root, ex, name, src);
    SizedIff(trip, after, Followed(root), at, ex);
  }

  lemma LinkIsSeen(root: Node, ex: Excludes, name: string, src: Source)
    requires root == Folder([Entry(name, Symlink(Some(Regular(src))))]) && !Skipped(name, ex)
    ensures WellFormed(Followed(root)) && Wanted(Followed(root), [name], src, ex)
  {
    var link := Symlink(Some(Regular(src)));
    var seen := [Entry(name, Regular(src))];
    assert Followed(Regular(src)) == Regular(src) && Followed(link) == Regular(src);
    assert AllFollowed(root.entries) == seen;
    assert Followed(root) == Folder(seen);
    FindHere(seen, 0);
    FolderChild(Followed(root), [], name);
    assert [] + [name] == [name];
  }

  lemma OneStepWalk(c: Codec, trip: Trip, w: World, s: Step, luck: Luck)
    ensures Walk(c, trip, w, [s], [luck]) == Apply(c, trip, w, s, luck)
  {
    var none: seq<Step>, noLuck: seq<Luck> := [s][..0], [luck][..0];
    assert Walk(c, trip, w, none, noLuck) == w;
  }

  /** Relay and check together: after a relay that finished on an unchanged folder the
      quick check says yes, also when the folder holds links; for a single file it says
      yes exactly when the file is not empty. */
  method RelayAndVerify(job: Job, progress: Progress, target: Target, trip: Trip, root: Node, at: Path, ex: Excludes,
                        chunkSize: nat)
    returns (relayed: bool, verified: Option<bool>)
    requires WellFormed(root) && at == [] && (root.Symlink? ==> root.leads == None) && trip.targetRoot != []
             && chunkSize > 0
    requires Fresh(job, progress)
    modifies job, progress, target
    ensures relayed ==> verified == Some(root.Regular? ==> root.src.data != [])
  {
    ghost var made, lucks;
    relayed, made, lucks := RelayTransfer(job, progress, target, trip, root, at, ex, chunkSize);
    verified := Some(false);
    if relayed {
      ghost var steps := StepsAt(root, at, ex);
      assert steps[..|lucks|] == steps;
      if root.Regular? {
        assert trip.targetRoot + at == trip.targetRoot;
        SingleFileThere(target.codec, trip, made, steps, lucks, at, root.src);
      } else {
        RootStays(target.codec, trip, made, root, at, ex, lucks);
      }
      verified := QuickVerify(job, trip, target.fs, root, at, ex);
    }
  }

  lemma SingleFileThere(c: Codec, trip: Trip, w: World, steps: seq<Step>, lucks: seq<Luck>, at: Path, src: Source)
    requires steps == [Copy(at, src)] && Happened(c, trip, w, steps, lucks, true)
    requires Mirror(trip, at) != []
    ensures var after := Walk(c, trip, w, steps, lucks).fs;
            Stat(after, Mirror(trip, at)).exists_ && Stat(after, Mirror(trip, at)).size == |src.data|
  {
    ScratchNamesApart(Mirror(trip, at), Mirror(trip, at));
    var k := |steps| - 1;
    assert Walk(c, trip, w, steps[..k], lucks[..k]) == w;
  }

  /** The target folder itself is none of the paths the walk may touch. */
  lemma RootStays(c: Codec, trip: Trip, w: World, root: Node, at: Path, ex: Excludes, lucks: seq<Luck>)
    requires WellFormed(root) && root.Folder? && at == [] && trip.targetRoot != [] && trip.targetRoot in w.fs
    requires |lucks| == |StepsAt(root, at, ex)|
    ensures var after := Walk(c, trip, w, StepsAt(root, at, ex), lucks).fs;
            trip.targetRoot in after && after[trip.targetRoot] == w.fs[trip.targetRoot]
  {
    var steps := StepsAt(root, at, ex);
    forall i | 0 <= i < |steps| ensures !Touched(trip, steps[i], trip.targetRoot) {
      if steps[i].Copy? {
        VisitedIsWanted(root, at, ex, steps[i]);
        assert steps[i].rel != [];
        MirrorScratch(trip, steps[i].rel);
        assert |Partial(steps[i].rel)| == |steps[i].rel| == |Meta(steps[i].rel)|;
      }
    }
    WalkFrame(c, trip, w, steps, lucks, trip.targetRoot);
  }
}
