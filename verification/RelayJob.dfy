/** The relay as the job runs it: the recursive directory walk and the entry point,
    proved against the step-by-step walk of RelayTree. */
module RelayJob {
  import opened Common
  import opened RelayFile
  import opened RelayCopy
  import opened SourceTree
  import opened RelayTree

  ghost function WorldOf(job: Job, progress: Progress, target: Target): World
    reads job, progress, target
  {
    World(target.fs, job.filesDone, job.filesSkipped, job.bytesDone, job.bytesSkipped, job.resumedBytes,
          progress.streamed)
  }

  lemma {:induction false} WholeHappened(c: Codec, trip: Trip, w: World, steps: seq<Step>, lucks: seq<Luck>)
    requires Happened(c, trip, w, steps, lucks, true)
    ensures Happened(c, trip, w, steps, lucks, false)
  {
    if |steps| > 0 {
      WholeHappened(c, trip, w, steps[..|steps| - 1], lucks[..|steps| - 1]);
    }
  }

  lemma OneStep(c: Codec, trip: Trip, w: World, s: Step, luck: Luck, whole: bool)
    requires StepPossible(c, trip, w.fs, s, luck) && (whole ==> StepDone(trip, w.fs, s, luck))
    ensures Walk(c, trip, w, [s], [luck]) == Apply(c, trip, w, s, luck)
    ensures Happened(c, trip, w, [s], [luck], whole)
  {
    var none: seq<Step>, noLuck: seq<Luck> := [s][..0], [luck][..0];
    assert Walk(c, trip, w, none, noLuck) == w;
    assert Happened(c, trip, w, none, noLuck, whole);
  }

  lemma {:induction false} EntriesPrefix(es: seq<Entry>, i: nat, at: Path, ex: Excludes)
    requires i < |es|
    ensures EntriesSteps(es[..i], at, ex) + EntrySteps(es[i], at, ex) <= EntriesSteps(es, at, ex)
    decreases |es|
  {
    if i == |es| - 1 {
      assert es[..i] == es[..|es| - 1];
    } else {
      var init := es[..|es| - 1];
      EntriesPrefix(init, i, at, ex);
      assert init[..i] == es[..i] && init[i] == es[i];
      assert EntriesSteps(es, at, ex) == EntriesSteps(init, at, ex) + EntrySteps(es[|es| - 1], at, ex);
    }
  }

  /** What happened is a prefix of the walk `all`, and the whole of it when `ok`. */
  ghost predicate Walked(c: Codec, trip: Trip, w: World, all: seq<Step>, lucks: seq<Luck>, ok: bool, after: World) {
    && |lucks| <= |all| && (ok ==> |lucks| == |all|)
    && Happened(c, trip, w, all[..|lucks|], lucks, ok)
    && after == Walk(c, trip, w, all[..|lucks|], lucks)
  }

  /** One more part of a walk: finished, it extends the head; cut short, it ends the walk. */
  lemma WalkedMore(c: Codec, trip: Trip, w: World, all: seq<Step>, head: seq<Step>, sub: seq<Step>,
                   lucks: seq<Luck>, inner: seq<Luck>, ok: bool, mid: World, after: World)
    requires head + sub <= all
    requires Walked(c, trip, w, head, lucks, true, mid) && Walked(c, trip, mid, sub, inner, ok, after)
    ensures ok ==> Walked(c, trip, w, head + sub, lucks + inner, true, after)
    ensures !ok ==> Walked(c, trip, w, all, lucks + inner, false, after)
  {
    assert head[..|lucks|] == head;
    if ok {
      assert sub[..|inner|] == sub && (head + sub)[..|lucks + inner|] == head + sub;
      WalkConcat(c, trip, w, head, lucks, sub, inner, true);
    } else {
      StoppedInside(c, trip, w, all, head, sub, lucks, inner);
    }
  }

  lemma WalkedOne(c: Codec, trip: Trip, w: World, s: Step, luck: Luck, ok: bool, after: World)
    requires StepPossible(c, trip, w.fs, s, luck) && (ok ==> StepDone(trip, w.fs, s, luck))
    requires after == Apply(c, trip, w, s, luck)
    ensures Walked(c, trip, w, [s], [luck], ok, after)
  {
    OneStep(c, trip, w, s, luck, ok);
    assert [s][..1] == [s];
  }

  lemma WalkedPart(c: Codec, trip: Trip, w: World, all: seq<Step>, part: seq<Step>, lucks: seq<Luck>, after: World)
    requires part <= all && Walked(c, trip, w, part, lucks, false, after)
    ensures Walked(c, trip, w, all, lucks, false, after)
  {
    assert all[..|lucks|] == part[..|lucks|];
  }

  lemma WalkedNothing(c: Codec, trip: Trip, w: World, all: seq<Step>, ok: bool)
    requires ok ==> |all| == 0
    ensures Walked(c, trip, w, all, [], ok, w)
  {
    var none: seq<Step> := all[..0];
    assert |none| == 0;
  }

  /** Stopped inside one part of a walk: what happened is a prefix of the whole walk. */
  lemma StoppedInside(c: Codec, trip: Trip, w: World, all: seq<Step>, steps: seq<Step>, sub: seq<Step>,
                      lucks: seq<Luck>, inner: seq<Luck>)
    requires steps + sub <= all && |inner| <= |sub| && Happened(c, trip, w, steps, lucks, true)
    requires Happened(c, trip, Walk(c, trip, w, steps, lucks), sub[..|inner|], inner, false)
    ensures var got := lucks + inner;
            && |got| <= |all| && Happened(c, trip, w, all[..|got|], got, false)
            && Walk(c, trip, w, all[..|got|], got) ==
                Walk(c, trip, Walk(c, trip, w, steps, lucks), sub[..|inner|], inner)
  {
    assert all[..|lucks + inner|] == steps + sub[..|inner|];
    WholeHappened(c, trip, w, steps, lucks);
    WalkConcat(c, trip, w, steps, lucks, sub[..|inner|], inner, false);
  }

  lemma FolderParts(es: seq<Entry>, i: nat, at: Path, ex: Excludes)
    requires i < |es|
    ensures EntriesSteps(es[..i], at, ex) + EntrySteps(es[i], at, ex) <= EntriesSteps(es, at, ex)
    ensures EntriesSteps(es[..i + 1], at, ex) == EntriesSteps(es[..i], at, ex) + EntrySteps(es[i], at, ex)
  {
    EntriesPrefix(es, i, at, ex);
    EntriesStepsNext(es, i, at, ex);
  }

  /** One regular file of the walk: skipped when it is up to date, else copied. */
  method RelayChild(job: Job, progress: Progress, target: Target, trip: Trip, rel: Path, src: Source, chunkSize: nat)
    returns (ok: bool, luck: Luck)
    requires Mirror(trip, rel) != [] && chunkSize > 0
    modifies job, progress, target
    ensures job.filesTotal == old(job.filesTotal) && job.bytesTotal == old(job.bytesTotal)
    ensures StepPossible(target.codec, trip, old(target.fs), Copy(rel, src), luck)
    ensures ok ==> StepDone(trip, old(target.fs), Copy(rel, src), luck)
    ensures WorldOf(job, progress, target)
            == Apply(target.codec, trip, old(WorldOf(job, progress, target)), Copy(rel, src), luck)
    ensures var m, fs := Mirror(trip, rel), old(target.fs);
            if m in fs && fs[m].File? && |fs[m].data| == |src.data| && fs[m].mtime == src.mtime > 0 then
              && ok && target.fs == fs && progress.streamed == old(progress.streamed)
              && job.filesSkipped == old(job.filesSkipped) + 1
            else job.filesSkipped == old(job.filesSkipped)
  {
    UpToDateIff(target.fs, Mirror(trip, rel), src);
    var there := Lstat(target.fs, Mirror(trip, rel));
    if UpToDate(src, there) {
      job.filesDone, job.filesSkipped := job.filesDone + 1, job.filesSkipped + 1;
      job.bytesDone, job.bytesSkipped := job.bytesDone + |src.data|, job.bytesSkipped + |src.data|;
      return true, Luck(true, 0, Finished, true, true);
    }
    luck := RelayOne(job, progress, target, TransferOf(trip, rel), src, chunkSize);
    ok := luck.stop.Finished?;
    if ok {
      job.filesDone := job.filesDone + 1;
    }
  }

  /** The recursive copy walk over the folder at `dir`. */
  method RelayDir(job: Job, progress: Progress, target: Target, trip: Trip, root: Node, dir: Path, ex: Excludes,
                  chunkSize: nat)
    returns (ok: bool, ghost lucks: seq<Luck>)
    requires WellFormed(root) && IsFolder(root, dir) && trip.targetRoot != [] && chunkSize > 0
    modifies job, progress, target
    ensures job.filesTotal == old(job.filesTotal) && job.bytesTotal == old(job.bytesTotal)
    ensures Walked(target.codec, trip, old(WorldOf(job, progress, target)), StepsAt(root, dir, ex), lucks, ok,
                   WorldOf(job, progress, target))
    decreases At(root, dir).value, 2
  {
    ghost var c, w0 := target.codec, WorldOf(job, progress, target);
    ghost var all := StepsAt(root, dir, ex);
    ghost var luck0;
    ok, luck0 := EnterFolder(job, progress, target, trip, dir);
    FolderStart(At(root, dir).value.entries, dir, ex);
    ghost var mid := WorldOf(job, progress, target);
    WalkedOne(c, trip, w0, Enter(dir), luck0, ok, mid);
    if !ok {
      WalkedPart(c, trip, w0, all, [Enter(dir)], [luck0], mid);
      return false, [luck0];
    }
    ok, lucks := RelayEntries(job, progress, target, trip, root, dir, ex, chunkSize);
    FolderWhole(At(root, dir).value.entries, dir, ex);
    WalkedMore(c, trip, w0, all, [Enter(dir)], EntriesSteps(At(root, dir).value.entries, dir, ex), [luck0], lucks,
               ok, mid, WorldOf(job, progress, target));
    lucks := [luck0] + lucks;
  }

  /** The loop over a folder's names. */
  method RelayEntries(job: Job, progress: Progress, target: Target, trip: Trip, root: Node, dir: Path, ex: Excludes,
                      chunkSize: nat)
    returns (ok: bool, ghost lucks: seq<Luck>)
    requires WellFormed(root) && IsFolder(root, dir) && trip.targetRoot != [] && chunkSize > 0
    modifies job, progress, target
    ensures job.filesTotal == old(job.filesTotal) && job.bytesTotal == old(job.bytesTotal)
    ensures Walked(target.codec, trip, old(WorldOf(job, progress, target)),
                   EntriesSteps(At(root, dir).value.entries, dir, ex), lucks, ok, WorldOf(job, progress, target))
    decreases At(root, dir).value, 1
  {
    ghost var c, w0 := target.codec, WorldOf(job, progress, target);
    var es := At(root, dir).value.entries;
    ghost var all := EntriesSteps(es, dir, ex);
    ghost var head := EntriesSteps(es[..0], dir, ex);
    ok, lucks := true, [];
    WalkedNothing(c, trip, w0, head, true);
    for i := 0 to |es|
      invariant ok && head == EntriesSteps(es[..i], dir, ex)
      invariant Walked(c, trip, w0, head, lucks, true, WorldOf(job, progress, target))
      invariant job.filesTotal == old(job.filesTotal) && job.bytesTotal == old(job.bytesTotal)
    {
      ghost var sub, mid := EntrySteps(es[i], dir, ex), WorldOf(job, progress, target);
      FolderParts(es, i, dir, ex);
      ghost var inner;
      ok, inner := RelayEntry(job, progress, target, trip, root, dir, i, ex, chunkSize);
      WalkedMore(c, trip, w0, all, head, sub, lucks, inner, ok, mid, WorldOf(job, progress, target));
      head, lucks := head + sub, lucks + inner;
      if !ok {
        return;
      }
    }
    assert es[..|es|] == es;
  }

  lemma FolderStart(es: seq<Entry>, at: Path, ex: Excludes)
    ensures [Enter(at)] <= Steps(Folder(es), at, ex)
  {
  }

  lemma FolderWhole(es: seq<Entry>, at: Path, ex: Excludes)
    ensures Steps(Folder(es), at, ex) == [Enter(at)] + EntriesSteps(es, at, ex)
  {
  }

  method EnterFolder(job: Job, progress: Progress, target: Target, trip: Trip, dir: Path)
    returns (ok: bool, ghost luck: Luck)
    modifies target
    ensures StepPossible(target.codec, trip, old(target.fs), Enter(dir), luck)
    ensures ok ==> luck.stop.Finished?
    ensures WorldOf(job, progress, target)
            == Apply(target.codec, trip, old(WorldOf(job, progress, target)), Enter(dir), luck)
  {
    var p := Mirror(trip, dir);
    var levels := target.Mkdir(p);
    ok := levels == |p|;
    assert p[..|p|] == p;
    luck := Luck(true, 0, if ok then Finished else Early(levels), true, true);
  }

  /** One turn of the loop over a folder's names. */
  method RelayEntry(job: Job, progress: Progress, target: Target, trip: Trip, root: Node, dir: Path, i: nat,
                    ex: Excludes, chunkSize: nat)
    returns (ok: bool, ghost lucks: seq<Luck>)
    requires WellFormed(root) && IsFolder(root, dir) && i < |At(root, dir).value.entries|
    requires trip.targetRoot != [] && chunkSize > 0
    modifies job, progress, target
    ensures job.filesTotal == old(job.filesTotal) && job.bytesTotal == old(job.bytesTotal)
    ensures Walked(target.codec, trip, old(WorldOf(job, progress, target)),
                   EntrySteps(At(root, dir).value.entries[i], dir, ex), lucks, ok, WorldOf(job, progress, target))
    decreases At(root, dir).value, 0
  {
    var entry := At(root, dir).value.entries[i];
    ghost var c, w, steps := target.codec, WorldOf(job, progress, target), EntrySteps(entry, dir, ex);
    ChildAt(root, dir, i);
    ok, lucks := true, [];
    if Skipped(entry.name, ex) {
      WalkedNothing(c, trip, w, steps, true);
      return;
    }
    var cancelled := *;
    if cancelled {
      WalkedNothing(c, trip, w, steps, false);
      return false, [];
    }
    var child := dir + [entry.name];
    match At(root, child) {
      case Some(Regular(src)) =>
        var done, luck := RelayChild(job, progress, target, trip, child, src, chunkSize);
        WalkedOne(c, trip, w, Copy(child, src), luck, done, WorldOf(job, progress, target));
        ok, lucks := done, [luck];
      case Some(Folder(_)) =>
        ok, lucks := RelayDir(job, progress, target, trip, root, child, ex, chunkSize);
      case Some(Symlink(_)) =>
        LinkIsSkipped(entry, dir, ex);
        WalkedNothing(c, trip, w, steps, true);
    }
  }

  ghost predicate Fresh(job: Job, progress: Progress)
    reads job, progress
  {
    job.filesDone == job.filesSkipped == job.bytesDone == job.bytesSkipped == job.resumedBytes == progress.streamed == 0
  }

  ghost predicate Unused(w: World) {
    w.filesDone == w.filesSkipped == w.bytesDone == w.bytesSkipped == w.resumed == w.streamed == 0
  }

  /** The counters after any walk of a fresh job, whole or cut short. */
  lemma WalkedCounts(c: Codec, trip: Trip, w: World, all: seq<Step>, lucks: seq<Luck>, ok: bool, after: World)
    requires Walked(c, trip, w, all, lucks, ok, after) && Unused(w)
    ensures after.bytesDone == after.resumed + after.bytesSkipped + after.streamed
    ensures ok ==> after.filesDone == Files(all) && after.bytesDone == Volume(all)
  {
    WalkCounts(c, trip, w, all[..|lucks|], lucks, ok);
    assert |lucks| == |all| ==> all[..|lucks|] == all;
  }

  /** A single-file job. */
  method RelaySingle(job: Job, progress: Progress, target: Target, trip: Trip, root: Node, at: Path, ex: Excludes,
                     chunkSize: nat)
    returns (ok: bool, ghost lucks: seq<Luck>)
    requires root.Regular? && at == [] && trip.targetRoot != [] && chunkSize > 0 && Fresh(job, progress)
    modifies job, progress, target
    ensures Walked(target.codec, trip, old(WorldOf(job, progress, target)), StepsAt(root, at, ex), lucks, ok,
                   WorldOf(job, progress, target))
    ensures ok ==> job.filesTotal == Some(Files(StepsAt(root, at, ex)))
                   && job.bytesTotal == Some(Volume(StepsAt(root, at, ex)))
  {
    ghost var w := WorldOf(job, progress, target);
    assert trip.targetRoot + at == trip.targetRoot;
    job.filesTotal, job.bytesTotal := Some(1), Some(|root.src.data|);
    var luck;
    ok, luck := RelayChild(job, progress, target, trip, at, root.src, chunkSize);
    WalkedOne(target.codec, trip, w, Copy(at, root.src), luck, ok, WorldOf(job, progress, target));
    TotalsOne(Copy(at, root.src));
    lucks := [luck];
  }

  /** The job's entry point. `root` is what stat() shows of the source path: nothing
      (a dangling link), a single file, or a folder that is made, counted and then walked.
      For a folder the totals come from the counting walk, and everything the copy walk did
      is a prefix of the recursive walk, all of it when `ok`. */
  method RelayTransfer(job: Job, progress: Progress, target: Target, trip: Trip, root: Node, at: Path, ex: Excludes,
                       chunkSize: nat)
    returns (ok: bool, ghost made: World, ghost lucks: seq<Luck>)
    requires WellFormed(root) && at == [] && (root.Symlink? ==> root.leads == None) && trip.targetRoot != []
             && chunkSize > 0
    requires Fresh(job, progress)
    modifies job, progress, target
    ensures Walked(target.codec, trip, made, StepsAt(root, at, ex), lucks, ok, WorldOf(job, progress, target))
    ensures ok ==> job.filesTotal == Some(job.filesDone) && job.bytesTotal == Some(job.bytesDone)
    ensures root.Symlink? ==> !ok && target.fs == old(target.fs)
    ensures !root.Folder? ==> made == old(WorldOf(job, progress, target))
    ensures root.Folder? ==> Made(trip, old(WorldOf(job, progress, target)), made, ok)
    ensures job.bytesDone == job.resumedBytes + job.bytesSkipped + progress.streamed
  {
    ghost var c, steps, w0 := target.codec, StepsAt(root, at, ex), WorldOf(job, progress, target);
    if root.Symlink? {
      made, ok, lucks := w0, false, [];
      WalkedNothing(c, trip, made, steps, false);
    } else if root.Regular? {
      made := w0;
      ok, lucks := RelaySingle(job, progress, target, trip, root, at, ex, chunkSize);
    } else {
      ok, lucks := false, [];
      var levels := target.Mkdir(trip.targetRoot);
      made := WorldOf(job, progress, target);
      assert levels == |trip.targetRoot| ==> trip.targetRoot[..levels] == trip.targetRoot;
      WalkedNothing(c, trip, made, steps, false);
      if levels == |trip.targetRoot| {
        var totals := CountTree(root, at, ex);
        if totals.Some? {
          job.filesTotal, job.bytesTotal := Some(totals.value.0), Some(totals.value.1);
          ok, lucks := RelayDir(job, progress, target, trip, root, at, ex, chunkSize);
        }
      }
    }
    WalkedCounts(c, trip, made, steps, lucks, ok, WorldOf(job, progress, target));
  }

  /** The target root was made, or some of the folders above it. */
  ghost predicate Made(trip: Trip, before: World, after: World, whole: bool) {
    exists levels: nat :: levels <= |trip.targetRoot| && (whole ==> levels == |trip.targetRoot|)
      && (whole ==> trip.targetRoot in after.fs && after.fs[trip.targetRoot] != Link(None))
      && after == before.(fs := MakeDirs(before.fs, trip.targetRoot[..levels]))
  }
}
