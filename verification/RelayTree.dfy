/** The directory relay: the steps of the source walk applied one after the other
    to the target, what that leaves there, and what the counters say about it. */
module RelayTree {
  import opened Common
  import opened RelayFile
  import opened SourceTree

  /** One job: what is copied from where to where. */
  datatype Trip = Trip(artifactId: string, sourceRoot: Path, targetRoot: Path)

  function Mirror(trip: Trip, rel: Path): Path {
    trip.targetRoot + rel
  }

  function TransferOf(trip: Trip, rel: Path): Transfer {
    Transfer(trip.artifactId, trip.sourceRoot + rel, Mirror(trip, rel))
  }

  /** The target file already carries this source file; mtime 0 means unknown. */
  predicate UpToDate(src: Source, st: FileStat) {
    st.exists_ && !st.isDir && !st.isSymlink && st.size == |src.data| && src.mtime > 0 && st.mtime == src.mtime
  }

  /** On the target's entry: a file of the source's size and known mtime. A link is never
      up to date, whatever it leads to. */
  lemma UpToDateIff(fs: Fs, p: Path, src: Source)
    ensures UpToDate(src, Lstat(fs, p))
            <==> p in fs && fs[p].File? && |fs[p].data| == |src.data| && fs[p].mtime == src.mtime > 0
  {
  }

  /** The target and the job's counters. */
  datatype World = World(fs: Fs, filesDone: nat, filesSkipped: nat,
                         bytesDone: nat, bytesSkipped: nat, resumed: nat, streamed: nat)

  ghost predicate StepPossible(c: Codec, trip: Trip, fs: Fs, s: Step, luck: Luck) {
    match s
    case Enter(rel) => luck.stop.Finished? || (luck.stop.Early? && luck.stop.levels <= |Mirror(trip, rel)|)
    case Copy(rel, src) =>
      UpToDate(src, Lstat(fs, Mirror(trip, rel))) || Possible(c, fs, TransferOf(trip, rel), src, luck)
  }

  ghost predicate StepDone(trip: Trip, fs: Fs, s: Step, luck: Luck) {
    luck.stop.Finished? || (s.Copy? && UpToDate(s.src, Lstat(fs, Mirror(trip, s.rel))))
  }

  ghost function Apply(c: Codec, trip: Trip, w: World, s: Step, luck: Luck): World {
    if !StepPossible(c, trip, w.fs, s, luck) then w
    else match s
      case Enter(rel) =>
        var p := Mirror(trip, rel);
        w.(fs := MakeDirs(w.fs, if luck.stop.Early? then p[..luck.stop.levels] else p))
      case Copy(rel, src) =>
        if UpToDate(src, Lstat(w.fs, Mirror(trip, rel))) then
          w.(filesDone := w.filesDone + 1, filesSkipped := w.filesSkipped + 1,
             bytesDone := w.bytesDone + |src.data|, bytesSkipped := w.bytesSkipped + |src.data|)
        else
          var t := TransferOf(trip, rel);
          var kept, sent := ResumedBytes(c, w.fs, t, src, luck), StreamedBytes(c, w.fs, t, src, luck);
          w.(fs := Attempt(c, w.fs, t, src, luck),
             filesDone := w.filesDone + (if luck.stop.Finished? then 1 else 0),
             bytesDone := w.bytesDone + kept + sent,
             resumed := w.resumed + kept,
             streamed := w.streamed + sent)
  }

  ghost function Walk(c: Codec, trip: Trip, w: World, steps: seq<Step>, lucks: seq<Luck>): World
    requires |steps| == |lucks|
  {
    if |steps| == 0 then w
    else
      var k := |steps| - 1;
      Apply(c, trip, Walk(c, trip, w, steps[..k], lucks[..k]), steps[k], lucks[k])
  }

  /** The steps really happened in this order; with `whole`, none was cut short. */
  ghost predicate Happened(c: Codec, trip: Trip, w: World, steps: seq<Step>, lucks: seq<Luck>, whole: bool) {
    && |steps| == |lucks|
    && (|steps| > 0 ==>
          var k := |steps| - 1;
          && Happened(c, trip, w, steps[..k], lucks[..k], whole)
          && var mid := Walk(c, trip, w, steps[..k], lucks[..k]);
          && StepPossible(c, trip, mid.fs, steps[k], lucks[k])
          && (whole ==> StepDone(trip, mid.fs, steps[k], lucks[k])))
  }

  lemma {:induction false} WalkConcat(c: Codec, trip: Trip, w: World, a: seq<Step>, la: seq<Luck>,
                                      b: seq<Step>, lb: seq<Luck>, whole: bool)
    requires |a| == |la| && |b| == |lb|
    ensures Walk(c, trip, w, a + b, la + lb) == Walk(c, trip, Walk(c, trip, w, a, la), b, lb)
    ensures Happened(c, trip, w, a, la, whole) && Happened(c, trip, Walk(c, trip, w, a, la), b, lb, whole)
            ==> Happened(c, trip, w, a + b, la + lb, whole)
  {
    if |b| == 0 {
      assert a + b == a && la + lb == la;
    } else {
      var k := |b| - 1;
      assert (a + b)[..|a + b| - 1] == a + b[..k];
      assert (la + lb)[..|la + lb| - 1] == la + lb[..k];
      WalkConcat(c, trip, w, a, la, b[..k], lb[..k], whole);
    }
  }

  // ----- frame -----------------------------------------------------------------------

  /** An entry that is there stays as it is; what is new there is a directory. */
  ghost predicate Kept(before: Fs, after: Fs, q: Path) {
    && (q in before ==> q in after && after[q] == before[q])
    && (q in after && q !in before ==> after[q] == NEW_DIRECTORY)
  }

  /** `q` is the mirror of a copied file or one of its scratch names. */
  ghost predicate Touched(trip: Trip, s: Step, q: Path) {
    s.Copy? && Mirror(trip, s.rel) != []
    && (q == Mirror(trip, s.rel) || q == Partial(Mirror(trip, s.rel)) || q == Meta(Mirror(trip, s.rel)))
  }

  lemma ApplyFrame(c: Codec, trip: Trip, w: World, s: Step, luck: Luck, q: Path)
    requires !Touched(trip, s, q)
    ensures Kept(w.fs, Apply(c, trip, w, s, luck).fs, q)
  {
    if StepPossible(c, trip, w.fs, s, luck) && s.Copy? && !UpToDate(s.src, Lstat(w.fs, Mirror(trip, s.rel))) {
      AttemptFrame(c, w.fs, TransferOf(trip, s.rel), s.src, luck, q);
    }
  }

  /** One step changes no path but its own three. */
  ghost predicate OnlyTouches(trip: Trip, before: Fs, after: Fs, s: Step) {
    forall q: Path :: !Touched(trip, s, q) ==> Kept(before, after, q)
  }

  lemma StepFrame(c: Codec, trip: Trip, w: World, s: Step, luck: Luck)
    ensures OnlyTouches(trip, w.fs, Apply(c, trip, w, s, luck).fs, s)
  {
    forall q: Path | !Touched(trip, s, q) ensures Kept(w.fs, Apply(c, trip, w, s, luck).fs, q) {
      ApplyFrame(c, trip, w, s, luck, q);
    }
  }

  /** Whatever the walk does, finished or not, every path that is neither a mirror
      nor a scratch name of one is unchanged. */
  lemma {:induction false} WalkFrame(c: Codec, trip: Trip, w: World, steps: seq<Step>, lucks: seq<Luck>, q: Path)
    requires |steps| == |lucks|
    requires forall i :: 0 <= i < |steps| ==> !Touched(trip, steps[i], q)
    ensures Kept(w.fs, Walk(c, trip, w, steps, lucks).fs, q)
  {
    if |steps| > 0 {
      var k := |steps| - 1;
      WalkFrame(c, trip, w, steps[..k], lucks[..k], q);
      ApplyFrame(c, trip, Walk(c, trip, w, steps[..k], lucks[..k]), steps[k], lucks[k], q);
    }
  }

  // ----- contents --------------------------------------------------------------------

  /** No place is visited twice, and no source file is named like the scratch file of
      another one. */
  ghost predicate Separate(trip: Trip, steps: seq<Step>) {
    && (forall i, j :: 0 <= i < j < |steps| && steps[i].Copy? && steps[j].Copy? ==>
          Mirror(trip, steps[i].rel) != Mirror(trip, steps[j].rel))
    && (forall i :: 0 <= i < |steps| && steps[i].Copy? ==> Mirror(trip, steps[i].rel) != [])
    && (forall i, j :: 0 <= i < |steps| && 0 <= j < |steps| && steps[i].Copy? && steps[j].Copy? ==>
          && Mirror(trip, steps[j].rel) != Partial(Mirror(trip, steps[i].rel))
          && Mirror(trip, steps[j].rel) != Meta(Mirror(trip, steps[i].rel)))
  }

  /** A different file's step touches none of a file's three paths. */
  lemma OthersUntouched(trip: Trip, steps: seq<Step>, i: nat, j: nat)
    requires Separate(trip, steps) && i < |steps| && j < |steps| && i != j && steps[i].Copy?
    ensures var m := Mirror(trip, steps[i].rel);
            !Touched(trip, steps[j], m) && !Touched(trip, steps[j], Partial(m)) && !Touched(trip, steps[j], Meta(m))
  {
    if steps[j].Copy? {
      ScratchNamesApart(Mirror(trip, steps[i].rel), Mirror(trip, steps[j].rel));
      ScratchNamesApart(Mirror(trip, steps[j].rel), Mirror(trip, steps[i].rel));
    }
  }

  /** One file's step keeps the three paths of every other file. */
  lemma OthersKept(trip: Trip, before: Fs, after: Fs, steps: seq<Step>, k: nat, i: nat)
    requires Separate(trip, steps) && i < |steps| && k < |steps| && i != k && steps[i].Copy?
    requires OnlyTouches(trip, before, after, steps[k])
    ensures var m := Mirror(trip, steps[i].rel);
            Kept(before, after, m) && Kept(before, after, Partial(m)) && Kept(before, after, Meta(m))
  {
    OthersUntouched(trip, steps, i, k);
  }

  lemma KeptSafe(c: Codec, truth: Truth, before: Fs, after: Fs, m: Path)
    requires m != [] && Kept(before, after, Partial(m)) && Kept(before, after, Meta(m))
    ensures Safe(c, truth, before, m) <==> Safe(c, truth, after, m)
  {
  }

  lemma CopySettles(c: Codec, trip: Trip, mid: World, s: Step, luck: Luck)
    requires s.Copy? && Mirror(trip, s.rel) != [] && StepPossible(c, trip, mid.fs, s, luck)
    requires StepDone(trip, mid.fs, s, luck) && s.src.mtime > 0 && luck.mtimeSet
    ensures Dates(Apply(c, trip, mid, s, luck).fs, Mirror(trip, s.rel), s.src)
  {
    ScratchNamesApart(Mirror(trip, s.rel), Mirror(trip, s.rel));
  }

  /** What is known of the target before the walk: sidecars tell the truth, and a
      file whose size and mtime agree with the source has its content. */
  ghost predicate Trusted(c: Codec, truth: Truth, trip: Trip, fs: Fs, s: Step) {
    s.Copy? && Mirror(trip, s.rel) != [] ==>
      && Safe(c, truth, fs, Mirror(trip, s.rel))
      && Truthful(truth, TransferOf(trip, s.rel), s.src)
      && var m := Mirror(trip, s.rel);
         (m in fs && fs[m].File? && |fs[m].data| == |s.src.data| && fs[m].mtime == s.src.mtime > 0 ==>
            fs[m].data == s.src.data)
  }

  /** What the k-th step finds at its own paths is what was there before the walk. */
  lemma TrustedLater(c: Codec, truth: Truth, trip: Trip, w: World, steps: seq<Step>, lucks: seq<Luck>, k: nat)
    requires Separate(trip, steps) && |lucks| == |steps| && k < |steps|
    requires Trusted(c, truth, trip, w.fs, steps[k])
    ensures Trusted(c, truth, trip, Walk(c, trip, w, steps[..k], lucks[..k]).fs, steps[k])
  {
    if steps[k].Copy? {
      var m := Mirror(trip, steps[k].rel);
      forall i | 0 <= i < k
        ensures !Touched(trip, steps[i], m) && !Touched(trip, steps[i], Partial(m)) && !Touched(trip, steps[i], Meta(m))
      {
        OthersUntouched(trip, steps, k, i);
      }
      WalkFrame(c, trip, w, steps[..k], lucks[..k], m);
      WalkFrame(c, trip, w, steps[..k], lucks[..k], Partial(m));
      WalkFrame(c, trip, w, steps[..k], lucks[..k], Meta(m));
    }
  }

  ghost predicate AllMirrored(trip: Trip, fs: Fs, steps: seq<Step>) {
    forall i :: 0 <= i < |steps| && steps[i].Copy? ==>
      Content(fs, Mirror(trip, steps[i].rel)) == Some(steps[i].src.data)
  }

  lemma StepMirrors(trip: Trip, before: Fs, after: Fs, steps: seq<Step>)
    requires steps != [] && Separate(trip, steps) && AllMirrored(trip, before, steps[..|steps| - 1])
    requires var s := steps[|steps| - 1];
             && OnlyTouches(trip, before, after, s)
             && (s.Copy? ==> Content(after, Mirror(trip, s.rel)) == Some(s.src.data))
    ensures AllMirrored(trip, after, steps)
  {
    var k := |steps| - 1;
    forall i | 0 <= i < k && steps[i].Copy?
      ensures Content(after, Mirror(trip, steps[i].rel)) == Some(steps[i].src.data)
    {
      assert steps[..k][i] == steps[i];
      OthersKept(trip, before, after, steps, k, i);
    }
  }

  lemma CopyMirrors(c: Codec, truth: Truth, trip: Trip, mid: World, s: Step, luck: Luck)
    requires s.Copy? && Mirror(trip, s.rel) != [] && Trusted(c, truth, trip, mid.fs, s)
    requires StepPossible(c, trip, mid.fs, s, luck) && StepDone(trip, mid.fs, s, luck)
    ensures Content(Apply(c, trip, mid, s, luck).fs, Mirror(trip, s.rel)) == Some(s.src.data)
  {
    if !UpToDate(s.src, Lstat(mid.fs, Mirror(trip, s.rel))) {
      AttemptDelivers(c, truth, mid.fs, TransferOf(trip, s.rel), s.src, luck);
    }
  }

  /** A walk that finishes leaves every file it visited mirrored with equal content. */
  lemma {:induction false} WalkMirrors(c: Codec, truth: Truth, trip: Trip, w: World,
                                       steps: seq<Step>, lucks: seq<Luck>)
    requires c.Valid() && Separate(trip, steps) && Happened(c, trip, w, steps, lucks, true)
    requires forall i :: 0 <= i < |steps| ==> Trusted(c, truth, trip, w.fs, steps[i])
    ensures AllMirrored(trip, Walk(c, trip, w, steps, lucks).fs, steps)
  {
    if |steps| > 0 {
      var k := |steps| - 1;
      WalkMirrors(c, truth, trip, w, steps[..k], lucks[..k]);
      TrustedLater(c, truth, trip, w, steps, lucks, k);
      LastMirrors(c, truth, trip, Walk(c, trip, w, steps[..k], lucks[..k]), steps, lucks[k]);
    }
  }

  /** The last step of a walk, which finished, adds its own file. */
  lemma LastMirrors(c: Codec, truth: Truth, trip: Trip, mid: World, steps: seq<Step>, luck: Luck)
    requires steps != [] && Separate(trip, steps) && AllMirrored(trip, mid.fs, steps[..|steps| - 1])
    requires var s := steps[|steps| - 1];
             && Trusted(c, truth, trip, mid.fs, s)
             && StepPossible(c, trip, mid.fs, s, luck) && StepDone(trip, mid.fs, s, luck)
    ensures AllMirrored(trip, Apply(c, trip, mid, steps[|steps| - 1], luck).fs, steps)
  {
    var s := steps[|steps| - 1];
    StepFrame(c, trip, mid, s, luck);
    if s.Copy? {
      CopyMirrors(c, truth, trip, mid, s, luck);
    }
    StepMirrors(trip, mid.fs, Apply(c, trip, mid, s, luck).fs, steps);
  }

  ghost predicate AllSafe(c: Codec, truth: Truth, trip: Trip, fs: Fs, steps: seq<Step>) {
    forall i :: 0 <= i < |steps| && steps[i].Copy? && Mirror(trip, steps[i].rel) != [] ==>
      Safe(c, truth, fs, Mirror(trip, steps[i].rel))
  }

  /** A step changes the safety of its own file only. */
  lemma StepSafe(c: Codec, truth: Truth, trip: Trip, before: Fs, after: Fs, steps: seq<Step>)
    requires steps != [] && Separate(trip, steps) && OnlyTouches(trip, before, after, steps[|steps| - 1])
    ensures var s := steps[|steps| - 1];
            AllSafe(c, truth, trip, after, steps)
            <==> AllSafe(c, truth, trip, before, steps[..|steps| - 1])
                 && (s.Copy? ==> Mirror(trip, s.rel) != [] && Safe(c, truth, after, Mirror(trip, s.rel)))
  {
    var k := |steps| - 1;
    forall i | 0 <= i < k && steps[i].Copy?
      ensures steps[..k][i] == steps[i] && Mirror(trip, steps[i].rel) != []
      ensures Safe(c, truth, after, Mirror(trip, steps[i].rel)) <==> Safe(c, truth, before, Mirror(trip, steps[i].rel))
    {
      OthersKept(trip, before, after, steps, k, i);
      KeptSafe(c, truth, before, after, Mirror(trip, steps[i].rel));
    }
  }

  /** The file is copied, and its attempt ends in the hazard of RelayFile. */
  ghost predicate StepExposed(c: Codec, trip: Trip, fs: Fs, s: Step, luck: Luck) {
    && s.Copy? && Mirror(trip, s.rel) != [] && !UpToDate(s.src, Lstat(fs, Mirror(trip, s.rel)))
    && Exposed(c, fs, TransferOf(trip, s.rel), s.src, luck)
  }

  lemma CopySafeIff(c: Codec, truth: Truth, trip: Trip, mid: World, s: Step, luck: Luck)
    requires c.Valid() && s.Copy? && Mirror(trip, s.rel) != [] && Trusted(c, truth, trip, mid.fs, s)
    requires StepPossible(c, trip, mid.fs, s, luck)
    ensures Safe(c, truth, Apply(c, trip, mid, s, luck).fs, Mirror(trip, s.rel))
            <==> !StepExposed(c, trip, mid.fs, s, luck)
  {
    if !UpToDate(s.src, Lstat(mid.fs, Mirror(trip, s.rel))) {
      AttemptSafeIff(c, truth, mid.fs, TransferOf(trip, s.rel), s.src, luck);
    }
  }

  ghost predicate ExposedAt(c: Codec, trip: Trip, w: World, steps: seq<Step>, lucks: seq<Luck>, i: nat)
    requires |steps| == |lucks| && i < |steps|
  {
    StepExposed(c, trip, Walk(c, trip, w, steps[..i], lucks[..i]).fs, steps[i], lucks[i])
  }

  ghost predicate NoneExposed(c: Codec, trip: Trip, w: World, steps: seq<Step>, lucks: seq<Luck>)
    requires |steps| == |lucks|
  {
    forall i :: 0 <= i < |steps| ==> !ExposedAt(c, trip, w, steps, lucks, i)
  }

  lemma NoneExposedMore(c: Codec, trip: Trip, w: World, steps: seq<Step>, lucks: seq<Luck>, k: nat)
    requires |steps| == |lucks| == k + 1
    ensures NoneExposed(c, trip, w, steps, lucks)
            <==> NoneExposed(c, trip, w, steps[..k], lucks[..k]) && !ExposedAt(c, trip, w, steps, lucks, k)
  {
    forall i | 0 <= i < k
      ensures ExposedAt(c, trip, w, steps[..k], lucks[..k], i) == ExposedAt(c, trip, w, steps, lucks, i)
    {
      assert steps[..k][..i] == steps[..i] && lucks[..k][..i] == lucks[..i];
    }
  }

  lemma LastStepSafe(c: Codec, truth: Truth, trip: Trip, w: World, steps: seq<Step>, lucks: seq<Luck>, k: nat,
                     mid: World)
    requires c.Valid() && Separate(trip, steps) && Happened(c, trip, w, steps, lucks, false) && |steps| == k + 1
    requires Trusted(c, truth, trip, w.fs, steps[k]) && mid == Walk(c, trip, w, steps[..k], lucks[..k])
    ensures AllSafe(c, truth, trip, Walk(c, trip, w, steps, lucks).fs, steps)
            <==> AllSafe(c, truth, trip, mid.fs, steps[..k]) && !StepExposed(c, trip, mid.fs, steps[k], lucks[k])
  {
    TrustedLater(c, truth, trip, w, steps, lucks, k);
    StepFrame(c, trip, mid, steps[k], lucks[k]);
    StepSafe(c, truth, trip, mid.fs, Walk(c, trip, w, steps, lucks).fs, steps);
    if steps[k].Copy? {
      CopySafeIff(c, truth, trip, mid, steps[k], lucks[k]);
    }
  }

  /** A walk, finished or cut short anywhere, leaves every scratch file resumable if and
      only if no file's attempt ended in the hazard of RelayFile: then the next job may
      trust them all. */
  lemma {:induction false} WalkSafeIff(c: Codec, truth: Truth, trip: Trip, w: World,
                                       steps: seq<Step>, lucks: seq<Luck>)
    requires c.Valid() && Separate(trip, steps) && Happened(c, trip, w, steps, lucks, false)
    requires forall i :: 0 <= i < |steps| ==> Trusted(c, truth, trip, w.fs, steps[i])
    ensures AllSafe(c, truth, trip, Walk(c, trip, w, steps, lucks).fs, steps) <==> NoneExposed(c, trip, w, steps, lucks)
  {
    if |steps| > 0 {
      var k := |steps| - 1;
      WalkSafeIff(c, truth, trip, w, steps[..k], lucks[..k]);
      LastStepSafe(c, truth, trip, w, steps, lucks, k, Walk(c, trip, w, steps[..k], lucks[..k]));
      NoneExposedMore(c, trip, w, steps, lucks, k);
    }
  }

  // ----- counters --------------------------------------------------------------------

  /** Conservation, also for a walk cut short: every byte counted as done was resumed,
      skipped or streamed. A finished walk has counted every file and byte. */
  lemma {:induction false} WalkCounts(c: Codec, trip: Trip, w: World, steps: seq<Step>, lucks: seq<Luck>, whole: bool)
    requires Happened(c, trip, w, steps, lucks, whole)
    ensures var after := Walk(c, trip, w, steps, lucks);
            && after.bytesDone - w.bytesDone
               == (after.resumed - w.resumed) + (after.bytesSkipped - w.bytesSkipped) + (after.streamed - w.streamed)
            && (whole ==> after.filesDone == w.filesDone + Files(steps))
            && (whole ==> after.bytesDone == w.bytesDone + Volume(steps))
  {
    if |steps| > 0 {
      var k := |steps| - 1;
      WalkCounts(c, trip, w, steps[..k], lucks[..k], whole);
    }
  }

  // ----- a second run ----------------------------------------------------------------

  /** Every file's mtime was restored when it was copied. */
  ghost predicate Dated(steps: seq<Step>, lucks: seq<Luck>)
    requires |steps| == |lucks|
  {
    forall i :: 0 <= i < |steps| && steps[i].Copy? ==> steps[i].src.mtime > 0 && lucks[i].mtimeSet
  }

  /** A file with the size and the known mtime of the source. */
  ghost predicate Dates(fs: Fs, p: Path, src: Source) {
    p in fs && fs[p].File? && |fs[p].data| == |src.data| && fs[p].mtime == src.mtime > 0
  }

  ghost predicate Settled(trip: Trip, fs: Fs, steps: seq<Step>) {
    forall i :: 0 <= i < |steps| && steps[i].Copy? ==> Dates(fs, Mirror(trip, steps[i].rel), steps[i].src)
  }

  lemma StepSettles(trip: Trip, before: Fs, after: Fs, steps: seq<Step>)
    requires steps != [] && Separate(trip, steps) && Settled(trip, before, steps[..|steps| - 1])
    requires var s := steps[|steps| - 1];
             && OnlyTouches(trip, before, after, s)
             && (s.Copy? ==> Dates(after, Mirror(trip, s.rel), s.src))
    ensures Settled(trip, after, steps)
  {
    var k := |steps| - 1;
    forall i | 0 <= i < k && steps[i].Copy? ensures Dates(after, Mirror(trip, steps[i].rel), steps[i].src) {
      assert steps[..k][i] == steps[i];
      OthersKept(trip, before, after, steps, k, i);
    }
  }

  lemma {:induction false} WalkSettles(c: Codec, trip: Trip, w: World, steps: seq<Step>, lucks: seq<Luck>)
    requires Separate(trip, steps) && Happened(c, trip, w, steps, lucks, true) && Dated(steps, lucks)
    ensures Settled(trip, Walk(c, trip, w, steps, lucks).fs, steps)
  {
    if |steps| > 0 {
      var k := |steps| - 1;
      WalkSettles(c, trip, w, steps[..k], lucks[..k]);
      var mid := Walk(c, trip, w, steps[..k], lucks[..k]);
      StepFrame(c, trip, mid, steps[k], lucks[k]);
      if steps[k].Copy? {
        CopySettles(c, trip, mid, steps[k], lucks[k]);
      }
      StepSettles(trip, mid.fs, Walk(c, trip, w, steps, lucks).fs, steps);
    }
  }

  /** Walking a settled target again skips every file, streams nothing and changes
      nothing that is there. */
  lemma {:induction false} SettledWalkSkips(c: Codec, trip: Trip, w: World, steps: seq<Step>, lucks: seq<Luck>)
    requires Settled(trip, w.fs, steps) && Happened(c, trip, w, steps, lucks, true)
    ensures var after := Walk(c, trip, w, steps, lucks);
            && after.streamed == w.streamed && after.resumed == w.resumed
            && after.filesSkipped == w.filesSkipped + Files(steps)
            && after.bytesSkipped == w.bytesSkipped + Volume(steps)
            && forall q :: Kept(w.fs, after.fs, q)
  {
    if |steps| > 0 {
      var k := |steps| - 1;
      var s, mid := steps[k], Walk(c, trip, w, steps[..k], lucks[..k]);
      SettledWalkSkips(c, trip, w, steps[..k], lucks[..k]);
      if s.Copy? {
        assert Kept(w.fs, mid.fs, Mirror(trip, s.rel));
      } else {
        forall q ensures Kept(w.fs, Apply(c, trip, mid, s, lucks[k]).fs, q) {
          assert Kept(w.fs, mid.fs, q);
          ApplyFrame(c, trip, mid, s, lucks[k], q);
        }
      }
    }
  }

  /** Running the relay again: after a run that restored every mtime, a second run by
      any job streams no byte, skips every file and keeps every target file. */
  lemma SecondRunStreamsNothing(c: Codec, trip: Trip, w: World, steps: seq<Step>, first: seq<Luck>,
                                again: World, second: seq<Luck>)
    requires Separate(trip, steps) && Happened(c, trip, w, steps, first, true) && Dated(steps, first)
    requires again.fs == Walk(c, trip, w, steps, first).fs
    requires Happened(c, trip, again, steps, second, true)
    ensures var after := Walk(c, trip, again, steps, second);
            && after.streamed == again.streamed && after.resumed == again.resumed
            && after.filesSkipped == again.filesSkipped + Files(steps)
            && forall q :: Content(again.fs, q).Some? ==> Content(after.fs, q) == Content(again.fs, q)
  {
    WalkSettles(c, trip, w, steps, first);
    SettledWalkSkips(c, trip, again, steps, second);
    forall q | Content(again.fs, q).Some?
      ensures Content(Walk(c, trip, again, steps, second).fs, q) == Content(again.fs, q)
    {
      assert Kept(again.fs, Walk(c, trip, again, steps, second).fs, q);
    }
  }

  // ----- the tree's own theorem ------------------------------------------------------

  /** No wanted file of the tree is named like another one's scratch file. */
  ghost predicate NoScratchNames(root: Node, ex: Excludes) {
    forall a: Path, b: Path, s: Source, t: Source :: a != [] && Wanted(root, a, s, ex) && Wanted(root, b, t, ex) ==>
      b != Partial(a) && b != Meta(a)
  }

  lemma TreeIsSeparate(root: Node, at: Path, ex: Excludes, trip: Trip)
    requires WellFormed(root) && root.Folder? && at == []
    requires NoScratchNames(root, ex)
    ensures Separate(trip, StepsAt(root, at, ex))
  {
    var steps := StepsAt(root, at, ex);
    VisitedOnce(root, at, ex);
    forall i | 0 <= i < |steps| && steps[i].Copy?
      ensures Wanted(root, steps[i].rel, steps[i].src, ex) && steps[i].rel != []
    {
      VisitedIsWanted(root, at, ex, steps[i]);
    }
    forall i, j | 0 <= i < |steps| && 0 <= j < |steps| && steps[i].Copy? && steps[j].Copy?
      ensures Mirror(trip, steps[j].rel) != Partial(Mirror(trip, steps[i].rel))
      ensures Mirror(trip, steps[j].rel) != Meta(Mirror(trip, steps[i].rel))
    {
      MirrorScratch(trip, steps[i].rel);
      CancelPrefix(trip.targetRoot, steps[j].rel, Partial(steps[i].rel));
      CancelPrefix(trip.targetRoot, steps[j].rel, Meta(steps[i].rel));
    }
    forall i, j | 0 <= i < j < |steps| && steps[i].Copy? && steps[j].Copy?
      ensures Mirror(trip, steps[i].rel) != Mirror(trip, steps[j].rel)
    {
      CancelPrefix(trip.targetRoot, steps[i].rel, steps[j].rel);
    }
  }

  lemma CancelPrefix(root: Path, a: Path, b: Path)
    ensures root + a == root + b ==> a == b
  {
    assert a == (root + a)[|root|..] && b == (root + b)[|root|..];
  }

  lemma MirrorScratch(trip: Trip, rel: Path)
    requires rel != []
    ensures Partial(Mirror(trip, rel)) == Mirror(trip, Partial(rel))
    ensures Meta(Mirror(trip, rel)) == Mirror(trip, Meta(rel))
  {
    assert Parent(Mirror(trip, rel)) == trip.targetRoot + Parent(rel);
  }

  /** A directory relay that finished on an unchanged tree: every wanted regular file
      is mirrored byte for byte, and everything else on the target is as it was. */
  lemma RelayedTree(c: Codec, truth: Truth, root: Node, at: Path, ex: Excludes, trip: Trip, w: World,
                    lucks: seq<Luck>)
    requires c.Valid() && WellFormed(root) && root.Folder? && at == [] && NoScratchNames(root, ex)
    requires Happened(c, trip, w, StepsAt(root, at, ex), lucks, true)
    requires forall rel: Path, src: Source :: Wanted(root, rel, src, ex) ==>
             Trusted(c, truth, trip, w.fs, Copy(rel, src))
    ensures var after := Walk(c, trip, w, StepsAt(root, at, ex), lucks).fs;
            && (forall rel: Path, src: Source :: Wanted(root, rel, src, ex) ==>
                Content(after, Mirror(trip, rel)) == Some(src.data))
            && (forall q: Path :: (forall rel: Path, src: Source :: Wanted(root, rel, src, ex) ==>
                                   !Touched(trip, Copy(rel, src), q))
                  ==> Kept(w.fs, after, q))
  {
    var steps := StepsAt(root, at, ex);
    TreeIsSeparate(root, at, ex, trip);
    forall i | 0 <= i < |steps|
      ensures steps[i].Copy? ==> Wanted(root, steps[i].rel, steps[i].src, ex)
      ensures Trusted(c, truth, trip, w.fs, steps[i])
    {
      VisitedIsWanted(root, at, ex, steps[i]);
    }
    WalkMirrors(c, truth, trip, w, steps, lucks);
    var after := Walk(c, trip, w, steps, lucks).fs;
    forall rel: Path, src: Source | Wanted(root, rel, src, ex)
      ensures Content(after, Mirror(trip, rel)) == Some(src.data)
    {
      assert at + rel == rel;
      WantedIsVisited(root, at, rel, src, ex);
      var i :| 0 <= i < |steps| && steps[i] == Copy(rel, src);
      assert Content(after, Mirror(trip, steps[i].rel)) == Some(src.data);
    }
    forall q: Path | forall rel: Path, src: Source :: Wanted(root, rel, src, ex) ==> !Touched(trip, Copy(rel, src), q)
      ensures Kept(w.fs, after, q)
    {
      WalkFrame(c, trip, w, steps, lucks, q);
    }
  }
}
