/** One file of the chunked relay: a scratch file next to the target, a sidecar
    that says what the scratch file belongs to, and a resume that trusts the
    scratch file only when the sidecar matches the current source exactly.

    A path is the sequence of its components. What the sidecar's JSON text looks
    like does not matter here: `Codec` only assumes that it reads back and that a
    torn text does not parse. */
module RelayFile {
  import opened Common

  type Path = seq<string>

  /** The five keys of the sidecar. */
  datatype Stamp = Stamp(artifactId: string, sourcePath: Path, targetPath: Path, size: nat, mtime: nat)

  datatype Codec = Codec(encode: Stamp -> Bytes, decode: Bytes -> Option<Stamp>) {
    ghost predicate Valid() {
      && (forall s: Stamp :: decode(encode(s)) == Some(s))
      && (forall s: Stamp, k: nat :: k < |encode(s)| ==> decode(encode(s)[..k]) == None)
      && (forall s: Stamp :: encode(s) != [])
    }
  }

  // ----- the remote file system ---------------------------------------------------

  /** A link keeps what stat() reports through it: a size, or nothing when it dangles. */
  datatype Inode = File(data: Bytes, mtime: nat) | Directory(size: nat) | Link(sees: Option<nat>)

  type Fs = map<Path, Inode>

  datatype FileStat = FileStat(exists_: bool, isDir: bool, size: nat, isSymlink: bool, mtime: nat)

  const MISSING := FileStat(false, false, 0, false, 0)
  const NEW_DIRECTORY := Directory(4096)

  function Lstat(fs: Fs, p: Path): FileStat {
    if p !in fs then MISSING
    else match fs[p]
      case File(data, mtime) => FileStat(true, false, |data|, false, mtime)
      case Directory(size) => FileStat(true, true, size, false, 0)
      case Link(_) => FileStat(true, false, 0, true, 0)
  }

  /** What a reader of `p` would get, when `p` is a regular file. */
  function Content(fs: Fs, p: Path): Option<Bytes> {
    if p in fs && fs[p].File? then Some(fs[p].data) else None
  }

  /** mkdir of a path with its missing parents. */
  function MakeDirs(fs: Fs, p: Path): (r: Fs)
    ensures forall q <- fs :: q in r && r[q] == fs[q]
    ensures forall q <- r :: q !in fs ==> r[q] == NEW_DIRECTORY && q <= p
    ensures p == [] || p in r
  {
    if p == [] then fs
    else
      var up := MakeDirs(fs, p[..|p| - 1]);
      if p in up then up else up[p := NEW_DIRECTORY]
  }

  // ----- scratch names -------------------------------------------------------------

  function PartialName(filename: string): string {
    "." + filename + ".sgc-partial"
  }

  function MetaName(filename: string): string {
    "." + filename + ".sgc-meta"
  }

  function Parent(t: Path): Path
    requires t != []
  {
    t[..|t| - 1]
  }

  function Partial(t: Path): Path
    requires t != []
  {
    Parent(t) + [PartialName(t[|t| - 1])]
  }

  function Meta(t: Path): Path
    requires t != []
  {
    Parent(t) + [MetaName(t[|t| - 1])]
  }

  /** Scratch names of two targets never meet, unless the targets are the same. */
  lemma ScratchNamesApart(a: Path, b: Path)
    requires a != [] && b != []
    ensures Partial(a) != Meta(b)
    ensures Partial(a) != a && Meta(a) != a
    ensures Partial(a) == Partial(b) ==> a == b
    ensures Meta(a) == Meta(b) ==> a == b
  {
    var x, y := a[|a| - 1], b[|b| - 1];
    LastOf(Partial(a), Parent(a), PartialName(x));
    LastOf(Meta(a), Parent(a), MetaName(x));
    LastOf(Partial(b), Parent(b), PartialName(y));
    LastOf(Meta(b), Parent(b), MetaName(y));
    assert a == Parent(a) + [x] && b == Parent(b) + [y];
    assert PartialName(x)[|PartialName(x)| - 1] == 'l';
    assert MetaName(y)[|MetaName(y)| - 1] == 'a';
    assert PartialName(x)[1..|x| + 1] == x && PartialName(y)[1..|y| + 1] == y;
    assert MetaName(x)[1..|x| + 1] == x && MetaName(y)[1..|y| + 1] == y;
    assert |PartialName(x)| == |x| + 13 && |MetaName(x)| == |x| + 10;
    assert |PartialName(y)| == |y| + 13 && |MetaName(y)| == |y| + 10;
  }

  lemma LastOf(p: Path, up: Path, name: string)
    requires p == up + [name]
    ensures p[|p| - 1] == name && p[..|p| - 1] == up
  {
  }

  // ----- one attempt ---------------------------------------------------------------

  /** One version of the source file. */
  datatype Source = Source(data: Bytes, mtime: nat)

  datatype Transfer = Transfer(artifactId: string, sourcePath: Path, targetPath: Path)

  function StampOf(t: Transfer, src: Source): Stamp {
    Stamp(t.artifactId, t.sourcePath, t.targetPath, |src.data|, src.mtime)
  }

  /** Where an attempt ended. `streamed` bytes were counted; a failed write may
      have left `torn` more bytes of its chunk behind. */
  datatype Stop =
    | Early(levels: nat)                  // mkdir, a stat or opening the sidecar failed
    | InSidecar(k: nat)                   // only k bytes of a new sidecar were written
    | BeforeTruncate                      // sidecar complete, then a close or an open failed
    | InCopy(streamed: nat, torn: nat)    // cancelled, or a read, write or close failed
    | AtRename(removed: bool)             // the rename failed, perhaps after removing the target
    | Finished

  /** Everything the environment decides during one attempt. */
  datatype Luck = Luck(sidecarReadable: bool, now: nat, stop: Stop, sidecarRemoved: bool, mtimeSet: bool)

  function ReadSidecar(c: Codec, fs: Fs, m: Path): Option<Stamp> {
    match Content(fs, m)
    case None => None
    case Some(text) => c.decode(text)
  }

  /** The bytes of the existing scratch file that may be kept. */
  function ResumeOffset(c: Codec, fs: Fs, t: Transfer, src: Source, readable: bool): (n: nat)
    requires t.targetPath != []
    ensures n <= |src.data|
    ensures n > 0 ==> Content(fs, Partial(t.targetPath)).Some? && n == |Content(fs, Partial(t.targetPath)).value|
  {
    match Content(fs, Partial(t.targetPath))
    case None => 0
    case Some(data) =>
      if data == [] || !readable then 0
      else if ReadSidecar(c, fs, Meta(t.targetPath)) != Some(StampOf(t, src)) then 0
      else if |data| > |src.data| then 0
      else |data|
  }

  /** Bytes are kept exactly when the scratch file is not empty and no longer than the
      source, and its sidecar can be read and names, field by field, this transfer and this
      version of its source; then all of them are. */
  lemma ResumesIff(c: Codec, fs: Fs, t: Transfer, src: Source, readable: bool)
    requires t.targetPath != []
    ensures var partial, meta := Partial(t.targetPath), Meta(t.targetPath);
            ResumeOffset(c, fs, t, src, readable) > 0
            <==> (&& partial in fs && fs[partial].File? && 0 < |fs[partial].data| <= |src.data|
                  && readable && meta in fs && fs[meta].File? && c.decode(fs[meta].data).Some?
                  && var s := c.decode(fs[meta].data).value;
                     && s.artifactId == t.artifactId && s.sourcePath == t.sourcePath && s.targetPath == t.targetPath
                     && s.size == |src.data| && s.mtime == src.mtime)
    ensures ResumeOffset(c, fs, t, src, readable) > 0 ==>
              ResumeOffset(c, fs, t, src, readable) == |fs[Partial(t.targetPath)].data|
  {
    if ReadSidecar(c, fs, Meta(t.targetPath)).Some? {
      SameStamp(ReadSidecar(c, fs, Meta(t.targetPath)).value, t, src);
    }
  }

  lemma SameStamp(s: Stamp, t: Transfer, src: Source)
    ensures s == StampOf(t, src) <==>
            && s.artifactId == t.artifactId && s.sourcePath == t.sourcePath && s.targetPath == t.targetPath
            && s.size == |src.data| && s.mtime == src.mtime
  {
  }

  function Resumed(c: Codec, fs: Fs, t: Transfer, src: Source, readable: bool): nat
    requires t.targetPath != []
  {
    ResumeOffset(c, MakeDirs(fs, Parent(t.targetPath)), t, src, readable)
  }

  /** The stops the environment can produce from `fs`. */
  ghost predicate Possible(c: Codec, fs: Fs, t: Transfer, src: Source, luck: Luck) {
    && t.targetPath != []
    && var target := t.targetPath;
       match luck.stop
       case Early(levels) => levels < |target|
       case InSidecar(k) =>
         Resumed(c, fs, t, src, luck.sidecarReadable) == 0 && k < |c.encode(StampOf(t, src))|
         && SidecarWritable(fs, target)
       case BeforeTruncate => Resumed(c, fs, t, src, luck.sidecarReadable) > 0 || SidecarWritable(fs, target)
       case InCopy(streamed, torn) =>
         Resumed(c, fs, t, src, luck.sidecarReadable) + streamed + torn <= |src.data| && Stageable(c, fs, t, src, luck)
       case AtRename(removed) =>
         Stageable(c, fs, t, src, luck) && (removed ==> target in fs && !fs[target].Directory?)
       case Finished =>
         Stageable(c, fs, t, src, luck) && !(target in fs && fs[target].Directory?)
  }

  ghost predicate SidecarWritable(fs: Fs, target: Path)
    requires target != []
  {
    Meta(target) in fs ==> fs[Meta(target)].File?
  }

  ghost predicate Stageable(c: Codec, fs: Fs, t: Transfer, src: Source, luck: Luck)
    requires t.targetPath != []
  {
    && (Partial(t.targetPath) in fs ==> fs[Partial(t.targetPath)].File?)
    && (Resumed(c, fs, t, src, luck.sidecarReadable) > 0 || SidecarWritable(fs, t.targetPath))
  }

  /** The bytes of the scratch file after `n` more source bytes went to it. */
  function Staged(c: Codec, fs: Fs, t: Transfer, src: Source, readable: bool, n: nat): Bytes
    requires t.targetPath != []
    requires Resumed(c, fs, t, src, readable) + n <= |src.data|
  {
    var from := Resumed(c, fs, t, src, readable);
    (if from > 0 then Content(MakeDirs(fs, Parent(t.targetPath)), Partial(t.targetPath)).value else [])
    + src.data[from..from + n]
  }

  /** The target once the sidecar describes the scratch file. */
  ghost function StampedFs(c: Codec, fs: Fs, t: Transfer, src: Source, readable: bool, now: nat): Fs
    requires t.targetPath != []
  {
    var made := MakeDirs(fs, Parent(t.targetPath));
    if Resumed(c, fs, t, src, readable) > 0 then made
    else made[Meta(t.targetPath) := File(c.encode(StampOf(t, src)), now)]
  }

  /** The target once `n` source bytes went to the scratch file. */
  ghost function StagedFs(c: Codec, fs: Fs, t: Transfer, src: Source, readable: bool, now: nat, n: nat): Fs
    requires t.targetPath != [] && Resumed(c, fs, t, src, readable) + n <= |src.data|
  {
    StampedFs(c, fs, t, src, readable, now)[Partial(t.targetPath) := File(Staged(c, fs, t, src, readable, n), now)]
  }

  /** What one attempt leaves on the target. */
  ghost function Attempt(c: Codec, fs: Fs, t: Transfer, src: Source, luck: Luck): Fs
    requires Possible(c, fs, t, src, luck)
  {
    var target := t.targetPath;
    match luck.stop
    case Early(levels) => MakeDirs(fs, target[..levels])
    case InSidecar(k) =>
      MakeDirs(fs, Parent(target))[Meta(target) := File(c.encode(StampOf(t, src))[..k], luck.now)]
    case BeforeTruncate => StampedFs(c, fs, t, src, luck.sidecarReadable, luck.now)
    case InCopy(streamed, torn) => StagedFs(c, fs, t, src, luck.sidecarReadable, luck.now, streamed + torn)
    case AtRename(removed) =>
      var full := StagedFs(c, fs, t, src, luck.sidecarReadable, luck.now,
                           |src.data| - Resumed(c, fs, t, src, luck.sidecarReadable));
      if removed then full - {target} else full
    case Finished =>
      var full := StagedFs(c, fs, t, src, luck.sidecarReadable, luck.now,
                           |src.data| - Resumed(c, fs, t, src, luck.sidecarReadable));
      Consumed(full, target, src.mtime, luck.sidecarRemoved, luck.mtimeSet)
  }

  /** The scratch file renamed over the target, its mtime restored, the sidecar swept. */
  ghost function Consumed(full: Fs, target: Path, mtime: nat, swept: bool, dated: bool): Fs
    requires target != [] && Partial(target) in full && full[Partial(target)].File?
  {
    var staged := full[Partial(target)];
    var stamp := if mtime > 0 && dated then mtime else staged.mtime;
    var moved := (full - {Partial(target)})[target := File(staged.data, stamp)];
    if swept then moved - {Meta(target)} else moved
  }

  /** Bytes taken over from the scratch file, and bytes streamed and counted. */
  function ResumedBytes(c: Codec, fs: Fs, t: Transfer, src: Source, luck: Luck): nat
    requires t.targetPath != []
  {
    if luck.stop.Early? || luck.stop.InSidecar? then 0 else Resumed(c, fs, t, src, luck.sidecarReadable)
  }

  function StreamedBytes(c: Codec, fs: Fs, t: Transfer, src: Source, luck: Luck): (n: nat)
    requires t.targetPath != []
  {
    match luck.stop
    case InCopy(streamed, _) => streamed
    case AtRename(_) => |src.data| - Resumed(c, fs, t, src, luck.sidecarReadable)
    case Finished => |src.data| - Resumed(c, fs, t, src, luck.sidecarReadable)
    case _ => 0
  }

  /** The whole effect of one attempt: the target, and the bytes counted. */
  ghost predicate Outcome(c: Codec, fs: Fs, t: Transfer, src: Source, luck: Luck, after: Fs, resumed: nat,
                          streamed: nat) {
    && Possible(c, fs, t, src, luck)
    && after == Attempt(c, fs, t, src, luck)
    && resumed == ResumedBytes(c, fs, t, src, luck)
    && streamed == StreamedBytes(c, fs, t, src, luck)
  }

  // ----- the resume invariant ------------------------------------------------------

  /** The bytes of a source path when it has this size and mtime. */
  type Truth = (Path, nat, nat) -> Bytes

  /** A scratch file whose sidecar parses is a prefix of the source version the
      sidecar names. */
  ghost predicate Safe(c: Codec, truth: Truth, fs: Fs, target: Path)
    requires target != []
  {
    var partial, stamp := Content(fs, Partial(target)), ReadSidecar(c, fs, Meta(target));
    partial.Some? && stamp.Some? && |partial.value| <= stamp.value.size ==>
      partial.value <= truth(stamp.value.sourcePath, stamp.value.size, stamp.value.mtime)
  }

  /** Equal size and mtime of one source path mean equal content. */
  ghost predicate Truthful(truth: Truth, t: Transfer, src: Source) {
    truth(t.sourcePath, |src.data|, src.mtime) == src.data
  }

  /** The hazard of local_relay.py:229-247: the sidecar already names the new source
      while the old scratch file is still there. */
  ghost predicate Exposed(c: Codec, fs: Fs, t: Transfer, src: Source, luck: Luck)
    requires t.targetPath != []
  {
    && luck.stop.BeforeTruncate?
    && Resumed(c, fs, t, src, luck.sidecarReadable) == 0
    && var kept := Content(fs, Partial(t.targetPath));
       kept.Some? && 0 < |kept.value| <= |src.data| && !(kept.value <= src.data)
  }

  /** Making directories reads the same at every file. */
  lemma MakeDirsKeepsContent(fs: Fs, p: Path, q: Path)
    ensures Content(MakeDirs(fs, p), q) == Content(fs, q)
  {
  }

  /** A staged file is the source's prefix, and the whole source once all is streamed. */
  lemma StagedIsPrefix(c: Codec, truth: Truth, fs: Fs, t: Transfer, src: Source, readable: bool, n: nat)
    requires t.targetPath != [] && Resumed(c, fs, t, src, readable) + n <= |src.data|
    requires Safe(c, truth, fs, t.targetPath) && Truthful(truth, t, src)
    ensures Staged(c, fs, t, src, readable, n) == src.data[..Resumed(c, fs, t, src, readable) + n]
    ensures Resumed(c, fs, t, src, readable) + n == |src.data| ==> Staged(c, fs, t, src, readable, n) == src.data
  {
    var from := Resumed(c, fs, t, src, readable);
    MakeDirsKeepsContent(fs, Parent(t.targetPath), Partial(t.targetPath));
    MakeDirsKeepsContent(fs, Parent(t.targetPath), Meta(t.targetPath));
    if from > 0 {
      var kept := Content(fs, Partial(t.targetPath)).value;
      assert kept == src.data[..from];
      assert src.data[..from] + src.data[from..from + n] == src.data[..from + n];
    } else {
      assert src.data[0..n] == src.data[..n];
    }
    assert src.data[..|src.data|] == src.data;
  }

  /** A staged scratch file and its sidecar, as a reader finds them. */
  lemma StagedReads(c: Codec, fs: Fs, t: Transfer, src: Source, readable: bool, now: nat, n: nat)
    requires c.Valid() && t.targetPath != [] && Resumed(c, fs, t, src, readable) + n <= |src.data|
    ensures var staged := StagedFs(c, fs, t, src, readable, now, n);
            && Content(staged, Partial(t.targetPath)) == Some(Staged(c, fs, t, src, readable, n))
            && ReadSidecar(c, staged, Meta(t.targetPath)) == Some(StampOf(t, src))
  {
    ScratchNamesApart(t.targetPath, t.targetPath);
  }

  /** The sidecar is complete while the scratch file is still the old one. */
  lemma StampedReads(c: Codec, fs: Fs, t: Transfer, src: Source, readable: bool, now: nat)
    requires c.Valid() && t.targetPath != []
    ensures var stamped := StampedFs(c, fs, t, src, readable, now);
            && Content(stamped, Partial(t.targetPath)) == Content(fs, Partial(t.targetPath))
            && ReadSidecar(c, stamped, Meta(t.targetPath)) == Some(StampOf(t, src))
  {
    ScratchNamesApart(t.targetPath, t.targetPath);
    MakeDirsKeepsContent(fs, Parent(t.targetPath), Partial(t.targetPath));
  }

  /** Exactly when one attempt keeps the invariant: always, except on the exposed stop. */
  lemma AttemptSafeIff(c: Codec, truth: Truth, fs: Fs, t: Transfer, src: Source, luck: Luck)
    requires c.Valid() && Possible(c, fs, t, src, luck)
    requires Safe(c, truth, fs, t.targetPath) && Truthful(truth, t, src)
    ensures Safe(c, truth, Attempt(c, fs, t, src, luck), t.targetPath) <==> !Exposed(c, fs, t, src, luck)
  {
    match luck.stop
    case BeforeTruncate => StampedSafeIff(c, truth, fs, t, src, luck);
    case InSidecar(k) => TornStaysSafe(c, truth, fs, t, src, luck);
    case Early(levels) => EarlyOrFinishedSafe(c, truth, fs, t, src, luck);
    case Finished => EarlyOrFinishedSafe(c, truth, fs, t, src, luck);
    case _ => StoppedCopySafe(c, truth, fs, t, src, luck);
  }

  lemma EarlyOrFinishedSafe(c: Codec, truth: Truth, fs: Fs, t: Transfer, src: Source, luck: Luck)
    requires Possible(c, fs, t, src, luck) && (luck.stop.Early? || luck.stop.Finished?)
    requires Safe(c, truth, fs, t.targetPath)
    ensures Safe(c, truth, Attempt(c, fs, t, src, luck), t.targetPath)
  {
    ScratchNamesApart(t.targetPath, t.targetPath);
    if luck.stop.Early? {
      MakeDirsKeepsContent(fs, t.targetPath[..luck.stop.levels], Partial(t.targetPath));
      MakeDirsKeepsContent(fs, t.targetPath[..luck.stop.levels], Meta(t.targetPath));
    } else {
      assert Content(Attempt(c, fs, t, src, luck), Partial(t.targetPath)) == None;
    }
  }

  lemma StoppedCopySafe(c: Codec, truth: Truth, fs: Fs, t: Transfer, src: Source, luck: Luck)
    requires c.Valid() && Possible(c, fs, t, src, luck) && (luck.stop.InCopy? || luck.stop.AtRename?)
    requires Safe(c, truth, fs, t.targetPath) && Truthful(truth, t, src)
    ensures Safe(c, truth, Attempt(c, fs, t, src, luck), t.targetPath)
  {
    var n := if luck.stop.InCopy? then luck.stop.streamed + luck.stop.torn
             else |src.data| - Resumed(c, fs, t, src, luck.sidecarReadable);
    StagedStaysSafe(c, truth, fs, t, src, luck, n);
  }

  /** A torn sidecar does not parse, so the scratch file is not trusted. */
  lemma TornStaysSafe(c: Codec, truth: Truth, fs: Fs, t: Transfer, src: Source, luck: Luck)
    requires c.Valid() && Possible(c, fs, t, src, luck) && luck.stop.InSidecar?
    ensures Safe(c, truth, Attempt(c, fs, t, src, luck), t.targetPath)
  {
    assert ReadSidecar(c, Attempt(c, fs, t, src, luck), Meta(t.targetPath)) == None;
  }

  lemma StampedSafeIff(c: Codec, truth: Truth, fs: Fs, t: Transfer, src: Source, luck: Luck)
    requires c.Valid() && Possible(c, fs, t, src, luck) && luck.stop.BeforeTruncate?
    requires Safe(c, truth, fs, t.targetPath) && Truthful(truth, t, src)
    ensures Safe(c, truth, Attempt(c, fs, t, src, luck), t.targetPath) <==> !Exposed(c, fs, t, src, luck)
  {
    StampedReads(c, fs, t, src, luck.sidecarReadable, luck.now);
    MakeDirsKeepsContent(fs, Parent(t.targetPath), Partial(t.targetPath));
    MakeDirsKeepsContent(fs, Parent(t.targetPath), Meta(t.targetPath));
  }

  lemma StagedStaysSafe(c: Codec, truth: Truth, fs: Fs, t: Transfer, src: Source, luck: Luck, n: nat)
    requires c.Valid() && t.targetPath != [] && Resumed(c, fs, t, src, luck.sidecarReadable) + n <= |src.data|
    requires Safe(c, truth, fs, t.targetPath) && Truthful(truth, t, src)
    ensures var staged := StagedFs(c, fs, t, src, luck.sidecarReadable, luck.now, n);
            Safe(c, truth, staged, t.targetPath) && Safe(c, truth, staged - {t.targetPath}, t.targetPath)
  {
    StagedReads(c, fs, t, src, luck.sidecarReadable, luck.now, n);
    StagedIsPrefix(c, truth, fs, t, src, luck.sidecarReadable, n);
    ScratchNamesApart(t.targetPath, t.targetPath);
  }

  /** The attempt that finishes leaves the target byte-equal to its source. */
  lemma AttemptDelivers(c: Codec, truth: Truth, fs: Fs, t: Transfer, src: Source, luck: Luck)
    requires Possible(c, fs, t, src, luck) && luck.stop.Finished?
    requires Safe(c, truth, fs, t.targetPath) && Truthful(truth, t, src)
    ensures Content(Attempt(c, fs, t, src, luck), t.targetPath) == Some(src.data)
  {
    ScratchNamesApart(t.targetPath, t.targetPath);
    StagedIsPrefix(c, truth, fs, t, src, luck.sidecarReadable,
                   |src.data| - Resumed(c, fs, t, src, luck.sidecarReadable));
  }

  /** Nothing but the target, its two scratch names and missing directories changes. */
  lemma AttemptFrame(c: Codec, fs: Fs, t: Transfer, src: Source, luck: Luck, q: Path)
    requires Possible(c, fs, t, src, luck)
    requires q != t.targetPath && q != Partial(t.targetPath) && q != Meta(t.targetPath)
    ensures var after := Attempt(c, fs, t, src, luck);
            && (q in fs ==> q in after && after[q] == fs[q])
            && (q in after && q !in fs ==> after[q] == NEW_DIRECTORY)
  {
  }

  // ----- many attempts -------------------------------------------------------------

  /** One attempt: what was asked, the source version found, and the environment. */
  datatype Try = Try(transfer: Transfer, src: Source, luck: Luck)

  /** A run of attempts on one target: each is possible in the state it meets, finds
      a source its stamp stands for, and is not stopped in the exposed way. */
  ghost predicate GoodRun(c: Codec, truth: Truth, fs: Fs, target: Path, tries: seq<Try>)
    decreases |tries|, 0
  {
    tries != [] ==>
      && var last := tries[|tries| - 1];
      && GoodRun(c, truth, fs, target, tries[..|tries| - 1])
      && var before := Run(c, truth, fs, target, tries[..|tries| - 1]);
      && last.transfer.targetPath == target
      && Possible(c, before, last.transfer, last.src, last.luck)
      && Truthful(truth, last.transfer, last.src)
      && !Exposed(c, before, last.transfer, last.src, last.luck)
  }

  ghost function Run(c: Codec, truth: Truth, fs: Fs, target: Path, tries: seq<Try>): Fs
    requires GoodRun(c, truth, fs, target, tries)
    decreases |tries|, 1
  {
    if tries == [] then fs
    else
      var last := tries[|tries| - 1];
      Attempt(c, Run(c, truth, fs, target, tries[..|tries| - 1]), last.transfer, last.src, last.luck)
  }

  /** Over any run of attempts, with the source changing between them and every
      attempt stopped anywhere, the scratch file stays a prefix of what its sidecar
      names; and an attempt that finishes delivers its own source exactly. */
  lemma {:induction false} RunDelivers(c: Codec, truth: Truth, fs: Fs, target: Path, tries: seq<Try>)
    requires c.Valid() && target != [] && Safe(c, truth, fs, target)
    requires GoodRun(c, truth, fs, target, tries)
    ensures Safe(c, truth, Run(c, truth, fs, target, tries), target)
    ensures tries != [] && tries[|tries| - 1].luck.stop.Finished? ==>
              Content(Run(c, truth, fs, target, tries), target) == Some(tries[|tries| - 1].src.data)
  {
    if tries != [] {
      var last := tries[|tries| - 1];
      var before := Run(c, truth, fs, target, tries[..|tries| - 1]);
      RunDelivers(c, truth, fs, target, tries[..|tries| - 1]);
      AttemptSafeIff(c, truth, before, last.transfer, last.src, last.luck);
      if last.luck.stop.Finished? {
        AttemptDelivers(c, truth, before, last.transfer, last.src, last.luck);
      }
    }
  }

  /** The exposed stop is real: three attempts on one target, the second one failing
      to open its writer, and the third one finishes with a wrong file. */
  lemma ExposedStopCorrupts(c: Codec)
    requires c.Valid()
    ensures
      var target := ["data", "f"];
      var t := Transfer("a", ["f"], target);
      var v1, v2 := Source([1, 1], 1), Source([2, 2], 2);
      var cut := Luck(true, 9, InCopy(1, 0), true, true);
      var unopened := Luck(true, 9, BeforeTruncate, true, true);
      var good := Luck(true, 9, Finished, true, true);
      && Possible(c, map[], t, v1, cut)
      && var one := Attempt(c, map[], t, v1, cut);
      && Possible(c, one, t, v2, unopened)
      && var two := Attempt(c, one, t, v2, unopened);
      && Possible(c, two, t, v2, good)
      && Content(Attempt(c, two, t, v2, good), target) == Some([1, 2])
  {
    var target := ["data", "f"];
    var t := Transfer("a", ["f"], target);
    var v1, v2 := Source([1, 1], 1), Source([2, 2], 2);
    var cut := Luck(true, 9, InCopy(1, 0), true, true);
    var unopened := Luck(true, 9, BeforeTruncate, true, true);
    var good := Luck(true, 9, Finished, true, true);
    ScratchNamesApart(target, target);
    assert Partial(target)[1] != "f" && Meta(target)[1] != "f";
    assert Resumed(c, map[], t, v1, true) == 0;
    var one := Attempt(c, map[], t, v1, cut);
    assert Staged(c, map[], t, v1, true, 1) == [1];
    assert Content(one, Partial(target)) == Some([1]);
    assert ReadSidecar(c, one, Meta(target)) == Some(StampOf(t, v1));
    assert StampOf(t, v1) != StampOf(t, v2);
    assert Resumed(c, one, t, v2, true) == 0;
    var two := Attempt(c, one, t, v2, unopened);
    assert Content(two, Partial(target)) == Some([1]);
    assert ReadSidecar(c, two, Meta(target)) == Some(StampOf(t, v2));
    assert Resumed(c, two, t, v2, true) == 1;
    assert Staged(c, two, t, v2, true, 1) == [1, 2];
  }
}
