/** The copy loop itself: the target session, the job's counters, and the chunked
    copy of one file, proved against the value-level attempt of RelayFile. */
module RelayCopy {
  import opened Common
  import opened RelayFile

  /** The target's SFTP session. Every operation may fail; a failed write may have
      written part of its chunk. */
  class Target {
    const codec: Codec
    var fs: Fs

    constructor (codec: Codec, fs: Fs)
      ensures this.codec == codec && this.fs == fs
    {
      this.codec := codec;
      this.fs := fs;
    }

    /** Makes the missing levels of `p`, as far as that goes: a level that is a dangling
        link is not there for stat() and cannot be made. */
    method Mkdir(p: Path) returns (levels: nat)
      modifies this
      ensures levels <= |p| && fs == MakeDirs(old(fs), p[..levels])
      ensures 0 < levels == |p| && p in old(fs) ==> old(fs)[p] != Link(None)
    {
      levels :| levels <= |p|;
      if 0 < levels == |p| && p in fs && fs[p] == Link(None) {
        levels := levels - 1;
      }
      fs := MakeDirs(fs, p[..levels]);
    }

    /** Opens `p` for writing; without `keep` the file is truncated. */
    method OpenWriter(p: Path, keep: bool, now: nat) returns (ok: bool)
      modifies this
      ensures ok ==> (p in old(fs) ==> old(fs)[p].File?) && (keep ==> p in old(fs))
      ensures fs == if ok && !keep then old(fs)[p := File([], now)] else old(fs)
    {
      ok := *;
      if (p in fs && !fs[p].File?) || (keep && p !in fs) {
        ok := false;
      }
      if ok && !keep {
        fs := fs[p := File([], now)];
      }
    }

    /** Appends to `p`; fewer bytes than asked for means that the write failed. */
    method Write(p: Path, chunk: Bytes, now: nat) returns (written: nat)
      requires p in fs && fs[p].File?
      modifies this
      ensures written <= |chunk|
      ensures fs == old(fs)[p := File(old(fs)[p].data + chunk[..written], now)]
    {
      written :| written <= |chunk|;
      fs := fs[p := File(fs[p].data + chunk[..written], now)];
    }

    method Rename(from: Path, to: Path) returns (ok: bool, removed: bool)
      requires from in fs && fs[from].File? && from != to
      modifies this
      ensures ok ==> !(to in old(fs) && old(fs)[to].Directory?)
      ensures removed ==> !ok && to in old(fs) && !old(fs)[to].Directory?
      ensures fs == if ok then (old(fs) - {from})[to := old(fs)[from]]
                    else if removed then old(fs) - {to} else old(fs)
    {
      var blocked := to in fs && fs[to].Directory?;
      ok, removed := *, *;
      ok := ok && !blocked;
      removed := removed && !ok && to in fs && !blocked;
      if ok {
        fs := (fs - {from})[to := fs[from]];
      } else if removed {
        fs := fs - {to};
      }
    }

    method Remove(p: Path) returns (ok: bool)
      modifies this
      ensures fs == if ok then old(fs) - {p} else old(fs)
    {
      ok := *;
      if ok {
        fs := fs - {p};
      }
    }

    method SetMtime(p: Path, mtime: nat) returns (ok: bool)
      requires p in fs && fs[p].File?
      modifies this
      ensures fs == if ok then old(fs)[p := File(old(fs)[p].data, mtime)] else old(fs)
    {
      ok := *;
      if ok {
        fs := fs[p := File(fs[p].data, mtime)];
      }
    }
  }

  /** The counters of a transfer job. */
  class Job {
    const artifactId: string
    var filesTotal: Option<nat>
    var bytesTotal: Option<nat>
    var filesDone: nat
    var bytesDone: nat
    var filesSkipped: nat
    var bytesSkipped: nat
    var resumedBytes: nat

    constructor (artifactId: string)
      ensures this.artifactId == artifactId
      ensures filesTotal == None && bytesTotal == None
      ensures filesDone == bytesDone == filesSkipped == bytesSkipped == resumedBytes == 0
    {
      this.artifactId := artifactId;
      filesTotal, bytesTotal := None, None;
      filesDone, bytesDone, filesSkipped, bytesSkipped, resumedBytes := 0, 0, 0, 0, 0;
    }
  }

  /** Counts only the bytes streamed from the source in this run. */
  class Progress {
    var streamed: nat

    constructor ()
      ensures streamed == 0
    {
      streamed := 0;
    }

    method Chunk(n: nat)
      modifies this
      ensures streamed == old(streamed) + n
    {
      streamed := streamed + n;
    }
  }

  /** Reads at most `size` bytes at `pos`; None when the read fails, [] at the end. */
  method Read(src: Source, pos: nat, size: nat) returns (chunk: Option<Bytes>)
    requires pos <= |src.data| && size > 0
    ensures chunk.Some? ==> |chunk.value| <= size
    ensures chunk.Some? ==> chunk.value <= src.data[pos..]
    ensures chunk == Some([]) ==> pos == |src.data|
  {
    var failed := *;
    if failed {
      return None;
    }
    var n: nat :| n <= size && pos + n <= |src.data| && (n == 0 ==> pos == |src.data|) by {
      assert pos + (if pos == |src.data| then 0 else 1) <= |src.data|;
    }
    chunk := Some(src.data[pos..pos + n]);
  }

  /** Truncate-writes the sidecar before the first byte. None when it is complete. */
  method WriteSidecar(target: Target, meta: Path, text: Bytes, now: nat) returns (torn: Option<nat>, isOpen: bool)
    modifies target
    ensures isOpen ==> (meta in old(target.fs) ==> old(target.fs)[meta].File?)
    ensures !isOpen ==> torn.Some? && target.fs == old(target.fs)
    ensures isOpen && torn == None ==> target.fs == old(target.fs)[meta := File(text, now)]
    ensures isOpen && torn.Some? ==>
              torn.value < |text| && target.fs == old(target.fs)[meta := File(text[..torn.value], now)]
  {
    isOpen := target.OpenWriter(meta, false, now);
    if !isOpen {
      return Some(0), false;
    }
    var written := target.Write(meta, text, now);
    assert [] + text[..written] == text[..written];
    if written < |text| {
      return Some(written), true;
    }
    assert text[..written] == text;
    torn := None;
  }

  /** The loop: cancel check, read, write, count. `torn` bytes were written but not
      counted; `done` says that the whole source was read. */
  method CopyLoop(job: Job, progress: Progress, target: Target, src: Source, partial: Path,
                  from: nat, chunkSize: nat, now: nat)
    returns (n: nat, torn: nat, when: nat, done: bool)
    requires from <= |src.data| && chunkSize > 0
    requires partial in target.fs && target.fs[partial].File?
    modifies job`bytesDone, progress, target
    ensures from + n + torn <= |src.data|
    ensures done ==> torn == 0 && from + n == |src.data|
    ensures when == now || when == old(target.fs)[partial].mtime
    ensures target.fs ==
            old(target.fs)[partial := File(old(target.fs)[partial].data + src.data[from..from + n + torn], when)]
    ensures progress.streamed == old(progress.streamed) + n
    ensures job.bytesDone == old(job.bytesDone) + n
  {
    n, torn, when, done := 0, 0, target.fs[partial].mtime, false;
    ghost var data := target.fs[partial].data;
    assert data + src.data[from..from] == data;
    assert target.fs[partial := File(data, when)] == target.fs;
    while true
      invariant from + n <= |src.data|
      invariant when == now || when == old(target.fs)[partial].mtime
      invariant target.fs == old(target.fs)[partial := File(data + src.data[from..from + n], when)]
      invariant progress.streamed == old(progress.streamed) + n
      invariant job.bytesDone == old(job.bytesDone) + n
      decreases |src.data| - n
    {
      var cancelled := *;
      if cancelled {
        return;
      }
      var chunk := Read(src, from + n, chunkSize);
      if chunk.None? {
        return;
      }
      if chunk.value == [] {
        done := *;
        return;
      }
      var written := target.Write(partial, chunk.value, now);
      when := now;
      assert chunk.value[..written] == src.data[from + n..from + n + written];
      assert src.data[from..from + n] + src.data[from + n..from + n + written] == src.data[from..from + n + written];
      assert data + src.data[from..from + n] + chunk.value[..written] == data + src.data[from..from + n + written];
      if written < |chunk.value| {
        torn := written;
        return;
      }
      progress.Chunk(written);
      job.bytesDone := job.bytesDone + written;
      n := n + written;
    }
  }

  /** The sidecar describes the scratch file, which is open at `from`. */
  ghost predicate Ready(c: Codec, fs: Fs, t: Transfer, src: Source, start: Luck, from: nat, now: Fs) {
    && t.targetPath != [] && Stageable(c, fs, t, src, start)
    && from == Resumed(c, fs, t, src, start.sidecarReadable)
    && var stamped := StampedFs(c, fs, t, src, start.sidecarReadable, start.now);
    && (from > 0 ==> Partial(t.targetPath) in stamped)
    && now == if from > 0 then stamped else stamped[Partial(t.targetPath) := File([], start.now)]
  }

  /** Everything before the first byte: directories, resume check, sidecar, opens.
      Either the attempt already ended, or the scratch file is open at `from`. */
  method Prepare(job: Job, target: Target, t: Transfer, src: Source) returns (luck: Luck, ready: bool, from: nat)
    requires t.targetPath != []
    modifies job`bytesDone, job`resumedBytes, target
    ensures job.resumedBytes >= old(job.resumedBytes)
    ensures !ready ==>
            Outcome(target.codec, old(target.fs), t, src, luck, target.fs, job.resumedBytes - old(job.resumedBytes), 0)
    ensures ready ==> Ready(target.codec, old(target.fs), t, src, luck, from, target.fs)
    ensures ready ==> job.resumedBytes == old(job.resumedBytes) + from
    ensures job.bytesDone - old(job.bytesDone) == job.resumedBytes - old(job.resumedBytes)
  {
    var c, path := target.codec, t.targetPath;
    var partial, meta := Partial(path), Meta(path);
    ghost var fs0 := target.fs;
    ScratchNamesApart(path, path);
    var readable, now: nat, statFails := *, *, *;
    luck, ready := Luck(readable, now, Finished, true, true), false;
    var levels := target.Mkdir(Parent(path));
    assert Parent(path)[..levels] == path[..levels];
    assert Parent(path)[..|Parent(path)|] == Parent(path);
    from := 0;
    if levels < |Parent(path)| || statFails {
      luck := luck.(stop := Early(levels));
      return;
    }
    from := ResumeOffset(c, target.fs, t, src, readable);
    MakeDirsKeepsContent(fs0, Parent(path), partial);
    if from > 0 {
      job.resumedBytes := job.resumedBytes + from;
      job.bytesDone := job.bytesDone + from;
    } else {
      var torn, isOpen := WriteSidecar(target, meta, c.encode(StampOf(t, src)), now);
      if torn.Some? {
        luck := luck.(stop := if isOpen then InSidecar(torn.value) else Early(levels));
        return;
      }
    }
    assert target.fs == StampedFs(c, fs0, t, src, readable, now);
    var readerOpen, writerOpen := *, false;
    if readerOpen {
      writerOpen := target.OpenWriter(partial, from > 0, now);
    }
    if !writerOpen {
      luck := luck.(stop := BeforeTruncate);
      return;
    }
    ready := true;
  }

  /** The chunked copy of one file with its checked resume. The result says how the
      environment behaved; given that, state and counters are determined. */
  method RelayOne(job: Job, progress: Progress, target: Target, t: Transfer, src: Source, chunkSize: nat)
    returns (luck: Luck)
    requires t.targetPath != [] && chunkSize > 0
    modifies job`bytesDone, job`resumedBytes, progress, target
    ensures job.resumedBytes >= old(job.resumedBytes) && progress.streamed >= old(progress.streamed)
    ensures Outcome(target.codec, old(target.fs), t, src, luck, target.fs,
                    job.resumedBytes - old(job.resumedBytes), progress.streamed - old(progress.streamed))
    ensures job.bytesDone - old(job.bytesDone)
            == (job.resumedBytes - old(job.resumedBytes)) + (progress.streamed - old(progress.streamed))
  {
    ghost var fs0 := target.fs;
    var start, ready, from := Prepare(job, target, t, src);
    luck := start;
    if ready {
      luck := CopyAndCommit(job, progress, target, t, src, fs0, start, from, chunkSize);
    }
  }

  /** The copy loop and, once the source is read, the commit. */
  method CopyAndCommit(job: Job, progress: Progress, target: Target, t: Transfer, src: Source,
                       ghost fs0: Fs, start: Luck, from: nat, chunkSize: nat)
    returns (luck: Luck)
    requires chunkSize > 0 && Ready(target.codec, fs0, t, src, start, from, target.fs)
    modifies job`bytesDone, progress, target
    ensures progress.streamed >= old(progress.streamed)
    ensures job.bytesDone - old(job.bytesDone) == progress.streamed - old(progress.streamed)
    ensures Outcome(target.codec, fs0, t, src, luck, target.fs, from, progress.streamed - old(progress.streamed))
  {
    ghost var c := target.codec;
    ScratchNamesApart(t.targetPath, t.targetPath);
    ScratchIsOpen(c, fs0, t, src, start, from, target.fs);
    var n, torn, when, done := CopyLoop(job, progress, target, src, Partial(t.targetPath), from, chunkSize, start.now);
    luck := start.(now := when);
    ScratchAfterCopy(c, fs0, t, src, start.sidecarReadable, start.now, when, n + torn);
    if !done {
      luck := luck.(stop := InCopy(n, torn));
      AttemptStops(c, fs0, t, src, luck, target.fs);
      return;
    }
    ghost var full := target.fs;
    var moved, removed, swept, dated := Commit(target, t.targetPath, src.mtime);
    luck := luck.(stop := if moved then Finished else AtRename(removed), sidecarRemoved := swept, mtimeSet := dated);
    AttemptCommits(c, fs0, t, src, luck, full, target.fs);
  }

  lemma ScratchIsOpen(c: Codec, fs: Fs, t: Transfer, src: Source, start: Luck, from: nat, now: Fs)
    requires Ready(c, fs, t, src, start, from, now)
    ensures from <= |src.data| && Partial(t.targetPath) in now && now[Partial(t.targetPath)].File?
    ensures from == 0 ==> now[Partial(t.targetPath)].mtime == start.now
  {
    ScratchNamesApart(t.targetPath, t.targetPath);
  }

  /** A copy loop cut short, as the attempt's outcome. */
  lemma AttemptStops(c: Codec, fs: Fs, t: Transfer, src: Source, luck: Luck, after: Fs)
    requires t.targetPath != [] && luck.stop.InCopy? && Stageable(c, fs, t, src, luck)
    requires Resumed(c, fs, t, src, luck.sidecarReadable) + luck.stop.streamed + luck.stop.torn <= |src.data|
    requires after == StagedFs(c, fs, t, src, luck.sidecarReadable, luck.now, luck.stop.streamed + luck.stop.torn)
    ensures Outcome(c, fs, t, src, luck, after, Resumed(c, fs, t, src, luck.sidecarReadable), luck.stop.streamed)
  {
  }

  /** The commit of the whole staged file, as the attempt's outcome. */
  lemma AttemptCommits(c: Codec, fs: Fs, t: Transfer, src: Source, luck: Luck, full: Fs, after: Fs)
    requires t.targetPath != [] && Stageable(c, fs, t, src, luck) && (luck.stop.AtRename? || luck.stop.Finished?)
    requires full ==
             StagedFs(c, fs, t, src, luck.sidecarReadable, luck.now,
                      |src.data| - Resumed(c, fs, t, src, luck.sidecarReadable))
    requires luck.stop.AtRename? ==>
               && (luck.stop.removed ==> t.targetPath in full && !full[t.targetPath].Directory?)
               && after == if luck.stop.removed then full - {t.targetPath} else full
    requires luck.stop.Finished? ==>
               && !(t.targetPath in full && full[t.targetPath].Directory?)
               && after == Consumed(full, t.targetPath, src.mtime, luck.sidecarRemoved, luck.mtimeSet)
    ensures var from := Resumed(c, fs, t, src, luck.sidecarReadable);
            Outcome(c, fs, t, src, luck, after, from, |src.data| - from)
  {
    ScratchNamesApart(t.targetPath, t.targetPath);
    TargetInStaged(c, fs, t, src, luck.sidecarReadable, luck.now,
                   |src.data| - Resumed(c, fs, t, src, luck.sidecarReadable));
  }

  /** Staging does not touch the target itself. */
  lemma TargetInStaged(c: Codec, fs: Fs, t: Transfer, src: Source, readable: bool, now: nat, n: nat)
    requires t.targetPath != [] && Resumed(c, fs, t, src, readable) + n <= |src.data|
    ensures var full := StagedFs(c, fs, t, src, readable, now, n);
            (t.targetPath in full <==> t.targetPath in fs)
            && (t.targetPath in fs ==> full[t.targetPath] == fs[t.targetPath])
  {
    ScratchNamesApart(t.targetPath, t.targetPath);
    assert |Parent(t.targetPath)| < |t.targetPath|;
  }

  /** The open scratch file plus `n` source bytes is the staged file; and the time of
      the last write does not matter to what is staged. */
  lemma ScratchAfterCopy(c: Codec, fs: Fs, t: Transfer, src: Source, readable: bool, now: nat, when: nat, n: nat)
    requires t.targetPath != [] && Resumed(c, fs, t, src, readable) + n <= |src.data|
    requires Resumed(c, fs, t, src, readable) == 0 ==> when == now
    ensures var from, stamped := Resumed(c, fs, t, src, readable), StampedFs(c, fs, t, src, readable, now);
            var start := if from > 0 then stamped else stamped[Partial(t.targetPath) := File([], now)];
            && Partial(t.targetPath) in start && start[Partial(t.targetPath)].File?
            && start[Partial(t.targetPath) := File(start[Partial(t.targetPath)].data + src.data[from..from + n], when)]
               == StagedFs(c, fs, t, src, readable, when, n)
  {
  }

  /** Consumes the scratch file: rename, sweep the sidecar, restore the mtime. */
  method Commit(target: Target, path: Path, mtime: nat)
    returns (moved: bool, removed: bool, swept: bool, dated: bool)
    requires path != [] && Partial(path) in target.fs && target.fs[Partial(path)].File?
    modifies target
    ensures moved ==> !(path in old(target.fs) && old(target.fs)[path].Directory?)
    ensures removed ==> path in old(target.fs) && !old(target.fs)[path].Directory?
    ensures !moved ==> target.fs == if removed then old(target.fs) - {path} else old(target.fs)
    ensures moved ==> target.fs == Consumed(old(target.fs), path, mtime, swept, dated)
  {
    swept, dated := false, false;
    ScratchNamesApart(path, path);
    moved, removed := target.Rename(Partial(path), path);
    if !moved {
      return;
    }
    swept := target.Remove(Meta(path));
    if mtime > 0 {
      dated := target.SetMtime(path, mtime);
    }
  }
}
