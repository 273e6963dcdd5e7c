/** Everybody else's lines of an authorized_keys file, over any sequence of edits. */
module KeyLines {
  import opened Common
  import opened AuthorizedKeys

  /** The lines that none of these comments names, without their ends and without empty
      ones. */
  ghost function Others(lines: seq<Bytes>, ours: set<Bytes>): seq<Bytes> {
    if lines == [] then []
    else (if IsOurs(lines[0], ours) || Bare(lines[0]) == [] then [] else [Bare(lines[0])]) + Others(lines[1..], ours)
  }

  predicate IsOurs(line: Bytes, ours: set<Bytes>) {
    CommentOf(line).Some? && CommentOf(line).value in ours
  }

  lemma {:induction false} OthersConcat(a: seq<Bytes>, b: seq<Bytes>, ours: set<Bytes>)
    ensures Others(a + b, ours) == Others(a, ours) + Others(b, ours)
  {
    if a == [] {
      assert a + b == b;
    } else {
      assert (a + b)[1..] == a[1..] + b;
      OthersConcat(a[1..], b, ours);
    }
  }

  lemma OthersOne(line: Bytes, ours: set<Bytes>)
    ensures Others([line], ours) == if IsOurs(line, ours) || Bare(line) == [] then [] else [Bare(line)]
  {
    var none := [line][1..];
    assert Others(none, ours) == [];
  }

  /** One more byte of a line's end changes nothing. */
  lemma LongerEnd(line: Bytes, ours: set<Bytes>)
    ensures Others([line + [NEWLINE]], ours) == Others([line], ours)
  {
    var longer := line + [NEWLINE];
    assert longer[..|longer| - 1] == line;
    EndIgnored(line, [NEWLINE]);
    OthersOne(line, ours);
    OthersOne(longer, ours);
  }

  // ----- putting lines together and taking them apart again --------------------------------

  predicate IsLine(line: Bytes) {
    line != [] && FirstLine(line) == |line|
  }

  predicate Closed(line: Bytes) {
    line != [] && (line[|line| - 1] == NEWLINE || line[|line| - 1] == RETURN)
  }

  /** Lines of a file, perhaps with some of them taken out. */
  ghost predicate LineUp(lines: seq<Bytes>) {
    && (forall i :: 0 <= i < |lines| ==> IsLine(lines[i]))
    && (forall i :: 0 <= i < |lines| - 1 ==> Closed(lines[i]))
  }

  /** The first line alone is one line, and closed unless it is the whole file. */
  lemma {:induction false} FirstLineAlone(s: Bytes)
    requires s != []
    ensures IsLine(s[..FirstLine(s)]) && (FirstLine(s) < |s| ==> Closed(s[..FirstLine(s)]))
    decreases |s|
  {
    var n := FirstLine(s);
    if s[0] != NEWLINE && s[0] != RETURN && |s| > 1 {
      FirstLineAlone(s[1..]);
      assert s[..n][1..] == s[1..][..n - 1];
      assert s[..n][n - 1] == s[1..][n - 2];
    }
  }

  lemma {:induction false} LinesLineUp(s: Bytes)
    ensures LineUp(Lines(s))
    decreases |s|
  {
    if s != [] {
      var n := FirstLine(s);
      FirstLineAlone(s);
      LinesLineUp(s[n..]);
    }
  }

  lemma LineUpWithout(lines: seq<Bytes>, i: nat)
    requires LineUp(lines) && i < |lines|
    ensures LineUp(lines[..i] + lines[i + 1..])
  {
  }

  /** What follows a closed line does not reach into it, but for a newline after a return. */
  lemma {:induction false} ClosedFront(line: Bytes, rest: Bytes)
    requires IsLine(line) && Closed(line) && rest != []
    ensures FirstLine(line + rest) == |line| + if line[|line| - 1] == RETURN && rest[0] == NEWLINE then 1 else 0
    decreases |line|
  {
    var all := line + rest;
    assert all[0] == line[0];
    if line[0] == RETURN {
      assert |line| > 1 ==> all[1] == line[1];
      assert |line| == 1 ==> all[1] == rest[0];
    } else if line[0] != NEWLINE {
      assert |line| > 1;
      assert all[1..] == line[1..] + rest;
      ClosedFront(line[1..], rest);
    }
  }

  /** A file written from such lines has the same lines of others as they are: at most an
      empty line melts into a return before it. */
  lemma {:induction false} OthersRewritten(lines: seq<Bytes>, ours: set<Bytes>)
    requires LineUp(lines)
    ensures Others(Lines(Concat(lines)), ours) == Others(lines, ours)
    decreases |lines|
  {
    if |lines| == 1 {
      WholeLine(lines[0]);
      assert lines[1..] == [] && Concat(lines) == lines[0] + Concat(lines[1..]) == lines[0];
      assert lines == [lines[0]];
    } else if |lines| > 1 {
      var first, rest := lines[0], Concat(lines[1..]);
      assert LineUp(lines[1..]) && lines[1..][0] == lines[1];
      assert rest == lines[1] + Concat(lines[1..][1..]);
      ClosedFront(first, rest);
      if first[|first| - 1] == RETURN && rest[0] == NEWLINE {
        MeltedLine(lines, ours);
      } else {
        assert (first + rest)[..|first|] == first && (first + rest)[|first|..] == rest;
        OthersRewritten(lines[1..], ours);
        OthersConcat([first], Lines(rest), ours);
        OthersConcat([first], lines[1..], ours);
        assert lines == [first] + lines[1..];
      }
    }
  }

  lemma WholeLine(line: Bytes)
    requires IsLine(line)
    ensures Lines(line) == [line]
  {
    assert line[..|line|] == line && line[|line|..] == [];
  }

  lemma {:induction false} MeltedLine(lines: seq<Bytes>, ours: set<Bytes>)
    requires LineUp(lines) && |lines| > 1 && lines[0][|lines[0]| - 1] == RETURN && lines[1][0] == NEWLINE
    ensures Others(Lines(Concat(lines)), ours) == Others(lines, ours)
    decreases |lines|, 0
  {
    var first, later := lines[0], lines[2..];
    assert lines[1] == [NEWLINE];
    assert lines[1..][0] == lines[1] && lines[1..][1..] == later;
    assert LineUp(later);
    MeltedLines(first, Concat(later));
    OthersRewritten(later, ours);
    assert lines == [first] + ([[NEWLINE]] + later);
    MeltedOthers(first, Lines(Concat(later)), later, ours);
  }

  lemma MeltedLines(first: Bytes, later: Bytes)
    requires IsLine(first) && first[|first| - 1] == RETURN
    ensures Lines(first + ([NEWLINE] + later)) == [first + [NEWLINE]] + Lines(later)
  {
    var n, all := |first| + 1, first + ([NEWLINE] + later);
    ClosedFront(first, [NEWLINE] + later);
    assert all[..n] == first + [NEWLINE] && all[n..] == later;
  }

  lemma MeltedOthers(first: Bytes, again: seq<Bytes>, later: seq<Bytes>, ours: set<Bytes>)
    requires Others(again, ours) == Others(later, ours)
    ensures Others([first + [NEWLINE]] + again, ours) == Others([first] + ([[NEWLINE]] + later), ours)
  {
    OthersConcat([first + [NEWLINE]], again, ours);
    LongerEnd(first, ours);
    OthersConcat([first], [[NEWLINE]] + later, ours);
    OthersConcat([[NEWLINE]], later, ours);
    OthersOne([NEWLINE], ours);
    EmptyBare();
  }

  lemma EmptyBare()
    ensures Bare([NEWLINE]) == []
  {
    assert [NEWLINE][..0] == [];
  }

  // ----- one edit --------------------------------------------------------------------------------

  ghost function OthersOf(content: Option<Bytes>, ours: set<Bytes>): seq<Bytes> {
    Others(Lines(BytesOf(content)), ours)
  }

  ghost predicate Ours(q: Request, ours: set<Bytes>) {
    q.comment in ours && (q.Add? ==> Pieces(q.options, q.keyType, q.blob, q.comment))
  }

  ghost predicate MustWrite(existing: Bytes, q: Request, digest: Fingerprint) {
    if q.Add? then !HasComment(existing, q.comment)
    else RemovalFrom(Lines(existing), q.comment, q.fingerprint, digest).Removed?
  }

  /** The edit must write, the session cannot rename over the old file, removes it, and
      then cannot rename either. */
  ghost predicate Loses(content: Option<Bytes>, q: Request, digest: Fingerprint, luck: Luck) {
    && content.Some? && MustWrite(content.value, q, digest)
    && luck.staged && !luck.overwrites && luck.removes && !luck.renames
  }

  lemma OthersOfBase(existing: Bytes, ours: set<Bytes>)
    ensures Others(Lines(Base(existing)), ours) == Others(Lines(existing), ours)
  {
    if Base(existing) != existing {
      LinesExtended(existing);
      var lines := Lines(existing);
      var front, last := lines[..|lines| - 1], lines[|lines| - 1];
      assert lines == front + [last];
      OthersConcat(front, [last], ours);
      OthersConcat(front, [last + [NEWLINE]], ours);
      LongerEnd(last, ours);
    }
  }

  lemma AppendedOthers(existing: Bytes, q: Request, ours: set<Bytes>)
    requires q.Add? && Ours(q, ours)
    ensures Others(Lines(AppendLine(existing, Restricted(q.options, q.keyType, q.blob, q.comment))), ours) ==
            Others(Lines(existing), ours)
  {
    var line := Restricted(q.options, q.keyType, q.blob, q.comment);
    RestrictedFields(q.options, q.keyType, q.blob, q.comment);
    AppendedLines(existing, line);
    OthersConcat(Lines(Base(existing)), [line + [NEWLINE]], ours);
    LongerEnd(line, ours);
    OthersOne(line, ours);
    OthersOfBase(existing, ours);
  }

  lemma RemovedOthers(existing: Bytes, q: Request, digest: Fingerprint, ours: set<Bytes>, kept: seq<Bytes>)
    requires q.Drop? && Ours(q, ours) && RemovalFrom(Lines(existing), q.comment, q.fingerprint, digest) == Removed(kept)
    ensures Others(Lines(Concat(kept)), ours) == Others(Lines(existing), ours)
  {
    var lines := Lines(existing);
    var i := RemovalDropsOne(lines, q.comment, q.fingerprint, digest);
    LinesLineUp(existing);
    LineUpWithout(lines, i);
    OthersRewritten(kept, ours);
    OthersWithout(lines, i, ours);
  }

  lemma OthersWithout(lines: seq<Bytes>, i: nat, ours: set<Bytes>)
    requires i < |lines| && IsOurs(lines[i], ours)
    ensures Others(lines[..i] + lines[i + 1..], ours) == Others(lines, ours)
  {
    assert lines == lines[..i] + ([lines[i]] + lines[i + 1..]);
    OthersConcat(lines[..i], [lines[i]] + lines[i + 1..], ours);
    OthersConcat([lines[i]], lines[i + 1..], ours);
    OthersConcat(lines[..i], lines[i + 1..], ours);
    OthersOne(lines[i], ours);
  }

  /** An edit that does not lose the file keeps everybody else's lines, in order. */
  lemma ServedOthers(content: Option<Bytes>, q: Request, digest: Fingerprint, luck: Luck, ours: set<Bytes>)
    requires Ours(q, ours)
    ensures OthersOf(Served(content, q, digest, luck), ours) ==
            if Loses(content, q, digest, luck) then [] else OthersOf(content, ours)
  {
    var existing := BytesOf(content);
    match q
    case Add(_, _, _, _) => AppendedOthers(existing, q, ours);
    case Drop(comment, fingerprint) =>
      var outcome := RemovalFrom(Lines(existing), comment, fingerprint, digest);
      if outcome.Removed? {
        RemovedOthers(existing, q, digest, ours, outcome.kept);
      }
  }

  // ----- any sequence of edits ---------------------------------------------------------------------

  datatype Try = Try(request: Request, luck: Luck)

  ghost function After(content: Option<Bytes>, tries: seq<Try>, digest: Fingerprint): Option<Bytes> {
    if tries == [] then content
    else
      var last := tries[|tries| - 1];
      Served(After(content, tries[..|tries| - 1], digest), last.request, digest, last.luck)
  }

  ghost predicate LosesAt(content: Option<Bytes>, tries: seq<Try>, digest: Fingerprint, k: nat)
    requires k < |tries|
  {
    Loses(After(content, tries[..k], digest), tries[k].request, digest, tries[k].luck)
  }

  ghost predicate NoneLoses(content: Option<Bytes>, tries: seq<Try>, digest: Fingerprint) {
    forall k :: 0 <= k < |tries| ==> !LosesAt(content, tries, digest, k)
  }

  lemma NoneLosesMore(content: Option<Bytes>, tries: seq<Try>, digest: Fingerprint, n: nat)
    requires |tries| == n + 1
    ensures NoneLoses(content, tries, digest)
            <==> NoneLoses(content, tries[..n], digest) && !LosesAt(content, tries, digest, n)
  {
    forall k | 0 <= k < n ensures LosesAt(content, tries[..n], digest, k) == LosesAt(content, tries, digest, k) {
      assert tries[..n][..k] == tries[..k];
    }
  }

  lemma {:induction false} OthersAfter(content: Option<Bytes>, tries: seq<Try>, digest: Fingerprint, ours: set<Bytes>)
    requires forall t <- tries :: Ours(t.request, ours)
    ensures OthersOf(After(content, tries, digest), ours) ==
            if NoneLoses(content, tries, digest) then OthersOf(content, ours) else []
  {
    if tries != [] {
      var n := |tries| - 1;
      assert tries[n] in tries && forall t <- tries[..n] :: t in tries;
      OthersAfter(content, tries[..n], digest, ours);
      ServedOthers(After(content, tries[..n], digest), tries[n].request, digest, tries[n].luck, ours);
      NoneLosesMore(content, tries, digest, n);
    }
  }

  /** After any sequence of additions and removals, with any failures, the lines that the
      service does not manage are all there, unchanged and in order, if and only if there
      were none or no edit lost the file between a removal and a rename. */
  lemma UserLinesSurviveIff(content: Option<Bytes>, tries: seq<Try>, digest: Fingerprint, ours: set<Bytes>)
    requires forall t <- tries :: Ours(t.request, ours)
    ensures OthersOf(After(content, tries, digest), ours) == OthersOf(content, ours)
            <==> OthersOf(content, ours) == [] || forall k :: 0 <= k < |tries| ==> !LosesAt(content, tries, digest, k)
  {
    OthersAfter(content, tries, digest, ours);
  }

  /** So adding a key can cost a user every other key. */
  lemma AddingCanLose(existing: Bytes, q: Request, digest: Fingerprint)
    requires q.Add? && !HasComment(existing, q.comment)
    ensures Served(Some(existing), q, digest, Luck(true, false, true, false)) == None
  {
  }
}
