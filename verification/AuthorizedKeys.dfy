/** Byte-preserving edits of an authorized_keys file: one restricted line appended, and
    one line removed by its comment and key. */
module AuthorizedKeys {
  import opened Common

  // ----- lines -------------------------------------------------------------------------

  const NEWLINE: Byte := 10
  const RETURN: Byte := 13
  const BLANK: Byte := 32

  /** The length of the first line with its end: a newline, a return, or both. */
  function FirstLine(s: Bytes): (n: nat)
    requires s != []
    ensures 0 < n <= |s|
  {
    if s[0] == NEWLINE then 1
    else if s[0] == RETURN then if |s| > 1 && s[1] == NEWLINE then 2 else 1
    else if |s| == 1 then 1
    else FirstLine(s[1..]) + 1
  }

  /** The lines of a file with their ends kept. */
  function Lines(s: Bytes): seq<Bytes> {
    if s == [] then [] else [s[..FirstLine(s)]] + Lines(s[FirstLine(s)..])
  }

  function Concat(lines: seq<Bytes>): Bytes {
    if lines == [] then [] else lines[0] + Concat(lines[1..])
  }

  lemma {:induction false} LinesConcat(s: Bytes)
    ensures Concat(Lines(s)) == s
    decreases |s|
  {
    if s != [] {
      LinesConcat(s[FirstLine(s)..]);
      assert Lines(s)[1..] == Lines(s[FirstLine(s)..]);
    }
  }

  predicate Ended(s: Bytes) {
    s != [] && s[|s| - 1] == NEWLINE
  }

  ghost predicate OneLine(s: Bytes) {
    s != [] && forall i :: 0 <= i < |s| ==> s[i] != NEWLINE && s[i] != RETURN
  }

  lemma {:induction false} FirstLineFront(s: Bytes, rest: Bytes)
    requires Ended(s)
    ensures FirstLine(s + rest) == FirstLine(s)
    decreases |s|
  {
    var all := s + rest;
    assert all[0] == s[0];
    if s[0] != NEWLINE {
      assert |s| > 1 && all[1] == s[1];
      if s[0] != RETURN {
        assert all[1..] == s[1..] + rest;
        FirstLineFront(s[1..], rest);
      }
    }
  }

  /** Lines of a file that ends in a newline do not reach into what follows. */
  lemma {:induction false} LinesFront(s: Bytes, rest: Bytes)
    requires s == [] || Ended(s)
    ensures Lines(s + rest) == Lines(s) + Lines(rest)
    decreases |s|
  {
    if s == [] {
      assert s + rest == rest;
    } else {
      var n := FirstLine(s);
      FirstLineFront(s, rest);
      assert (s + rest)[..n] == s[..n] && (s + rest)[n..] == s[n..] + rest;
      LinesFront(s[n..], rest);
    }
  }

  lemma {:induction false} OneLineLine(s: Bytes)
    requires OneLine(s)
    ensures FirstLine(s) == |s| && FirstLine(s + [NEWLINE]) == |s| + 1
    decreases |s|
  {
    var all := s + [NEWLINE];
    assert all[0] == s[0];
    if |s| == 1 {
      assert all[1..] == [NEWLINE];
      assert FirstLine(all[1..]) == 1;
    } else {
      assert all[1..] == s[1..] + [NEWLINE];
      OneLineLine(s[1..]);
    }
  }

  lemma EndedOneLine(s: Bytes)
    requires OneLine(s)
    ensures Lines(s + [NEWLINE]) == [s + [NEWLINE]]
  {
    var all := s + [NEWLINE];
    OneLineLine(s);
    assert all[..|all|] == all && all[|all|..] == [];
  }

  // ----- fields ------------------------------------------------------------------------

  /** What separates fields; surrounding whitespace of a line is among it. */
  predicate Space(b: Byte) {
    9 <= b <= 13 || 28 <= b <= 32
  }

  function Fields(s: Bytes): (fields: seq<Bytes>)
    ensures s != [] && !Space(s[|s| - 1]) ==> fields != []
  {
    if s == [] then []
    else
      var before, b := Fields(s[..|s| - 1]), s[|s| - 1];
      if Space(b) then before
      else if |s| > 1 && !Space(s[|s| - 2]) then before[|before| - 1 := before[|before| - 1] + [b]]
      else before + [[b]]
  }

  predicate Ascii(s: Bytes) {
    forall b <- s :: b < 128
  }

  function Field(line: Bytes, fromEnd: nat): Option<Bytes>
    requires 1 <= fromEnd <= 3
  {
    if Ascii(line) && |Fields(line)| >= 3 then Some(Fields(line)[|Fields(line)| - fromEnd]) else None
  }

  /** The last of at least three fields. */
  function CommentOf(line: Bytes): Option<Bytes> {
    Field(line, 1)
  }

  /** The one before: the key blob. */
  function BlobOf(line: Bytes): Option<Bytes> {
    Field(line, 2)
  }

  ghost predicate Unspaced(w: Bytes) {
    w != [] && forall i :: 0 <= i < |w| ==> !Space(w[i])
  }

  ghost predicate Word(w: Bytes) {
    Unspaced(w) && Ascii(w)
  }

  lemma FieldsSpace(s: Bytes, b: Byte)
    requires Space(b)
    ensures Fields(s + [b]) == Fields(s)
  {
    assert (s + [b])[..|s|] == s;
  }

  lemma FieldsNext(s: Bytes, b: Byte)
    requires !Space(b)
    ensures s == [] || Space(s[|s| - 1]) ==> Fields(s + [b]) == Fields(s) + [[b]]
    ensures s != [] && !Space(s[|s| - 1]) ==>
              Fields(s) != [] && Fields(s + [b]) == Fields(s)[|Fields(s)| - 1 := Fields(s)[|Fields(s)| - 1] + [b]]
  {
    assert (s + [b])[..|s|] == s;
  }

  lemma {:induction false} FieldsWord(s: Bytes, w: Bytes, whole: Bytes)
    requires Unspaced(w) && (s == [] || Space(s[|s| - 1])) && whole == s + w
    ensures Fields(whole) == Fields(s) + [w]
    decreases |w|
  {
    var k := |w| - 1;
    var short, b := whole[..|whole| - 1], w[k];
    LastByte(s, w, whole);
    if k == 0 {
      FieldsNext(s, b);
      assert [b] == w;
    } else {
      FieldsWord(s, w[..k], short);
      WordGrows(Fields(s), short, w[..k], b, w, whole);
    }
  }

  lemma LastByte(s: Bytes, w: Bytes, whole: Bytes)
    requires w != [] && whole == s + w
    ensures var short := whole[..|whole| - 1];
            whole == short + [w[|w| - 1]] && short == s + w[..|w| - 1] && w == w[..|w| - 1] + [w[|w| - 1]]
    ensures |w| == 1 ==> whole[..|whole| - 1] == s
    ensures |w| > 1 ==> whole[..|whole| - 1] != [] && whole[..|whole| - 1][|whole| - 2] == w[|w| - 2]
  {
  }

  lemma WordGrows(before: seq<Bytes>, short: Bytes, front: Bytes, b: Byte, w: Bytes, whole: Bytes)
    requires Fields(short) == before + [front] && short != [] && !Space(short[|short| - 1]) && !Space(b)
    requires w == front + [b] && whole == short + [b]
    ensures Fields(whole) == before + [w]
  {
    FieldsNext(short, b);
    assert (before + [front])[|before| := w] == before + [w];
  }

  /** The end of a line does not matter for its fields. */
  lemma {:induction false} EndIgnored(line: Bytes, end: Bytes)
    requires forall b <- end :: b == NEWLINE || b == RETURN
    ensures CommentOf(line + end) == CommentOf(line) && BlobOf(line + end) == BlobOf(line)
    decreases |end|
  {
    if end == [] {
      assert line + end == line;
    } else {
      var k := |end| - 1;
      assert end[k] in end && forall b <- end[..k] :: b in end;
      EndIgnored(line, end[..k]);
      assert line + end == (line + end[..k]) + [end[k]];
      FieldsSpace(line + end[..k], end[k]);
      SameAscii(line + end[..k], end[k]);
    }
  }

  lemma SameAscii(s: Bytes, b: Byte)
    requires b < 128
    ensures Ascii(s + [b]) == Ascii(s)
  {
    assert forall c <- s :: c in s + [b];
  }

  /** A line without its end. */
  function Bare(line: Bytes): (r: Bytes)
    ensures r <= line && forall b <- line[|r|..] :: b == NEWLINE || b == RETURN
  {
    if line != [] && (line[|line| - 1] == NEWLINE || line[|line| - 1] == RETURN) then
      var r := Bare(line[..|line| - 1]);
      assert line[|r|..] == line[..|line| - 1][|r|..] + [line[|line| - 1]];
      r
    else line
  }

  lemma BareSame(line: Bytes)
    ensures CommentOf(Bare(line)) == CommentOf(line)
  {
    assert line == Bare(line) + line[|Bare(line)|..];
    EndIgnored(Bare(line), line[|Bare(line)|..]);
  }

  // ----- appending ------------------------------------------------------------------------

  function Base(existing: Bytes): Bytes {
    if existing == [] || Ended(existing) then existing else existing + [NEWLINE]
  }

  function AppendLine(existing: Bytes, line: Bytes): Bytes {
    Base(existing) + line + [NEWLINE]
  }

  ghost predicate HasComment(content: Bytes, comment: Bytes) {
    exists line :: line in Lines(content) && CommentOf(line) == Some(comment)
  }

  /** `options type blob comment` */
  function Restricted(options: Bytes, keyType: Bytes, blob: Bytes, comment: Bytes): Bytes {
    options + [BLANK] + keyType + [BLANK] + blob + [BLANK] + comment
  }

  /** What the pieces of a restricted line are: options on one line, and three words. */
  ghost predicate Pieces(options: Bytes, keyType: Bytes, blob: Bytes, comment: Bytes) {
    OneLine(options) && Ascii(options) && Word(keyType) && Word(blob) && Word(comment)
  }

  /** A line of two words has no comment; of three the last one is the comment. */
  lemma PlainFields(first: Bytes, second: Bytes, third: Bytes)
    requires OneLine(first) && Word(first) && Word(second) && Word(third)
    ensures CommentOf(first + [BLANK] + second) == None
    ensures CommentOf(first + [BLANK] + second + [BLANK] + third) == Some(third)
    ensures BlobOf(first + [BLANK] + second + [BLANK] + third) == Some(second)
  {
    FieldsWord([], first, first);
    OneMoreWord(first, second);
    OneMoreWord(first + [BLANK] + second, third);
  }

  lemma OneMoreWord(s: Bytes, w: Bytes)
    requires OneLine(s) && Ascii(s) && Word(w)
    ensures Fields(s + [BLANK] + w) == Fields(s) + [w]
    ensures OneLine(s + [BLANK] + w) && Ascii(s + [BLANK] + w)
  {
    FieldsSpace(s, BLANK);
    FieldsWord(s + [BLANK], w, s + [BLANK] + w);
  }

  lemma RestrictedFields(options: Bytes, keyType: Bytes, blob: Bytes, comment: Bytes)
    requires Pieces(options, keyType, blob, comment)
    ensures var line := Restricted(options, keyType, blob, comment);
            OneLine(line) && CommentOf(line) == Some(comment) && BlobOf(line) == Some(blob)
  {
    OneMoreWord(options, keyType);
    OneMoreWord(options + [BLANK] + keyType, blob);
    OneMoreWord(options + [BLANK] + keyType + [BLANK] + blob, comment);
  }

  // ----- removing ---------------------------------------------------------------------------

  /** The fingerprint of a key blob, `None` when the blob cannot be decoded. */
  type Fingerprint = Bytes -> Option<Bytes>

  /** How one line stands to a removal: not meant, another key under the same comment, the
      one to remove, or a blob that cannot be decoded. */
  datatype Verdict = NotMeant | OtherKey | Meant | Undecodable

  function VerdictOn(line: Bytes, comment: Bytes, fingerprint: Option<Bytes>, digest: Fingerprint): Verdict {
    if CommentOf(line) != Some(comment) then NotMeant
    else if fingerprint.None? then Meant
    else if BlobOf(line).None? then OtherKey
    else if digest(BlobOf(line).value).None? then Undecodable
    else if digest(BlobOf(line).value) != fingerprint then OtherKey
    else Meant
  }

  datatype Removal = Absent | Removed(kept: seq<Bytes>) | Raised

  /** The first line that is meant goes, all others stay. */
  function RemovalFrom(lines: seq<Bytes>, comment: Bytes, fingerprint: Option<Bytes>, digest: Fingerprint): Removal {
    if lines == [] then Absent
    else
      match VerdictOn(lines[0], comment, fingerprint, digest)
      case Undecodable => Raised
      case Meant => Removed(lines[1..])
      case _ =>
        match RemovalFrom(lines[1..], comment, fingerprint, digest)
        case Removed(kept) => Removed([lines[0]] + kept)
        case other => other
  }

  predicate Stays(line: Bytes, comment: Bytes, fingerprint: Option<Bytes>, digest: Fingerprint) {
    VerdictOn(line, comment, fingerprint, digest).NotMeant? || VerdictOn(line, comment, fingerprint, digest).OtherKey?
  }

  /** The line has the comment and, when a fingerprint is known, a key with it. */
  predicate HasKey(line: Bytes, comment: Bytes, fingerprint: Option<Bytes>, digest: Fingerprint) {
    && CommentOf(line) == Some(comment)
    && (fingerprint.Some? ==> BlobOf(line).Some? && digest(BlobOf(line).value) == fingerprint)
  }

  /** The line has the comment, and a key to compare that cannot be decoded. */
  predicate Unreadable(line: Bytes, comment: Bytes, fingerprint: Option<Bytes>, digest: Fingerprint) {
    CommentOf(line) == Some(comment) && fingerprint.Some? && BlobOf(line).Some? && digest(BlobOf(line).value).None?
  }

  /** A removal drops exactly one line, the first with this comment and key, and keeps all
      other lines in order, also one with the comment and another key; it finds nothing
      exactly when no line has both, and stops at a key it cannot decode. */
  lemma RemovalDropsOne(lines: seq<Bytes>, comment: Bytes, fingerprint: Option<Bytes>, digest: Fingerprint)
    returns (i: nat)
    ensures i <= |lines|
    ensures forall j :: 0 <= j < i ==>
              !HasKey(lines[j], comment, fingerprint, digest) && !Unreadable(lines[j], comment, fingerprint, digest)
    ensures match RemovalFrom(lines, comment, fingerprint, digest)
            case Absent => i == |lines|
            case Removed(kept) =>
              i < |lines| && HasKey(lines[i], comment, fingerprint, digest) && kept == lines[..i] + lines[i + 1..]
            case Raised => i < |lines| && Unreadable(lines[i], comment, fingerprint, digest)
  {
    i := FirstNotStaying(lines, comment, fingerprint, digest);
  }

  lemma {:induction false} FirstNotStaying(lines: seq<Bytes>, comment: Bytes, fingerprint: Option<Bytes>,
                                           digest: Fingerprint)
    returns (i: nat)
    ensures i <= |lines| && forall j :: 0 <= j < i ==> Stays(lines[j], comment, fingerprint, digest)
    ensures match RemovalFrom(lines, comment, fingerprint, digest)
            case Absent => i == |lines|
            case Removed(kept) =>
              i < |lines| && VerdictOn(lines[i], comment, fingerprint, digest).Meant?
              && kept == lines[..i] + lines[i + 1..]
            case Raised => i < |lines| && VerdictOn(lines[i], comment, fingerprint, digest).Undecodable?
  {
    i := 0;
    if lines != [] && Stays(lines[0], comment, fingerprint, digest) {
      var rest := lines[1..];
      var k := FirstNotStaying(rest, comment, fingerprint, digest);
      i := k + 1;
      assert k < |rest| ==> rest[k] == lines[k + 1];
      SkippedMore(lines, k);
      forall j | 0 <= j < i ensures Stays(lines[j], comment, fingerprint, digest) {
        assert j > 0 ==> lines[j] == rest[j - 1];
      }
    }
  }

  lemma SkippedMore(lines: seq<Bytes>, k: nat)
    requires lines != []
    ensures k < |lines[1..]| ==> [lines[0]] + (lines[1..][..k] + lines[1..][k + 1..]) == lines[..k + 1] + lines[k + 2..]
  {
  }

  // ----- append, then remove --------------------------------------------------------------

  lemma {:induction false} FirstLineMore(s: Bytes)
    requires s != [] && !Ended(s)
    ensures FirstLine(s + [NEWLINE]) == if FirstLine(s) == |s| then |s| + 1 else FirstLine(s)
    decreases |s|
  {
    var all := s + [NEWLINE];
    assert all[0] == s[0];
    if s[0] == RETURN {
      assert |s| > 1 ==> all[1] == s[1];
    } else if |s| > 1 {
      assert all[1..] == s[1..] + [NEWLINE];
      FirstLineMore(s[1..]);
    } else {
      assert all[1..] == [NEWLINE];
      assert FirstLine(all[1..]) == 1;
    }
  }

  /** A newline after an unterminated last line becomes part of it. */
  lemma {:induction false} LinesExtended(s: Bytes)
    requires s != [] && !Ended(s)
    ensures var lines := Lines(s);
            lines != [] && Lines(s + [NEWLINE]) == lines[..|lines| - 1] + [lines[|lines| - 1] + [NEWLINE]]
    decreases |s|
  {
    var n, all := FirstLine(s), s + [NEWLINE];
    FirstLineMore(s);
    if n == |s| {
      assert s[..n] == s && s[n..] == [] && all[..n + 1] == all && all[n + 1..] == [];
    } else {
      var rest := s[n..];
      assert all[..n] == s[..n] && all[n..] == rest + [NEWLINE];
      LinesExtended(rest);
      assert Lines(s) == [s[..n]] + Lines(rest);
      OneMoreFront(s[..n], Lines(rest));
    }
  }

  lemma OneMoreFront(front: Bytes, lines: seq<Bytes>)
    requires lines != []
    ensures ([front] + lines)[..|lines|] + [([front] + lines)[|lines|] + [NEWLINE]]
            == [front] + (lines[..|lines| - 1] + [lines[|lines| - 1] + [NEWLINE]])
  {
  }

  lemma BaseComments(existing: Bytes, comment: Bytes)
    ensures HasComment(Base(existing), comment) ==> HasComment(existing, comment)
  {
    if Base(existing) != existing && HasComment(Base(existing), comment) {
      LinesExtended(existing);
      var lines := Lines(existing);
      var line :| line in Lines(Base(existing)) && CommentOf(line) == Some(comment);
      var last := lines[|lines| - 1];
      EndIgnored(last, [NEWLINE]);
      assert line == last + [NEWLINE] || line in lines;
      assert last in lines;
    }
  }

  lemma AppendedLines(existing: Bytes, line: Bytes)
    requires OneLine(line)
    ensures Lines(AppendLine(existing, line)) == Lines(Base(existing)) + [line + [NEWLINE]]
  {
    assert AppendLine(existing, line) == Base(existing) + (line + [NEWLINE]);
    LinesFront(Base(existing), line + [NEWLINE]);
    EndedOneLine(line);
  }

  lemma {:induction false} LastIsMeant(lines: seq<Bytes>, last: Bytes, comment: Bytes, fingerprint: Option<Bytes>,
                                       digest: Fingerprint)
    requires forall i :: 0 <= i < |lines| ==> CommentOf(lines[i]) != Some(comment)
    requires VerdictOn(last, comment, fingerprint, digest).Meant?
    ensures RemovalFrom(lines + [last], comment, fingerprint, digest) == Removed(lines)
  {
    var all := lines + [last];
    if lines == [] {
      assert all == [last] && all[1..] == [];
    } else {
      assert all[0] == lines[0] && all[1..] == lines[1..] + [last];
      LastIsMeant(lines[1..], last, comment, fingerprint, digest);
      assert [lines[0]] + lines[1..] == lines;
    }
  }

  /** Appending the restricted line for an absent comment and removing it again by that
      comment and its own fingerprint, or by the comment alone, restores the file, with at
      most one newline after a last line that had none. */
  lemma AppendThenRemove(existing: Bytes, options: Bytes, keyType: Bytes, blob: Bytes, comment: Bytes,
                         fingerprint: Option<Bytes>, digest: Fingerprint)
    requires Pieces(options, keyType, blob, comment) && !HasComment(existing, comment)
    requires fingerprint.Some? ==> digest(blob) == fingerprint
    ensures var content := AppendLine(existing, Restricted(options, keyType, blob, comment));
            && RemovalFrom(Lines(content), comment, fingerprint, digest) == Removed(Lines(Base(existing)))
            && Concat(Lines(Base(existing))) == Base(existing)
    ensures Base(existing) == existing + if existing != [] && existing[|existing| - 1] != 10 then [10] else []
  {
    var line := Restricted(options, keyType, blob, comment);
    RestrictedFields(options, keyType, blob, comment);
    AppendedLines(existing, line);
    EndIgnored(line, [NEWLINE]);
    BaseComments(existing, comment);
    forall i | 0 <= i < |Lines(Base(existing))| ensures CommentOf(Lines(Base(existing))[i]) != Some(comment) {
      assert Lines(Base(existing))[i] in Lines(Base(existing));
    }
    LastIsMeant(Lines(Base(existing)), line + [NEWLINE], comment, fingerprint, digest);
    LinesConcat(Base(existing));
  }

  /** The appended comment is there afterwards, so appending again changes nothing. */
  lemma AppendedHasComment(existing: Bytes, options: Bytes, keyType: Bytes, blob: Bytes, comment: Bytes)
    requires Pieces(options, keyType, blob, comment)
    ensures HasComment(AppendLine(existing, Restricted(options, keyType, blob, comment)), comment)
  {
    var line := Restricted(options, keyType, blob, comment);
    RestrictedFields(options, keyType, blob, comment);
    AppendedLines(existing, line);
    EndIgnored(line, [NEWLINE]);
    assert line + [NEWLINE] in Lines(AppendLine(existing, line));
  }

  // ----- the remote file -------------------------------------------------------------------

  /** What the session lets a write do: write the new file beside the old one, rename it
      over the old one, or else remove the old one and rename again. */
  datatype Luck = Luck(staged: bool, overwrites: bool, removes: bool, renames: bool)

  predicate Works(content: Option<Bytes>, luck: Luck) {
    luck.staged && (luck.overwrites || (luck.renames && (content.None? || luck.removes)))
  }

  /** The write got past the removal of the old file. */
  predicate PastRemoval(luck: Luck) {
    luck.staged && !luck.overwrites && luck.removes
  }

  function Written(content: Option<Bytes>, data: Bytes, luck: Luck): Option<Bytes> {
    if Works(content, luck) then Some(data) else if PastRemoval(luck) then None else content
  }

  datatype Edit = Changed | Unchanged | Failed

  /** What the service asks of the file: a line to be there, or one to go. */
  datatype Request =
    | Add(options: Bytes, keyType: Bytes, blob: Bytes, comment: Bytes)
    | Drop(comment: Bytes, fingerprint: Option<Bytes>)

  function BytesOf(content: Option<Bytes>): Bytes {
    if content.None? then [] else content.value
  }

  /** The file after a request. */
  ghost function Served(content: Option<Bytes>, q: Request, digest: Fingerprint, luck: Luck): Option<Bytes> {
    match q
    case Add(options, keyType, blob, comment) =>
      if HasComment(BytesOf(content), comment) then content
      else Written(content, AppendLine(BytesOf(content), Restricted(options, keyType, blob, comment)), luck)
    case Drop(comment, fingerprint) =>
      var outcome := RemovalFrom(Lines(BytesOf(content)), comment, fingerprint, digest);
      if outcome.Removed? then Written(content, Concat(outcome.kept), luck) else content
  }

  class KeyFile {
    /** `None` when the file does not exist. */
    var content: Option<Bytes>

    function Existing(): Bytes
      reads this
    {
      BytesOf(content)
    }

    /** Written beside, then renamed over. */
    method Write(data: Bytes, luck: Luck) returns (ok: bool)
      modifies this
      ensures ok == Works(old(content), luck) && content == Written(old(content), data, luck)
    {
      if !luck.staged {
        return false;
      }
      ok := Rename(data, luck);
    }

    /** The session's rename: without the overwriting one, remove and rename. */
    method Rename(data: Bytes, luck: Luck) returns (ok: bool)
      requires luck.staged
      modifies this
      ensures ok == Works(old(content), luck) && content == Written(old(content), data, luck)
    {
      if luck.overwrites {
        content := Some(data);
        return true;
      }
      if content.Some? {
        if !luck.removes {
          return false;
        }
        content := None;
      }
      if luck.renames {
        content := Some(data);
      }
      return luck.renames;
    }

    method Ensure(options: Bytes, keyType: Bytes, blob: Bytes, comment: Bytes, luck: Luck) returns (r: Edit)
      modifies this
      ensures r.Unchanged? <==> HasComment(old(Existing()), comment)
      ensures !r.Unchanged? ==> (r.Changed? <==> Works(old(content), luck))
      ensures forall digest: Fingerprint ::
                content == Served(old(content), Add(options, keyType, blob, comment), digest, luck)
    {
      var lines := Lines(Existing());
      for i := 0 to |lines|
        invariant content == old(content)
        invariant forall j :: 0 <= j < i ==> CommentOf(lines[j]) != Some(comment)
      {
        BareSame(lines[i]);
        if CommentOf(Bare(lines[i])) == Some(comment) {
          assert lines[i] in lines;
          return Unchanged;
        }
      }
      var ok := Write(AppendLine(Existing(), Restricted(options, keyType, blob, comment)), luck);
      return if ok then Changed else Failed;
    }

    method Remove(comment: Bytes, fingerprint: Option<Bytes>, digest: Fingerprint, luck: Luck) returns (r: Edit)
      modifies this
      ensures var outcome := RemovalFrom(Lines(old(Existing())), comment, fingerprint, digest);
              && (r.Unchanged? <==> outcome.Absent?)
              && (r.Changed? <==> outcome.Removed? && Works(old(content), luck))
              && content == Served(old(content), Drop(comment, fingerprint), digest, luck)
    {
      if content.None? {
        return Unchanged;
      }
      var lines := Lines(content.value);
      var kept: seq<Bytes> := [];
      var removed := false;
      ghost var outcome := RemovalFrom(lines, comment, fingerprint, digest);
      NothingPrepended(lines, outcome);
      for i := 0 to |lines|
        invariant content == old(content)
        invariant outcome ==
                  if removed then Removed(kept + lines[i..])
                  else Prepended(kept, RemovalFrom(lines[i..], comment, fingerprint, digest))
      {
        RemovalAt(lines, i, comment, fingerprint, digest);
        if !removed {
          match VerdictOn(lines[i], comment, fingerprint, digest) {
            case Undecodable => return Failed;
            case Meant =>
              removed := true;
              continue;
            case _ =>
              PrependedMore(kept, lines[i], RemovalFrom(lines[i + 1..], comment, fingerprint, digest));
          }
        } else {
          KeptOn(kept, lines, i);
        }
        kept := kept + [lines[i]];
      }
      if !removed {
        return Unchanged;
      }
      assert kept + lines[|lines|..] == kept;
      var ok := Write(Concat(kept), luck);
      return if ok then Changed else Failed;
    }
  }

  ghost function Prepended(front: seq<Bytes>, r: Removal): Removal {
    if r.Removed? then Removed(front + r.kept) else r
  }

  lemma NothingPrepended(lines: seq<Bytes>, r: Removal)
    ensures lines[0..] == lines && Prepended([], r) == r
  {
    if r.Removed? {
      assert [] + r.kept == r.kept;
    }
  }

  lemma RemovalAt(lines: seq<Bytes>, i: nat, comment: Bytes, fingerprint: Option<Bytes>, digest: Fingerprint)
    requires i < |lines|
    ensures RemovalFrom(lines[i..], comment, fingerprint, digest) ==
            match VerdictOn(lines[i], comment, fingerprint, digest)
            case Undecodable => Raised
            case Meant => Removed(lines[i + 1..])
            case _ => Prepended([lines[i]], RemovalFrom(lines[i + 1..], comment, fingerprint, digest))
  {
    assert lines[i..][1..] == lines[i + 1..];
  }

  lemma KeptOn(kept: seq<Bytes>, lines: seq<Bytes>, i: nat)
    requires i < |lines|
    ensures kept + lines[i..] == (kept + [lines[i]]) + lines[i + 1..]
  {
  }

  lemma PrependedMore(front: seq<Bytes>, line: Bytes, r: Removal)
    ensures Prepended(front, Prepended([line], r)) == Prepended(front + [line], r)
  {
    if r.Removed? {
      assert front + ([line] + r.kept) == (front + [line]) + r.kept;
    }
  }
}
