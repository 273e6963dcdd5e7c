/** When a normalised remote path is its own normal form. */
module NormalForms {
  import opened Common
  import opened Text
  import opened Paths
  import opened RemotePaths

  // ----- normalising never lengthens --------------------------------------------------------

  function Size(parts: seq<string>): nat {
    if parts == [] then 0 else Size(parts[..|parts| - 1]) + |parts[|parts| - 1]| + 1
  }

  lemma {:induction false} SizeConcat(a: seq<string>, b: seq<string>)
    ensures Size(a + b) == Size(a) + Size(b)
  {
    if b == [] {
      assert a + b == a;
    } else {
      LastOfConcat(a, b);
      SizeConcat(a, b[..|b| - 1]);
    }
  }

  lemma SizeOne(part: string)
    ensures Size([part]) == |part| + 1
  {
    var none: seq<string> := [part][..0];
    assert Size(none) == 0;
  }

  lemma {:induction false} SplitSize(s: string)
    ensures Size(Split(s, '/')) == |s| + 1
    decreases |s|
  {
    if s == "" {
      SizeOne("");
    } else {
      var rest := Split(s[1..], '/');
      SplitSize(s[1..]);
      if s[0] == '/' {
        SizeOne("");
        SizeConcat([""], rest);
      } else {
        SizeOne(rest[0]);
        SizeOne([s[0]] + rest[0]);
        SizeConcat([rest[0]], rest[1..]);
        assert [rest[0]] + rest[1..] == rest;
        SizeConcat([[s[0]] + rest[0]], rest[1..]);
      }
    }
  }

  lemma {:induction false} JoinSize(parts: seq<string>)
    requires parts != []
    ensures |Join(parts, '/')| == Size(parts) - 1
  {
    SizeOne(parts[0]);
    assert [parts[0]] + parts[1..] == parts;
    SizeConcat([parts[0]], parts[1..]);
    if |parts| > 1 {
      JoinSize(parts[1..]);
    } else {
      assert parts[1..] == [];
    }
  }

  lemma {:induction false} ReducedSize(comps: seq<string>, absolute: bool)
    ensures Size(Reduced(comps, absolute)) <= Size(NonEmpty(comps))
  {
    if comps != [] {
      var before, comp := comps[..|comps| - 1], comps[|comps| - 1];
      ReducedSize(before, absolute);
      SteppedSize(Reduced(before, absolute), comp, absolute);
      if comp == "" {
        assert NonEmpty(before) + [] == NonEmpty(before);
      } else {
        SizeOne(comp);
        SizeConcat(NonEmpty(before), [comp]);
      }
    }
  }

  lemma SteppedSize(done: seq<string>, comp: string, absolute: bool)
    ensures Size(Stepped(done, comp, absolute)) <= Size(done) + if comp == "" then 0 else |comp| + 1
  {
    SizeOne(comp);
    SizeConcat(done, [comp]);
  }

  lemma {:induction false} NonEmptySize(parts: seq<string>)
    ensures Size(NonEmpty(parts)) <= Size(parts)
  {
    if parts != [] {
      var before, last := parts[..|parts| - 1], parts[|parts| - 1];
      NonEmptySize(before);
      if last == "" {
        assert NonEmpty(before) + [] == NonEmpty(before);
      } else {
        SizeOne(last);
        SizeConcat(NonEmpty(before), [last]);
      }
    }
  }

  lemma {:induction false} SlashesLength(n: nat)
    ensures |Slashes(n)| == n
  {
    if n > 0 {
      SlashesLength(n - 1);
    }
  }

  /** A path is its leading slashes and the rest. */
  lemma SlashesInFront(path: string)
    ensures LeadingSlashes(path) <= |path| && path == Slashes(LeadingSlashes(path)) + path[LeadingSlashes(path)..]
  {
    var n := LeadingSlashes(path);
    assert Slashes(0) == "" && Slashes(1) == "/" + Slashes(0) && Slashes(2) == "/" + Slashes(1);
    if n == 2 {
      assert path[..2] == "//";
    } else if n == 1 {
      assert path[..1] == "/";
    }
    assert path == path[..n] + path[n..];
  }

  lemma NormpathLength(path: string)
    requires path != ""
    ensures |Normpath(path)| <= |path|
  {
    var n := LeadingSlashes(path);
    var rest, kept := path[n..], Reduced(Split(path, '/'), n > 0);
    SlashesInFront(path);
    SlashesLength(n);
    SlashesAddNothing(n, rest);
    ReducedSize(Split(path, '/'), n > 0);
    NonEmptySize(Split(rest, '/'));
    SplitSize(rest);
    if kept != [] {
      JoinSize(kept);
    }
  }

  lemma NormalizedLength(text: Unicode, path: string)
    requires NormalizeRemotePath(text, path).Ok?
    ensures |NormalizeRemotePath(text, path).value| <= |Strip(path, text.space)|
  {
    NormpathLength(Strip(path, text.space));
  }

  lemma StripShorter(s: string, drop: char -> bool)
    requires s != "" && (drop(s[0]) || drop(s[|s| - 1]))
    ensures |Strip(s, drop)| < |s|
  {
    if drop(s[0]) {
      assert |StripLeft(s, drop)| <= |s[1..]|;
    } else {
      assert StripLeft(s, drop) == s;
      assert |StripRight(s, drop)| <= |s[..|s| - 1]|;
    }
  }

  // ----- relative paths -----------------------------------------------------------------------

  /** Nothing to reduce: steps upwards come first. */
  ghost predicate Settled(parts: seq<string>) {
    Clean(parts) && forall i, j :: 0 <= i < j < |parts| && parts[j] == ".." ==> parts[i] == ".."
  }

  lemma {:induction false} ReducedSettled(comps: seq<string>)
    requires forall p <- comps :: !Has(p, '/')
    ensures Settled(Reduced(comps, false))
  {
    if comps != [] {
      var before, comp := comps[..|comps| - 1], comps[|comps| - 1];
      assert comp in comps;
      ReducedSettled(before);
      SteppedClean(Reduced(before, false), comp, false);
    }
  }

  lemma {:induction false} SettledReduced(parts: seq<string>)
    requires Settled(parts)
    ensures Reduced(parts, false) == parts
  {
    if parts != [] {
      var before, last := parts[..|parts| - 1], parts[|parts| - 1];
      SettledFront(before, last, parts);
      SettledReduced(before);
      ReducedMore(before, last, false);
    }
  }

  lemma SettledFront(before: seq<string>, last: string, parts: seq<string>)
    requires Settled(parts) && parts != [] && before == parts[..|parts| - 1] && last == parts[|parts| - 1]
    ensures Settled(before) && parts == before + [last] && Stepped(before, last, false) == parts
  {
    assert last in parts && forall p :: p in before ==> p in parts;
    assert last == ".." && before != [] ==> before[|before| - 1] == "..";
  }

  function RelativeForm(parts: seq<string>): string {
    if parts == [] then "." else Join(parts, '/')
  }

  lemma RelativeText(candidate: string)
    requires candidate != "" && LeadingSlashes(candidate) == 0
    ensures var kept := Reduced(Split(candidate, '/'), false);
            var p := Normpath(candidate);
            Settled(kept) && p == RelativeForm(kept) && (if |p| > 1 then Trimmed(p) else p) == p
  {
    var kept := Reduced(Split(candidate, '/'), false);
    SplitParts(candidate, '/');
    ReducedSettled(Split(candidate, '/'));
    assert Slashes(0) == "";
    if kept != [] {
      JoinedEnd(kept);
      assert Slashes(0) + Join(kept, '/') == Join(kept, '/');
      NoSlashAtEnd("", Join(kept, '/'));
      assert "" + Join(kept, '/') == Join(kept, '/');
    }
  }

  lemma RelativeAgain(parts: seq<string>)
    requires Settled(parts)
    ensures var p := RelativeForm(parts);
            p != "" && LeadingSlashes(p) == 0 && Reduced(Split(p, '/'), false) == parts
  {
    if parts == [] {
      SplitOne(".", '/');
      var none: seq<string> := ["."][..0];
      assert Reduced(none, false) == [];
    } else {
      JoinedStart(parts);
      SplitJoin(parts, '/');
      SettledReduced(parts);
    }
  }

  /** Normalising a path again changes nothing if and only if the normalised path neither
      starts nor ends in whitespace: otherwise the second time strips it. */
  lemma NormalizeTwiceIff(text: Unicode, path: string)
    requires !text.space('/') && !text.space('.') && NormalizeRemotePath(text, path).Ok?
    ensures NormalizeRemotePath(text, path).value != ""
    ensures var once := NormalizeRemotePath(text, path).value;
            NormalizeRemotePath(text, once) == Ok(once) <==> !text.space(once[0]) && !text.space(once[|once| - 1])
  {
    var once := OnceNormalized(text, path);
    if text.space(once[0]) || text.space(once[|once| - 1]) {
      StripShorter(once, text.space);
      if NormalizeRemotePath(text, once).Ok? {
        NormalizedLength(text, once);
      }
    } else {
      StripKeeps(once, text.space);
      AgainSame(text, path, once);
    }
  }

  lemma OnceNormalized(text: Unicode, path: string) returns (once: string)
    requires NormalizeRemotePath(text, path).Ok?
    ensures once != "" && NormalizeRemotePath(text, path) == Ok(once)
  {
    var candidate := Strip(path, text.space);
    once := NormalizeRemotePath(text, path).value;
    if LeadingSlashes(candidate) > 0 {
      NormalText(candidate);
      FormReduced(LeadingSlashes(candidate), Reduced(Split(candidate, '/'), true));
    } else {
      RelativeText(candidate);
      RelativeAgain(Reduced(Split(candidate, '/'), false));
    }
  }

  lemma AgainSame(text: Unicode, path: string, once: string)
    requires NormalizeRemotePath(text, path) == Ok(once) && once != "" && Strip(once, text.space) == once
    ensures NormalizeRemotePath(text, once) == Ok(once)
  {
    var candidate := Strip(path, text.space);
    var slashes := LeadingSlashes(candidate);
    var kept := Reduced(Split(candidate, '/'), slashes > 0);
    if slashes > 0 {
      NormalText(candidate);
      FormReduced(slashes, kept);
      NormalText(once);
    } else {
      RelativeText(candidate);
      RelativeAgain(kept);
      RelativeText(once);
    }
  }

  /** Only whitespace at the very end is stripped, and a slash after it hides it. */
  lemma TrailingSpaceLost(text: Unicode, piece: string)
    requires !text.space('/') && !text.space('.') && piece != "" && Clean([piece]) && piece != ".."
             && text.space(piece[|piece| - 1])
    ensures NormalizeRemotePath(text, "/" + piece + "/") == Ok("/" + piece)
    ensures NormalizeRemotePath(text, "/" + piece) != Ok("/" + piece)
  {
    var path, once := "/" + piece + "/", "/" + piece;
    assert piece in [piece] && piece[0] != '/';
    StripKeeps(path, text.space);
    NormalText(path);
    OnePiece(path, piece);
    NormalizeTwiceIff(text, path);
  }

  lemma OnePiece(path: string, piece: string)
    requires Clean([piece]) && piece != ".." && path == "/" + piece + "/"
    ensures Reduced(Split(path, '/'), true) == [piece] && LeadingSlashes(path) == 1
    ensures NormalForm(1, [piece]) == "/" + piece
  {
    assert piece in [piece] && piece[0] != '/' && piece[|piece| - 1] != '/';
    OneForm(1, piece);
    FormReduced(1, [piece]);
    assert path[..|path| - 1] == "/" + piece;
    assert StripRight(path, IsSlash) == StripRight("/" + piece, IsSlash) == "/" + piece;
    TrailingSlashes(path);
  }

  lemma OneForm(one: nat, piece: string)
    requires one == 1
    ensures NormalForm(one, [piece]) == "/" + piece
  {
    assert Slashes(one) == "/" + Slashes(one - 1);
  }
}
