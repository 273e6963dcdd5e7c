/** Normalised remote paths, ancestor checks by component, and collision-free claims. */
module RemotePaths {
  import opened Common
  import opened Text
  import opened Paths

  // ----- normalisation ------------------------------------------------------------------

  /** POSIX keeps exactly two leading slashes; three or more count as one. */
  function LeadingSlashes(path: string): nat {
    if path == "" || path[0] != '/' then 0
    else if |path| >= 2 && path[1] == '/' && (|path| == 2 || path[2] != '/') then 2
    else 1
  }

  /** One step of the loop over the components. */
  function Stepped(done: seq<string>, comp: string, absolute: bool): seq<string> {
    if comp == "" || comp == "." then done
    else if comp != ".." || (!absolute && done == []) || (done != [] && done[|done| - 1] == "..") then done + [comp]
    else if done != [] then done[..|done| - 1]
    else done
  }

  function Reduced(comps: seq<string>, absolute: bool): seq<string> {
    if comps == [] then [] else Stepped(Reduced(comps[..|comps| - 1], absolute), comps[|comps| - 1], absolute)
  }

  function Slashes(n: nat): string {
    if n == 0 then "" else "/" + Slashes(n - 1)
  }

  /** The library's path normalisation. */
  function Normpath(path: string): string {
    var slashes := LeadingSlashes(path);
    var text := Slashes(slashes) + Join(Reduced(Split(path, '/'), slashes > 0), '/');
    if text == "" then "." else text
  }

  predicate IsSlash(c: char) {
    c == '/'
  }

  function Trimmed(path: string): string {
    if StripRight(path, IsSlash) == "" then "/" else StripRight(path, IsSlash)
  }

  function NormalizeRemotePath(text: Unicode, path: string): Result<string, Refusal> {
    var candidate := Strip(path, text.space);
    if candidate == "" then Err(EmptyPath)
    else
      var normalized := Normpath(candidate);
      Ok(if |normalized| > 1 then Trimmed(normalized) else normalized)
  }

  function NonEmpty(parts: seq<string>): seq<string> {
    if parts == [] then []
    else NonEmpty(parts[..|parts| - 1]) + if parts[|parts| - 1] == "" then [] else [parts[|parts| - 1]]
  }

  function Components(text: Unicode, path: string): Result<seq<string>, Refusal> {
    match NormalizeRemotePath(text, path)
    case Err(e) => Err(e)
    case Ok(p) => Ok(NonEmpty(Split(p, '/')))
  }

  // The components of a normalised path are those that the normalisation kept.

  ghost predicate Clean(parts: seq<string>) {
    forall p <- parts :: p != "" && p != "." && !Has(p, '/')
  }

  lemma SteppedClean(done: seq<string>, comp: string, absolute: bool)
    requires Clean(done) && !Has(comp, '/') && (absolute ==> ".." !in done)
    ensures Clean(Stepped(done, comp, absolute)) && (absolute ==> ".." !in Stepped(done, comp, absolute))
  {
    assert done != [] ==> done[|done| - 1] in done;
    var after := Stepped(done, comp, absolute);
    forall p | p in after ensures p in done || (p == comp && comp != "" && comp != ".") {
    }
  }

  lemma {:induction false} ReducedClean(comps: seq<string>, absolute: bool)
    requires forall p <- comps :: !Has(p, '/')
    ensures Clean(Reduced(comps, absolute)) && (absolute ==> ".." !in Reduced(comps, absolute))
  {
    if comps != [] {
      assert comps[|comps| - 1] in comps;
      ReducedClean(comps[..|comps| - 1], absolute);
      SteppedClean(Reduced(comps[..|comps| - 1], absolute), comps[|comps| - 1], absolute);
    }
  }

  lemma {:induction false} SameReduced(a: seq<string>, b: seq<string>, rest: seq<string>, absolute: bool)
    requires Reduced(a, absolute) == Reduced(b, absolute)
    ensures Reduced(a + rest, absolute) == Reduced(b + rest, absolute)
  {
    if rest == [] {
      assert a + rest == a && b + rest == b;
    } else {
      LastOfConcat(a, rest);
      LastOfConcat(b, rest);
      SameReduced(a, b, rest[..|rest| - 1], absolute);
    }
  }

  lemma ReducedTwoMore(done: seq<string>, x: string, y: string, absolute: bool)
    ensures Reduced(done + [x], absolute) == Stepped(Reduced(done, absolute), x, absolute)
    ensures Reduced((done + [x]) + [y], absolute) == Stepped(Stepped(Reduced(done, absolute), x, absolute), y, absolute)
  {
    assert (done + [x])[..|done|] == done;
    assert ((done + [x]) + [y])[..|done + [x]|] == done + [x];
  }

  /** What the reduction does, as rewriting: an empty or a "." component goes, a name goes
      together with a ".." behind it, and so does a ".." at the root. */
  lemma ReducedRewrites(front: seq<string>, name: string, rest: seq<string>, absolute: bool)
    ensures name == "" || name == "." ==>
              Reduced((front + [name]) + rest, absolute) == Reduced(front + rest, absolute)
    ensures name != "" && name != "." && name != ".." ==>
              Reduced(((front + [name]) + [".."]) + rest, absolute) == Reduced(front + rest, absolute)
    ensures Reduced([".."] + rest, true) == Reduced(rest, true)
  {
    ReducedTwoMore(front, name, "..", absolute);
    if name == "" || name == "." {
      SameReduced(front + [name], front, rest, absolute);
    } else if name != ".." {
      assert (Reduced(front, absolute) + [name])[..|Reduced(front, absolute)|] == Reduced(front, absolute);
      SameReduced((front + [name]) + [".."], front, rest, absolute);
    }
    UpAtRoot(rest);
  }

  lemma UpAtRoot(rest: seq<string>)
    ensures Reduced([".."] + rest, true) == Reduced(rest, true)
  {
    assert [".."][..0] == [];
    SameReduced([".."], [], rest, true);
    assert [] + rest == rest;
  }

  lemma {:induction false} NonEmptyKeeps(parts: seq<string>)
    requires forall i :: 0 <= i < |parts| ==> parts[i] != ""
    ensures NonEmpty(parts) == parts
  {
    if parts != [] {
      NonEmptyKeeps(parts[..|parts| - 1]);
      assert parts[..|parts| - 1] + [parts[|parts| - 1]] == parts;
    }
  }

  lemma {:induction false} NonEmptyConcat(a: seq<string>, b: seq<string>)
    ensures NonEmpty(a + b) == NonEmpty(a) + NonEmpty(b)
  {
    if b == [] {
      assert a + b == a;
    } else {
      assert (a + b)[..|a + b| - 1] == a + b[..|b| - 1];
      NonEmptyConcat(a, b[..|b| - 1]);
    }
  }

  lemma {:induction false} SlashesAddNothing(n: nat, s: string)
    ensures NonEmpty(Split(Slashes(n) + s, '/')) == NonEmpty(Split(s, '/'))
  {
    if n == 0 {
      assert Slashes(n) + s == s;
    } else {
      var rest := Slashes(n - 1) + s;
      assert Slashes(n) + s == "/" + rest;
      assert ("/" + rest)[1..] == rest;
      assert Split("/" + rest, '/') == [""] + Split(rest, '/');
      NonEmptyConcat([""], Split(rest, '/'));
      assert [""][..0] == [];
      SlashesAddNothing(n - 1, s);
    }
  }

  lemma {:induction false} JoinedEnd(parts: seq<string>)
    requires parts != [] && Clean(parts)
    ensures Join(parts, '/') != "" && Join(parts, '/')[|Join(parts, '/')| - 1] != '/'
  {
    assert parts[0] in parts;
    if |parts| > 1 {
      assert forall p <- parts[1..] :: p in parts;
      JoinedEnd(parts[1..]);
    }
  }

  lemma CleanSplit(parts: seq<string>)
    requires parts != [] && Clean(parts)
    ensures NonEmpty(Split(Join(parts, '/'), '/')) == parts
  {
    SplitJoin(parts, '/');
    forall i | 0 <= i < |parts| ensures parts[i] != "" {
      assert parts[i] in parts;
    }
    NonEmptyKeeps(parts);
  }

  lemma NormalizedNonEmpty(slashes: nat, parts: seq<string>)
    requires parts != [] && Clean(parts)
    ensures var p := Slashes(slashes) + Join(parts, '/');
            p != "" && StripRight(p, IsSlash) == p && NonEmpty(Split(p, '/')) == parts
  {
    var joined := Join(parts, '/');
    JoinedEnd(parts);
    CleanSplit(parts);
    SlashesAddNothing(slashes, joined);
    NoSlashAtEnd(Slashes(slashes), joined);
  }

  lemma NoSlashAtEnd(front: string, back: string)
    requires back != "" && back[|back| - 1] != '/'
    ensures front + back != "" && StripRight(front + back, IsSlash) == front + back
  {
  }

  lemma {:induction false} OnlySlashes(n: nat)
    ensures |Slashes(n)| == n && StripRight(Slashes(n), IsSlash) == ""
            && forall i :: 0 <= i < n ==> Slashes(n)[i] == '/'
  {
    if n > 0 {
      OnlySlashes(n - 1);
      assert Slashes(n)[..n - 1] == Slashes(n - 1);
    }
  }

  lemma RootComponents(n: nat)
    ensures NonEmpty(Split(Slashes(n), '/')) == []
  {
    assert Slashes(n) + "" == Slashes(n);
    SlashesAddNothing(n, "");
    assert [""][..0] == [];
  }

  lemma NothingKept(slashes: nat)
    ensures var p := Slashes(slashes) + "";
            var q := if p == "" then "." else p;
            var r := if |q| > 1 then Trimmed(q) else q;
            NonEmpty(Split(r, '/')) == if slashes > 0 then [] else ["."]
  {
    assert Slashes(slashes) + "" == Slashes(slashes);
    OnlySlashes(slashes);
    if slashes > 0 {
      RootComponents(slashes);
      RootComponents(1);
      OnlySlashes(1);
      assert Slashes(1) == "/";
    } else {
      SplitOne(".", '/');
      assert ["."][..0] == [];
    }
  }

  /** The components of a path are what the component loop leaves of it; a relative path
      of which nothing is left is the one component ".". */
  lemma ComponentsAre(text: Unicode, path: string)
    requires Strip(path, text.space) != ""
    ensures var candidate := Strip(path, text.space);
            var absolute := LeadingSlashes(candidate) > 0;
            var kept := Reduced(Split(candidate, '/'), absolute);
            Components(text, path) == Ok(if kept == [] && !absolute then ["."] else kept)
  {
    var candidate := Strip(path, text.space);
    var slashes := LeadingSlashes(candidate);
    var kept := Reduced(Split(candidate, '/'), slashes > 0);
    SplitParts(candidate, '/');
    ReducedClean(Split(candidate, '/'), slashes > 0);
    if kept != [] {
      NormalizedNonEmpty(slashes, kept);
    } else {
      NothingKept(slashes);
    }
  }

  lemma AbsoluteComponents(text: Unicode, path: string)
    requires Strip(path, text.space) != "" && Strip(path, text.space)[0] == '/'
    ensures Components(text, path) == Ok(Reduced(Split(Strip(path, text.space), '/'), true))
    ensures Clean(Components(text, path).value) && ".." !in Components(text, path).value
  {
    var candidate := Strip(path, text.space);
    ComponentsAre(text, path);
    SplitParts(candidate, '/');
    ReducedClean(Split(candidate, '/'), true);
  }

  // ----- the text of a normalised path -----------------------------------------------------------------------

  lemma {:induction false} CleanReduced(parts: seq<string>)
    requires Clean(parts) && ".." !in parts
    ensures Reduced(parts, true) == parts
  {
    if parts != [] {
      var before, last := parts[..|parts| - 1], parts[|parts| - 1];
      assert last in parts && forall p :: p in before ==> p in parts;
      CleanReduced(before);
      assert before + [last] == parts;
    }
  }

  lemma {:induction false} ReducedNonEmpty(parts: seq<string>)
    ensures Reduced(NonEmpty(parts), true) == Reduced(parts, true)
  {
    if parts != [] {
      var before, last := parts[..|parts| - 1], parts[|parts| - 1];
      ReducedNonEmpty(before);
      if last == "" {
        assert NonEmpty(before) + [] == NonEmpty(before);
      } else {
        ReducedMore(NonEmpty(before), last, true);
      }
    }
  }

  lemma ReducedMore(comps: seq<string>, comp: string, absolute: bool)
    ensures Reduced(comps + [comp], absolute) == Stepped(Reduced(comps, absolute), comp, absolute)
  {
    assert (comps + [comp])[..|comps|] == comps;
  }

  /** The text of a normalised absolute path. */
  function NormalForm(slashes: nat, parts: seq<string>): string {
    if parts == [] then "/" else Slashes(slashes) + Join(parts, '/')
  }

  lemma NormalText(path: string)
    requires LeadingSlashes(path) > 0
    ensures var kept := Reduced(Split(path, '/'), true);
            var p := Normpath(path);
            && (if |p| > 1 then Trimmed(p) else p) == NormalForm(LeadingSlashes(path), kept)
            && Clean(kept) && ".." !in kept
  {
    var slashes, kept := LeadingSlashes(path), Reduced(Split(path, '/'), true);
    SplitParts(path, '/');
    ReducedClean(Split(path, '/'), true);
    if kept == [] {
      OnlySlashes(slashes);
      assert Slashes(slashes) + "" == Slashes(slashes);
      assert Slashes(1) == "/";
    } else {
      NormalizedNonEmpty(slashes, kept);
    }
  }

  lemma FormReduced(slashes: nat, parts: seq<string>)
    requires 1 <= slashes <= 2 && Clean(parts) && ".." !in parts
    ensures var p := NormalForm(slashes, parts);
            && p != "" && p[0] == '/' && Reduced(Split(p, '/'), true) == parts
            && (parts != [] ==> LeadingSlashes(p) == slashes)
  {
    var p := NormalForm(slashes, parts);
    ReducedNonEmpty(Split(p, '/'));
    CleanReduced(parts);
    if parts == [] {
      RootComponents(1);
      assert Slashes(1) == "/";
    } else {
      NormalizedNonEmpty(slashes, parts);
      JoinedStart(parts);
      OnlySlashes(slashes);
      assert p[slashes] == Join(parts, '/')[0];
    }
  }

  lemma JoinedStart(parts: seq<string>)
    requires parts != [] && Clean(parts)
    ensures Join(parts, '/') != "" && Join(parts, '/')[0] != '/'
  {
    assert parts[0] in parts;
    assert parts[0][0] != '/';
  }

  // ----- overlap --------------------------------------------------------------------------------

  function Overlap(a: seq<string>, b: seq<string>): bool {
    if |a| > |b| then a[..|b|] == b else b[..|a|] == a
  }

  /** Do two paths overlap, given how paths are taken apart? */
  function PathsOverlap(parts: string -> Result<seq<string>, Refusal>, a: string, b: string): Result<bool, Refusal> {
    match parts(a)
    case Err(e) => Err(e)
    case Ok(partsA) =>
      match parts(b)
      case Err(e) => Err(e)
      case Ok(partsB) => Ok(Overlap(partsA, partsB))
  }

  /** Two paths overlap exactly when some place lies in both trees. */
  lemma OverlapIff(a: seq<string>, b: seq<string>)
    ensures Overlap(a, b) <==> exists under, below :: a + under == b + below
    ensures Overlap(a, b) <==> Overlap(b, a)
  {
    if Overlap(a, b) {
      if |a| > |b| {
        assert a + [] == b + a[|b|..];
      } else {
        assert a + b[|a|..] == b + [];
      }
    }
    if under, below :| a + under == b + below {
      assert |a| > |b| ==> a[..|b|] == (a + under)[..|b|] == (b + below)[..|b|] == b;
      assert |a| <= |b| ==> b[..|a|] == (b + below)[..|a|] == (a + under)[..|a|] == a;
    }
  }

  // ----- a leaf under a root ------------------------------------------------------------------

  lemma SplitAtEnd(s: string, leaf: string)
    requires !Has(leaf, '/')
    ensures Split(s + ("/" + leaf), '/') == Split(s, '/') + [leaf]
    decreases |s|
  {
    if s == "" {
      assert s + ("/" + leaf) == "/" + leaf && ("/" + leaf)[1..] == leaf;
      SplitOne(leaf, '/');
    } else {
      var whole := s + ("/" + leaf);
      assert whole[0] == s[0] && whole[1..] == s[1..] + ("/" + leaf);
      SplitAtEnd(s[1..], leaf);
      var rest := Split(s[1..], '/');
      assert (rest + [leaf])[0] == rest[0] && (rest + [leaf])[1..] == rest[1..] + [leaf];
    }
  }

  /** Slashes at the end of a path do not matter. */
  lemma {:induction false} TrailingSlashes(root: string)
    ensures Reduced(Split(StripRight(root, IsSlash), '/'), true) == Reduced(Split(root, '/'), true)
    decreases |root|
  {
    if root != "" && root[|root| - 1] == '/' {
      var shorter := root[..|root| - 1];
      TrailingSlashes(shorter);
      assert root == shorter + ("/" + "");
      SplitAtEnd(shorter, "");
      ReducedMore(Split(shorter, '/'), "", true);
    }
  }

  /** The path suggested for a leaf under a root. */
  function Under(root: string, leaf: string): string {
    StripRight(root, IsSlash) + ("/" + leaf)
  }

  lemma JoinedReduced(front: string, leaf: string)
    requires OneComponent(leaf)
    ensures Reduced(Split(front + ("/" + leaf), '/'), true) == Reduced(Split(front, '/'), true) + [leaf]
  {
    SplitAtEnd(front, leaf);
    ReducedMore(Split(front, '/'), leaf, true);
  }

  lemma UnderStripped(text: Unicode, root: string, leaf: string)
    requires root != "" && root[0] == '/' && !text.space('/') && leaf != "" && !text.space(leaf[|leaf| - 1])
    ensures var whole := Under(root, leaf); Strip(whole, text.space) == whole && whole != "" && whole[0] == '/'
  {
    var front, back := StripRight(root, IsSlash), "/" + leaf;
    JoinedEnds(front, back);
    StripKeeps(front + back, text.space);
  }

  lemma JoinedEnds(front: string, back: string)
    requires back != "" && back[0] == '/' && (front != "" ==> front[0] == '/')
    ensures (front + back)[0] == '/' && (front + back)[|front + back| - 1] == back[|back| - 1]
  {
  }

  /** A leaf joined to an absolute root adds exactly one component to the root's. */
  lemma LeafAddsOne(text: Unicode, root: string, leaf: string)
    requires root != "" && root[0] == '/' && Strip(root, text.space) == root && !text.space('/')
    requires OneComponent(leaf) && !text.space(leaf[|leaf| - 1])
    ensures Components(text, root).Ok?
    ensures Components(text, Under(root, leaf)) == Ok(Components(text, root).value + [leaf])
  {
    UnderStripped(text, root, leaf);
    AbsoluteComponents(text, root);
    AbsoluteComponents(text, Under(root, leaf));
    JoinedReduced(StripRight(root, IsSlash), leaf);
    TrailingSlashes(root);
  }

  function Last(parts: seq<string>): string
    requires parts != []
  {
    parts[|parts| - 1]
  }

  function Extended(parts: seq<string>, c: char): seq<string>
    requires parts != []
  {
    parts[..|parts| - 1] + [Last(parts) + [c]]
  }

  lemma ExtendedCons(p: string, rest: seq<string>, c: char)
    requires rest != []
    ensures Extended([p] + rest, c) == [p] + Extended(rest, c)
  {
    assert ([p] + rest)[..|rest|] == [p] + rest[..|rest| - 1];
  }

  lemma ExtendedFirst(a: char, rest: seq<string>, c: char)
    requires rest != []
    ensures Extended([[a] + rest[0]] + rest[1..], c) == [[a] + Extended(rest, c)[0]] + Extended(rest, c)[1..]
  {
    if |rest| == 1 {
      assert [a] + (rest[0] + [c]) == ([a] + rest[0]) + [c];
    } else {
      ExtendedCons([a] + rest[0], rest[1..], c);
      ExtendedCons(rest[0], rest[1..], c);
      assert [rest[0]] + rest[1..] == rest;
    }
  }

  lemma {:induction false} SplitMore(s: string, c: char)
    requires c != '/'
    ensures Split(s + [c], '/') == Extended(Split(s, '/'), c)
    decreases |s|
  {
    if s == "" {
      assert s + [c] == [c] && !Has([c], '/');
      SplitOne([c], '/');
      assert [""][..0] + ["" + [c]] == [[c]];
    } else {
      assert (s + [c])[0] == s[0] && (s + [c])[1..] == s[1..] + [c];
      SplitMore(s[1..], c);
      if s[0] == '/' {
        ExtendedCons("", Split(s[1..], '/'), c);
      } else {
        ExtendedFirst(s[0], Split(s[1..], '/'), c);
      }
    }
  }

  /** Whitespace at the end of a path is the end of its last piece. */
  lemma {:induction false} EndOfLastPiece(text: Unicode, s: string)
    requires !text.space('/')
    ensures var short, long := Split(StripRight(s, text.space), '/'), Split(s, '/');
            && |short| == |long| && short[..|short| - 1] == long[..|long| - 1] && Last(short) <= Last(long)
            && (StripRight(s, text.space) == s || |Last(short)| < |Last(long)|)
    decreases |s|
  {
    if s != "" && text.space(s[|s| - 1]) {
      var shorter := s[..|s| - 1];
      EndOfLastPiece(text, shorter);
      SplitMore(shorter, s[|s| - 1]);
      assert s == shorter + [s[|s| - 1]];
    }
  }

  /** With whitespace at its end the root has other components alone than in front of a
      leaf. */
  lemma LoosePieceDiffers(done: seq<string>, short: string, long: string)
    requires short <= long && |short| < |long| && long[|long| - 1] != '.'
    ensures Stepped(done, long, true) != Stepped(done, short, true)
  {
    var after, other := Stepped(done, long, true), Stepped(done, short, true);
    assert after == done + [long];
    if |other| == |after| {
      assert after[|done|] == long && other[|done|] == short;
    }
  }

  lemma AppendDiffers(a: seq<string>, b: seq<string>, x: string)
    requires a != b
    ensures a + [x] != b + [x]
  {
    assert (a + [x])[..|a|] == a && (b + [x])[..|b|] == b;
    assert |a + [x]| == |a| + 1 && |b + [x]| == |b| + 1;
  }

  /** So a suggested path adds exactly one component to the root's if and only if the
      root does not end in whitespace. */
  lemma LeafAddsOneIff(text: Unicode, root: string, leaf: string)
    requires !text.space('/') && !text.space('.') && root != "" && root[0] == '/'
    requires OneComponent(leaf) && !text.space(leaf[|leaf| - 1])
    ensures Components(text, root).Ok?
    ensures Components(text, Under(root, leaf)) == Ok(Components(text, root).value + [leaf])
            <==> !text.space(root[|root| - 1])
  {
    AbsoluteStripped(text, root);
    AbsoluteComponents(text, root);
    if text.space(root[|root| - 1]) {
      NothingStripped(root, IsSlash);
      UnderStripped(text, root, leaf);
      AbsoluteComponents(text, Under(root, leaf));
      LooseRoot(text, root, leaf);
    } else {
      StripKeeps(root, text.space);
      LeafAddsOne(text, root, leaf);
    }
  }

  lemma {:induction false} AbsoluteStripped(text: Unicode, s: string)
    requires !text.space('/') && s != "" && s[0] == '/'
    ensures Strip(s, text.space) == StripRight(s, text.space) != "" && Strip(s, text.space)[0] == '/'
    decreases |s|
  {
    if text.space(s[|s| - 1]) {
      AbsoluteStripped(text, s[..|s| - 1]);
    }
  }

  lemma NothingStripped(s: string, drop: char -> bool)
    requires s != "" && !drop(s[|s| - 1])
    ensures StripRight(s, drop) == s
  {
  }

  lemma LooseRoot(text: Unicode, root: string, leaf: string)
    requires !text.space('/') && !text.space('.') && root != "" && text.space(root[|root| - 1]) && OneComponent(leaf)
    ensures Reduced(Split(root + ("/" + leaf), '/'), true) !=
            Reduced(Split(StripRight(root, text.space), '/'), true) + [leaf]
  {
    JoinedReduced(root, leaf);
    LooseReduced(text, root);
    AppendDiffers(Reduced(Split(root, '/'), true), Reduced(Split(StripRight(root, text.space), '/'), true), leaf);
  }

  lemma LooseReduced(text: Unicode, root: string)
    requires !text.space('/') && !text.space('.') && root != "" && text.space(root[|root| - 1])
    ensures Reduced(Split(root, '/'), true) != Reduced(Split(StripRight(root, text.space), '/'), true)
  {
    EndOfLastPiece(text, root);
    LastPieceEnd(root);
    StripRightShorter(root, text.space);
    LoosePieces(Split(root, '/'), Split(StripRight(root, text.space), '/'));
  }

  lemma StripRightShorter(s: string, drop: char -> bool)
    requires s != "" && drop(s[|s| - 1])
    ensures StripRight(s, drop) != s
  {
    assert StripRight(s, drop) <= s[..|s| - 1];
  }

  lemma LoosePieces(long: seq<string>, short: seq<string>)
    requires |long| == |short| > 0 && long[..|long| - 1] == short[..|short| - 1]
    requires Last(short) <= Last(long) && |Last(short)| < |Last(long)| && Last(long)[|Last(long)| - 1] != '.'
    ensures Reduced(long, true) != Reduced(short, true)
  {
    LoosePieceDiffers(Reduced(long[..|long| - 1], true), Last(short), Last(long));
  }

  lemma {:induction false} LastPieceEnd(s: string)
    requires s != "" && s[|s| - 1] != '/'
    ensures Last(Split(s, '/')) != "" && Last(Split(s, '/'))[|Last(Split(s, '/'))| - 1] == s[|s| - 1]
  {
    var c := s[|s| - 1];
    SplitMore(s[..|s| - 1], c);
    assert s == s[..|s| - 1] + [c];
  }

  // ----- collision-free claims -------------------------------------------------------------------

  function Suffixed(base: string, id: string, width: nat): string {
    base + "--" + id[..Min(width, |id|)]
  }

  /** The paths that are tried, in order. */
  function Tries(base: string, id: string): seq<string> {
    [base, Suffixed(base, id, 6), Suffixed(base, id, 8), Suffixed(base, id, 12), Suffixed(base, id, |id|)]
  }

  function FirstFree(tries: seq<string>, taken: set<string>): Option<string> {
    if tries == [] then None
    else if tries[0] !in taken then Some(tries[0])
    else FirstFree(tries[1..], taken)
  }

  /** A claim is free, and is the first free one; it fails only when all are taken. */
  lemma {:induction false} FirstFreeIs(tries: seq<string>, taken: set<string>)
    ensures FirstFree(tries, taken).None? <==> forall p <- tries :: p in taken
    ensures FirstFree(tries, taken).Some? ==>
              var r := FirstFree(tries, taken).value;
              r !in taken
              && exists k :: 0 <= k < |tries| && tries[k] == r && forall j :: 0 <= j < k ==> tries[j] in taken
  {
    if tries != [] {
      FirstFreeIs(tries[1..], taken);
      if tries[0] in taken && FirstFree(tries[1..], taken).Some? {
        var r := FirstFree(tries[1..], taken).value;
        var k :| 0 <= k < |tries[1..]| && tries[1..][k] == r && forall j :: 0 <= j < k ==> tries[1..][j] in taken;
        forall j | 0 <= j < k + 1 ensures tries[j] in taken {
          assert j > 0 ==> tries[j] == tries[1..][j - 1];
        }
        assert tries[k + 1] == r;
      } else if tries[0] in taken {
        forall p <- tries ensures p in taken {
          assert p == tries[0] || p in tries[1..];
        }
      }
    }
  }

  lemma {:induction false} FirstFreeAt(tries: seq<string>, taken: set<string>, k: nat)
    requires k <= |tries| && (forall j :: 0 <= j < k ==> tries[j] in taken) && (k < |tries| ==> tries[k] !in taken)
    ensures FirstFree(tries, taken) == if k < |tries| then Some(tries[k]) else None
  {
    if k > 0 {
      assert tries[0] in taken;
      forall j | 0 <= j < k - 1 ensures tries[1..][j] in taken {
        assert tries[1..][j] == tries[j + 1];
      }
      FirstFreeAt(tries[1..], taken, k - 1);
    }
  }

  /** What is claimed: the base, or with two dashes and the first 6, 8 or 12 characters of
      the id behind it, or the whole id, whichever is free first. */
  lemma ClaimedIs(base: string, id: string, taken: set<string>)
    requires |id| >= 12
    ensures FirstFree(Tries(base, id), taken) ==
            if base !in taken then Some(base)
            else if base + "--" + id[..6] !in taken then Some(base + "--" + id[..6])
            else if base + "--" + id[..8] !in taken then Some(base + "--" + id[..8])
            else if base + "--" + id[..12] !in taken then Some(base + "--" + id[..12])
            else if base + "--" + id !in taken then Some(base + "--" + id)
            else None
  {
    var tries := Tries(base, id);
    assert id[..|id|] == id;
    var k :=
      if base !in taken then 0
      else if tries[1] !in taken then 1
      else if tries[2] !in taken then 2
      else if tries[3] !in taken then 3
      else if tries[4] !in taken then 4
      else 5;
    FirstFreeAt(tries, taken, k);
  }

  method ClaimPath(base: string, id: string, taken: set<string>) returns (r: Option<string>)
    ensures r == FirstFree(Tries(base, id), taken)
  {
    ghost var tries := Tries(base, id);
    if base !in taken {
      FirstFreeAt(tries, taken, 0);
      return Some(base);
    }
    var widths := [6, 8, 12, |id|];
    for i := 0 to 4
      invariant forall j :: 0 <= j <= i ==> tries[j] in taken
    {
      var candidate := Suffixed(base, id, widths[i]);
      assert candidate == tries[i + 1];
      if candidate !in taken {
        FirstFreeAt(tries, taken, i + 1);
        return Some(candidate);
      }
    }
    FirstFreeAt(tries, taken, 5);
    return None;
  }

  // ----- leaves of one batch ---------------------------------------------------------------------

  datatype Wish = Wish(id: string, leaf: string)

  function OwnerOf(owners: map<string, string>, id: string): string {
    if id in owners then owners[id] else id
  }

  ghost function Taken(leaves: seq<string>): set<string> {
    set leaf <- leaves
  }

  /** The leaves given to a batch, in order. */
  ghost function Deduped(wishes: seq<Wish>, owners: map<string, string>): Result<seq<string>, Refusal> {
    if wishes == [] then Ok([])
    else
      match Deduped(wishes[..|wishes| - 1], owners)
      case Err(e) => Err(e)
      case Ok(given) =>
        var w := wishes[|wishes| - 1];
        match FirstFree(Tries(w.leaf, OwnerOf(owners, w.id)), Taken(given))
        case None => Err(LeafTaken)
        case Some(leaf) => Ok(given + [leaf])
  }

  ghost predicate AllDifferent(given: seq<string>) {
    forall i, j :: 0 <= i < j < |given| ==> given[i] != given[j]
  }

  ghost predicate Granted(wishes: seq<Wish>, owners: map<string, string>, given: seq<string>) {
    && |given| == |wishes|
    && forall i :: 0 <= i < |given| ==> given[i] in Tries(wishes[i].leaf, OwnerOf(owners, wishes[i].id))
  }

  lemma DifferentNext(given: seq<string>, leaf: string)
    requires AllDifferent(given) && leaf !in Taken(given)
    ensures AllDifferent(given + [leaf])
  {
    forall i | 0 <= i < |given| ensures given[i] != leaf {
      assert given[i] in Taken(given);
    }
  }

  lemma GrantedNext(wishes: seq<Wish>, owners: map<string, string>, given: seq<string>, leaf: string)
    requires wishes != [] && Granted(wishes[..|wishes| - 1], owners, given)
    requires leaf in Tries(wishes[|wishes| - 1].leaf, OwnerOf(owners, wishes[|wishes| - 1].id))
    ensures Granted(wishes, owners, given + [leaf])
  {
  }

  /** No two artifacts of a batch get the same leaf, and each gets its own leaf or that
      leaf with a prefix of its owner's id. */
  lemma {:induction false} DedupedDistinct(wishes: seq<Wish>, owners: map<string, string>)
    requires Deduped(wishes, owners).Ok?
    ensures AllDifferent(Deduped(wishes, owners).value) && Granted(wishes, owners, Deduped(wishes, owners).value)
  {
    if wishes != [] {
      var before, w := wishes[..|wishes| - 1], wishes[|wishes| - 1];
      DedupedDistinct(before, owners);
      var given, tries := Deduped(before, owners).value, Tries(w.leaf, OwnerOf(owners, w.id));
      FirstFreeIs(tries, Taken(given));
      DifferentNext(given, FirstFree(tries, Taken(given)).value);
      GrantedNext(wishes, owners, given, FirstFree(tries, Taken(given)).value);
    }
  }

  ghost function Ids(wishes: seq<Wish>): set<string> {
    set w <- wishes :: w.id
  }

  /** Each artifact of the batch is mapped to the leaf given to it. */
  ghost predicate Assigned(m: map<string, string>, wishes: seq<Wish>, given: seq<string>) {
    && |given| == |wishes| && m.Keys == Ids(wishes)
    && forall i :: 0 <= i < |wishes| ==> wishes[i].id in m && m[wishes[i].id] == given[i]
  }

  lemma AssignedNext(m: map<string, string>, wishes: seq<Wish>, given: seq<string>, w: Wish, leaf: string)
    requires Assigned(m, wishes, given) && w.id !in Ids(wishes)
    ensures Assigned(m[w.id := leaf], wishes + [w], given + [leaf])
  {
    assert forall v <- wishes :: v.id in Ids(wishes);
    forall id: string ensures id in Ids(wishes + [w]) <==> id in Ids(wishes) || id == w.id {
      if id in Ids(wishes) {
        var v :| v in wishes && v.id == id;
        assert v in wishes + [w];
      }
      assert w in wishes + [w];
    }
  }

  lemma NewId(wishes: seq<Wish>, n: nat)
    requires n < |wishes| && forall i, j :: 0 <= i < j < |wishes| ==> wishes[i].id != wishes[j].id
    ensures wishes[n].id !in Ids(wishes[..n])
  {
  }

  method DedupeLeaves(wishes: seq<Wish>, owners: map<string, string>) returns (r: Result<map<string, string>, Refusal>)
    requires forall i, j :: 0 <= i < j < |wishes| ==> wishes[i].id != wishes[j].id
    ensures r.Err? <==> Deduped(wishes, owners).Err?
    ensures r.Ok? ==> Assigned(r.value, wishes, Deduped(wishes, owners).value)
  {
    var resolved: map<string, string> := map[];
    var taken: set<string> := {};
    ghost var given: seq<string> := [];
    NoWishes(wishes[..0], owners);
    for n := 0 to |wishes|
      invariant Deduped(wishes[..n], owners) == Ok(given) && taken == Taken(given)
      invariant Assigned(resolved, wishes[..n], given)
    {
      var w := wishes[n];
      DedupedNext(wishes, owners, n);
      var leaf := ClaimPath(w.leaf, OwnerOf(owners, w.id), taken);
      if leaf.None? {
        DedupedFails(wishes, owners, n);
        return Err(LeafTaken);
      }
      NewId(wishes, n);
      AssignedNext(resolved, wishes[..n], given, w, leaf.value);
      TakeNext(wishes, n);
      resolved, taken, given := resolved[w.id := leaf.value], taken + {leaf.value}, given + [leaf.value];
    }
    assert wishes[..|wishes|] == wishes;
    return Ok(resolved);
  }

  lemma NoWishes(none: seq<Wish>, owners: map<string, string>)
    requires none == []
    ensures Deduped(none, owners) == Ok([])
  {
  }

  lemma DedupedNext(wishes: seq<Wish>, owners: map<string, string>, n: nat)
    requires n < |wishes| && Deduped(wishes[..n], owners).Ok?
    ensures var given := Deduped(wishes[..n], owners).value;
            var leaf := FirstFree(Tries(wishes[n].leaf, OwnerOf(owners, wishes[n].id)), Taken(given));
            && Deduped(wishes[..n + 1], owners) == (if leaf.None? then Err(LeafTaken) else Ok(given + [leaf.value]))
            && (leaf.Some? ==> Taken(given + [leaf.value]) == Taken(given) + {leaf.value})
  {
    assert wishes[..n + 1][..n] == wishes[..n];
  }

  lemma {:induction false} DedupedFails(wishes: seq<Wish>, owners: map<string, string>, n: nat)
    requires n < |wishes| && Deduped(wishes[..n + 1], owners).Err?
    ensures Deduped(wishes, owners).Err?
    decreases |wishes|
  {
    if n + 1 == |wishes| {
      assert wishes[..n + 1] == wishes;
    } else {
      assert wishes[..|wishes| - 1][..n + 1] == wishes[..n + 1];
      DedupedFails(wishes[..|wishes| - 1], owners, n);
    }
  }
}
