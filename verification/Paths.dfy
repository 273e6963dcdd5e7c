/** Safe path components for display names, and normalised remote paths. */
module Paths {
  import opened Common
  import opened Text

  // ----- safe components ----------------------------------------------------------------

  datatype Refusal = EmptyText | NothingUsable | BadLimit | EmptyPath | LeafTaken

  predicate SafeAscii(c: char) {
    'a' <= c <= 'z' || 'A' <= c <= 'Z' || '0' <= c <= '9' || c in "._-"
  }

  predicate Kept(text: Unicode, c: char) {
    SafeAscii(c) || text.word(c)
  }

  /** Letters and numbers are neither whitespace nor a slash. */
  ghost predicate LettersAreText(text: Unicode) {
    && (forall c: char :: text.word(c) ==> !text.space(c) && c != '/')
    && (forall c: char :: SafeAscii(c) ==> !text.space(c))
  }

  predicate Edge(c: char) {
    c == '-' || c == '.'
  }

  function Dashed(text: Unicode, s: string): string {
    if s == "" then "" else [if Kept(text, s[0]) then s[0] else '-'] + Dashed(text, s[1..])
  }

  /** Runs of dashes become one dash. */
  function Collapsed(s: string): string {
    if |s| < 2 then s
    else if s[0] == '-' && s[1] == '-' then Collapsed(s[1..])
    else [s[0]] + Collapsed(s[1..])
  }

  /** The component of a text, before it is cut. */
  function Cleaned(text: Unicode, s: string): string {
    Strip(Collapsed(Dashed(text, Strip(s, text.space))), Edge)
  }

  function Sanitized(text: Unicode, s: string, limit: int): Result<string, Refusal> {
    if limit < 1 then Err(BadLimit)
    else if Strip(s, text.space) == "" then Err(EmptyText)
    else
      var cleaned := Cleaned(text, s);
      if cleaned == "" then Err(NothingUsable)
      else if |cleaned| <= limit then Ok(cleaned)
      else Ok(StripRight(cleaned[..limit], Edge))
  }

  // What every sanitised component looks like.

  ghost predicate NoDoubleDash(s: string) {
    forall i :: 0 <= i < |s| - 1 ==> !(s[i] == '-' && s[i + 1] == '-')
  }

  ghost predicate Component(text: Unicode, s: string) {
    && s != "" && !Edge(s[0]) && !Edge(s[|s| - 1]) && NoDoubleDash(s)
    && forall c <- s :: Kept(text, c)
  }

  lemma {:induction false} DashedKept(text: Unicode, s: string)
    ensures |Dashed(text, s)| == |s|
    ensures forall c <- Dashed(text, s) :: Kept(text, c)
    ensures (forall c <- s :: Kept(text, c)) ==> Dashed(text, s) == s
  {
    if s != "" {
      DashedKept(text, s[1..]);
      if forall c <- s :: Kept(text, c) {
        assert s[0] in s && forall c <- s[1..] :: c in s;
        assert [s[0]] + s[1..] == s;
      }
    }
  }

  lemma {:induction false} CollapsedClean(s: string)
    ensures NoDoubleDash(Collapsed(s)) && forall c <- Collapsed(s) :: c in s
    ensures s != "" ==> Collapsed(s) != "" && Collapsed(s)[0] == s[0]
    ensures NoDoubleDash(s) ==> Collapsed(s) == s
  {
    if |s| >= 2 {
      CollapsedClean(s[1..]);
      assert forall c <- s[1..] :: c in s;
      var rest := Collapsed(s[1..]);
      if s[0] == '-' && s[1] == '-' {
        assert !NoDoubleDash(s);
      } else {
        var all := [s[0]] + rest;
        forall i | 0 <= i < |all| - 1 ensures !(all[i] == '-' && all[i + 1] == '-') {
          if i > 0 {
            assert all[i] == rest[i - 1] && all[i + 1] == rest[(i - 1) + 1];
          }
        }
        if NoDoubleDash(s) {
          forall i | 0 <= i < |s[1..]| - 1 ensures !(s[1..][i] == '-' && s[1..][i + 1] == '-') {
            assert s[1..][i] == s[i + 1] && s[1..][i + 1] == s[(i + 1) + 1];
          }
          assert [s[0]] + s[1..] == s;
        }
      }
    }
  }

  lemma PieceClean(s: string, lo: nat, hi: nat)
    requires NoDoubleDash(s) && lo <= hi <= |s|
    ensures NoDoubleDash(s[lo..hi]) && forall c <- s[lo..hi] :: c in s
  {
    forall i | 0 <= i < hi - lo - 1 ensures !(s[lo..hi][i] == '-' && s[lo..hi][i + 1] == '-') {
      assert s[lo..hi][i] == s[lo + i] && s[lo..hi][i + 1] == s[(lo + i) + 1];
    }
  }

  lemma StripPiece(s: string, drop: char -> bool) returns (lo: nat, hi: nat)
    ensures lo <= hi <= |s| && Strip(s, drop) == s[lo..hi]
  {
    var left := StripLeft(s, drop);
    var r := StripRight(left, drop);
    lo, hi := |s| - |left|, |s| - |left| + |r|;
    assert r == left[..|r|];
  }

  lemma CleanStripped(s: string, cleaned: string)
    requires cleaned == Strip(Collapsed(s), Edge)
    ensures NoDoubleDash(cleaned) && forall c <- cleaned :: c in s
    ensures cleaned != "" ==> !Edge(cleaned[0]) && !Edge(cleaned[|cleaned| - 1])
  {
    var once := Collapsed(s);
    CollapsedClean(s);
    var lo, hi := StripPiece(once, Edge);
    PieceClean(once, lo, hi);
    StripEnds(once, Edge);
    StripChars(once, Edge);
  }

  lemma CutKeepsStart(s: string, limit: nat)
    requires s != "" && !Edge(s[0]) && 1 <= limit <= |s|
    ensures var r := StripRight(s[..limit], Edge); r != "" && r[0] == s[0] && r == s[..|r|]
  {
    StripRightKeeps(s[..limit]);
  }

  lemma {:induction false} StripRightKeeps(s: string)
    requires s != "" && !Edge(s[0])
    ensures StripRight(s, Edge) != ""
  {
    if Edge(s[|s| - 1]) {
      StripRightKeeps(s[..|s| - 1]);
    }
  }

  /** A sanitised text is one safe component within the limit: no slash, no double dash,
      no dash or dot at its ends. */
  lemma SanitizedIsComponent(text: Unicode, s: string, limit: int)
    requires Sanitized(text, s, limit).Ok?
    ensures var r := Sanitized(text, s, limit).value; Component(text, r) && |r| <= limit
  {
    var dashed := Dashed(text, Strip(s, text.space));
    var cleaned := Strip(Collapsed(dashed), Edge);
    DashedKept(text, Strip(s, text.space));
    CleanStripped(dashed, cleaned);
    if |cleaned| > limit {
      CutKeepsStart(cleaned, limit);
      PieceClean(cleaned, 0, |StripRight(cleaned[..limit], Edge)|);
    }
  }

  /** Sanitising a safe component changes nothing; so sanitising twice is sanitising once. */
  lemma ComponentUnchanged(text: Unicode, s: string, limit: int)
    requires LettersAreText(text) && Component(text, s) && |s| <= limit
    ensures Sanitized(text, s, limit) == Ok(s)
  {
    assert s[0] in s && s[|s| - 1] in s;
    StripKeeps(s, text.space);
    DashedKept(text, s);
    CollapsedClean(s);
    StripKeeps(s, Edge);
  }

  /** Letters, digits and underscores stay as they are. */
  lemma PlainUnchanged(text: Unicode, s: string, limit: int)
    requires LettersAreText(text) && s != "" && |s| <= limit
    requires forall c <- s :: 'a' <= c <= 'z' || 'A' <= c <= 'Z' || '0' <= c <= '9' || c == '_'
    ensures Sanitized(text, s, limit) == Ok(s)
  {
    forall i | 0 <= i < |s| ensures s[i] != '-' && s[i] != '.' {
      assert s[i] in s;
    }
    ComponentUnchanged(text, s, limit);
  }

  lemma SanitizeTwice(text: Unicode, s: string, limit: int)
    requires LettersAreText(text) && Sanitized(text, s, limit).Ok?
    ensures Sanitized(text, Sanitized(text, s, limit).value, limit) == Sanitized(text, s, limit)
  {
    SanitizedIsComponent(text, s, limit);
    ComponentUnchanged(text, Sanitized(text, s, limit).value, limit);
  }

  // What is left of a text: its letters, and a dash where anything else stood between them.

  /** The characters that are kept, but for dashes. */
  function Letters(text: Unicode, s: string): string {
    if s == "" then ""
    else (if Kept(text, s[0]) && s[0] != '-' then [s[0]] else []) + Letters(text, s[1..])
  }

  lemma {:induction false} LettersConcat(text: Unicode, a: string, b: string)
    ensures Letters(text, a + b) == Letters(text, a) + Letters(text, b)
  {
    if a == "" {
      assert a + b == b;
    } else {
      assert (a + b)[1..] == a[1..] + b;
      LettersConcat(text, a[1..], b);
    }
  }

  lemma {:induction false} DashedLetters(text: Unicode, s: string)
    ensures Letters(text, Dashed(text, s)) == Letters(text, s)
  {
    if s != "" {
      DashedLetters(text, s[1..]);
      assert Dashed(text, s)[1..] == Dashed(text, s[1..]);
    }
  }

  lemma {:induction false} CollapsedLetters(text: Unicode, s: string)
    ensures Letters(text, Collapsed(s)) == Letters(text, s)
  {
    if |s| >= 2 {
      CollapsedLetters(text, s[1..]);
      if !(s[0] == '-' && s[1] == '-') {
        assert Collapsed(s)[1..] == Collapsed(s[1..]);
      }
    }
  }

  /** Only dots and characters that are not letters. */
  lemma {:induction false} EdgeLetters(text: Unicode, s: string)
    requires forall c <- s :: Edge(c) || !Kept(text, c)
    ensures forall c <- Letters(text, s) :: c == '.'
  {
    if s != "" {
      assert s[0] in s;
      EdgeLetters(text, s[1..]);
    }
  }

  lemma {:induction false} NoLetters(text: Unicode, s: string)
    requires forall c <- s :: !Kept(text, c)
    ensures Letters(text, s) == ""
  {
    if s != "" {
      assert s[0] in s;
      NoLetters(text, s[1..]);
    }
  }

  lemma SpacedLetters(text: Unicode, s: string)
    requires LettersAreText(text)
    ensures Letters(text, Strip(s, text.space)) == Letters(text, s)
  {
    var before, behind := StripIs(s, text.space);
    NoLetters(text, before);
    NoLetters(text, behind);
    LettersConcat(text, before + Strip(s, text.space), behind);
    LettersConcat(text, before, Strip(s, text.space));
  }

  lemma StrippedLetters(text: Unicode, s: string) returns (front: string, back: string)
    ensures Letters(text, s) == front + Letters(text, Strip(s, Edge)) + back
    ensures (forall c <- front :: c == '.') && (forall c <- back :: c == '.')
  {
    var before, behind := StripIs(s, Edge);
    LettersConcat(text, before + Strip(s, Edge), behind);
    LettersConcat(text, before, Strip(s, Edge));
    front, back := Letters(text, before), Letters(text, behind);
    EdgeLetters(text, before);
    EdgeLetters(text, behind);
  }

  /** The letters of a text are those of its component, in order and none added, but for
      dots in front and behind. */
  lemma CleanedLetters(text: Unicode, s: string) returns (front: string, back: string)
    requires LettersAreText(text)
    ensures Letters(text, s) == front + Letters(text, Cleaned(text, s)) + back
    ensures (forall c <- front :: c == '.') && (forall c <- back :: c == '.')
  {
    SpacedLetters(text, s);
    DashedLetters(text, Strip(s, text.space));
    CollapsedLetters(text, Dashed(text, Strip(s, text.space)));
    front, back := StrippedLetters(text, Collapsed(Dashed(text, Strip(s, text.space))));
  }

  /** A text that is too long is cut at the limit, and dashes and dots before the cut go
      too; otherwise it is refused exactly when no letter but dots is left of it. */
  lemma SanitizedIs(text: Unicode, s: string, limit: int)
    requires limit >= 1
    ensures Sanitized(text, s, limit).Ok? <==> Strip(s, text.space) != "" && Cleaned(text, s) != ""
    ensures Sanitized(text, s, limit).Ok? ==>
              var r, whole := Sanitized(text, s, limit).value, Cleaned(text, s);
              r <= whole && forall i :: |r| <= i < Min(limit, |whole|) ==> Edge(whole[i])
  {
    if Sanitized(text, s, limit).Ok? {
      CutIs(Cleaned(text, s), limit);
    }
  }

  lemma CutIs(whole: string, limit: nat)
    ensures var r := if |whole| <= limit then whole else StripRight(whole[..limit], Edge);
            r <= whole && forall i :: |r| <= i < Min(limit, |whole|) ==> Edge(whole[i])
  {
    if |whole| > limit {
      var cut := whole[..limit];
      DroppedRight(cut, Edge);
      forall i | |StripRight(cut, Edge)| <= i < limit ensures Edge(whole[i]) {
        assert whole[i] == cut[|StripRight(cut, Edge)|..][i - |StripRight(cut, Edge)|];
      }
    }
  }

  /** One character that is not kept, between two components, becomes a dash. */
  lemma SeparatorBecomesDash(text: Unicode, a: string, c: char, b: string, limit: int)
    requires LettersAreText(text) && Component(text, a) && Component(text, b) && !Kept(text, c)
    requires |a| + 1 + |b| <= limit
    ensures Sanitized(text, a + ([c] + b), limit) == Ok(a + (['-'] + b))
  {
    var s, r := a + ([c] + b), a + (['-'] + b);
    assert a[0] in a && b[|b| - 1] in b && s[0] == a[0] && s[|s| - 1] == b[|b| - 1];
    StripKeeps(s, text.space);
    DashedAround(text, a, c, b);
    JoinedNoDoubleDash(a, b);
    CollapsedClean(r);
    StripKeeps(r, Edge);
  }

  lemma DashedAround(text: Unicode, a: string, c: char, b: string)
    requires (forall k <- a :: Kept(text, k)) && (forall k <- b :: Kept(text, k)) && !Kept(text, c)
    ensures Dashed(text, a + ([c] + b)) == a + (['-'] + b)
  {
    DashedConcat(text, a, [c] + b);
    DashedConcat(text, [c], b);
    DashedKept(text, a);
    DashedKept(text, b);
    assert [c][1..] == "";
  }

  lemma {:induction false} DashedConcat(text: Unicode, a: string, b: string)
    ensures Dashed(text, a + b) == Dashed(text, a) + Dashed(text, b)
  {
    if a == "" {
      assert a + b == b;
    } else {
      assert (a + b)[1..] == a[1..] + b;
      DashedConcat(text, a[1..], b);
    }
  }

  lemma JoinedNoDoubleDash(a: string, b: string)
    requires a != "" && b != "" && NoDoubleDash(a) && NoDoubleDash(b) && !Edge(a[|a| - 1]) && !Edge(b[0])
    ensures NoDoubleDash(a + (['-'] + b))
  {
    var r := a + (['-'] + b);
    forall i | 0 <= i < |r| - 1 ensures !(r[i] == '-' && r[i + 1] == '-') {
      if i < |a| - 1 {
        assert r[i] == a[i] && r[i + 1] == a[i + 1];
      } else if i == |a| - 1 {
        assert r[i] == a[|a| - 1];
      } else if i == |a| {
        assert r[i + 1] == b[0];
      } else {
        assert r[i] == b[i - |a| - 1] && r[i + 1] == b[(i - |a| - 1) + 1];
      }
    }
  }

  // ----- artifact leaves --------------------------------------------------------------------

  const MAX_COMPONENT: int := 80

  function Leaf(text: Unicode, name: string, version: Option<string>): Result<string, Refusal> {
    match Sanitized(text, name, MAX_COMPONENT)
    case Err(e) => Err(e)
    case Ok(base) =>
      if version.None? || version.value == "" then Ok(base)
      else
        match Sanitized(text, version.value, MAX_COMPONENT)
        case Err(e) => Err(e)
        case Ok(v) => Ok(base + "--" + v)
  }

  /** Name and version as they went into a leaf. */
  datatype Parts = Parts(name: string, version: Option<string>)

  function PartsOf(text: Unicode, name: string, version: Option<string>): Option<Parts> {
    if Sanitized(text, name, 80).Err? then None
    else if version.None? || version.value == "" then Some(Parts(Sanitized(text, name, 80).value, None))
    else if Sanitized(text, version.value, 80).Err? then None
    else Some(Parts(Sanitized(text, name, 80).value, Some(Sanitized(text, version.value, 80).value)))
  }

  /** Reads a leaf back: the first double dash separates name and version. */
  function Decoded(leaf: string): Parts {
    var i := DoubleDash(leaf);
    if i == |leaf| then Parts(leaf, None) else Parts(leaf[..i], Some(leaf[i + 2..]))
  }

  /** The first position of a double dash, or the length. */
  function DoubleDash(s: string): (i: nat)
    ensures i == |s| || i + 2 <= |s|
  {
    if |s| < 2 then |s|
    else if s[0] == '-' && s[1] == '-' then 0
    else DoubleDash(s[1..]) + 1
  }

  lemma {:induction false} DoubleDashAt(base: string, rest: string)
    requires NoDoubleDash(base) && base != "" && !Edge(base[|base| - 1])
    ensures DoubleDash(base + ("--" + rest)) == |base|
  {
    var s := base + ("--" + rest);
    assert s[0] == base[0] && s[|base|] == '-' && s[|base| + 1] == '-';
    if |base| == 1 {
      assert s[1..] == "--" + rest;
    } else {
      assert s[1] == base[0 + 1];
      PieceClean(base, 1, |base|);
      DoubleDashAt(base[1..], rest);
      assert s[1..] == base[1..] + ("--" + rest);
    }
  }

  lemma {:induction false} NoDoubleDashAt(s: string)
    requires NoDoubleDash(s)
    ensures DoubleDash(s) == |s|
  {
    if |s| >= 2 {
      assert !(s[0] == '-' && s[0 + 1] == '-');
      PieceClean(s, 1, |s|);
      NoDoubleDashAt(s[1..]);
    }
  }

  lemma TwoPartsDecoded(base: string, v: string)
    requires NoDoubleDash(base) && base != "" && !Edge(base[|base| - 1])
    ensures Decoded(base + "--" + v) == Parts(base, Some(v))
  {
    var leaf := base + ("--" + v);
    assert base + "--" + v == leaf;
    DoubleDashAt(base, v);
    assert leaf[..|base|] == base && leaf[|base| + 2..] == v;
  }

  /** A leaf decodes to the sanitised name and version it was made from. */
  lemma LeafDecodes(text: Unicode, name: string, version: Option<string>)
    ensures Leaf(text, name, version).Ok? <==> PartsOf(text, name, version).Some?
    ensures Leaf(text, name, version).Ok? ==>
            Decoded(Leaf(text, name, version).value) == PartsOf(text, name, version).value
  {
    if PartsOf(text, name, version).Some? {
      var base := Sanitized(text, name, MAX_COMPONENT).value;
      SanitizedIsComponent(text, name, MAX_COMPONENT);
      if version.Some? && version.value != "" {
        TwoPartsDecoded(base, Sanitized(text, version.value, MAX_COMPONENT).value);
      } else {
        NoDoubleDashAt(base);
      }
    }
  }

  /** So two artifacts share a leaf exactly when their sanitised names and versions agree. */
  lemma LeafDeterminesParts(text: Unicode, name: string, version: Option<string>, other: string,
                            otherVersion: Option<string>)
    requires Leaf(text, name, version).Ok? && Leaf(text, other, otherVersion).Ok?
    ensures Leaf(text, name, version) == Leaf(text, other, otherVersion)
            <==> PartsOf(text, name, version) == PartsOf(text, other, otherVersion)
  {
    LeafDecodes(text, name, version);
    LeafDecodes(text, other, otherVersion);
  }

  predicate OneComponent(s: string) {
    s != "" && s != "." && s != ".." && !Has(s, '/')
  }

  lemma ComponentIsOne(text: Unicode, s: string)
    requires LettersAreText(text) && Component(text, s)
    ensures OneComponent(s)
  {
    forall i | 0 <= i < |s| ensures s[i] != '/' {
      assert s[i] in s;
    }
  }

  /** A leaf is one path component and starts and ends with no whitespace. */
  lemma LeafIsOneComponent(text: Unicode, name: string, version: Option<string>)
    requires LettersAreText(text) && Leaf(text, name, version).Ok?
    ensures var leaf := Leaf(text, name, version).value; OneComponent(leaf) && !text.space(leaf[|leaf| - 1])
  {
    var base := Sanitized(text, name, MAX_COMPONENT).value;
    SanitizedIsComponent(text, name, MAX_COMPONENT);
    ComponentIsOne(text, base);
    assert base[|base| - 1] in base;
    if version.Some? && version.value != "" {
      var v := Sanitized(text, version.value, MAX_COMPONENT).value;
      SanitizedIsComponent(text, version.value, MAX_COMPONENT);
      ComponentIsOne(text, v);
      assert v[|v| - 1] in v;
      TwoPartsOne(base, v);
    }
  }

  lemma TwoPartsOne(base: string, v: string)
    requires OneComponent(base) && OneComponent(v)
    ensures OneComponent(base + "--" + v) && (base + "--" + v)[|base + "--" + v| - 1] == v[|v| - 1]
  {
    var leaf := base + "--" + v;
    forall i | 0 <= i < |leaf| ensures leaf[i] != '/' {
      assert if i < |base| then leaf[i] == base[i] else if i < |base| + 2 then leaf[i] == '-'
             else leaf[i] == v[i - |base| - 2];
    }
    assert |leaf| >= 4;
  }
}
