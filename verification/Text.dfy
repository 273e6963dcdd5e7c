/** String operations of the host language, as far as the models use them. */
module Text {
  import opened Common

  /** What the language takes from the Unicode tables: whitespace, digits, letters and
      numbers, case folding, and the number a string denotes, `None` when it denotes
      none. */
  datatype Unicode = Unicode(
    space: char -> bool,
    digit: char -> bool,
    word: char -> bool,
    fold: string -> string,
    number: string -> Option<int>)

  predicate Has(s: string, c: char) {
    exists i :: 0 <= i < |s| && s[i] == c
  }

  // ----- split and join on one character ------------------------------------------------

  function Split(s: string, sep: char): (parts: seq<string>)
    ensures |parts| >= 1
  {
    if s == "" then [""]
    else
      var rest := Split(s[1..], sep);
      if s[0] == sep then [""] + rest else [[s[0]] + rest[0]] + rest[1..]
  }

  function Join(parts: seq<string>, sep: char): string {
    if parts == [] then ""
    else if |parts| == 1 then parts[0]
    else parts[0] + [sep] + Join(parts[1..], sep)
  }

  lemma {:induction false} SplitParts(s: string, sep: char)
    ensures forall p <- Split(s, sep) :: !Has(p, sep)
  {
    if s != "" {
      SplitParts(s[1..], sep);
      var rest := Split(s[1..], sep);
      assert rest[0] in rest;
      if s[0] != sep {
        var first := [s[0]] + rest[0];
        forall i | 0 <= i < |first| ensures first[i] != sep {
          if i > 0 {
            assert first[i] == rest[0][i - 1];
          }
        }
        assert forall p <- rest[1..] :: p in rest;
      }
    }
  }

  lemma {:induction false} SplitJoin(parts: seq<string>, sep: char)
    requires parts != [] && forall p <- parts :: !Has(p, sep)
    ensures Split(Join(parts, sep), sep) == parts
  {
    var first, rest := parts[0], parts[1..];
    assert first in parts;
    if rest == [] {
      SplitOne(first, sep);
      assert parts == [first];
    } else {
      assert forall p <- rest :: p in parts;
      SplitJoin(rest, sep);
      SplitFirst(first, Join(rest, sep), sep);
      assert first + ([sep] + Join(rest, sep)) == first + [sep] + Join(rest, sep);
      assert [first] + rest == parts;
    }
  }

  lemma {:induction false} SplitOne(s: string, sep: char)
    requires !Has(s, sep)
    ensures Split(s, sep) == [s]
  {
    if s != "" {
      assert s[0] != sep;
      forall i | 0 <= i < |s[1..]| ensures s[1..][i] != sep {
        assert s[1..][i] == s[i + 1];
      }
      SplitOne(s[1..], sep);
      assert [s[0]] + s[1..] == s;
    }
  }

  lemma {:induction false} SplitFirst(p: string, rest: string, sep: char)
    requires !Has(p, sep)
    ensures Split(p + ([sep] + rest), sep) == [p] + Split(rest, sep)
  {
    var s := p + ([sep] + rest);
    if p == "" {
      assert s == [sep] + rest && s[1..] == rest;
    } else {
      assert s[0] == p[0] != sep;
      forall i | 0 <= i < |p[1..]| ensures p[1..][i] != sep {
        assert p[1..][i] == p[i + 1];
      }
      SplitFirst(p[1..], rest, sep);
      assert s[1..] == p[1..] + ([sep] + rest);
      assert [p[0]] + p[1..] == p;
    }
  }

  // ----- strip ------------------------------------------------------------------------------

  function StripLeft(s: string, drop: char -> bool): (r: string)
    ensures |r| <= |s| && r == s[|s| - |r|..]
    ensures r != "" ==> !drop(r[0])
  {
    if s != "" && drop(s[0]) then StripLeft(s[1..], drop) else s
  }

  function StripRight(s: string, drop: char -> bool): (r: string)
    ensures r <= s
    ensures r != "" ==> !drop(r[|r| - 1])
  {
    if s != "" && drop(s[|s| - 1]) then StripRight(s[..|s| - 1], drop) else s
  }

  function Strip(s: string, drop: char -> bool): string {
    StripRight(StripLeft(s, drop), drop)
  }

  /** A string that begins and ends with kept characters is left alone. */
  lemma StripKeeps(s: string, drop: char -> bool)
    requires s != "" ==> !drop(s[0]) && !drop(s[|s| - 1])
    ensures Strip(s, drop) == s
  {
  }

  lemma StripEnds(s: string, drop: char -> bool)
    ensures var r := Strip(s, drop); r != "" ==> !drop(r[0]) && !drop(r[|r| - 1])
  {
    RightFirst(StripLeft(s, drop), drop);
  }

  lemma RightFirst(left: string, drop: char -> bool)
    ensures var r := StripRight(left, drop); r != "" ==> left != "" && r[0] == left[0]
  {
  }

  /** Only characters to drop go, all of them in front and behind. */
  lemma StripIs(s: string, drop: char -> bool) returns (before: string, behind: string)
    ensures s == before + Strip(s, drop) + behind
    ensures (forall c <- before :: drop(c)) && (forall c <- behind :: drop(c))
    ensures var r := Strip(s, drop); r != "" ==> !drop(r[0]) && !drop(r[|r| - 1])
  {
    var left := StripLeft(s, drop);
    before, behind := s[..|s| - |left|], left[|StripRight(left, drop)|..];
    DroppedLeft(s, drop);
    DroppedRight(left, drop);
    StripEnds(s, drop);
    CutTwice(s, left, StripRight(left, drop));
  }

  lemma CutTwice(s: string, left: string, r: string)
    requires |left| <= |s| && left == s[|s| - |left|..] && r <= left
    ensures s == s[..|s| - |left|] + r + left[|r|..]
  {
    assert left == r + left[|r|..];
    assert s == s[..|s| - |left|] + left;
  }

  lemma {:induction false} DroppedLeft(s: string, drop: char -> bool)
    ensures forall c <- s[..|s| - |StripLeft(s, drop)|] :: drop(c)
  {
    if s != "" && drop(s[0]) {
      DroppedLeft(s[1..], drop);
      var n := |s| - |StripLeft(s, drop)|;
      assert s[..n] == [s[0]] + s[1..][..n - 1];
    }
  }

  lemma {:induction false} DroppedRight(s: string, drop: char -> bool)
    ensures forall c <- s[|StripRight(s, drop)|..] :: drop(c)
  {
    if s != "" && drop(s[|s| - 1]) {
      var front := s[..|s| - 1];
      DroppedRight(front, drop);
      var n := |StripRight(s, drop)|;
      assert s[n..] == front[n..] + [s[|s| - 1]];
    }
  }

  lemma StripChars(s: string, drop: char -> bool)
    ensures forall c <- Strip(s, drop) :: c in s
  {
    var left := StripLeft(s, drop);
    PrefixChars(StripRight(left, drop), left);
    SuffixChars(left, s);
  }

  lemma PrefixChars(r: string, s: string)
    requires r <= s
    ensures forall c <- r :: c in s
  {
    forall c <- r ensures c in s {
      var i :| 0 <= i < |r| && r[i] == c;
      assert s[i] == c;
    }
  }

  lemma SuffixChars(r: string, s: string)
    requires |r| <= |s| && r == s[|s| - |r|..]
    ensures forall c <- r :: c in s
  {
  }

  // ----- searching ---------------------------------------------------------------------------

  /** The last position of `c`, or -1. */
  function LastIndex(s: string, c: char): (i: int)
    ensures -1 <= i < |s|
  {
    if s == "" then -1
    else if s[|s| - 1] == c then |s| - 1
    else LastIndex(s[..|s| - 1], c)
  }

  lemma {:induction false} LastIndexIs(s: string, c: char, i: int)
    requires -1 <= i < |s| && (i >= 0 ==> s[i] == c) && forall j :: i < j < |s| ==> s[j] != c
    ensures LastIndex(s, c) == i
  {
    if i < |s| - 1 {
      assert s[|s| - 1] != c;
      LastIndexIs(s[..|s| - 1], c, i);
    }
  }

  lemma LastIndexNone(s: string, c: char)
    requires !Has(s, c)
    ensures LastIndex(s, c) == -1
  {
    LastIndexIs(s, c, -1);
  }

  /** The first position of `c`, or -1. */
  function FirstIndex(s: string, c: char): (i: int)
    ensures -1 <= i < |s|
  {
    if s == "" then -1
    else if s[0] == c then 0
    else
      var i := FirstIndex(s[1..], c);
      if i < 0 then -1 else i + 1
  }

  lemma {:induction false} FirstIndexIs(s: string, c: char, i: int)
    requires 0 <= i < |s| && s[i] == c && forall j :: 0 <= j < i ==> s[j] != c
    ensures FirstIndex(s, c) == i
  {
    if i > 0 {
      assert s[0] != c && s[1..][i - 1] == c;
      forall j | 0 <= j < i - 1 ensures s[1..][j] != c {
        assert s[1..][j] == s[j + 1];
      }
      FirstIndexIs(s[1..], c, i - 1);
    }
  }

  /** Every two-character `%c` replaced, from left to right. */
  function Replaced(s: string, c: char, text: string): string {
    if |s| < 2 then s
    else if s[0] == '%' && s[1] == c then text + Replaced(s[2..], c, text)
    else [s[0]] + Replaced(s[1..], c, text)
  }

  predicate Mentions(s: string, c: char) {
    exists i :: 0 <= i < |s| - 1 && s[i] == '%' && s[i + 1] == c
  }

  /** The first `%c` becomes the text, and what follows it is treated the same way. */
  lemma {:induction false} FirstReplaced(before: string, c: char, rest: string, text: string)
    requires c != '%' && !Mentions(before, c)
    ensures Replaced(before + (['%', c] + rest), c, text) == before + (text + Replaced(rest, c, text))
  {
    var s := ['%', c] + rest;
    if before == "" {
      assert before + s == s && s[2..] == rest;
    } else {
      var later := before[1..];
      assert |before| > 1 ==> !(before[0] == '%' && before[0 + 1] == c);
      MentionsLater(before, c);
      FirstReplaced(later, c, rest, text);
      FirstOff(before, s);
      CharKept(before[0], later + s, c, text);
      FirstOff(before, text + Replaced(rest, c, text));
    }
  }

  lemma FirstOff(a: string, b: string)
    requires a != ""
    ensures a + b == [a[0]] + (a[1..] + b)
  {
  }

  lemma MentionsLater(s: string, c: char)
    requires s != "" && !Mentions(s, c)
    ensures !Mentions(s[1..], c)
  {
    forall i | 0 <= i < |s[1..]| - 1 ensures !(s[1..][i] == '%' && s[1..][i + 1] == c) {
      assert s[1..][i] == s[i + 1] && s[1..][i + 1] == s[(i + 1) + 1];
    }
  }

  lemma CharKept(first: char, later: string, c: char, text: string)
    requires later != "" && !(first == '%' && later[0] == c)
    ensures Replaced([first] + later, c, text) == [first] + Replaced(later, c, text)
  {
    assert ([first] + later)[1..] == later;
  }

  lemma {:induction false} NothingReplaced(s: string, c: char, text: string)
    requires !Mentions(s, c)
    ensures Replaced(s, c, text) == s
  {
    if |s| >= 2 {
      assert !(s[0] == '%' && s[0 + 1] == c);
      MentionsLater(s, c);
      NothingReplaced(s[1..], c, text);
      assert [s[0]] + s[1..] == s;
    }
  }
}
