/** Effective values of a host alias from the loaded Host blocks: pattern matching with
    negation, and the first matching value wins. */
module SshConfig {
  import opened Common
  import opened Text

  /** One Host block: its patterns and the values given for each directive, in order. */
  datatype Block = Block(
    patterns: seq<string>,
    hostname: seq<string>,
    user: seq<string>,
    port: seq<string>,
    proxyJump: seq<string>,
    identityFile: seq<string>)

  /** `glob(subject, expression)` is the shell-style match of case-folded strings, and
      `file(value, alias)` the path of a key file with home and variables put in. */
  datatype Env = Env(text: Unicode, glob: (string, string) -> bool, file: (string, string) -> string)

  datatype Config = Config(env: Env, blocks: seq<Block>)

  datatype Entry = Entry(hostname: Option<string>, user: Option<string>, port: Option<int>, proxyJump: Option<string>,
                         identities: seq<string>)

  // ----- patterns -----------------------------------------------------------------------

  predicate Negated(pattern: string) {
    pattern != "" && pattern[0] == '!'
  }

  predicate Fits(env: Env, pattern: string, alias: string) {
    env.glob(env.text.fold(alias), env.text.fold(if Negated(pattern) then pattern[1..] else pattern))
  }

  /** A block matches when some positive pattern does and no negated one. */
  ghost predicate Matches(env: Env, patterns: seq<string>, alias: string) {
    && (exists p :: p in patterns && !Negated(p) && Fits(env, p, alias))
    && (forall p :: p in patterns && Negated(p) ==> !Fits(env, p, alias))
  }

  method MatchPatterns(env: Env, patterns: seq<string>, alias: string) returns (matched: bool)
    ensures matched <==> Matches(env, patterns, alias)
  {
    matched := false;
    for i := 0 to |patterns|
      invariant matched <==> exists j :: 0 <= j < i && !Negated(patterns[j]) && Fits(env, patterns[j], alias)
      invariant forall j :: 0 <= j < i && Negated(patterns[j]) ==> !Fits(env, patterns[j], alias)
    {
      if Fits(env, patterns[i], alias) {
        if Negated(patterns[i]) {
          return false;
        }
        matched := true;
      }
    }
  }

  // ----- first value wins ------------------------------------------------------------------

  /** The first offer over the blocks. */
  ghost function First<T>(blocks: seq<Block>, offer: Block -> Option<T>): Option<T> {
    if blocks == [] then None
    else
      var before := First(blocks[..|blocks| - 1], offer);
      if before.Some? then before else offer(blocks[|blocks| - 1])
  }

  lemma {:induction false} FirstWins<T>(blocks: seq<Block>, offer: Block -> Option<T>)
    ensures var r := First(blocks, offer);
            && (r.None? <==> forall i :: 0 <= i < |blocks| ==> offer(blocks[i]).None?)
            && (r.Some? ==>
                  exists i :: 0 <= i < |blocks| && offer(blocks[i]) == r
                              && forall j :: 0 <= j < i ==> offer(blocks[j]).None?)
  {
    if blocks != [] {
      var before := blocks[..|blocks| - 1];
      FirstWins(before, offer);
      if First(before, offer).Some? {
        var i :| 0 <= i < |before| && offer(before[i]) == First(before, offer)
                 && forall j :: 0 <= j < i ==> offer(before[j]).None?;
        assert offer(blocks[i]).Some?;
      } else {
        assert forall j :: 0 <= j < |before| ==> blocks[j] == before[j];
      }
    }
  }

  lemma {:induction false} FirstFrom<T>(blocks: seq<Block>, offer: Block -> Option<T>) returns (i: nat)
    requires First(blocks, offer).Some?
    ensures i < |blocks| && offer(blocks[i]) == First(blocks, offer)
  {
    i := |blocks| - 1;
    if First(blocks[..|blocks| - 1], offer).Some? {
      i := FirstFrom(blocks[..|blocks| - 1], offer);
    }
  }

  lemma FirstNext<T>(blocks: seq<Block>, i: nat, offer: Block -> Option<T>)
    requires i < |blocks|
    ensures First(blocks[..i + 1], offer)
            == if First(blocks[..i], offer).Some? then First(blocks[..i], offer) else offer(blocks[i])
  {
    assert blocks[..i + 1][..i] == blocks[..i];
  }

  function Expand(text: Unicode, value: string, alias: string): string {
    Strip(Replaced(Replaced(value, 'h', alias), 'n', alias), text.space)
  }

  /** A value of a directive, expanded for the alias. */
  function Expanded(text: Unicode, values: seq<string>, alias: string): Option<string> {
    if values == [] then None else Some(Expand(text, values[0], alias))
  }

  /** A port that is no number between 1 and 65535 is as good as none. */
  function PortOf(text: Unicode, values: seq<string>): Option<int> {
    if values == [] then None
    else
      var n := text.number(values[0]);
      if n.Some? && 1 <= n.value <= 65535 then n else None
  }

  /** What a block offers for each directive, if it matches the alias. */
  ghost function Hostname(env: Env, alias: string): Block -> Option<string> {
    (b: Block) => if Matches(env, b.patterns, alias) then Expanded(env.text, b.hostname, alias) else None
  }

  ghost function User(env: Env, alias: string): Block -> Option<string> {
    (b: Block) => if Matches(env, b.patterns, alias) then Expanded(env.text, b.user, alias) else None
  }

  ghost function Port(env: Env, alias: string): Block -> Option<int> {
    (b: Block) => if Matches(env, b.patterns, alias) then PortOf(env.text, b.port) else None
  }

  ghost function ProxyJump(env: Env, alias: string): Block -> Option<string> {
    (b: Block) => if Matches(env, b.patterns, alias) then Expanded(env.text, b.proxyJump, alias) else None
  }

  // ----- key files are collected ---------------------------------------------------------------

  /** Every string once, where it comes first. */
  function Unique(s: seq<string>): seq<string> {
    if s == [] then []
    else
      var before, last := Unique(s[..|s| - 1]), s[|s| - 1];
      if last in before then before else before + [last]
  }

  /** `x` is met before `y` is. */
  predicate SeenFirst(s: seq<string>, x: string, y: string) {
    exists m :: 0 <= m < |s| && s[m] == x && y !in s[..m]
  }

  lemma SeenStays(s: seq<string>, last: string, x: string, y: string)
    requires SeenFirst(s, x, y)
    ensures SeenFirst(s + [last], x, y)
  {
    var m :| 0 <= m < |s| && s[m] == x && y !in s[..m];
    assert (s + [last])[m] == x && (s + [last])[..m] == s[..m];
  }

  lemma {:induction false} UniqueIs(s: seq<string>)
    ensures var u := Unique(s);
            && (forall x :: x in u <==> x in s)
            && (forall i, j :: 0 <= i < j < |u| ==> u[i] != u[j])
  {
    if s != [] {
      var before, last := s[..|s| - 1], s[|s| - 1];
      UniqueIs(before);
      assert s == before + [last];
      if last !in Unique(before) {
        forall i, j | 0 <= i < j < |Unique(s)| ensures Unique(s)[i] != Unique(s)[j] {
          assert Unique(before)[i] in Unique(before);
        }
      }
    }
  }

  /** And in the order in which they are first met. */
  lemma {:induction false} UniqueInOrder(s: seq<string>, i: nat, j: nat)
    requires i < j < |Unique(s)|
    ensures SeenFirst(s, Unique(s)[i], Unique(s)[j])
  {
    var before, last := s[..|s| - 1], s[|s| - 1];
    assert s == before + [last];
    if j < |Unique(before)| {
      UniqueInOrder(before, i, j);
      SeenStays(before, last, Unique(s)[i], Unique(s)[j]);
    } else {
      UniqueIs(before);
      assert Unique(before)[i] in Unique(before);
      SeenLast(before, last, Unique(before)[i]);
    }
  }

  lemma SeenLast(before: seq<string>, last: string, x: string)
    requires x in before && last !in before
    ensures SeenFirst(before + [last], x, last)
  {
    var m :| 0 <= m < |before| && before[m] == x;
    assert (before + [last])[m] == x && (before + [last])[..m] == before[..m];
  }

  lemma UniqueMore(s: seq<string>, x: string)
    ensures Unique(s + [x]) == if x in Unique(s) then Unique(s) else Unique(s) + [x]
  {
    assert (s + [x])[..|s|] == s;
  }

  function Files(env: Env, values: seq<string>, alias: string): seq<string> {
    seq(|values|, i requires 0 <= i < |values| => env.file(values[i], alias))
  }

  /** All key files of the matching blocks, in order. */
  ghost function Keys(env: Env, blocks: seq<Block>, alias: string): seq<string> {
    if blocks == [] then []
    else
      var b := blocks[|blocks| - 1];
      Keys(env, blocks[..|blocks| - 1], alias) +
      if Matches(env, b.patterns, alias) then Files(env, b.identityFile, alias) else []
  }

  lemma KeysNext(env: Env, blocks: seq<Block>, i: nat, alias: string)
    requires i < |blocks|
    ensures Keys(env, blocks[..i + 1], alias)
            == Keys(env, blocks[..i], alias) +
               if Matches(env, blocks[i].patterns, alias) then Files(env, blocks[i].identityFile, alias) else []
  {
    assert blocks[..i + 1][..i] == blocks[..i];
  }

  method AddFiles(env: Env, values: seq<string>, alias: string, ghost all: seq<string>, identities: seq<string>)
    returns (more: seq<string>)
    requires identities == Unique(all)
    ensures more == Unique(all + Files(env, values, alias))
  {
    more := identities;
    ghost var files := Files(env, values, alias);
    assert all + files[..0] == all;
    for i := 0 to |values|
      invariant more == Unique(all + files[..i])
    {
      var file := env.file(values[i], alias);
      FileNext(all, files, i, file);
      UniqueMore(all + files[..i], file);
      if file !in more {
        more := more + [file];
      }
    }
    assert all + files[..|values|] == all + files;
  }

  lemma FileNext(all: seq<string>, files: seq<string>, i: nat, file: string)
    requires i < |files| && files[i] == file
    ensures all + files[..i + 1] == (all + files[..i]) + [file]
  {
    TakeNext(files, i);
  }

  ghost function Resolved(c: Config, alias: string): Entry {
    Entry(First(c.blocks, Hostname(c.env, alias)), First(c.blocks, User(c.env, alias)),
          First(c.blocks, Port(c.env, alias)), First(c.blocks, ProxyJump(c.env, alias)),
          Unique(Keys(c.env, c.blocks, alias)))
  }

  ghost function ResolvedFrom(c: Config, n: nat, alias: string): Entry
    requires n <= |c.blocks|
  {
    Resolved(c.(blocks := c.blocks[..n]), alias)
  }

  lemma BlockResolved(c: Config, i: nat, alias: string)
    requires i < |c.blocks|
    ensures var e, b := ResolvedFrom(c, i, alias), c.blocks[i];
            ResolvedFrom(c, i + 1, alias) == if !Matches(c.env, b.patterns, alias) then e else Entry(
              if e.hostname.Some? then e.hostname else Expanded(c.env.text, b.hostname, alias),
              if e.user.Some? then e.user else Expanded(c.env.text, b.user, alias),
              if e.port.Some? then e.port else PortOf(c.env.text, b.port),
              if e.proxyJump.Some? then e.proxyJump else Expanded(c.env.text, b.proxyJump, alias),
              Unique(Keys(c.env, c.blocks[..i], alias) + Files(c.env, b.identityFile, alias)))
  {
    KeysNext(c.env, c.blocks, i, alias);
    assert Keys(c.env, c.blocks[..i], alias) + [] == Keys(c.env, c.blocks[..i], alias);
    FirstNext(c.blocks, i, Hostname(c.env, alias));
    FirstNext(c.blocks, i, User(c.env, alias));
    FirstNext(c.blocks, i, Port(c.env, alias));
    FirstNext(c.blocks, i, ProxyJump(c.env, alias));
  }

  /** The loop over the blocks: every directive gets the first value offered for it. */
  method Resolve(c: Config, alias: string) returns (entry: Entry)
    ensures entry == Resolved(c, alias)
  {
    entry := Entry(None, None, None, None, []);
    for i := 0 to |c.blocks|
      invariant entry == ResolvedFrom(c, i, alias)
    {
      BlockResolved(c, i, alias);
      var b := c.blocks[i];
      var matched := MatchPatterns(c.env, b.patterns, alias);
      if matched {
        if entry.hostname.None? && b.hostname != [] {
          entry := entry.(hostname := Some(Expand(c.env.text, b.hostname[0], alias)));
        }
        if entry.user.None? && b.user != [] {
          entry := entry.(user := Some(Expand(c.env.text, b.user[0], alias)));
        }
        if entry.port.None? && b.port != [] {
          entry := entry.(port := PortOf(c.env.text, b.port));
        }
        if entry.proxyJump.None? && b.proxyJump != [] {
          entry := entry.(proxyJump := Some(Expand(c.env.text, b.proxyJump[0], alias)));
        }
        var identities := AddFiles(c.env, b.identityFile, alias, Keys(c.env, c.blocks[..i], alias), entry.identities);
        entry := entry.(identities := identities);
      }
    }
    assert c.blocks[..|c.blocks|] == c.blocks;
  }

  // ----- what the config says about an alias -------------------------------------------------

  /** On the patterns alone: without regard to case, some pattern without an exclamation
      mark fits the alias and none with one does. */
  lemma MatchesIff(env: Env, patterns: seq<string>, alias: string)
    ensures Matches(env, patterns, alias)
            <==> && (exists p ::
                       p in patterns && (p == "" || p[0] != '!') && env.glob(env.text.fold(alias), env.text.fold(p)))
                 && (forall p :: p in patterns && p != "" && p[0] == '!' ==>
                       !env.glob(env.text.fold(alias), env.text.fold(p[1..])))
  {
  }

  /** Block `i` matches and gives the directive a value, and no matching block before does. */
  ghost predicate GivenFirst(c: Config, alias: string, values: Block -> seq<string>, i: nat) {
    && i < |c.blocks| && Matches(c.env, c.blocks[i].patterns, alias) && values(c.blocks[i]) != []
    && forall j :: 0 <= j < i && Matches(c.env, c.blocks[j].patterns, alias) ==> values(c.blocks[j]) == []
  }

  /** A value with the alias put in for %h, then for %n, and whitespace at its ends gone. */
  function PutIn(text: Unicode, value: string, alias: string): string {
    Strip(Replaced(Replaced(value, 'h', alias), 'n', alias), text.space)
  }

  /** The directive's value: the first one given by a matching block, with the alias put in
      for %h and %n and the ends stripped, or none when no matching block gives one. */
  ghost predicate Says(c: Config, alias: string, values: Block -> seq<string>, v: Option<string>) {
    match v
    case None =>
      forall i :: 0 <= i < |c.blocks| && Matches(c.env, c.blocks[i].patterns, alias) ==> values(c.blocks[i]) == []
    case Some(x) =>
      exists i: nat :: GivenFirst(c, alias, values, i) && x == PutIn(c.env.text, values(c.blocks[i])[0], alias)
  }

  predicate PortIn(text: Unicode, values: seq<string>, n: int) {
    values != [] && text.number(values[0]) == Some(n) && 1 <= n <= 65535
  }

  /** The port: the first number from 1 to 65535 that a matching block gives first. */
  ghost predicate SaysPort(c: Config, alias: string, v: Option<int>) {
    match v
    case None =>
      forall i, n :: 0 <= i < |c.blocks| && Matches(c.env, c.blocks[i].patterns, alias) ==>
        !PortIn(c.env.text, c.blocks[i].port, n)
    case Some(x) =>
      exists i :: && 0 <= i < |c.blocks| && Matches(c.env, c.blocks[i].patterns, alias)
                  && PortIn(c.env.text, c.blocks[i].port, x)
                  && forall j, n :: 0 <= j < i && Matches(c.env, c.blocks[j].patterns, alias) ==>
                       !PortIn(c.env.text, c.blocks[j].port, n)
  }

  lemma FirstSaid(c: Config, alias: string, values: Block -> seq<string>, offer: Block -> Option<string>)
    requires forall b: Block ::
               offer(b) == if Matches(c.env, b.patterns, alias) then Expanded(c.env.text, values(b), alias) else None
    ensures Says(c, alias, values, First(c.blocks, offer))
  {
    FirstWins(c.blocks, offer);
    var r := First(c.blocks, offer);
    if r.Some? {
      var i :| 0 <= i < |c.blocks| && offer(c.blocks[i]) == r && forall j :: 0 <= j < i ==> offer(c.blocks[j]).None?;
      assert GivenFirst(c, alias, values, i);
    }
  }

  lemma PortSaid(c: Config, alias: string)
    ensures SaysPort(c, alias, First(c.blocks, Port(c.env, alias)))
  {
    var offer := Port(c.env, alias);
    FirstWins(c.blocks, offer);
    forall i | 0 <= i < |c.blocks| && offer(c.blocks[i]).None? && Matches(c.env, c.blocks[i].patterns, alias)
      ensures forall n :: !PortIn(c.env.text, c.blocks[i].port, n)
    {
    }
  }

  /** What `resolve` answers, told from the blocks. */
  lemma ResolvedSays(c: Config, alias: string)
    ensures Says(c, alias, (b: Block) => b.hostname, Resolved(c, alias).hostname)
    ensures Says(c, alias, (b: Block) => b.user, Resolved(c, alias).user)
    ensures Says(c, alias, (b: Block) => b.proxyJump, Resolved(c, alias).proxyJump)
    ensures SaysPort(c, alias, Resolved(c, alias).port)
    ensures forall f :: f in Resolved(c, alias).identities <==> SomeNames(c.env, c.blocks, alias, f)
  {
    FirstSaid(c, alias, (b: Block) => b.hostname, Hostname(c.env, alias));
    FirstSaid(c, alias, (b: Block) => b.user, User(c.env, alias));
    FirstSaid(c, alias, (b: Block) => b.proxyJump, ProxyJump(c.env, alias));
    PortSaid(c, alias);
    KeysAre(c, alias);
  }

  lemma GivenOnce(c: Config, alias: string, values: Block -> seq<string>, i: nat, j: nat)
    requires GivenFirst(c, alias, values, i) && GivenFirst(c, alias, values, j)
    ensures i == j
  {
  }

  /** There is only one such value. */
  lemma SaysOnce(c: Config, alias: string, values: Block -> seq<string>, v: Option<string>, w: Option<string>)
    requires Says(c, alias, values, v) && Says(c, alias, values, w)
    ensures v == w
  {
    if v.Some? && w.Some? {
      var i: nat :| GivenFirst(c, alias, values, i) && v.value == PutIn(c.env.text, values(c.blocks[i])[0], alias);
      var j: nat :| GivenFirst(c, alias, values, j) && w.value == PutIn(c.env.text, values(c.blocks[j])[0], alias);
      GivenOnce(c, alias, values, i, j);
    }
  }

  lemma SaysPortOnce(c: Config, alias: string, v: Option<int>, w: Option<int>)
    requires SaysPort(c, alias, v) && SaysPort(c, alias, w)
    ensures v == w
  {
  }

  /** A matching block names this key file. */
  ghost predicate NamesKey(env: Env, b: Block, alias: string, f: string) {
    Matches(env, b.patterns, alias) && exists j :: 0 <= j < |b.identityFile| && f == env.file(b.identityFile[j], alias)
  }

  lemma KeysAre(c: Config, alias: string)
    ensures forall f :: f in Resolved(c, alias).identities <==> SomeNames(c.env, c.blocks, alias, f)
  {
    forall f ensures f in Resolved(c, alias).identities <==> SomeNames(c.env, c.blocks, alias, f) {
      UniqueIs(Keys(c.env, c.blocks, alias));
      KeyIn(c.env, c.blocks, alias, f);
    }
  }

  lemma {:induction false} KeyIn(env: Env, blocks: seq<Block>, alias: string, f: string)
    ensures f in Keys(env, blocks, alias) <==> SomeNames(env, blocks, alias, f)
  {
    if blocks != [] {
      var before, b := blocks[..|blocks| - 1], blocks[|blocks| - 1];
      KeyIn(env, before, alias, f);
      FilesHave(env, b, alias, f);
      LastNames(env, before, b, alias, f);
      assert before + [b] == blocks;
    }
  }

  lemma FilesHave(env: Env, b: Block, alias: string, f: string)
    ensures NamesKey(env, b, alias, f) <==> Matches(env, b.patterns, alias) && f in Files(env, b.identityFile, alias)
  {
    if f in Files(env, b.identityFile, alias) {
      var j :| 0 <= j < |b.identityFile| && Files(env, b.identityFile, alias)[j] == f;
      assert f == env.file(b.identityFile[j], alias);
    }
    if NamesKey(env, b, alias, f) {
      var j :| 0 <= j < |b.identityFile| && f == env.file(b.identityFile[j], alias);
      assert Files(env, b.identityFile, alias)[j] == f;
    }
  }

  ghost predicate SomeNames(env: Env, blocks: seq<Block>, alias: string, f: string) {
    exists i :: 0 <= i < |blocks| && NamesKey(env, blocks[i], alias, f)
  }

  lemma LastNames(env: Env, before: seq<Block>, last: Block, alias: string, f: string)
    ensures SomeNames(env, before + [last], alias, f)
            <==> SomeNames(env, before, alias, f) || NamesKey(env, last, alias, f)
  {
    var all := before + [last];
    if SomeNames(env, all, alias, f) {
      var i :| 0 <= i < |all| && NamesKey(env, all[i], alias, f);
      assert i < |before| ==> before[i] == all[i];
    }
    if SomeNames(env, before, alias, f) {
      var i :| 0 <= i < |before| && NamesKey(env, before[i], alias, f);
      assert all[i] == before[i];
    }
    assert all[|before|] == last;
  }
}
