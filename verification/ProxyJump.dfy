/** ProxyJump expansion: every hop alias is replaced by what the config says about it,
    and the jumps of a hop are put in front of all hops so far. */
module ProxyJump {
  import opened Common
  import opened Text
  import opened SshConfig

  datatype Hop = Hop(user: Option<string>, host: string, port: Option<int>)

  /** A cycle, a port that is no number, or a nesting deeper than the interpreter allows. */
  datatype Fault = CycleAt(host: string) | BadPort | TooDeep

  // ----- one hop ------------------------------------------------------------------------

  predicate Digits(text: Unicode, s: string) {
    s != "" && forall c <- s :: text.digit(c)
  }

  datatype Address = Address(host: string, port: Option<int>)

  function WithPort(text: Unicode, host: string, port: string): Option<Address> {
    var n := text.number(port);
    if n.Some? then Some(Address(host, n)) else None
  }

  /** `host[:port]`, the host possibly in brackets; `None` when the port's digits are no
      number. */
  function SplitAddress(text: Unicode, rest: string): Option<Address> {
    if rest != "" && rest[0] == '[' then
      var close := FirstIndex(rest, ']');
      if close <= 0 then Some(Address(rest, None))
      else
        var tail := rest[close + 1..];
        if tail != "" && tail[0] == ':' && Digits(text, tail[1..]) then WithPort(text, rest[1..close], tail[1..])
        else Some(Address(rest[1..close], None))
    else
      var colon := LastIndex(rest, ':');
      if colon > 0 && Digits(text, rest[colon + 1..]) then WithPort(text, rest[..colon], rest[colon + 1..])
      else Some(Address(rest, None))
  }

  /** `[user@]host[:port]`; an empty user is none. */
  function SplitHop(text: Unicode, token: string): Option<Hop> {
    var at := LastIndex(token, '@');
    WithUser(if at > 0 then Some(token[..at]) else None, SplitAddress(text, if at >= 0 then token[at + 1..] else token))
  }

  function WithUser(user: Option<string>, address: Option<Address>): Option<Hop> {
    if address.None? then None else Some(Hop(user, address.value.host, address.value.port))
  }

  function Decimal(n: nat): string {
    if n < 10 then [DIGITS[n]] else Decimal(n / 10) + [DIGITS[n % 10]]
  }

  const DIGITS: string := "0123456789"

  function Signed(n: int): string {
    if n < 0 then "-" + Decimal(-n) else Decimal(n)
  }

  function HopText(user: Option<string>, host: string, port: int): string {
    (if user.Some? && user.value != "" then user.value + "@" else "") +
    (if Has(host, ':') && port != 22 then "[" + host + "]:" + Signed(port)
     else if port != 22 then host + ":" + Signed(port)
     else host)
  }

  function Or(given: Option<string>, default: string): string {
    if given.Some? && given.value != "" then given.value else default
  }

  predicate Skips(text: Unicode, token: string) {
    token == "" || text.fold(token) == "none"
  }

  /** The text of a hop after substitution, from its parts and its config entry. */
  function OwnText(hop: Hop, entry: Entry): string {
    HopText(if hop.user.Some? then hop.user else entry.user, Or(entry.hostname, hop.host),
            if hop.port.Some? then hop.port.value
            else if entry.port.Some? && entry.port.value != 0 then entry.port.value else 22)
  }

  // ----- the expansion -----------------------------------------------------------------------

  /** What one comma-separated piece asks for: nothing, a port that is no number, or a
      hop on `host`, case-folded `key`, with the jumps of `inner` in front of it. */
  datatype Ask = Pass | Bad | Via(host: string, key: string, own: string, inner: Option<string>)

  ghost function Asked(c: Config, raw: string): Ask {
    var token := Strip(raw, c.env.text.space);
    if Skips(c.env.text, token) then Pass
    else
      match SplitHop(c.env.text, token)
      case None => Bad
      case Some(hop) => AskOf(c.env.text, hop, Resolved(c, hop.host))
  }

  function AskOf(text: Unicode, hop: Hop, entry: Entry): Ask {
    var host := Or(entry.hostname, hop.host);
    Via(host, text.fold(host), OwnText(hop, entry), if Or(entry.proxyJump, "") == "" then None else entry.proxyJump)
  }

  /** The jump graph: what every piece asks for under a config. */
  type Graph = string -> Ask

  ghost function GraphOf(c: Config): Graph {
    (raw: string) => Asked(c, raw)
  }

  /** What a piece contributes: nothing, or the jumps in front of it and its own hop. */
  datatype Piece = Nothing | Piece(inner: seq<string>, own: string)

  ghost function Expansion(g: Graph, spec: string, seen: set<string>, depth: nat): Result<string, Fault>
    decreases depth, 0, 0
  {
    if depth == 0 then Err(TooDeep)
    else
      match Pieces(g, Split(spec, ','), seen, depth - 1)
      case Err(e) => Err(e)
      case Ok(pieces) => Ok(Join(Assembled(pieces), ','))
  }

  ghost function Pieces(g: Graph, raws: seq<string>, seen: set<string>, depth: nat): Result<seq<Piece>, Fault>
    decreases depth, 2, |raws|
  {
    if raws == [] then Ok([])
    else
      match Pieces(g, raws[..|raws| - 1], seen, depth)
      case Err(e) => Err(e)
      case Ok(pieces) =>
        match PieceOf(g, g(raws[|raws| - 1]), seen, depth)
        case Err(e) => Err(e)
        case Ok(piece) => Ok(pieces + [piece])
  }

  ghost function PieceOf(g: Graph, ask: Ask, seen: set<string>, depth: nat): Result<Piece, Fault>
    decreases depth, 1, 0
  {
    match ask
    case Pass => Ok(Nothing)
    case Bad => Err(BadPort)
    case Via(host, key, own, inner) =>
      if key in seen then Err(CycleAt(host))
      else if inner.None? then Ok(Piece([], own))
      else
        match Expansion(g, inner.value, seen + {key}, depth)
        case Err(e) => Err(e)
        case Ok(text) => Ok(Piece(Listed(text), own))
  }

  function Listed(text: string): seq<string> {
    if text == "" then [] else Split(text, ',')
  }

  /** The jumps of a later piece go in front of everything before it. */
  function Assembled(pieces: seq<Piece>): seq<string> {
    if pieces == [] then []
    else
      match pieces[|pieces| - 1]
      case Nothing => Assembled(pieces[..|pieces| - 1])
      case Piece(inner, own) => inner + Assembled(pieces[..|pieces| - 1]) + [own]
  }

  /** The recursive method with its loop over the pieces. */
  method ResolveProxyJump(c: Config, spec: string, seen: set<string>, depth: nat) returns (r: Result<string, Fault>)
    ensures r == Expansion(GraphOf(c), spec, seen, depth)
    decreases depth, 0
  {
    if depth == 0 {
      return Err(TooDeep);
    }
    var hops := ResolveHops(c, Split(spec, ','), seen, depth - 1);
    if hops.Err? {
      return Err(hops.error);
    }
    return Ok(Join(hops.value, ','));
  }

  /** The hops of the pieces, or the first fault. */
  ghost function HopsOf(g: Graph, raws: seq<string>, seen: set<string>, depth: nat): Result<seq<string>, Fault> {
    match Pieces(g, raws, seen, depth)
    case Err(e) => Err(e)
    case Ok(pieces) => Ok(Assembled(pieces))
  }

  method ResolveHops(c: Config, raws: seq<string>, seen: set<string>, depth: nat)
    returns (r: Result<seq<string>, Fault>)
    ensures r == HopsOf(GraphOf(c), raws, seen, depth)
    decreases depth, 3
  {
    var hops: seq<string> := [];
    NoHops(GraphOf(c), raws[..0], seen, depth);
    for i := 0 to |raws|
      invariant HopsOf(GraphOf(c), raws[..i], seen, depth) == Ok(hops)
    {
      HopsNext(GraphOf(c), raws, i, seen, depth);
      var piece := ResolvePiece(c, raws[i], seen, depth);
      if piece.Err? {
        return Err(piece.error);
      }
      if piece.value.Piece? {
        hops := piece.value.inner + hops + [piece.value.own];
      }
    }
    assert raws[..|raws|] == raws;
    return Ok(hops);
  }

  lemma NoHops(g: Graph, none: seq<string>, seen: set<string>, depth: nat)
    requires none == []
    ensures HopsOf(g, none, seen, depth) == Ok([])
  {
  }

  lemma HopsNext(g: Graph, raws: seq<string>, i: nat, seen: set<string>, depth: nat)
    requires i < |raws| && HopsOf(g, raws[..i], seen, depth).Ok?
    ensures var hops, piece := HopsOf(g, raws[..i], seen, depth).value, PieceOf(g, g(raws[i]), seen, depth);
            && (piece.Err? ==> HopsOf(g, raws, seen, depth) == Err(piece.error))
            && (piece.Ok? && piece.value.Nothing? ==> HopsOf(g, raws[..i + 1], seen, depth) == Ok(hops))
            && (piece.Ok? && piece.value.Piece? ==>
                  HopsOf(g, raws[..i + 1], seen, depth) == Ok(piece.value.inner + hops + [piece.value.own]))
  {
    PiecesNext(g, raws, i, seen, depth);
    var before, piece := Pieces(g, raws[..i], seen, depth).value, PieceOf(g, g(raws[i]), seen, depth);
    if piece.Err? {
      PiecesFail(g, raws, i, seen, depth);
    } else {
      assert (before + [piece.value])[..|before|] == before;
    }
  }

  /** One turn of the loop. */
  method ResolvePiece(c: Config, raw: string, seen: set<string>, depth: nat) returns (r: Result<Piece, Fault>)
    ensures r == PieceOf(GraphOf(c), Asked(c, raw), seen, depth)
    decreases depth, 2
  {
    var token := Strip(raw, c.env.text.space);
    if Skips(c.env.text, token) {
      return Ok(Nothing);
    }
    var split := SplitHop(c.env.text, token);
    if split.None? {
      return Err(BadPort);
    }
    var entry := Resolve(c, split.value.host);
    r := ResolveHop(c, split.value, entry, seen, depth);
  }

  /** A hop whose alias was looked up: the cycle test, then its own jumps. */
  method ResolveHop(c: Config, hop: Hop, entry: Entry, seen: set<string>, depth: nat) returns (r: Result<Piece, Fault>)
    ensures r == PieceOf(GraphOf(c), AskOf(c.env.text, hop, entry), seen, depth)
    decreases depth, 1
  {
    var host := Or(entry.hostname, hop.host);
    if c.env.text.fold(host) in seen {
      return Err(CycleAt(host));
    }
    var inner: seq<string> := [];
    if Or(entry.proxyJump, "") != "" {
      var nested := ResolveProxyJump(c, entry.proxyJump.value, seen + {c.env.text.fold(host)}, depth);
      if nested.Err? {
        return Err(nested.error);
      }
      inner := Listed(nested.value);
    }
    return Ok(Piece(inner, OwnText(hop, entry)));
  }

  lemma PiecesNext(g: Graph, raws: seq<string>, i: nat, seen: set<string>, depth: nat)
    requires i < |raws| && Pieces(g, raws[..i], seen, depth).Ok?
    ensures Pieces(g, raws[..i + 1], seen, depth) ==
            match PieceOf(g, g(raws[i]), seen, depth)
            case Err(e) => Err(e)
            case Ok(piece) => Ok(Pieces(g, raws[..i], seen, depth).value + [piece])
  {
    assert raws[..i + 1][..i] == raws[..i];
  }

  /** The first failing piece decides the outcome. */
  lemma {:induction false} PiecesFail(g: Graph, raws: seq<string>, i: nat, seen: set<string>, depth: nat)
    requires i < |raws| && Pieces(g, raws[..i], seen, depth).Ok? && PieceOf(g, g(raws[i]), seen, depth).Err?
    ensures Pieces(g, raws, seen, depth) == Err(PieceOf(g, g(raws[i]), seen, depth).error)
  {
    if i == |raws| - 1 {
      assert raws[..i] == raws[..|raws| - 1];
    } else {
      assert raws[..|raws| - 1][..i] == raws[..i] && raws[..|raws| - 1][i] == raws[i];
      PiecesFail(g, raws[..|raws| - 1], i, seen, depth);
    }
  }

  // ----- the order of the hops ---------------------------------------------------------------

  /** The own hops of the pieces that ask for one, in order. */
  ghost function OwnHops(g: Graph, raws: seq<string>): seq<string> {
    if raws == [] then []
    else OwnHops(g, raws[..|raws| - 1]) + if g(raws[|raws| - 1]).Via? then [g(raws[|raws| - 1]).own] else []
  }

  /** The jumps a piece brings along: the hops its own jumps expand to. */
  ghost function JumpsOf(g: Graph, ask: Ask, seen: set<string>, depth: nat): seq<string> {
    if ask.Via? && ask.inner.Some? then
      match Expansion(g, ask.inner.value, seen + {ask.key}, depth)
      case Ok(text) => Listed(text)
      case Err(_) => []
    else []
  }

  /** The jumps in front of the pieces, those of the last piece first. */
  ghost function InnerHops(g: Graph, raws: seq<string>, seen: set<string>, depth: nat): seq<string> {
    if raws == [] then []
    else JumpsOf(g, g(raws[|raws| - 1]), seen, depth) + InnerHops(g, raws[..|raws| - 1], seen, depth)
  }

  /** An expansion that succeeds on the hops 1 to n is inner_n, ..., inner_1, hop_1, ...,
      hop_n, where inner_k is the expansion of the jumps of hop k. */
  lemma HopOrder(g: Graph, spec: string, seen: set<string>, depth: nat)
    requires Expansion(g, spec, seen, depth).Ok?
    ensures depth > 0
    ensures var raws := Split(spec, ',');
            Expansion(g, spec, seen, depth).value ==
            Join(InnerHops(g, raws, seen, depth - 1) + OwnHops(g, raws), ',')
  {
    PieceOrder(g, Split(spec, ','), seen, depth - 1);
  }

  /** A piece that succeeds is the hop it asks for with the jumps it brings along. */
  lemma PieceParts(g: Graph, ask: Ask, seen: set<string>, depth: nat)
    requires PieceOf(g, ask, seen, depth).Ok?
    ensures PieceOf(g, ask, seen, depth).value ==
            if ask.Via? then Piece(JumpsOf(g, ask, seen, depth), ask.own) else Nothing
    ensures !ask.Via? ==> JumpsOf(g, ask, seen, depth) == []
  {
  }

  lemma AssembledMore(pieces: seq<Piece>, last: Piece)
    ensures Assembled(pieces + [last]) ==
            if last.Piece? then last.inner + Assembled(pieces) + [last.own] else Assembled(pieces)
  {
    assert (pieces + [last])[..|pieces|] == pieces;
  }

  lemma {:induction false} PieceOrder(g: Graph, raws: seq<string>, seen: set<string>, depth: nat)
    requires Pieces(g, raws, seen, depth).Ok?
    ensures Assembled(Pieces(g, raws, seen, depth).value) == InnerHops(g, raws, seen, depth) + OwnHops(g, raws)
  {
    if raws != [] {
      var before, raw := raws[..|raws| - 1], raws[|raws| - 1];
      assert raws == before + [raw];
      PieceOrder(g, before, seen, depth);
      PieceParts(g, g(raw), seen, depth);
      AssembledMore(Pieces(g, before, seen, depth).value, PieceOf(g, g(raw), seen, depth).value);
      HopsMore(g, raws, before, raw, seen, depth);
    }
  }

  lemma HopsMore(g: Graph, raws: seq<string>, before: seq<string>, raw: string, seen: set<string>, depth: nat)
    requires raws == before + [raw]
    ensures InnerHops(g, raws, seen, depth) + OwnHops(g, raws) ==
            if g(raw).Via? then
              JumpsOf(g, g(raw), seen, depth) + (InnerHops(g, before, seen, depth) + OwnHops(g, before)) + [g(raw).own]
            else InnerHops(g, before, seen, depth) + OwnHops(g, before)
  {
    assert raws[..|raws| - 1] == before;
    if g(raw).Via? {
      Regrouped(JumpsOf(g, g(raw), seen, depth), InnerHops(g, before, seen, depth), OwnHops(g, before), [g(raw).own]);
    }
  }

  lemma Regrouped(a: seq<string>, b: seq<string>, c: seq<string>, d: seq<string>)
    ensures a + (b + c) + d == (a + b) + (c + d)
  {
  }

  // ----- termination -----------------------------------------------------------------------

  /** No ProxyJump value refers to the alias it is used for. */
  ghost predicate NoPlaceholders(c: Config) {
    forall b <- c.blocks :: b.proxyJump != [] ==> !Mentions(b.proxyJump[0], 'h') && !Mentions(b.proxyJump[0], 'n')
  }

  ghost function JumpSpecs(c: Config): set<string> {
    set b <- c.blocks | b.proxyJump != [] :: Strip(b.proxyJump[0], c.env.text.space)
  }

  /** The folded effective host that a piece leads to. */
  ghost function HostOf(c: Config, raw: string): string {
    match SplitHop(c.env.text, Strip(raw, c.env.text.space))
    case None => ""
    case Some(hop) => c.env.text.fold(Or(Resolved(c, hop.host).hostname, hop.host))
  }

  ghost function HostsOf(c: Config, specs: set<string>): set<string> {
    set s, raw | s in specs && raw in Split(s, ',') :: HostOf(c, raw)
  }

  /** Without placeholders every nested spec is one of the config's finitely many. */
  lemma NestedSpecs(c: Config, alias: string)
    requires NoPlaceholders(c) && Resolved(c, alias).proxyJump.Some?
    ensures Resolved(c, alias).proxyJump.value in JumpSpecs(c)
  {
    var i := FirstFrom(c.blocks, SshConfig.ProxyJump(c.env, alias));
    SpecPlain(c, c.blocks[i], alias);
  }

  lemma SpecPlain(c: Config, b: Block, alias: string)
    requires NoPlaceholders(c) && b in c.blocks && b.proxyJump != []
    ensures Expand(c.env.text, b.proxyJump[0], alias) in JumpSpecs(c)
  {
    NothingReplaced(b.proxyJump[0], 'h', alias);
    NothingReplaced(b.proxyJump[0], 'n', alias);
  }

  lemma AskedVia(c: Config, raw: string)
    requires Asked(c, raw).Via?
    ensures Asked(c, raw).key == HostOf(c, raw)
    ensures NoPlaceholders(c) && Asked(c, raw).inner.Some? ==> Asked(c, raw).inner.value in JumpSpecs(c)
  {
    var hop := SplitHop(c.env.text, Strip(raw, c.env.text.space)).value;
    if NoPlaceholders(c) && Asked(c, raw).inner.Some? {
      NestedSpecs(c, hop.host);
    }
  }

  /** All hosts that the pieces of `spec` lead to are in `hosts`. */
  ghost predicate Leads(g: Graph, spec: string, hosts: set<string>) {
    forall raw <- Split(spec, ',') :: g(raw).Via? ==> g(raw).key in hosts
  }

  /** Every nested spec leads into `hosts` again. */
  ghost predicate Closed(g: Graph, hosts: set<string>) {
    forall raw: string :: g(raw).Via? && g(raw).inner.Some? ==> Leads(g, g(raw).inner.value, hosts)
  }

  lemma OneMoreSeen(hosts: set<string>, seen: set<string>, host: string)
    requires host in hosts && host !in seen
    ensures |hosts - seen| == |hosts - (seen + {host})| + 1
  {
    assert hosts - seen == (hosts - (seen + {host})) + {host};
  }

  lemma ClosedWithoutPlaceholders(c: Config, spec: string)
    requires NoPlaceholders(c)
    ensures var hosts := HostsOf(c, JumpSpecs(c) + {spec}); Closed(GraphOf(c), hosts) && Leads(GraphOf(c), spec, hosts)
  {
    var g, specs := GraphOf(c), JumpSpecs(c) + {spec};
    forall s <- specs ensures Leads(g, s, HostsOf(c, specs)) {
      forall raw <- Split(s, ',') ensures g(raw).Via? ==> g(raw).key in HostsOf(c, specs) {
        if g(raw).Via? {
          AskedVia(c, raw);
        }
      }
    }
    forall raw: string | g(raw).Via? && g(raw).inner.Some? ensures Leads(g, g(raw).inner.value, HostsOf(c, specs)) {
      AskedVia(c, raw);
    }
  }

  /** The depth only decides whether expansion ends, never its outcome. */
  lemma {:induction false} DeeperSame(g: Graph, spec: string, seen: set<string>, depth: nat, more: nat)
    requires depth <= more && Expansion(g, spec, seen, depth) != Err(TooDeep)
    ensures Expansion(g, spec, seen, more) == Expansion(g, spec, seen, depth)
    decreases depth, 0, 0
  {
    PiecesDeeper(g, Split(spec, ','), seen, depth - 1, more - 1);
  }

  lemma {:induction false} PiecesDeeper(g: Graph, raws: seq<string>, seen: set<string>, depth: nat, more: nat)
    requires depth <= more && Pieces(g, raws, seen, depth) != Err(TooDeep)
    ensures Pieces(g, raws, seen, more) == Pieces(g, raws, seen, depth)
    decreases depth, 2, |raws|
  {
    if raws != [] {
      PiecesDeeper(g, raws[..|raws| - 1], seen, depth, more);
      if Pieces(g, raws[..|raws| - 1], seen, depth).Ok? {
        PieceDeeper(g, g(raws[|raws| - 1]), seen, depth, more);
      }
    }
  }

  lemma {:induction false} PieceDeeper(g: Graph, ask: Ask, seen: set<string>, depth: nat, more: nat)
    requires depth <= more && PieceOf(g, ask, seen, depth) != Err(TooDeep)
    ensures PieceOf(g, ask, seen, more) == PieceOf(g, ask, seen, depth)
    decreases depth, 1, 0
  {
    if ask.Via? && ask.key !in seen && ask.inner.Some? {
      DeeperSame(g, ask.inner.value, seen + {ask.key}, depth, more);
    }
  }

  // ----- when expansion succeeds ---------------------------------------------------------------

  /** The nesting path of hosts `path` leads from `spec` to the piece `raw`. */
  ghost predicate Reaches(g: Graph, spec: string, path: seq<string>, raw: string)
    decreases |path|
  {
    if path == [] then raw in Split(spec, ',') && !g(raw).Pass?
    else exists first :: Enters(g, spec, first, path[0]) && Reaches(g, g(first).inner.value, path[1..], raw)
  }

  /** The piece `first` of `spec` leads to `host`, which has jumps of its own. */
  ghost predicate Enters(g: Graph, spec: string, first: string, host: string) {
    first in Split(spec, ',') && g(first).Via? && g(first).key == host && g(first).inner.Some?
  }

  lemma PathStart(g: Graph, spec: string, path: seq<string>, raw: string) returns (first: string)
    requires path != [] && Reaches(g, spec, path, raw)
    ensures Enters(g, spec, first, path[0]) && Reaches(g, g(first).inner.value, path[1..], raw)
  {
    first :| Enters(g, spec, first, path[0]) && Reaches(g, g(first).inner.value, path[1..], raw);
  }

  /** A sound piece that does not lead back to a host of the path. */
  ghost predicate Fine(ask: Ask, seen: set<string>, path: seq<string>) {
    ask.Via? && ask.key !in seen && ask.key !in path
  }

  lemma {:induction false} PiecesOk(g: Graph, raws: seq<string>, seen: set<string>, depth: nat, raw: string)
    requires Pieces(g, raws, seen, depth).Ok? && raw in raws
    ensures PieceOf(g, g(raw), seen, depth).Ok?
  {
    if raw != raws[|raws| - 1] {
      PiecesOk(g, raws[..|raws| - 1], seen, depth, raw);
    }
  }

  lemma {:induction false} PiecesErr(g: Graph, raws: seq<string>, seen: set<string>, depth: nat) returns (raw: string)
    requires Pieces(g, raws, seen, depth).Err?
    ensures raw in raws && PieceOf(g, g(raw), seen, depth) == Err(Pieces(g, raws, seen, depth).error)
  {
    if Pieces(g, raws[..|raws| - 1], seen, depth).Err? {
      raw := PiecesErr(g, raws[..|raws| - 1], seen, depth);
    } else {
      raw := raws[|raws| - 1];
    }
  }

  /** After a successful expansion every piece that can be reached is sound, and leads to
      a host that is neither in `seen` nor on the path to it. */
  lemma {:induction false} SuccessIsAcyclic(g: Graph, spec: string, seen: set<string>, depth: nat, path: seq<string>,
                                            raw: string)
    requires Expansion(g, spec, seen, depth).Ok? && Reaches(g, spec, path, raw)
    ensures Fine(g(raw), seen, path)
    decreases |path|
  {
    if path == [] {
      PiecesOk(g, Split(spec, ','), seen, depth - 1, raw);
    } else {
      var first := PathStart(g, spec, path, raw);
      PiecesOk(g, Split(spec, ','), seen, depth - 1, first);
      SuccessIsAcyclic(g, g(first).inner.value, seen + {path[0]}, depth - 1, path[1..], raw);
      FineDeeper(g(raw), seen, path);
    }
  }

  lemma FineDeeper(ask: Ask, seen: set<string>, path: seq<string>)
    requires path != [] && Fine(ask, seen + {path[0]}, path[1..])
    ensures Fine(ask, seen, path)
  {
    assert path == [path[0]] + path[1..];
  }

  /** A failed expansion that was not cut short points to a piece at fault. */
  lemma {:induction false} FailureHasWitness(g: Graph, spec: string, seen: set<string>, depth: nat)
    returns (path: seq<string>, raw: string)
    requires Expansion(g, spec, seen, depth).Err? && Expansion(g, spec, seen, depth) != Err(TooDeep)
    ensures Reaches(g, spec, path, raw) && !Fine(g(raw), seen, path)
    decreases depth
  {
    var first := PiecesErr(g, Split(spec, ','), seen, depth - 1);
    if g(first).Via? && g(first).key !in seen {
      var rest;
      rest, raw := FailureHasWitness(g, g(first).inner.value, seen + {g(first).key}, depth - 1);
      path := [g(first).key] + rest;
      assert path[1..] == rest && Enters(g, spec, first, path[0]);
    } else {
      path, raw := [], first;
    }
  }

  /** Expansion that is not cut short succeeds exactly when every piece it can reach has
      a sound port and no nesting path comes back to a host. */
  lemma SucceedsIff(g: Graph, spec: string, seen: set<string>, depth: nat)
    requires Expansion(g, spec, seen, depth) != Err(TooDeep)
    ensures Expansion(g, spec, seen, depth).Ok?
            <==> forall path, raw :: Reaches(g, spec, path, raw) ==> Fine(g(raw), seen, path)
  {
    if Expansion(g, spec, seen, depth).Ok? {
      forall path, raw | Reaches(g, spec, path, raw) ensures Fine(g(raw), seen, path) {
        SuccessIsAcyclic(g, spec, seen, depth, path, raw);
      }
    } else {
      var path, raw := FailureHasWitness(g, spec, seen, depth);
    }
  }

  // ----- when expansion ends -------------------------------------------------------------------

  /** All hosts that nesting can reach from `spec` are in `hosts`. */
  ghost predicate Within(g: Graph, spec: string, hosts: set<string>) {
    forall path, raw :: Reaches(g, spec, path, raw) && g(raw).Via? ==> g(raw).key in hosts
  }

  /** Some recursion budget is enough to reach an end. */
  ghost predicate Ends(g: Graph, spec: string, seen: set<string>) {
    exists depth: nat :: Expansion(g, spec, seen, depth) != Err(TooDeep)
  }

  ghost predicate PieceSucceeds(g: Graph, raw: string, seen: set<string>) {
    exists depth: nat :: PieceOf(g, g(raw), seen, depth).Ok?
  }

  /** `raw` is piece `k` of the jump, and all pieces before it succeed. */
  ghost predicate EvaluatesAt(g: Graph, spec: string, seen: set<string>, k: nat, raw: string) {
    && k < |Split(spec, ',')| && Split(spec, ',')[k] == raw
    && forall j :: 0 <= j < k ==> PieceSucceeds(g, Split(spec, ',')[j], seen)
  }

  /** The piece leads to a new host with jumps of its own. */
  ghost predicate Nests(g: Graph, first: string, seen: set<string>, host: string) {
    g(first).Via? && g(first).key == host && host !in seen && g(first).inner.Some?
  }

  /** The evaluation of `spec` comes to the piece `raw` over the nesting path `path`: what
      stands behind the first fault is not evaluated. */
  ghost predicate Evaluates(g: Graph, spec: string, seen: set<string>, path: seq<string>, raw: string)
    decreases |path|
  {
    if path == [] then exists k: nat :: EvaluatesAt(g, spec, seen, k, raw)
    else
      exists k: nat, first :: EvaluatesAt(g, spec, seen, k, first) && Nests(g, first, seen, path[0])
                              && Evaluates(g, g(first).inner.value, seen + {path[0]}, path[1..], raw)
  }

  /** All hosts that the evaluation comes to are in `hosts`. */
  ghost predicate EvaluatedIn(g: Graph, spec: string, seen: set<string>, hosts: set<string>) {
    forall path, raw :: Evaluates(g, spec, seen, path, raw) && g(raw).Via? ==> g(raw).key in hosts
  }

  lemma EvaluatedInner(g: Graph, spec: string, seen: set<string>, hosts: set<string>, k: nat, first: string)
    requires EvaluatedIn(g, spec, seen, hosts) && EvaluatesAt(g, spec, seen, k, first) && g(first).Via?
    ensures g(first).key in hosts
    ensures Nests(g, first, seen, g(first).key) ==> EvaluatedIn(g, g(first).inner.value, seen + {g(first).key}, hosts)
  {
    var here: seq<string> := [];
    assert Evaluates(g, spec, seen, here, first);
    var key := g(first).key;
    if Nests(g, first, seen, key) {
      forall path, raw | Evaluates(g, g(first).inner.value, seen + {key}, path, raw) && g(raw).Via?
        ensures g(raw).key in hosts
      {
        var longer := [key] + path;
        assert longer[1..] == path && longer[0] == key;
        assert Evaluates(g, spec, seen, longer, raw);
      }
    }
  }

  /** The measure is the hosts that are not on the path yet. */
  lemma {:induction false} EvaluatedEnds(g: Graph, spec: string, hosts: set<string>, seen: set<string>, depth: nat)
    requires EvaluatedIn(g, spec, seen, hosts) && depth > |hosts - seen|
    ensures Expansion(g, spec, seen, depth) != Err(TooDeep)
    decreases depth, 0, 0
  {
    var raws := Split(spec, ',');
    EvaluatedPieces(g, spec, |raws|, hosts, seen, depth - 1);
    assert raws[..|raws|] == raws;
  }

  lemma {:induction false} EvaluatedPieces(g: Graph, spec: string, k: nat, hosts: set<string>, seen: set<string>,
                                           depth: nat)
    requires EvaluatedIn(g, spec, seen, hosts) && depth >= |hosts - seen| && k <= |Split(spec, ',')|
    ensures Pieces(g, Split(spec, ',')[..k], seen, depth) != Err(TooDeep)
    decreases depth, 2, k
  {
    if k > 0 {
      var raws := Split(spec, ',');
      var before := raws[..k - 1];
      assert raws[..k][..k - 1] == before;
      EvaluatedPieces(g, spec, k - 1, hosts, seen, depth);
      if Pieces(g, before, seen, depth).Ok? {
        forall j | 0 <= j < k - 1 ensures PieceSucceeds(g, raws[j], seen) {
          assert before[j] == raws[j];
          PiecesOk(g, before, seen, depth, raws[j]);
        }
        EvaluatedPiece(g, spec, k - 1, hosts, seen, depth);
      }
    }
  }

  lemma {:induction false} EvaluatedPiece(g: Graph, spec: string, k: nat, hosts: set<string>, seen: set<string>,
                                          depth: nat)
    requires EvaluatedIn(g, spec, seen, hosts) && depth >= |hosts - seen| && k < |Split(spec, ',')|
    requires EvaluatesAt(g, spec, seen, k, Split(spec, ',')[k])
    ensures PieceOf(g, g(Split(spec, ',')[k]), seen, depth) != Err(TooDeep)
    decreases depth, 1, 0
  {
    var raw := Split(spec, ',')[k];
    var ask := g(raw);
    if ask.Via? && ask.key !in seen && ask.inner.Some? {
      EvaluatedInner(g, spec, seen, hosts, k, raw);
      OneMoreSeen(hosts, seen, ask.key);
      EvaluatedEnds(g, ask.inner.value, hosts, seen + {ask.key}, depth);
    }
  }

  /** What is not cut short comes to every piece whose forerunners succeed. */
  lemma {:induction false} PiecesReach(g: Graph, raws: seq<string>, seen: set<string>, depth: nat, k: nat)
    requires Pieces(g, raws, seen, depth) != Err(TooDeep) && k < |raws|
    requires forall j :: 0 <= j < k ==> PieceSucceeds(g, raws[j], seen)
    ensures PieceOf(g, g(raws[k]), seen, depth) != Err(TooDeep)
    decreases |raws|
  {
    var before := raws[..|raws| - 1];
    if k < |raws| - 1 {
      PiecesReach(g, before, seen, depth, k);
    } else if Pieces(g, before, seen, depth).Err? {
      var raw := PiecesErr(g, before, seen, depth);
      var j :| 0 <= j < k && before[j] == raw;
      assert PieceSucceeds(g, raws[j], seen);
      PieceNotCut(g, raw, seen, depth);
    }
  }

  lemma PieceNotCut(g: Graph, raw: string, seen: set<string>, depth: nat)
    requires PieceSucceeds(g, raw, seen)
    ensures PieceOf(g, g(raw), seen, depth).Ok? || PieceOf(g, g(raw), seen, depth) == Err(TooDeep)
  {
    var enough: nat :| PieceOf(g, g(raw), seen, enough).Ok?;
    if PieceOf(g, g(raw), seen, depth) != Err(TooDeep) {
      PieceDeeper(g, g(raw), seen, depth, depth + enough);
      PieceDeeper(g, g(raw), seen, enough, depth + enough);
    }
  }

  lemma PieceMet(g: Graph, spec: string, seen: set<string>, depth: nat, k: nat, raw: string)
    requires depth > 0 && EvaluatesAt(g, spec, seen, k, raw) && g(raw).Via?
    ensures g(raw).key in Met(g, spec, depth)
    ensures g(raw).inner.Some? ==> Met(g, g(raw).inner.value, depth - 1) <= Met(g, spec, depth)
  {
    assert Split(spec, ',')[k] in Split(spec, ',');
    MetHas(g, Split(spec, ','), raw, depth - 1);
  }

  /** What the evaluation nests into is not cut short either. */
  lemma NestedNotCut(g: Graph, spec: string, seen: set<string>, depth: nat, k: nat, first: string, host: string)
    requires Expansion(g, spec, seen, depth) != Err(TooDeep)
    requires EvaluatesAt(g, spec, seen, k, first) && Nests(g, first, seen, host)
    ensures depth > 0 && Expansion(g, g(first).inner.value, seen + {host}, depth - 1) != Err(TooDeep)
  {
    PiecesReach(g, Split(spec, ','), seen, depth - 1, k);
  }

  lemma {:induction false} EvaluatedMet(g: Graph, spec: string, seen: set<string>, depth: nat, path: seq<string>,
                                        raw: string)
    requires Expansion(g, spec, seen, depth) != Err(TooDeep) && Evaluates(g, spec, seen, path, raw) && g(raw).Via?
    ensures g(raw).key in Met(g, spec, depth)
    decreases |path|
  {
    if path == [] {
      var k: nat :| EvaluatesAt(g, spec, seen, k, raw);
      PieceMet(g, spec, seen, depth, k, raw);
    } else {
      var k: nat, first :| EvaluatesAt(g, spec, seen, k, first) && Nests(g, first, seen, path[0])
                           && Evaluates(g, g(first).inner.value, seen + {path[0]}, path[1..], raw);
      NestedNotCut(g, spec, seen, depth, k, first, path[0]);
      PieceMet(g, spec, seen, depth, k, first);
      EvaluatedMet(g, g(first).inner.value, seen + {path[0]}, depth - 1, path[1..], raw);
    }
  }

  /** Expansion ends, with some recursion budget, if and only if the pieces that its
      evaluation comes to lead to finitely many hosts. */
  lemma EndsIff(g: Graph, spec: string, seen: set<string>)
    ensures Ends(g, spec, seen) <==> exists hosts :: EvaluatedIn(g, spec, seen, hosts)
  {
    if Ends(g, spec, seen) {
      var depth: nat :| Expansion(g, spec, seen, depth) != Err(TooDeep);
      forall path, raw | Evaluates(g, spec, seen, path, raw) && g(raw).Via? ensures g(raw).key in Met(g, spec, depth) {
        EvaluatedMet(g, spec, seen, depth, path, raw);
      }
      assert EvaluatedIn(g, spec, seen, Met(g, spec, depth));
    }
    if hosts :| EvaluatedIn(g, spec, seen, hosts) {
      EvaluatedEnds(g, spec, hosts, seen, |hosts - seen| + 1);
    }
  }

  lemma {:induction false} EvaluatedReached(g: Graph, spec: string, seen: set<string>, path: seq<string>, raw: string)
    requires Evaluates(g, spec, seen, path, raw) && g(raw).Via?
    ensures Reaches(g, spec, path, raw)
    decreases |path|
  {
    if path != [] {
      var k: nat, first :| EvaluatesAt(g, spec, seen, k, first) && Nests(g, first, seen, path[0])
                           && Evaluates(g, g(first).inner.value, seen + {path[0]}, path[1..], raw);
      assert Split(spec, ',')[k] in Split(spec, ',');
      EvaluatedReached(g, g(first).inner.value, seen + {path[0]}, path[1..], raw);
      assert Enters(g, spec, first, path[0]);
    }
  }

  /** So it ends whenever only finitely many hosts can be reached, whatever else the config
      holds; that many levels and one are enough. */
  lemma FiniteEnds(g: Graph, spec: string, hosts: set<string>, seen: set<string>, depth: nat)
    requires Within(g, spec, hosts) && depth > |hosts - seen|
    ensures Expansion(g, spec, seen, depth) != Err(TooDeep)
  {
    forall path, raw | Evaluates(g, spec, seen, path, raw) && g(raw).Via? ensures g(raw).key in hosts {
      EvaluatedReached(g, spec, seen, path, raw);
    }
    EvaluatedEnds(g, spec, hosts, seen, depth);
  }

  lemma {:induction false} ClosedWithin(g: Graph, spec: string, hosts: set<string>, path: seq<string>, raw: string)
    requires Closed(g, hosts) && Leads(g, spec, hosts) && Reaches(g, spec, path, raw) && g(raw).Via?
    ensures g(raw).key in hosts
    decreases |path|
  {
    if path != [] {
      var first := PathStart(g, spec, path, raw);
      ClosedWithin(g, g(first).inner.value, hosts, path[1..], raw);
    }
  }

  /** Expansion ends for every config without placeholders: the nesting never gets deeper
      than the number of hosts that the config's and the given jumps name. */
  lemma ExpansionEnds(c: Config, spec: string, depth: nat)
    requires NoPlaceholders(c) && depth > |HostsOf(c, JumpSpecs(c) + {spec})|
    ensures Expansion(GraphOf(c), spec, {}, depth) != Err(TooDeep)
  {
    var hosts := HostsOf(c, JumpSpecs(c) + {spec});
    assert hosts - {} == hosts;
    ClosedWithoutPlaceholders(c, spec);
    forall path, raw | Reaches(GraphOf(c), spec, path, raw) && GraphOf(c)(raw).Via?
      ensures GraphOf(c)(raw).key in hosts
    {
      ClosedWithin(GraphOf(c), spec, hosts, path, raw);
    }
    FiniteEnds(GraphOf(c), spec, hosts, {}, depth);
  }

  /** The hosts that an expansion of this depth can meet. */
  ghost function Met(g: Graph, spec: string, depth: nat): set<string>
    decreases depth, 0
  {
    if depth == 0 then {} else MetIn(g, Split(spec, ','), depth - 1)
  }

  ghost function MetIn(g: Graph, raws: seq<string>, depth: nat): set<string>
    decreases depth, 1, |raws|
  {
    if raws == [] then {}
    else
      var ask := g(raws[|raws| - 1]);
      MetIn(g, raws[..|raws| - 1], depth)
      + (if ask.Via? then {ask.key} else {})
      + (if ask.Via? && ask.inner.Some? then Met(g, ask.inner.value, depth) else {})
  }

  lemma {:induction false} MetHas(g: Graph, raws: seq<string>, raw: string, depth: nat)
    requires raw in raws && g(raw).Via?
    ensures g(raw).key in MetIn(g, raws, depth)
    ensures g(raw).inner.Some? ==> Met(g, g(raw).inner.value, depth) <= MetIn(g, raws, depth)
    decreases |raws|
  {
    if raw != raws[|raws| - 1] {
      MetHas(g, raws[..|raws| - 1], raw, depth);
    }
  }

  lemma {:induction false} AllMet(g: Graph, spec: string, seen: set<string>, depth: nat, path: seq<string>, raw: string)
    requires Expansion(g, spec, seen, depth).Ok? && Reaches(g, spec, path, raw) && g(raw).Via?
    ensures g(raw).key in Met(g, spec, depth)
    decreases |path|
  {
    if path == [] {
      MetHas(g, Split(spec, ','), raw, depth - 1);
    } else {
      var first := PathStart(g, spec, path, raw);
      MetHas(g, Split(spec, ','), first, depth - 1);
      PiecesOk(g, Split(spec, ','), seen, depth - 1, first);
      AllMet(g, g(first).inner.value, seen + {path[0]}, depth - 1, path[1..], raw);
    }
  }

  /** Expansion succeeds, with some recursion budget, if and only if every piece it can
      reach is sound and leads to no host of its own path, and only finitely many hosts
      can be reached. */
  lemma SucceedsSomewhereIff(g: Graph, spec: string, none: set<string>)
    requires none == {}
    ensures (exists depth :: Expansion(g, spec, none, depth).Ok?)
            <==> (forall path, raw :: Reaches(g, spec, path, raw) ==> Fine(g(raw), none, path))
                 && exists hosts :: Within(g, spec, hosts)
  {
    if exists depth :: Expansion(g, spec, none, depth).Ok? {
      var depth :| Expansion(g, spec, none, depth).Ok?;
      SucceedsIff(g, spec, none, depth);
      forall path, raw | Reaches(g, spec, path, raw) && g(raw).Via? ensures g(raw).key in Met(g, spec, depth) {
        AllMet(g, spec, none, depth, path, raw);
      }
      assert Within(g, spec, Met(g, spec, depth));
    }
    if (forall path, raw :: Reaches(g, spec, path, raw) ==> Fine(g(raw), none, path))
      && exists hosts :: Within(g, spec, hosts) {
      var hosts :| Within(g, spec, hosts);
      FiniteEnds(g, spec, hosts, none, |hosts - none| + 1);
      SucceedsIff(g, spec, none, |hosts - none| + 1);
    }
  }

  // ----- a config for which expansion never ends ------------------------------------------------

  function Xs(n: nat): string {
    if n == 0 then "" else "x" + Xs(n - 1)
  }

  lemma {:induction false} OnlyXs(n: nat)
    ensures |Xs(n)| == n && (forall i :: 0 <= i < n ==> Xs(n)[i] == 'x')
  {
    if n > 0 {
      OnlyXs(n - 1);
    }
  }

  lemma NotInXs(n: nat, c: char)
    requires c != 'x'
    ensures LastIndex(Xs(n), c) == -1 && !Has(Xs(n), c)
  {
    OnlyXs(n);
    LastIndexNone(Xs(n), c);
  }

  /** One block for every host, whose jump is named after the host it is used for. */
  ghost predicate EveryHostJumps(c: Config) {
    && c.blocks == [Block(["*"], [], [], [], ["x%h"], [])]
    && !c.env.text.space('x')
    && (forall s: string :: c.env.glob(s, c.env.text.fold("*")))
    && (forall s: string :: AllXs(s) ==> c.env.text.fold(s) == s)
  }

  ghost predicate AllXs(s: string) {
    forall i :: 0 <= i < |s| ==> s[i] == 'x'
  }

  lemma ReplacedXs(alias: string)
    ensures Replaced("x%h", 'h', alias) == "x" + alias
  {
    assert "x%h"[1..] == "%h" && "%h"[2..] == "";
    assert Replaced("%h", 'h', alias) == alias + Replaced("", 'h', alias);
    assert alias + "" == alias;
  }

  lemma StripXs(c: Config, n: nat)
    requires EveryHostJumps(c)
    ensures Strip(Xs(n), c.env.text.space) == Xs(n)
  {
    OnlyXs(n);
    StripKeeps(Xs(n), c.env.text.space);
  }

  lemma ExpandedXs(c: Config, n: nat)
    requires EveryHostJumps(c)
    ensures Expand(c.env.text, "x%h", Xs(n)) == Xs(n + 1)
  {
    ReplacedXs(Xs(n));
    OnlyXs(n + 1);
    NothingReplaced(Xs(n + 1), 'n', Xs(n));
    StripXs(c, n + 1);
  }

  lemma HopXs(text: Unicode, n: nat)
    requires n > 0
    ensures SplitHop(text, Xs(n)) == Some(Hop(None, Xs(n), None))
  {
    OnlyXs(n);
    NotInXs(n, '@');
    NotInXs(n, ':');
  }

  lemma ResolvedXs(c: Config, n: nat)
    requires EveryHostJumps(c)
    ensures Resolved(c, Xs(n)) == Entry(None, None, None, Some(Xs(n + 1)), [])
  {
    var alias, b := Xs(n), c.blocks[0];
    assert "*" in b.patterns && Matches(c.env, b.patterns, alias);
    ExpandedXs(c, n);
    OnlyBlock(c, Hostname(c.env, alias));
    OnlyBlock(c, User(c.env, alias));
    OnlyBlock(c, Port(c.env, alias));
    OnlyBlock(c, SshConfig.ProxyJump(c.env, alias));
    NoKeys(c, alias);
  }

  lemma NoKeys(c: Config, alias: string)
    requires |c.blocks| == 1 && c.blocks[0].identityFile == []
    ensures Unique(Keys(c.env, c.blocks, alias)) == []
  {
    var none := c.blocks[..0];
    assert c.blocks[..|c.blocks| - 1] == none && Keys(c.env, none, alias) == [];
    assert Files(c.env, c.blocks[0].identityFile, alias) == [];
  }

  lemma AskedFrom(c: Config, raw: string, token: string, hop: Hop, entry: Entry)
    requires Strip(raw, c.env.text.space) == token && !Skips(c.env.text, token)
    requires SplitHop(c.env.text, token) == Some(hop) && Resolved(c, hop.host) == entry
    requires entry.hostname.None? && entry.proxyJump.Some? && entry.proxyJump.value != ""
    ensures Asked(c, raw).Via? && Asked(c, raw).key == c.env.text.fold(hop.host)
            && Asked(c, raw).inner == entry.proxyJump
  {
  }

  lemma AskedXs(c: Config, n: nat)
    requires EveryHostJumps(c) && n > 0
    ensures NextXs(Asked(c, Xs(n)), n)
  {
    var token, next := Xs(n), Xs(n + 1);
    assert AllXs(token) && token != "" && token[0] == 'x' && next != "" by {
      OnlyXs(n);
      OnlyXs(n + 1);
    }
    StripXs(c, n);
    XsNotSkipped(c, token);
    HopXs(c.env.text, n);
    ResolvedXs(c, n);
    AskedFrom(c, token, token, Hop(None, token, None), Entry(None, None, None, Some(next), []));
  }

  lemma XsNotSkipped(c: Config, token: string)
    requires token != "" && token[0] == 'x' && c.env.text.fold(token) == token
    ensures !Skips(c.env.text, token)
  {
    assert token[0] != "none"[0];
  }

  ghost predicate NextXs(ask: Ask, n: nat) {
    ask.Via? && ask.key == Xs(n) && ask.inner == Some(Xs(n + 1))
  }

  lemma OnlyBlock<T>(c: Config, offer: Block -> Option<T>)
    requires |c.blocks| == 1
    ensures First(c.blocks, offer) == offer(c.blocks[0])
  {
    var none := c.blocks[..0];
    assert First(none, offer) == None;
  }

  lemma OnePiece(g: Graph, spec: string, raw: string, seen: set<string>, depth: nat)
    requires Split(spec, ',') == [raw] && depth > 0 && PieceOf(g, g(raw), seen, depth - 1).Err?
    ensures Expansion(g, spec, seen, depth) == Err(PieceOf(g, g(raw), seen, depth - 1).error)
  {
    var raws := Split(spec, ',');
    assert raws[..0] == raws[..|raws| - 1];
    assert Pieces(g, raws[..0], seen, depth - 1).Ok?;
  }

  lemma {:induction false} LongerAndLonger(g: Graph, n: nat, seen: set<string>, depth: nat)
    requires (forall k: nat :: k > 0 ==> NextXs(g(Xs(k)), k)) && n > 0 && forall s <- seen :: |s| < n
    ensures Expansion(g, Xs(n), seen, depth) == Err(TooDeep)
    decreases depth
  {
    if depth > 0 {
      assert NextXs(g(Xs(n)), n);
      OnlyXs(n);
      NotInXs(n, ',');
      SplitOne(Xs(n), ',');
      LongerAndLonger(g, n + 1, seen + {Xs(n)}, depth - 1);
      OneDeeper(g, Xs(n), Xs(n + 1), seen, depth);
    }
  }

  lemma OneDeeper(g: Graph, here: string, next: string, seen: set<string>, depth: nat)
    requires Split(here, ',') == [here] && g(here).Via? && g(here).key == here && g(here).inner == Some(next)
    requires here !in seen && depth > 0 && Expansion(g, next, seen + {here}, depth - 1) == Err(TooDeep)
    ensures Expansion(g, here, seen, depth) == Err(TooDeep)
  {
    OnePiece(g, here, here, seen, depth);
  }

  /** No depth is enough: every host leads to a longer one. */
  lemma NeverEnds(c: Config, n: nat, depth: nat)
    requires EveryHostJumps(c) && n > 0
    ensures Expansion(GraphOf(c), Xs(n), {}, depth) == Err(TooDeep)
  {
    forall k: nat | k > 0 ensures NextXs(GraphOf(c)(Xs(k)), k) {
      AskedXs(c, k);
    }
    LongerAndLonger(GraphOf(c), n, {}, depth);
  }

  // ----- the text of a hop -----------------------------------------------------------------------

  /** The digits of the language include the ASCII ones, with their usual meaning. */
  ghost predicate Decimals(text: Unicode) {
    && (forall c <- DIGITS :: text.digit(c)) && !text.digit(':')
    && (forall n: nat :: text.number(Decimal(n)) == Some(n))
  }

  lemma {:induction false} DecimalDigits(text: Unicode, n: nat)
    requires forall c <- DIGITS :: text.digit(c)
    ensures Digits(text, Decimal(n)) && !Has(Decimal(n), ':') && !Has(Decimal(n), '@') && !Has(Decimal(n), ']')
  {
    if n >= 10 {
      DecimalDigits(text, n / 10);
    }
    assert DIGITS[n % 10] in DIGITS;
  }

  /** A host that can be written in a hop without being taken apart wrongly for its
      characters alone. */
  predicate PlainHost(host: string) {
    host != "" && host[0] != '[' && !Has(host, '@') && !Has(host, ']')
  }

  lemma LastAt(before: string, after: string, c: char)
    requires !Has(after, c)
    ensures LastIndex(before + ([c] + after), c) == |before|
  {
    AfterLast(before, [c] + after, before + ([c] + after), c);
    LastIndexIs(before + ([c] + after), c, |before|);
  }

  lemma AfterLast(before: string, rest: string, s: string, c: char)
    requires s == before + rest && rest != [] && rest[0] == c && !Has(rest[1..], c)
    ensures s[|before|] == c && forall j :: |before| < j < |s| ==> s[j] != c
  {
    forall j | |before| < j < |s| ensures s[j] != c {
      assert s[j] == rest[j - |before|] == rest[1..][j - |before| - 1];
    }
  }

  lemma HasJoined(a: string, b: string, c: char)
    ensures Has(a + b, c) <==> Has(a, c) || Has(b, c)
  {
    var s := a + b;
    if Has(a, c) {
      var i :| 0 <= i < |a| && a[i] == c;
      assert s[i] == c;
    }
    if Has(b, c) {
      var i :| 0 <= i < |b| && b[i] == c;
      assert s[|a| + i] == c;
    }
    if Has(s, c) {
      var i :| 0 <= i < |s| && s[i] == c;
      assert if i < |a| then a[i] == c else b[i - |a|] == c;
    }
  }

  lemma DefaultReparsed(text: Unicode, host: string)
    requires PlainHost(host)
    ensures var colon := LastIndex(host, ':');
            SplitAddress(text, host) == Some(Address(host, None)) <==> !(colon > 0 && Digits(text, host[colon + 1..]))
  {
  }

  /** What a written port makes of an address. */
  function Ported(text: Unicode, host: string, digits: string): Option<Address> {
    match text.number(digits)
    case None => None
    case Some(n) => Some(Address(host, Some(n)))
  }

  /** Without brackets, digits after the last colon are the port; anything else stays in the
      host. */
  lemma PlainSplit(text: Unicode, host: string, last: string)
    requires host != "" && host[0] != '[' && !Has(last, ':')
    ensures SplitAddress(text, host + ([':'] + last)) ==
            if last != "" && (forall c <- last :: text.digit(c)) then Ported(text, host, last)
            else Some(Address(host + ([':'] + last), None))
    ensures !Has(host, ':') ==> SplitAddress(text, host) == Some(Address(host, None))
  {
    ColonCut(host, last, host + ([':'] + last));
    if !Has(host, ':') {
      LastIndexNone(host, ':');
    }
  }

  lemma ColonCut(host: string, last: string, shown: string)
    requires host != "" && !Has(last, ':') && shown == host + ([':'] + last)
    ensures shown[0] == host[0] && LastIndex(shown, ':') == |host|
    ensures shown[|host| + 1..] == last && shown[..|host|] == host
  {
    LastAt(host, last, ':');
  }

  /** In brackets, a colon and digits behind them are the port; anything else behind them
      is dropped. */
  lemma BracketsSplit(text: Unicode, host: string, tail: string)
    requires !Has(host, ']')
    ensures SplitAddress(text, (['['] + host) + ([']'] + tail)) ==
            if |tail| > 1 && tail[0] == ':' && (forall c <- tail[1..] :: text.digit(c))
              then Ported(text, host, tail[1..])
            else Some(Address(host, None))
  {
    BracketsCut(host, tail, (['['] + host) + ([']'] + tail));
  }

  lemma BracketsCut(host: string, tail: string, shown: string)
    requires !Has(host, ']') && shown == (['['] + host) + ([']'] + tail)
    ensures shown[0] == '[' && FirstIndex(shown, ']') == |host| + 1
    ensures shown[1..|host| + 1] == host && shown[|host| + 1 + 1..] == tail
  {
    var front, back := ['['] + host, [']'] + tail;
    forall j | 0 <= j < |front| ensures shown[j] != ']' {
      if j > 0 {
        assert shown[j] == host[j - 1];
      }
    }
    assert shown[|front|] == back[0];
    FirstIndexIs(shown, ']', |front|);
  }

  lemma PlainReparsed(text: Unicode, host: string, port: nat)
    requires Decimals(text) && PlainHost(host) && !Has(host, ':')
    ensures SplitAddress(text, host + ([':'] + Decimal(port))) == Some(Address(host, Some(port)))
  {
    DecimalDigits(text, port);
    PlainSplit(text, host, Decimal(port));
  }

  lemma BracketsReparsed(text: Unicode, host: string, port: nat)
    requires Decimals(text) && PlainHost(host)
    ensures SplitAddress(text, (['['] + host) + ([']'] + ([':'] + Decimal(port)))) == Some(Address(host, Some(port)))
  {
    DecimalDigits(text, port);
    BracketsSplit(text, host, [':'] + Decimal(port));
    assert ([':'] + Decimal(port))[1..] == Decimal(port);
  }

  /** The text of a hop without its user. */
  function AddressText(host: string, port: int): string {
    HopText(None, host, port)
  }

  lemma BracketedText(host: string, port: nat)
    requires Has(host, ':') && port != 22
    ensures AddressText(host, port) == (['['] + host) + ([']'] + ([':'] + Decimal(port)))
  {
    assert ([']'] + ([':'] + Decimal(port))) == "]:" + Decimal(port);
  }

  lemma NoAtBracketed(host: string, digits: string)
    requires !Has(host, '@') && !Has(digits, '@')
    ensures !Has((['['] + host) + ([']'] + ([':'] + digits)), '@')
  {
    HasJoined(['['] + host, [']'] + ([':'] + digits), '@');
    HasJoined(['['], host, '@');
    HasJoined([']'], [':'] + digits, '@');
    HasJoined([':'], digits, '@');
  }

  lemma NoAtPlain(host: string, digits: string)
    requires !Has(host, '@') && !Has(digits, '@')
    ensures !Has(host + ([':'] + digits), '@')
  {
    HasJoined(host, [':'] + digits, '@');
    HasJoined([':'], digits, '@');
  }

  lemma AddressReparsed(text: Unicode, host: string, port: nat)
    requires Decimals(text) && PlainHost(host)
    ensures !Has(AddressText(host, port), '@')
    ensures (SplitAddress(text, AddressText(host, port)) ==
             Some(Address(host, if port == 22 then None else Some(port))))
            <==> !LosesGroup(text, host, port)
  {
    if port == 22 {
      DefaultReparsed(text, host);
      assert AddressText(host, port) == host;
    } else {
      DecimalDigits(text, port);
      if Has(host, ':') {
        BracketedText(host, port);
        BracketsReparsed(text, host, port);
        NoAtBracketed(host, Decimal(port));
      } else {
        assert AddressText(host, port) == host + ([':'] + Decimal(port));
        PlainReparsed(text, host, port);
        NoAtPlain(host, Decimal(port));
      }
    }
  }

  /** The port is the default and the host itself ends in a colon and digits. */
  predicate LosesGroup(text: Unicode, host: string, port: int) {
    port == 22 && LastIndex(host, ':') > 0 && Digits(text, host[LastIndex(host, ':') + 1..])
  }

  /** The user is what stands before the last at sign, if anything does. */
  lemma UserSplitOff(text: Unicode, user: string, address: string)
    requires !Has(address, '@')
    ensures SplitHop(text, user + (['@'] + address)) ==
            WithUser(if user == "" then None else Some(user), SplitAddress(text, address))
  {
    var whole := user + (['@'] + address);
    LastAt(user, address, '@');
    assert whole[|user| + 1..] == address && whole[..|user|] == user;
  }

  lemma NoUserSplitOff(text: Unicode, address: string)
    requires !Has(address, '@')
    ensures SplitHop(text, address) == WithUser(None, SplitAddress(text, address))
  {
    LastIndexNone(address, '@');
  }

  lemma UserText(user: string, host: string, port: int)
    requires user != ""
    ensures HopText(Some(user), host, port) == user + (['@'] + AddressText(host, port))
  {
  }

  /** A hop's text, read again, gives the same user, host and port, exactly unless the
      port is the default and the host ends in a colon and digits: such an IPv6 address
      is written without brackets and its last group is read as a port. */
  lemma HopReparsed(text: Unicode, user: Option<string>, host: string, port: nat)
    requires Decimals(text) && PlainHost(host) && user != Some("")
    ensures SplitHop(text, HopText(user, host, port)) == Some(Hop(user, host, if port == 22 then None else Some(port)))
            <==> !LosesGroup(text, host, port)
  {
    var address := AddressText(host, port);
    AddressReparsed(text, host, port);
    if user.Some? {
      UserText(user.value, host, port);
      UserSplitOff(text, user.value, address);
    } else {
      NoUserSplitOff(text, address);
    }
  }

  // ----- the own hop of a piece --------------------------------------------------------------

  /** An empty piece and `none` ask for nothing; a port that is no number is a fault. */
  lemma AskedNothing(c: Config, raw: string)
    ensures var text, token := c.env.text, Strip(raw, c.env.text.space);
            && (Asked(c, raw) == Pass <==> token == "" || text.fold(token) == "none")
            && (Asked(c, raw) == Bad <==> token != "" && text.fold(token) != "none" && SplitHop(text, token).None?)
  {
  }

  lemma AskOfHop(text: Unicode, hop: Hop, entry: Entry)
    requires entry.port.Some? ==> entry.port.value != 0
    ensures var host := if entry.hostname.Some? && entry.hostname.value != "" then entry.hostname.value else hop.host;
            var name := if hop.user.Some? then hop.user else if entry.user == Some("") then None else entry.user;
            var number := if hop.port.Some? then hop.port.value else if entry.port.Some? then entry.port.value else 22;
            AskOf(text, hop, entry) == Via(host, text.fold(host), HopText(name, host, number),
                                           if entry.proxyJump == Some("") then None else entry.proxyJump)
  {
  }

  lemma EntrySays(c: Config, alias: string, hostname: Option<string>, user: Option<string>, port: Option<int>,
                  jump: Option<string>)
    requires Says(c, alias, (b: Block) => b.hostname, hostname) && Says(c, alias, (b: Block) => b.user, user)
    requires Says(c, alias, (b: Block) => b.proxyJump, jump) && SaysPort(c, alias, port)
    ensures var e := Resolved(c, alias);
            e.hostname == hostname && e.user == user && e.port == port && e.proxyJump == jump && port != Some(0)
  {
    var e := Resolved(c, alias);
    ResolvedSays(c, alias);
    SaysOnce(c, alias, (b: Block) => b.hostname, hostname, e.hostname);
    SaysOnce(c, alias, (b: Block) => b.user, user, e.user);
    SaysOnce(c, alias, (b: Block) => b.proxyJump, jump, e.proxyJump);
    SaysPortOnce(c, alias, port, e.port);
  }

  lemma AskedEntry(c: Config, raw: string, hop: Hop)
    requires var token := Strip(raw, c.env.text.space);
             && token != "" && c.env.text.fold(token) != "none" && SplitHop(c.env.text, token) == Some(hop)
    ensures Asked(c, raw) == AskOf(c.env.text, hop, Resolved(c, hop.host))
  {
  }

  /** Any other piece asks for the hop of what is written and what the config says about
      the written host: the config's host name, if it is not empty, before the written one;
      the written user and port before the config's; no user at all when the config's is
      empty; and port 22 when neither gives one. Cycles are told by that host, and the
      config's jump, if it is not empty, comes in front. */
  lemma AskedHop(c: Config, raw: string, hop: Hop, hostname: Option<string>, user: Option<string>, port: Option<int>,
                 jump: Option<string>)
    requires var token := Strip(raw, c.env.text.space);
             && token != "" && c.env.text.fold(token) != "none" && SplitHop(c.env.text, token) == Some(hop)
    requires Says(c, hop.host, (b: Block) => b.hostname, hostname) && Says(c, hop.host, (b: Block) => b.user, user)
    requires Says(c, hop.host, (b: Block) => b.proxyJump, jump) && SaysPort(c, hop.host, port)
    ensures var host := if hostname.Some? && hostname.value != "" then hostname.value else hop.host;
            var name := if hop.user.Some? then hop.user else if user == Some("") then None else user;
            var number := if hop.port.Some? then hop.port.value else if port.Some? then port.value else 22;
            Asked(c, raw) ==
                Via(host, c.env.text.fold(host), HopText(name, host, number), if jump == Some("") then None else jump)
  {
    AskedEntry(c, raw, hop);
    EntrySays(c, hop.host, hostname, user, port, jump);
    AskOfHop(c.env.text, hop, Resolved(c, hop.host));
  }
}
