/** Sync planning: one decision per artifact, automatic target paths that collide with
    nothing, and the check that no two transfers write into one tree. */
module SyncPlan {
  import opened Common
  import opened Text
  import opened Paths
  import opened RemotePaths

  datatype Kind = Code | Dataset | Model | Other
  datatype Status = Verified | Missing | Declared | Unavailable | Syncing
  datatype Action = Skip | Unresolved | Transfer

  datatype Artifact = Artifact(id: string, name: string, version: Option<string>, kind: Kind)
  datatype Placement = Placement(id: string, artifact: string, server: string, path: string)

  datatype Item = Item(artifact: string, status: Status, action: Action, path: Option<string>,
                       source: Option<Placement>)

  /** What a plan is made from: how remote paths are normalised and taken apart, the
      placements in declaration order, the cached states, the target server's roots, and
      what the servers and the transfer planner answer. */
  datatype Scene = Scene(
    text: Unicode,
    normal: string -> Result<string, Refusal>,
    parts: string -> Result<seq<string>, Refusal>,
    server: string,
    refreshCode: bool,
    placements: seq<Placement>,
    snapshot: map<string, Status>,
    root: Kind -> Option<string>,
    inspected: Placement -> Status,
    usable: Placement -> bool,
    plannable: (Artifact, Placement, string) -> bool)

  /** The scene with the path functions of the workspace. */
  function OnPaths(s: Scene): Scene {
    s.(normal := (p: string) => NormalizeRemotePath(s.text, p), parts := (p: string) => Components(s.text, p))
  }

  // ----- choosing a source -----------------------------------------------------------------

  function Where(ps: seq<Placement>, keep: Placement -> bool): seq<Placement> {
    if ps == [] then []
    else Where(ps[..|ps| - 1], keep) + if keep(ps[|ps| - 1]) then [ps[|ps| - 1]] else []
  }

  predicate CachedVerified(s: Scene, p: Placement) {
    p.id in s.snapshot && s.snapshot[p.id] == Verified
  }

  function Candidates(s: Scene, artifact: string): seq<Placement> {
    Where(s.placements, (p: Placement) => p.artifact == artifact && p.server != s.server)
  }

  /** The stable sort: verified candidates first, each group in declaration order. */
  function Ordered(s: Scene, artifact: string): seq<Placement> {
    Where(Candidates(s, artifact), (p: Placement) => CachedVerified(s, p))
    + Where(Candidates(s, artifact), (p: Placement) => !CachedVerified(s, p))
  }

  method SelectSource(s: Scene, artifact: string) returns (selected: Option<Placement>, alternatives: seq<Placement>)
    ensures var passing := Where(Ordered(s, artifact), s.usable);
            if selected.Some? then [selected.value] + alternatives == passing else passing == []
  {
    var candidates := Ordered(s, artifact);
    var passing: seq<Placement> := [];
    NoneWhere(candidates[..0], s.usable);
    for i := 0 to |candidates|
      invariant passing == Where(candidates[..i], s.usable)
    {
      assert candidates[..i + 1][..i] == candidates[..i];
      if s.usable(candidates[i]) {
        passing := passing + [candidates[i]];
      }
    }
    assert candidates[..|candidates|] == candidates;
    if passing == [] {
      return None, [];
    }
    return Some(passing[0]), passing[1..];
  }

  lemma NoneWhere(none: seq<Placement>, keep: Placement -> bool)
    requires none == []
    ensures Where(none, keep) == []
  {
  }

  lemma {:induction false} WhereConcat(a: seq<Placement>, b: seq<Placement>, keep: Placement -> bool)
    ensures Where(a + b, keep) == Where(a, keep) + Where(b, keep)
  {
    if b == [] {
      assert a + b == a;
    } else {
      assert (a + b)[..|a + b| - 1] == a + b[..|b| - 1];
      WhereConcat(a, b[..|b| - 1], keep);
    }
  }

  lemma {:induction false} WhereWhere(ps: seq<Placement>, first: Placement -> bool, second: Placement -> bool,
                                      both: Placement -> bool)
    requires forall p :: both(p) <==> first(p) && second(p)
    ensures Where(Where(ps, first), second) == Where(ps, both)
  {
    if ps != [] {
      var before, last := ps[..|ps| - 1], ps[|ps| - 1];
      WhereWhere(before, first, second, both);
      assert both(last) <==> first(last) && second(last);
      if first(last) {
        assert Where(ps, first) == Where(before, first) + [last];
        OneMoreWhere(Where(before, first), last, second);
      } else {
        assert Where(ps, first) == Where(before, first);
        assert Where(ps, both) == Where(before, both);
      }
    }
  }

  lemma OneMoreWhere(ps: seq<Placement>, p: Placement, keep: Placement -> bool)
    ensures Where(ps + [p], keep) == Where(ps, keep) + if keep(p) then [p] else []
  {
    assert (ps + [p])[..|ps|] == ps;
  }

  /** A usable placement of the artifact on another server, verified in the cache or not. */
  function Choice(s: Scene, artifact: string, verified: bool): Placement -> bool {
    (p: Placement) =>
      && p.artifact == artifact && p.server != s.server && s.usable(p)
      && verified == (p.id in s.snapshot && s.snapshot[p.id] == Verified)
  }

  /** The sources in order of preference are the usable placements on other servers, the
      verified ones first, each group in declaration order. */
  lemma SourceIsBest(s: Scene, artifact: string)
    ensures Where(Ordered(s, artifact), s.usable)
            == Where(s.placements, Choice(s, artifact, true)) + Where(s.placements, Choice(s, artifact, false))
  {
    var isHere := (p: Placement) => p.artifact == artifact && p.server != s.server;
    var good, rest := (p: Placement) => CachedVerified(s, p), (p: Placement) => !CachedVerified(s, p);
    var hereGood, hereRest := (p: Placement) => isHere(p) && good(p), (p: Placement) => isHere(p) && rest(p);
    WhereConcat(Where(Candidates(s, artifact), good), Where(Candidates(s, artifact), rest), s.usable);
    WhereWhere(s.placements, isHere, good, hereGood);
    WhereWhere(s.placements, isHere, rest, hereRest);
    WhereWhere(s.placements, hereGood, s.usable, Choice(s, artifact, true));
    WhereWhere(s.placements, hereRest, s.usable, Choice(s, artifact, false));
  }

  /** What is kept is exactly what passes, in its order. */
  lemma WhereAround(front: seq<Placement>, p: Placement, back: seq<Placement>, keep: Placement -> bool)
    ensures Where((front + [p]) + back, keep) == (Where(front, keep) + if keep(p) then [p] else []) + Where(back, keep)
  {
    WhereConcat(front + [p], back, keep);
    OneMoreWhere(front, p, keep);
  }

  // ----- the decision for one artifact -----------------------------------------------------

  predicate NeedsTransfer(kind: Kind, present: bool, refreshCode: bool) {
    if kind.Code? then !present || refreshCode else !present
  }

  predicate Present(status: Status) {
    status == Verified || status == Declared
  }

  function FirstOn(ps: seq<Placement>, artifact: string, server: string): Option<Placement> {
    if ps == [] then None
    else if FirstOn(ps[..|ps| - 1], artifact, server).Some? then FirstOn(ps[..|ps| - 1], artifact, server)
    else
      var p := ps[|ps| - 1];
      if p.artifact == artifact && p.server == server then Some(p) else None
  }

  function TargetOf(s: Scene, artifact: string): Option<Placement> {
    FirstOn(s.placements, artifact, s.server)
  }

  /** No placement declared: not there. A declared one is checked now. */
  function StatusOf(s: Scene, artifact: string): Status {
    match TargetOf(s, artifact)
    case None => Missing
    case Some(p) =>
      var cached := if p.id in s.snapshot then s.snapshot[p.id] else Declared;
      if cached == Declared then s.inspected(p) else cached
  }

  function SuggestedPath(s: Scene, a: Artifact): Result<Option<string>, Refusal> {
    if s.root(a.kind).None? || s.root(a.kind).value == "" then Ok(None)
    else
      match Leaf(s.text, a.name, a.version)
      case Err(e) => Err(e)
      case Ok(leaf) =>
        match s.normal(Under(s.root(a.kind).value, leaf))
        case Err(e) => Err(e)
        case Ok(p) => Ok(Some(p))
  }

  /** There is an automatic path unless the server has no root for the kind, or an empty
      one: the root without its last slashes, a slash and the artifact's leaf, normalised. */
  lemma SuggestedIs(s: Scene, a: Artifact)
    ensures SuggestedPath(s, a) == Ok(None) <==> s.root(a.kind) == None || s.root(a.kind) == Some("")
    ensures s.root(a.kind).Some? && s.root(a.kind).value != "" && Leaf(s.text, a.name, a.version).Ok? ==>
              var normal := s.normal(Under(s.root(a.kind).value, Leaf(s.text, a.name, a.version).value));
              if normal.Err? then SuggestedPath(s, a) == Err(normal.error)
              else SuggestedPath(s, a) == Ok(Some(normal.value))
  {
  }

  /** Placed by another artifact on the target server, at a path that reads `path`. */
  ghost predicate PlacedByOther(s: Scene, artifact: string, path: string) {
    exists p :: p in s.placements && p.server == s.server && p.artifact != artifact && s.normal(p.path) == Ok(path)
  }

  predicate Elsewhere(s: Scene, artifact: string, p: Placement) {
    p.server == s.server && p.artifact != artifact
  }

  method OtherPaths(s: Scene, artifact: string) returns (r: Result<set<string>, Refusal>)
    ensures r.Ok? ==> forall path :: path in r.value <==> PlacedByOther(s, artifact, path)
    ensures r.Err? <==> exists p :: p in s.placements && Elsewhere(s, artifact, p) && s.normal(p.path).Err?
  {
    var paths: set<string> := {};
    for i := 0 to |s.placements|
      invariant forall path :: path in paths <==>
                  exists j :: 0 <= j < i && Elsewhere(s, artifact, s.placements[j])
                              && s.normal(s.placements[j].path) == Ok(path)
      invariant forall j :: 0 <= j < i && Elsewhere(s, artifact, s.placements[j]) ==> s.normal(s.placements[j].path).Ok?
    {
      var p := s.placements[i];
      if Elsewhere(s, artifact, p) {
        var normalized := s.normal(p.path);
        if normalized.Err? {
          return Err(normalized.error);
        }
        paths := paths + {normalized.value};
      }
    }
    return Ok(paths);
  }

  /** Used by another artifact's placement on the server, or by an earlier suggestion of
      the plan. */
  ghost predicate InUse(s: Scene, artifact: string, suggested: map<string, string>, path: string) {
    path in suggested || PlacedByOther(s, artifact, path)
  }

  /** The automatic path is the first of the tried ones that is not in use; there is none
      exactly when the server has no root for it or all are in use. */
  ghost predicate ClaimIs(s: Scene, a: Artifact, suggested: map<string, string>, claim: Option<string>) {
    && SuggestedPath(s, a).Ok?
    && match SuggestedPath(s, a).value
       case None => claim == None
       case Some(base) =>
         var tries := Tries(base, a.id);
         if claim.None? then forall k :: 0 <= k < |tries| ==> InUse(s, a.id, suggested, tries[k])
         else
           exists k :: 0 <= k < |tries| && tries[k] == claim.value && !InUse(s, a.id, suggested, tries[k])
                       && forall j :: 0 <= j < k ==> InUse(s, a.id, suggested, tries[j])
  }

  predicate Skippable(s: Scene, a: Artifact, status: Status) {
    status == Syncing || (status != Unavailable && !NeedsTransfer(a.kind, Present(status), s.refreshCode))
  }

  /** The artifact needs a transfer and its target server answered. */
  predicate Wanting(s: Scene, a: Artifact, status: Status) {
    !Skippable(s, a, status) && status != Unavailable
  }

  function BestSource(s: Scene, artifact: string): Option<Placement> {
    var passing := Where(Ordered(s, artifact), s.usable);
    if passing == [] then None else Some(passing[0])
  }

  /** The path is the declared one; or, for an artifact that wants a transfer, the
      automatic one, which the plan then remembers. */
  ghost predicate Placed(s: Scene, a: Artifact, before: map<string, string>, item: Item, after: map<string, string>) {
    if TargetOf(s, a.id).Some? then after == before && Ok(item.path) == Declares(s, a.id)
    else if !Wanting(s, a, item.status) then after == before && item.path == None
    else
      && ClaimIs(s, a, before, item.path)
      && after == if item.path.Some? then before[item.path.value := a.id] else before
  }

  /** What one decision is. */
  ghost predicate Decided(s: Scene, a: Artifact, before: map<string, string>, item: Item, after: map<string, string>) {
    && item.artifact == a.id && item.status == StatusOf(s, a.id)
    && Placed(s, a, before, item, after)
    && (item.action == Skip <==> Skippable(s, a, item.status))
    && (item.action == Transfer <==>
          && Wanting(s, a, item.status) && item.path.Some? && BestSource(s, a.id).Some?
          && s.plannable(a, BestSource(s, a.id).value, item.path.value))
    && item.source == if item.action == Transfer then BestSource(s, a.id) else None
  }

  lemma {:induction false} NoneOn(ps: seq<Placement>, artifact: string, server: string)
    requires forall j :: 0 <= j < |ps| ==> !(ps[j].artifact == artifact && ps[j].server == server)
    ensures FirstOn(ps, artifact, server) == None
  {
    if ps != [] {
      NoneOn(ps[..|ps| - 1], artifact, server);
    }
  }

  lemma {:induction false} FirstOnAt(ps: seq<Placement>, artifact: string, server: string, i: nat)
    requires i < |ps| && ps[i].artifact == artifact && ps[i].server == server
    requires forall j :: 0 <= j < i ==> !(ps[j].artifact == artifact && ps[j].server == server)
    ensures FirstOn(ps, artifact, server) == Some(ps[i])
  {
    if i == |ps| - 1 {
      NoneOn(ps[..i], artifact, server);
    } else {
      FirstOnAt(ps[..|ps| - 1], artifact, server, i);
    }
  }

  /** Where the target stands when a placement of the artifact is declared on the server:
      what is cached of the first one, which is checked now when nothing is cached of it or
      no more than the declaration. */
  lemma TargetStatus(s: Scene, artifact: string, i: nat)
    requires i < |s.placements| && s.placements[i].artifact == artifact && s.placements[i].server == s.server
    requires forall j :: 0 <= j < i ==> !(s.placements[j].artifact == artifact && s.placements[j].server == s.server)
    ensures TargetOf(s, artifact) == Some(s.placements[i])
    ensures var p := s.placements[i];
            StatusOf(s, artifact) ==
            if p.id in s.snapshot && s.snapshot[p.id] != Declared then s.snapshot[p.id] else s.inspected(p)
  {
    FirstOnAt(s.placements, artifact, s.server, i);
  }

  /** And when none is: it is missing. */
  lemma NoTargetStatus(s: Scene, artifact: string)
    requires forall j :: 0 <= j < |s.placements| ==>
               !(s.placements[j].artifact == artifact && s.placements[j].server == s.server)
    ensures TargetOf(s, artifact) == None && StatusOf(s, artifact) == Missing
  {
    NoneOn(s.placements, artifact, s.server);
  }

  /** When a decision skips: while the target is syncing, and when it is there, verified or
      as declared, unless it is code and a refresh of code was asked for. A transfer is
      decided exactly when the target is missing, or is code to be refreshed, and there are
      a path, a usable source and the planner's consent. */
  lemma DecidedIff(s: Scene, a: Artifact, before: map<string, string>, item: Item, after: map<string, string>)
    requires Decided(s, a, before, item, after)
    ensures item.action == Skip
            <==> item.status == Syncing
                 || ((item.status == Verified || item.status == Declared) && !(a.kind == Code && s.refreshCode))
    ensures item.action == Transfer
            <==> && (item.status == Missing
                     || ((item.status == Verified || item.status == Declared) && a.kind == Code && s.refreshCode))
                 && item.path.Some? && BestSource(s, a.id).Some?
                 && s.plannable(a, BestSource(s, a.id).value, item.path.value)
    ensures item.action == Unresolved <==> item.action != Skip && item.action != Transfer
  {
  }

  /** The declared target path, normalised. */
  function Declares(s: Scene, artifact: string): Result<Option<string>, Refusal> {
    match TargetOf(s, artifact)
    case None => Ok(None)
    case Some(p) =>
      match s.normal(p.path)
      case Err(e) => Err(e)
      case Ok(path) => Ok(Some(path))
  }

  method PlanItem(s: Scene, a: Artifact, suggested: map<string, string>)
    returns (r: Result<Item, Refusal>, after: map<string, string>)
    ensures r.Ok? ==> Decided(s, a, suggested, r.value, after)
    ensures r.Err? <==>
            || Declares(s, a.id).Err?
            || (Wanting(s, a, StatusOf(s, a.id)) && TargetOf(s, a.id).None? && ClaimFails(s, a))
  {
    after := suggested;
    var status := StatusOf(s, a.id);
    var declared := Declares(s, a.id);
    if declared.Err? {
      return Err(declared.error), after;
    }
    var path := declared.value;
    if status == Syncing {
      return Ok(Item(a.id, status, Skip, path, None)), after;
    }
    if status == Unavailable {
      return Ok(Item(a.id, status, Unresolved, path, None)), after;
    }
    if !NeedsTransfer(a.kind, Present(status), s.refreshCode) {
      return Ok(Item(a.id, status, Skip, path, None)), after;
    }
    if path.None? {
      var claim := ClaimTarget(s, a, suggested);
      if claim.Err? {
        return Err(claim.error), after;
      }
      if claim.value.None? {
        return Ok(Item(a.id, status, Unresolved, None, None)), after;
      }
      path := claim.value;
      after := suggested[path.value := a.id];
    }
    var item := PlanTransfer(s, a, status, path.value);
    r := Ok(item);
  }

  /** The last part: a source, then a transfer plan. */
  method PlanTransfer(s: Scene, a: Artifact, status: Status, path: string) returns (item: Item)
    ensures item.artifact == a.id && item.status == status && item.action != Skip && item.path == Some(path)
    ensures item.action == Transfer <==> BestSource(s, a.id).Some? && s.plannable(a, BestSource(s, a.id).value, path)
    ensures item.source == if item.action == Transfer then BestSource(s, a.id) else None
  {
    var source, alternatives := SelectSource(s, a.id);
    assert source == BestSource(s, a.id);
    if source.None? || !s.plannable(a, source.value, path) {
      return Item(a.id, status, Unresolved, Some(path), None);
    }
    return Item(a.id, status, Transfer, Some(path), source);
  }

  /** The name or the root is refused, or another artifact's declared path is. */
  ghost predicate ClaimFails(s: Scene, a: Artifact) {
    || SuggestedPath(s, a).Err?
    || (SuggestedPath(s, a).value.Some?
        && exists p :: p in s.placements && Elsewhere(s, a.id, p) && s.normal(p.path).Err?)
  }

  /** The automatic target path, escalated until it is free. */
  method ClaimTarget(s: Scene, a: Artifact, suggested: map<string, string>) returns (r: Result<Option<string>, Refusal>)
    ensures r.Ok? ==> ClaimIs(s, a, suggested, r.value)
    ensures r.Err? <==> ClaimFails(s, a)
  {
    var suggestion := SuggestedPath(s, a);
    if suggestion.Err? {
      return Err(suggestion.error);
    }
    if suggestion.value.None? {
      return Ok(None);
    }
    var others := OtherPaths(s, a.id);
    if others.Err? {
      return Err(others.error);
    }
    var claim := ClaimPath(suggestion.value.value, a.id, others.value + suggested.Keys);
    FirstClaim(s, a, suggested, Tries(suggestion.value.value, a.id), others.value + suggested.Keys, claim);
    return Ok(claim);
  }

  lemma FirstClaim(s: Scene, a: Artifact, suggested: map<string, string>, tries: seq<string>, taken: set<string>,
                   claim: Option<string>)
    requires claim == FirstFree(tries, taken) && forall path :: path in taken <==> InUse(s, a.id, suggested, path)
    ensures if claim.None? then forall k :: 0 <= k < |tries| ==> InUse(s, a.id, suggested, tries[k])
            else
              exists k :: 0 <= k < |tries| && tries[k] == claim.value && !InUse(s, a.id, suggested, tries[k])
                          && forall j :: 0 <= j < k ==> InUse(s, a.id, suggested, tries[j])
  {
    FirstFreeIs(tries, taken);
    if claim.Some? {
      var k :| 0 <= k < |tries| && tries[k] == claim.value && forall j :: 0 <= j < k ==> tries[j] in taken;
      assert forall j :: 0 <= j < k ==> InUse(s, a.id, suggested, tries[j]);
    } else {
      assert forall k :: 0 <= k < |tries| ==> tries[k] in tries;
    }
  }

  // ----- the whole plan -------------------------------------------------------------------------

  datatype Plan = Plan(items: seq<Item>, valid: bool)

  /** An item whose path was suggested automatically. */
  ghost predicate Automatic(s: Scene, item: Item) {
    TargetOf(s, item.artifact).None? && item.path.Some?
  }

  /** The suggestions so far: exactly the automatic items' paths, each owned by its
      artifact and colliding with no other artifact's placement. */
  ghost predicate Registered(s: Scene, items: seq<Item>, suggested: map<string, string>) {
    forall i :: 0 <= i < |items| ==> RegisteredAs(s, items[i], suggested)
  }

  /** One item's part of it. */
  ghost predicate RegisteredAs(s: Scene, item: Item, suggested: map<string, string>) {
    && (Automatic(s, item) ==>
          && item.path.value in suggested && suggested[item.path.value] == item.artifact
          && !PlacedByOther(s, item.artifact, item.path.value))
    && (TargetOf(s, item.artifact).Some? ==> Ok(item.path) == Declares(s, item.artifact))
  }

  lemma DecidedRegisters(s: Scene, before: map<string, string>, a: Artifact, item: Item, after: map<string, string>)
    requires Decided(s, a, before, item, after)
    ensures RegisteredAs(s, item, after)
  {
  }

  lemma DecidedKeeps(s: Scene, before: map<string, string>, a: Artifact, item: Item, after: map<string, string>,
                     path: string)
    requires Decided(s, a, before, item, after) && path in before
    ensures path in after && after[path] == before[path]
  {
  }

  lemma RegisteredNext(s: Scene, items: seq<Item>, before: map<string, string>, a: Artifact, item: Item,
                       after: map<string, string>)
    requires Registered(s, items, before) && Decided(s, a, before, item, after)
    ensures Registered(s, items + [item], after)
  {
    forall i | 0 <= i < |items| + 1 ensures RegisteredAs(s, (items + [item])[i], after) {
      if i < |items| {
        assert RegisteredAs(s, items[i], before);
        if Automatic(s, items[i]) {
          DecidedKeeps(s, before, a, item, after, items[i].path.value);
        }
      } else {
        DecidedRegisters(s, before, a, item, after);
      }
    }
  }

  /** Two transfers of the plan, whose trees are compared. */
  predicate Compared(items: seq<Item>, i: nat, j: nat)
    requires i < |items| && j < |items|
  {
    items[i].action == Transfer && items[j].action == Transfer && items[i].path.Some? && items[j].path.Some?
  }

  function Comparison(s: Scene, items: seq<Item>, i: nat, j: nat): Result<bool, Refusal>
    requires i < |items| && j < |items|
  {
    if Compared(items, i, j) then PathsOverlap(s.parts, items[i].path.value, items[j].path.value) else Ok(false)
  }

  /** The nested loops over the transfers. */
  method OverlapError(s: Scene, items: seq<Item>) returns (r: Result<bool, Refusal>)
    ensures r.Ok? ==>
              && (forall i, j :: 0 <= i < j < |items| ==> Comparison(s, items, i, j).Ok?)
              && (r.value <==> forall i, j :: 0 <= i < j < |items| ==> Comparison(s, items, i, j) == Ok(false))
    ensures r.Err? ==> exists i, j :: 0 <= i < j < |items| && Comparison(s, items, i, j).Err?
  {
    var valid := true;
    for i := 0 to |items|
      invariant forall k, j :: 0 <= k < i && k < j < |items| ==> Comparison(s, items, k, j).Ok?
      invariant valid <==> forall k, j :: 0 <= k < i && k < j < |items| ==> Comparison(s, items, k, j) == Ok(false)
    {
      if items[i].action != Transfer || items[i].path.None? {
        continue;
      }
      var row := OverlapRow(s, items, i);
      if row.Err? {
        return Err(row.error);
      }
      valid := valid && row.value;
    }
    return Ok(valid);
  }

  method OverlapRow(s: Scene, items: seq<Item>, i: nat) returns (r: Result<bool, Refusal>)
    requires i < |items| && items[i].action == Transfer && items[i].path.Some?
    ensures r.Ok? ==>
              && (forall j :: i < j < |items| ==> Comparison(s, items, i, j).Ok?)
              && (r.value <==> forall j :: i < j < |items| ==> Comparison(s, items, i, j) == Ok(false))
    ensures r.Err? ==> exists j :: i < j < |items| && Comparison(s, items, i, j).Err?
  {
    var valid := true;
    for j := i + 1 to |items|
      invariant forall m :: i < m < j ==> Comparison(s, items, i, m).Ok?
      invariant valid <==> forall m :: i < m < j ==> Comparison(s, items, i, m) == Ok(false)
    {
      if items[j].action != Transfer || items[j].path.None? {
        continue;
      }
      var overlap := PathsOverlap(s.parts, items[i].path.value, items[j].path.value);
      assert overlap == Comparison(s, items, i, j);
      if overlap.Err? {
        return Err(overlap.error);
      }
      if overlap.value {
        valid := false;
      }
    }
    return Ok(valid);
  }

  /** The items are the decisions for the artifacts, one after the other, each with the
      suggestions of those before it. */
  ghost predicate Planned(s: Scene, artifacts: seq<Artifact>, items: seq<Item>, suggested: seq<map<string, string>>) {
    && |items| <= |artifacts| && |suggested| == |items| + 1 && suggested[0] == map[]
    && forall i :: 0 <= i < |items| ==> Decided(s, artifacts[i], suggested[i], items[i], suggested[i + 1])
  }

  lemma PlannedNext(s: Scene, artifacts: seq<Artifact>, items: seq<Item>, suggested: seq<map<string, string>>,
                    item: Item, after: map<string, string>)
    requires Planned(s, artifacts, items, suggested) && |items| < |artifacts|
    requires Decided(s, artifacts[|items|], suggested[|items|], item, after)
    ensures Planned(s, artifacts, items + [item], suggested + [after])
  {
  }

  method BuildPlan(s: Scene, artifacts: seq<Artifact>) returns (r: Result<Plan, Refusal>)
    requires forall i, j :: 0 <= i < j < |artifacts| ==> artifacts[i].id != artifacts[j].id
    ensures r.Ok? ==> Sound(s, artifacts, r.value)
  {
    var items: seq<Item> := [];
    var suggested: map<string, string> := map[];
    ghost var history := [suggested];
    for i := 0 to |artifacts|
      invariant |items| == i && Registered(s, items, suggested)
      invariant Planned(s, artifacts, items, history) && history[i] == suggested
    {
      var item, after := PlanItem(s, artifacts[i], suggested);
      if item.Err? {
        return Err(item.error);
      }
      RegisteredNext(s, items, suggested, artifacts[i], item.value, after);
      PlannedNext(s, artifacts, items, history, item.value, after);
      items, suggested, history := items + [item.value], after, history + [after];
    }
    var valid := OverlapError(s, items);
    if valid.Err? {
      return Err(valid.error);
    }
    Separated(s, artifacts, items, suggested, history);
    return Ok(Plan(items, valid.value));
  }

  /** One decision per artifact. Automatic paths differ from each other and from every
      other artifact's placement on the server; and the plan is valid exactly when no two
      transfers overlap as trees. */
  ghost predicate Sound(s: Scene, artifacts: seq<Artifact>, plan: Plan) {
    && |plan.items| == |artifacts| && (exists suggested :: Planned(s, artifacts, plan.items, suggested))
    && AutomaticApart(s, plan.items)
    && (forall i, j :: 0 <= i < j < |plan.items| ==> Comparison(s, plan.items, i, j).Ok?)
    && (plan.valid <==> forall i, j :: 0 <= i < j < |plan.items| ==> Comparison(s, plan.items, i, j) == Ok(false))
  }

  ghost predicate AutomaticApart(s: Scene, items: seq<Item>) {
    && (forall i, j :: 0 <= i < j < |items| && Automatic(s, items[i]) && Automatic(s, items[j]) ==>
        items[i].path != items[j].path)
    && (forall i :: 0 <= i < |items| && Automatic(s, items[i]) ==>
        !PlacedByOther(s, items[i].artifact, items[i].path.value))
  }

  lemma Separated(s: Scene, artifacts: seq<Artifact>, items: seq<Item>, suggested: map<string, string>,
                  history: seq<map<string, string>>)
    requires |items| == |artifacts| && Registered(s, items, suggested) && Planned(s, artifacts, items, history)
    requires forall i, j :: 0 <= i < j < |artifacts| ==> artifacts[i].id != artifacts[j].id
    ensures AutomaticApart(s, items)
  {
    forall i, j | 0 <= i < j < |items| && Automatic(s, items[i]) && Automatic(s, items[j])
      ensures items[i].path != items[j].path
    {
      assert artifacts[i].id != artifacts[j].id;
      assert Decided(s, artifacts[i], history[i], items[i], history[i + 1])
             && Decided(s, artifacts[j], history[j], items[j], history[j + 1]);
    }
  }

  /** In a valid plan no place lies in the target trees of two transfers. */
  lemma ValidIsDisjoint(s: Scene, artifacts: seq<Artifact>, plan: Plan, i: nat, j: nat, under: seq<string>,
                        below: seq<string>)
    requires Sound(s, artifacts, plan) && plan.valid && i < j < |plan.items|
    requires plan.items[i].action == Transfer && plan.items[j].action == Transfer
    ensures plan.items[i].path.Some? && plan.items[j].path.Some?
    ensures s.parts(plan.items[i].path.value).Ok? && s.parts(plan.items[j].path.value).Ok?
    ensures s.parts(plan.items[i].path.value).value + under != s.parts(plan.items[j].path.value).value + below
  {
    var suggested :| Planned(s, artifacts, plan.items, suggested);
    assert Decided(s, artifacts[i], suggested[i], plan.items[i], suggested[i + 1]);
    assert Decided(s, artifacts[j], suggested[j], plan.items[j], suggested[j + 1]);
    assert Comparison(s, plan.items, i, j) == Ok(false);
    OverlapIff(s.parts(plan.items[i].path.value).value, s.parts(plan.items[j].path.value).value);
  }

  /** The same with the workspace's own paths: what their components say. */
  lemma ValidTreesDisjoint(s: Scene, like: Scene, artifacts: seq<Artifact>, plan: Plan, i: nat, j: nat,
                           under: seq<string>, below: seq<string>)
    requires s == OnPaths(like) && Sound(s, artifacts, plan) && plan.valid && i < j < |plan.items|
    requires plan.items[i].action == Transfer && plan.items[j].action == Transfer
    ensures plan.items[i].path.Some? && plan.items[j].path.Some?
    ensures var a, b := Components(like.text, plan.items[i].path.value),
                        Components(like.text, plan.items[j].path.value);
            a.Ok? && b.Ok? && a.value + under != b.value + below
  {
    ValidIsDisjoint(s, artifacts, plan, i, j, under, below);
  }
}
