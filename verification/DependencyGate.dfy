/**
 The cargo-metadata half of the accepted-debt gate (scripts/check-rustsec-debt.py).

 A debt path is accepted only when the vulnerable package is reachable from the
 workspace root and no walk reaches it around any approved package.  The gate
 decides this with a worklist search; here the search is proved exact for walks
 of any length, and acceptance is proved to make the approved path a chain of
 dominators.
 */
module DependencyGate {
  import opened Wrappers

  type Id = string
  type Graph = map<Id, set<Id>>

  const MAX_METADATA_PACKAGES := 2048
  const MAX_METADATA_DEPENDENCIES := 512
  const MAX_REPORT_RECORDS := 128

  datatype Kind = Kind(kind: Option<string>, target: Option<string>)
  datatype Dependency = Dependency(name: string, pkg: Id, kinds: seq<Kind>)
  datatype Node = Node(id: Id, deps: seq<Dependency>)
  datatype Package = Package(id: Id, name: string, version: string, source: Option<string>)
  datatype Metadata = Metadata(packages: seq<Package>, root: Id, nodes: seq<Node>)

  /** One node of an approved path; `toNext` is absent on the vulnerable package. */
  datatype Edge = Edge(name: string, kinds: set<Kind>)
  datatype Approved = Approved(name: string, version: string, source: Option<string>, toNext: Option<Edge>)

  datatype GateError =
    | InventoryLimit
    | DuplicateNode
    | MissingRoot
    | DependencyLimit
    | MalformedKinds
    | DanglingDependency
    | PackageIdentity
    | PackageSource
    | RepeatedPackage
    | MissingNode
    | EdgeMismatch
    | EdgeFingerprint
    | Unreachable
    | Bypass(around: Id)

  // ---------------------------------------------------------------- walks

  ghost predicate IsWalk(g: Graph, w: seq<Id>, a: Id, b: Id) {
    && |w| > 0 && w[0] == a && w[|w| - 1] == b
    && forall i :: 0 <= i < |w| - 1 ==> w[i] in g && w[i + 1] in g[w[i]]
  }

  ghost predicate Avoids(w: seq<Id>, blocked: Option<Id>) {
    blocked.Some? ==> blocked.value !in w
  }

  /** Some walk from `a` to `b` meets `blocked` nowhere. */
  ghost predicate Reaches(g: Graph, a: Id, b: Id, blocked: Option<Id>) {
    exists w :: IsWalk(g, w, a, b) && Avoids(w, blocked)
  }

  /** Every walk from `a` to `b`, through whatever cycles, passes through `d`. */
  ghost predicate Dominates(g: Graph, a: Id, d: Id, b: Id) {
    forall w :: IsWalk(g, w, a, b) ==> d in w
  }

  lemma StartReaches(g: Graph, a: Id, b: Id, blocked: Option<Id>)
    ensures blocked != Some(a) ==> Reaches(g, a, a, blocked)
    ensures blocked == Some(a) ==> !Reaches(g, a, b, blocked)
  {
    if blocked != Some(a) { assert IsWalk(g, [a], a, a) && Avoids([a], blocked); }
  }

  lemma SuccessorsReach(g: Graph, a: Id, b: Id, blocked: Option<Id>)
    requires Reaches(g, a, b, blocked)
    ensures b in g ==> forall c :: c in g[b] && blocked != Some(c) ==> Reaches(g, a, c, blocked)
  {
    var w :| IsWalk(g, w, a, b) && Avoids(w, blocked);
    if b in g {
      forall c | c in g[b] && blocked != Some(c) ensures Reaches(g, a, c, blocked) {
        assert IsWalk(g, w + [c], a, c) && Avoids(w + [c], blocked);
      }
    }
  }

  /** A set that is closed under unblocked edges catches every unblocked walk. */
  lemma {:induction false} ClosedSetCatches(g: Graph, closed: set<Id>, w: seq<Id>, a: Id, b: Id, blocked: Option<Id>)
    requires IsWalk(g, w, a, b) && Avoids(w, blocked) && a in closed
    requires forall x, y :: x in closed && x in g && y in g[x] && blocked != Some(y) ==> y in closed
    ensures b in closed
    decreases |w|
  {
    if |w| > 1 {
      assert w[0] in g && w[1] in g[w[0]];
      assert w[1] in w;
      ClosedSetCatches(g, closed, w[1..], w[1], b, blocked);
    }
  }

  lemma ClosedSetHoldsTheTarget(g: Graph, closed: set<Id>, a: Id, b: Id, blocked: Option<Id>)
    requires a in closed
    requires forall x, y :: x in closed && x in g && y in g[x] && blocked != Some(y) ==> y in closed
    ensures Reaches(g, a, b, blocked) ==> b in closed
  {
    if w :| IsWalk(g, w, a, b) && Avoids(w, blocked) { ClosedSetCatches(g, closed, w, a, b, blocked); }
  }

  /** Python iterates a set in no particular order. */
  method Listed(s: set<Id>) returns (order: seq<Id>)
    ensures forall x :: x in order <==> x in s
  {
    order := [];
    var rest := s;
    while rest != {}
      invariant forall x :: x in s <==> x in order || x in rest
      decreases rest
    {
      var x :| x in rest;
      order, rest := order + [x], rest - {x};
    }
  }

  ghost function Universe(g: Graph, start: Id): set<Id> {
    {start} + (set x, y | x in g && y in g[x] :: y)
  }

  /** `_is_reachable`: exact for "some walk avoids `blocked`", and it terminates. */
  method IsReachable(g: Graph, start: Id, target: Id, blocked: Option<Id>) returns (found: bool)
    ensures found <==> Reaches(g, start, target, blocked)
  {
    StartReaches(g, start, target, blocked);
    if blocked == Some(start) { return false; }
    var pending, visited := [start], {};
    while pending != []
      invariant forall n :: n in pending && blocked != Some(n) ==> Reaches(g, start, n, blocked)
      invariant forall n :: n in visited ==> Reaches(g, start, n, blocked)
      invariant start in visited || start in pending
      invariant target !in visited
      invariant visited <= Universe(g, start)
      invariant forall n :: n in pending ==> n in Universe(g, start)
      invariant forall x, y :: x in visited && x in g && y in g[x] && blocked != Some(y) ==>
                  y in visited || y in pending
      decreases Universe(g, start) - visited, |pending|
    {
      var node := pending[|pending| - 1];
      ghost var before := pending;
      pending := pending[..|pending| - 1];
      assert before == pending + [node];
      if blocked == Some(node) || node in visited { continue; }
      if node == target { return true; }
      visited := visited + {node};
      var successors := Listed(if node in g then g[node] else {});
      SuccessorsReach(g, start, node, blocked);
      pending := pending + successors;
    }
    ClosedSetHoldsTheTarget(g, visited, start, target, blocked);
    return false;
  }

  // ---------------------------------------------------------------- metadata

  ghost predicate ValidKinds(kinds: seq<Kind>) {
    && 0 < |kinds| <= MAX_REPORT_RECORDS
    && forall i, j :: 0 <= i < j < |kinds| ==> kinds[i] != kinds[j]
  }

  function KindSet(kinds: seq<Kind>): set<Kind> {
    set k | k in kinds
  }

  function Targets(node: Node): set<Id> {
    set i | 0 <= i < |node.deps| :: node.deps[i].pkg
  }

  ghost predicate DistinctNodes(m: Metadata) {
    forall i, j :: 0 <= i < j < |m.nodes| ==> m.nodes[i].id != m.nodes[j].id
  }

  ghost predicate HasNode(m: Metadata, id: Id) {
    exists i :: 0 <= i < |m.nodes| && m.nodes[i].id == id
  }

  ghost predicate SoundNode(m: Metadata, node: Node) {
    && |node.deps| <= MAX_METADATA_DEPENDENCIES
    && forall i :: 0 <= i < |node.deps| ==> ValidKinds(node.deps[i].kinds) && HasNode(m, node.deps[i].pkg)
  }

  ghost predicate WellFormed(m: Metadata) {
    && |m.packages| <= MAX_METADATA_PACKAGES && |m.nodes| <= MAX_METADATA_PACKAGES
    && DistinctNodes(m) && HasNode(m, m.root)
    && forall i :: 0 <= i < |m.nodes| ==> SoundNode(m, m.nodes[i])
  }

  ghost predicate NodeTable(m: Metadata, nodes: map<Id, Node>) {
    && (forall id :: id in nodes <==> HasNode(m, id))
    && (forall i :: 0 <= i < |m.nodes| ==> m.nodes[i].id in nodes && nodes[m.nodes[i].id] == m.nodes[i])
  }

  ghost predicate IsGraph(m: Metadata, g: Graph) {
    && (forall id :: id in g <==> HasNode(m, id))
    && (forall i :: 0 <= i < |m.nodes| ==> m.nodes[i].id in g && g[m.nodes[i].id] == Targets(m.nodes[i]))
  }

  ghost function GraphOf(m: Metadata): Graph
    requires DistinctNodes(m)
  {
    map i | 0 <= i < |m.nodes| :: m.nodes[i].id := Targets(m.nodes[i])
  }

  predicate Matches(p: Package, a: Approved) {
    p.name == a.name && p.version == a.version
  }

  /** Exactly one package carries the approved name and version. */
  ghost predicate IsSelected(m: Metadata, a: Approved, id: Id) {
    exists i :: 0 <= i < |m.packages| && m.packages[i].id == id && m.packages[i].source == a.source
      && Matches(m.packages[i], a) && forall j :: 0 <= j < |m.packages| && Matches(m.packages[j], a) ==> j == i
  }

  ghost predicate Selects(m: Metadata, path: seq<Approved>, ids: seq<Id>) {
    |ids| == |path| && forall k :: 0 <= k < |path| ==> IsSelected(m, path[k], ids[k])
  }

  ghost predicate EdgeMatches(node: Node, to: Id, edge: Edge) {
    exists i :: 0 <= i < |node.deps| && node.deps[i].pkg == to
      && node.deps[i].name == edge.name && KindSet(node.deps[i].kinds) == edge.kinds
      && forall j :: 0 <= j < |node.deps| && node.deps[j].pkg == to ==> j == i
  }

  /** The policy loader leaves exactly the terminal node without an edge. */
  ghost predicate PolicyPath(path: seq<Approved>) {
    |path| > 0 && forall k :: 0 <= k < |path| ==> (path[k].toNext.None? <==> k == |path| - 1)
  }

  ghost predicate Linked(m: Metadata, path: seq<Approved>, ids: seq<Id>, k: nat)
    requires |ids| == |path| && k < |path|
  {
    exists n :: 0 <= n < |m.nodes| && m.nodes[n].id == ids[k]
      && (path[k].toNext.Some? && k + 1 < |path| ==> EdgeMatches(m.nodes[n], ids[k + 1], path[k].toNext.value))
  }

  function Last(ids: seq<Id>): Id
    requires ids != []
  {
    ids[|ids| - 1]
  }

  ghost predicate Distinct(ids: seq<Id>) {
    forall i, j :: 0 <= i < j < |ids| ==> ids[i] != ids[j]
  }

  ghost predicate Approves(m: Metadata, path: seq<Approved>, ids: seq<Id>)
    requires PolicyPath(path) && WellFormed(m)
  {
    && Selects(m, path, ids) && Distinct(ids)
    && (forall k :: 0 <= k < |path| ==> Linked(m, path, ids, k))
    && var g, last := GraphOf(m), Last(ids);
       && Reaches(g, m.root, last, None)
       && forall k :: 0 <= k < |ids| - 1 ==> Dominates(g, m.root, ids[k], last)
  }

  ghost predicate Accepted(m: Metadata, path: seq<Approved>)
    requires PolicyPath(path) && WellFormed(m)
  {
    exists ids :: Approves(m, path, ids)
  }

  lemma SelectionIsUnique(m: Metadata, path: seq<Approved>, xs: seq<Id>, ys: seq<Id>)
    requires Selects(m, path, xs) && Selects(m, path, ys)
    ensures xs == ys
  {
    forall k | 0 <= k < |path| ensures xs[k] == ys[k] {
      assert IsSelected(m, path[k], xs[k]) && IsSelected(m, path[k], ys[k]);
    }
  }

  lemma BlockedMeansBypass(g: Graph, a: Id, d: Id, b: Id)
    ensures Reaches(g, a, b, Some(d)) <==> !Dominates(g, a, d, b)
  {
    if w :| IsWalk(g, w, a, b) && d !in w { assert Avoids(w, Some(d)); }
  }

  method CheckKinds(kinds: seq<Kind>) returns (ok: bool)
    ensures ok <==> ValidKinds(kinds)
  {
    if |kinds| == 0 || |kinds| > MAX_REPORT_RECORDS { return false; }
    var seen: set<Kind> := {};
    for i := 0 to |kinds|
      invariant seen == set j | 0 <= j < i :: kinds[j]
      invariant forall j, k :: 0 <= j < k < i ==> kinds[j] != kinds[k]
    {
      if kinds[i] in seen { return false; }
      seen := seen + {kinds[i]};
    }
    return true;
  }

  method BuildNodes(m: Metadata) returns (r: Result<map<Id, Node>, GateError>)
    ensures r.Success? <==> DistinctNodes(m)
    ensures r.Success? ==> NodeTable(m, r.value)
  {
    var nodes: map<Id, Node> := map[];
    for i := 0 to |m.nodes|
      invariant forall id :: id in nodes ==> exists j :: 0 <= j < i && m.nodes[j].id == id
      invariant forall j :: 0 <= j < i ==> m.nodes[j].id in nodes && nodes[m.nodes[j].id] == m.nodes[j]
      invariant forall j, k :: 0 <= j < k < i ==> m.nodes[j].id != m.nodes[k].id
    {
      if m.nodes[i].id in nodes { return Failure(DuplicateNode); }
      nodes := nodes[m.nodes[i].id := m.nodes[i]];
    }
    return Success(nodes);
  }

  method BuildSuccessors(m: Metadata, nodes: map<Id, Node>, node: Node) returns (r: Result<set<Id>, GateError>)
    requires NodeTable(m, nodes)
    ensures r.Success? <==> SoundNode(m, node)
    ensures r.Success? ==> r.value == Targets(node)
  {
    if |node.deps| > MAX_METADATA_DEPENDENCIES { return Failure(DependencyLimit); }
    var successors: set<Id> := {};
    for d := 0 to |node.deps|
      invariant successors == set j | 0 <= j < d :: node.deps[j].pkg
      invariant forall j :: 0 <= j < d ==> ValidKinds(node.deps[j].kinds) && HasNode(m, node.deps[j].pkg)
    {
      var valid := CheckKinds(node.deps[d].kinds);
      if !valid { return Failure(MalformedKinds); }
      if node.deps[d].pkg !in nodes { return Failure(DanglingDependency); }
      successors := successors + {node.deps[d].pkg};
    }
    return Success(successors);
  }

  lemma IsTheGraph(m: Metadata, graph: Graph)
    requires DistinctNodes(m) && IsGraph(m, graph)
    ensures graph == GraphOf(m)
  {
  }

  /** The node table and the graph, or the first malformation. */
  method BuildGraph(m: Metadata) returns (r: Result<(map<Id, Node>, Graph), GateError>)
    ensures r.Success? <==> WellFormed(m)
    ensures r.Success? ==> NodeTable(m, r.value.0) && IsGraph(m, r.value.1)
  {
    if |m.packages| > MAX_METADATA_PACKAGES || |m.nodes| > MAX_METADATA_PACKAGES { return Failure(InventoryLimit); }
    var nodes :- BuildNodes(m);
    if m.root !in nodes { return Failure(MissingRoot); }
    var graph: Graph := map[];
    for i := 0 to |m.nodes|
      invariant forall id :: id in graph ==> id in nodes
      invariant forall j :: 0 <= j < i ==> SoundNode(m, m.nodes[j])
      invariant forall j :: 0 <= j < i ==> m.nodes[j].id in graph && graph[m.nodes[j].id] == Targets(m.nodes[j])
    {
      var successors :- BuildSuccessors(m, nodes, m.nodes[i]);
      graph := graph[m.nodes[i].id := successors];
    }
    return Success((nodes, graph));
  }

  /** The package ids of an approved path, each name and version matched once. */
  method SelectPackages(m: Metadata, path: seq<Approved>) returns (r: Result<seq<Id>, GateError>)
    ensures r.Success? ==> Selects(m, path, r.value)
    ensures r.Failure? ==> r.error in {PackageIdentity, PackageSource} && forall ids :: !Selects(m, path, ids)
  {
    var ids: seq<Id> := [];
    for k := 0 to |path|
      invariant |ids| == k && forall j :: 0 <= j < k ==> IsSelected(m, path[j], ids[j])
    {
      var matches: seq<Package> := [];
      ghost var at: seq<nat> := [];
      for i := 0 to |m.packages|
        invariant |at| == |matches|
        invariant forall x :: 0 <= x < |at| ==>
                    at[x] < i && m.packages[at[x]] == matches[x] && Matches(matches[x], path[k])
        invariant forall x, y :: 0 <= x < y < |at| ==> at[x] != at[y]
        invariant forall j :: 0 <= j < i && Matches(m.packages[j], path[k]) ==> j in at
      {
        if Matches(m.packages[i], path[k]) { matches, at := matches + [m.packages[i]], at + [i]; }
      }
      if |matches| != 1 || matches[0].source != path[k].source {
        if |matches| > 1 { assert at[0] != at[1]; }
        forall id ensures !IsSelected(m, path[k], id) {}
        return Failure(if |matches| != 1 then PackageIdentity else PackageSource);
      }
      assert IsSelected(m, path[k], matches[0].id);
      ids := ids + [matches[0].id];
    }
    return Success(ids);
  }

  method CheckDistinct(ids: seq<Id>) returns (ok: bool)
    ensures ok <==> Distinct(ids)
  {
    var seen: set<Id> := {};
    for i := 0 to |ids|
      invariant seen == set j | 0 <= j < i :: ids[j]
      invariant forall j, k :: 0 <= j < k < i ==> ids[j] != ids[k]
    {
      if ids[i] in seen { return false; }
      seen := seen + {ids[i]};
    }
    return true;
  }

  method CheckEdge(node: Node, to: Id, edge: Edge) returns (r: Outcome<GateError>)
    ensures r.Pass? <==> EdgeMatches(node, to, edge)
    ensures r.Fail? ==> r.error in {EdgeMismatch, EdgeFingerprint}
  {
    var matches: seq<Dependency> := [];
    ghost var at: seq<nat> := [];
    for i := 0 to |node.deps|
      invariant |at| == |matches|
      invariant forall x :: 0 <= x < |at| ==> at[x] < i && node.deps[at[x]] == matches[x] && matches[x].pkg == to
      invariant forall x, y :: 0 <= x < y < |at| ==> at[x] != at[y]
      invariant forall j :: 0 <= j < i && node.deps[j].pkg == to ==> j in at
    {
      if node.deps[i].pkg == to { matches, at := matches + [node.deps[i]], at + [i]; }
    }
    if |matches| != 1 {
      if |matches| > 1 { assert at[0] != at[1]; }
      return Fail(EdgeMismatch);
    }
    if matches[0].name != edge.name || KindSet(matches[0].kinds) != edge.kinds { return Fail(EdgeFingerprint); }
    return Pass;
  }

  method CheckLinks(m: Metadata, nodes: map<Id, Node>, path: seq<Approved>, ids: seq<Id>)
    returns (r: Outcome<GateError>)
    requires NodeTable(m, nodes) && PolicyPath(path) && DistinctNodes(m) && |ids| == |path|
    ensures r.Pass? <==> forall k :: 0 <= k < |path| ==> Linked(m, path, ids, k)
    ensures r.Fail? ==> r.error in {MissingNode, EdgeMismatch, EdgeFingerprint}
  {
    for k := 0 to |ids|
      invariant forall j :: 0 <= j < k ==> Linked(m, path, ids, j)
    {
      if ids[k] !in nodes { assert !Linked(m, path, ids, k); return Fail(MissingNode); }
      if path[k].toNext.Some? {
        r := CheckEdge(nodes[ids[k]], ids[k + 1], path[k].toNext.value);
        if r.Fail? { assert !Linked(m, path, ids, k); return; }
      }
    }
    return Pass;
  }

  /** The two searches: the vulnerable package is reachable, and not around any earlier package. */
  method CheckDominators(g: Graph, root: Id, ids: seq<Id>) returns (r: Outcome<GateError>)
    requires ids != []
    ensures r.Pass? <==> && Reaches(g, root, Last(ids), None)
                         && forall k :: 0 <= k < |ids| - 1 ==> Dominates(g, root, ids[k], Last(ids))
    ensures r == Fail(Unreachable) ==> !Reaches(g, root, Last(ids), None)
    ensures r.Fail? && r.error != Unreachable ==>
              r.error.Bypass? && r.error.around in ids[..|ids| - 1] && !Dominates(g, root, r.error.around, Last(ids))
  {
    var vulnerable := ids[|ids| - 1];
    var reachable := IsReachable(g, root, vulnerable, None);
    if !reachable { return Fail(Unreachable); }
    for k := 0 to |ids| - 1
      invariant forall j :: 0 <= j < k ==> Dominates(g, root, ids[j], vulnerable)
    {
      BlockedMeansBypass(g, root, ids[k], vulnerable);
      var bypass := IsReachable(g, root, vulnerable, Some(ids[k]));
      if bypass { return Fail(Bypass(ids[k])); }
    }
    return Pass;
  }

  /** One approved path against a well-formed graph. */
  method VerifyPath(m: Metadata, nodes: map<Id, Node>, graph: Graph, path: seq<Approved>)
    returns (r: Outcome<GateError>)
    requires WellFormed(m) && PolicyPath(path) && graph == GraphOf(m) && NodeTable(m, nodes)
    ensures r.Pass? <==> Accepted(m, path)
    ensures r == Fail(Unreachable) ==> exists ids :: Selects(m, path, ids) && !Reaches(graph, m.root, Last(ids), None)
    ensures r.Fail? && r.error.Bypass? ==>
              exists ids :: Selects(m, path, ids) && r.error.around in ids[..|ids| - 1]
                && !Dominates(graph, m.root, r.error.around, Last(ids))
  {
    var selected := SelectPackages(m, path);
    if selected.Failure? { return Fail(selected.error); }
    var ids := selected.value;
    forall other | Selects(m, path, other) ensures other == ids { SelectionIsUnique(m, path, ids, other); }
    var distinct := CheckDistinct(ids);
    if !distinct { return Fail(RepeatedPackage); }
    r := CheckLinks(m, nodes, path, ids);
    if r.Fail? { return; }
    r := CheckDominators(graph, m.root, ids);
    if r.Pass? { assert Approves(m, path, ids); }
  }

  /** `_verify_metadata_path` on decoded metadata: accepted exactly when every path is. */
  method VerifyMetadataPath(m: Metadata, paths: seq<seq<Approved>>) returns (r: Outcome<GateError>)
    requires forall p :: p in paths ==> PolicyPath(p)
    ensures r.Pass? <==> WellFormed(m) && forall p :: p in paths ==> Accepted(m, p)
  {
    var built := BuildGraph(m);
    if built.Failure? { return Fail(built.error); }
    IsTheGraph(m, built.value.1);
    for i := 0 to |paths|
      invariant forall j :: 0 <= j < i ==> Accepted(m, paths[j])
    {
      r := VerifyPath(m, built.value.0, built.value.1, paths[i]);
      if r.Fail? { assert paths[i] in paths; return; }
    }
    return Pass;
  }

  // ---------------------------------------------------------------- what acceptance means

  /** What approval says about the searched graph alone. */
  ghost predicate TightPath(g: Graph, root: Id, ids: seq<Id>) {
    && ids != [] && Distinct(ids)
    && (forall k :: 0 <= k < |ids| - 1 ==> ids[k] in g && ids[k + 1] in g[ids[k]])
    && (forall k :: 0 <= k < |ids| - 1 ==> Dominates(g, root, ids[k], Last(ids)))
  }

  lemma ApprovedEdge(m: Metadata, path: seq<Approved>, ids: seq<Id>, k: nat)
    requires PolicyPath(path) && DistinctNodes(m) && |ids| == |path| && k + 1 < |ids| && Linked(m, path, ids, k)
    ensures ids[k] in GraphOf(m) && ids[k + 1] in GraphOf(m)[ids[k]]
  {
    var n :| 0 <= n < |m.nodes| && m.nodes[n].id == ids[k] && EdgeMatches(m.nodes[n], ids[k + 1], path[k].toNext.value);
    var i :| 0 <= i < |m.nodes[n].deps| && m.nodes[n].deps[i].pkg == ids[k + 1];
    assert ids[k + 1] in Targets(m.nodes[n]);
  }

  lemma ApprovedPathIsTight(m: Metadata, path: seq<Approved>, ids: seq<Id>)
    requires PolicyPath(path) && WellFormed(m) && Approves(m, path, ids)
    ensures TightPath(GraphOf(m), m.root, ids)
  {
    forall k | 0 <= k < |ids| - 1 ensures ids[k] in GraphOf(m) && ids[k + 1] in GraphOf(m)[ids[k]] {
      ApprovedEdge(m, path, ids, k);
    }
  }

  lemma Join(g: Graph, v: seq<Id>, w: seq<Id>, a: Id, b: Id, c: Id)
    requires IsWalk(g, v, a, b) && IsWalk(g, w, b, c)
    ensures IsWalk(g, v + w[1..], a, c)
  {
    var u := v + w[1..];
    forall i | 0 <= i < |u| - 1 ensures u[i] in g && u[i + 1] in g[u[i]] {
      if i >= |v| - 1 { assert u[i] == w[i - |v| + 1] && u[i + 1] == w[i - |v| + 2]; }
    }
  }

  /**
   The gate only searches for the last package, yet acceptance makes every
   approved package dominate every later one: a walk to ids[j] around ids[i]
   would extend along the approved tail to the vulnerable package.
   */
  lemma TightPathIsDominatorChain(g: Graph, root: Id, ids: seq<Id>, i: nat, j: nat)
    requires TightPath(g, root, ids) && i < j < |ids|
    ensures Dominates(g, root, ids[i], ids[j])
  {
    var tail := ids[j..];
    assert IsWalk(g, tail, ids[j], Last(ids));
    forall w | IsWalk(g, w, root, ids[j]) ensures ids[i] in w {
      Join(g, w, tail, root, ids[j], Last(ids));
      assert Dominates(g, root, ids[i], Last(ids));
      assert ids[i] in w + tail[1..];
      assert ids[i] !in tail[1..];
    }
  }

  ghost predicate Increasing(at: seq<nat>) {
    forall x, y :: 0 <= x < y < |at| ==> at[x] < at[y]
  }

  /** The packages `ids` occur in `w` at the increasing positions `at`. */
  ghost predicate OccursInOrder(w: seq<Id>, ids: seq<Id>, at: seq<nat>) {
    |at| == |ids| && Increasing(at) && forall x :: 0 <= x < |at| ==> at[x] < |w| && w[at[x]] == ids[x]
  }

  lemma {:induction false} OrderUpTo(g: Graph, root: Id, ids: seq<Id>, k: nat, w: seq<Id>) returns (at: seq<nat>)
    requires TightPath(g, root, ids) && k < |ids| && IsWalk(g, w, root, ids[k])
    ensures OccursInOrder(w, ids[..k + 1], at) && at[k] == |w| - 1
    decreases k
  {
    if k == 0 { return [|w| - 1]; }
    TightPathIsDominatorChain(g, root, ids, k - 1, k);
    var x :| 0 <= x < |w| && w[x] == ids[k - 1];
    var before := OrderUpTo(g, root, ids, k - 1, w[..x + 1]);
    at := before + [|w| - 1];
  }

  /** Every walk from the root to the vulnerable package traverses the whole approved path in order. */
  lemma EveryWalkFollowsTheApprovedPath(m: Metadata, path: seq<Approved>, ids: seq<Id>, w: seq<Id>)
    requires PolicyPath(path) && WellFormed(m) && Approves(m, path, ids)
    requires IsWalk(GraphOf(m), w, m.root, Last(ids))
    ensures exists at :: OccursInOrder(w, ids, at)
  {
    ApprovedPathIsTight(m, path, ids);
    var at := OrderUpTo(GraphOf(m), m.root, ids, |ids| - 1, w);
    assert ids[..|ids|] == ids;
  }

  /** The graph after `d` is struck from every dependency list. */
  ghost function Cut(g: Graph, d: Id): Graph {
    map x | x in g :: g[x] - {d}
  }

  lemma CutWalksAvoid(g: Graph, d: Id, w: seq<Id>, a: Id, b: Id)
    requires IsWalk(Cut(g, d), w, a, b) && a != d
    ensures IsWalk(g, w, a, b) && d !in w
  {
    forall x | 0 <= x < |w| ensures w[x] != d {
      if x > 0 { assert w[x - 1] in Cut(g, d) && w[x - 1 + 1] in Cut(g, d)[w[x - 1]]; }
    }
  }

  /** Striking any one approved package from the dependency lists disconnects the vulnerable package. */
  lemma CuttingAnApprovedPackageDisconnects(m: Metadata, path: seq<Approved>, ids: seq<Id>, k: nat)
    requires PolicyPath(path) && WellFormed(m) && Approves(m, path, ids) && k < |ids| - 1 && ids[k] != m.root
    ensures !Reaches(Cut(GraphOf(m), ids[k]), m.root, Last(ids), None)
  {
    var g, last := GraphOf(m), Last(ids);
    if w :| IsWalk(Cut(g, ids[k]), w, m.root, last) {
      CutWalksAvoid(g, ids[k], w, m.root, last);
      assert false;
    }
  }
}
