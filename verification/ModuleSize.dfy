/**
 The module-size gate's classification and limits (scripts/check-rust-module-size.py,
 `inspect`), over module declarations already read from the masked sources.
 */
module ModuleSize {

  /** The components of a path below the source directory. */
  type Path = seq<string>

  /** A `mod name;` declaration: the file it names, and whether it stands under `cfg(test)`. */
  datatype Edge = Edge(module_: Path, testOnly: bool)
  type Edges = map<Path, seq<Edge>>

  /** What `inspect` asks of a file's text. */
  datatype File = File(path: Path, lines: nat, suppresses: bool)

  datatype Finding = TestTooLong(path: Path) | ProductionTooLong(path: Path) | Suppression(path: Path)

  const ROOTS: seq<Path> := [["main.rs"], ["lib.rs"]]

  function EdgesOf(edges: Edges, path: Path): seq<Edge> {
    if path in edges then edges[path] else []
  }

  // ---------------------------------------------------------------- production

  ghost predicate Declares(edges: Edges, from: Path, to: Path) {
    exists i :: 0 <= i < |EdgesOf(edges, from)| && EdgesOf(edges, from)[i] == Edge(to, false)
  }

  /** A chain of non-test declarations from a crate root. */
  ghost predicate Chain(edges: Edges, c: seq<Path>) {
    c != [] && c[0] in ROOTS && forall i :: 0 <= i < |c| - 1 ==> Declares(edges, c[i], c[i + 1])
  }

  /** The crate reaches the file through declarations of production code only. */
  ghost predicate Production(edges: Edges, path: Path) {
    exists c :: Chain(edges, c) && c[|c| - 1] == path
  }

  lemma RootsAreProduction(edges: Edges, path: Path)
    requires path in ROOTS
    ensures Production(edges, path)
  {
    assert Chain(edges, [path]) && [path][|[path]| - 1] == path;
  }

  lemma DeclaredByProduction(edges: Edges, from: Path, to: Path)
    requires Production(edges, from) && Declares(edges, from, to)
    ensures Production(edges, to)
  {
    hide Declares;
    var c :| Chain(edges, c) && c[|c| - 1] == from;
    var longer := c + [to];
    assert Chain(edges, longer) && longer[|longer| - 1] == to;
  }

  lemma {:induction false} ClosedSetHoldsTheChain(edges: Edges, closed: set<Path>, c: seq<Path>)
    requires Chain(edges, c) && (forall root :: root in ROOTS ==> root in closed)
    requires forall from, to :: from in closed && Declares(edges, from, to) ==> to in closed
    ensures c[|c| - 1] in closed
  {
    hide Declares;
    if |c| > 1 {
      ClosedSetHoldsTheChain(edges, closed, c[..|c| - 1]);
      assert Declares(edges, c[|c| - 2], c[|c| - 1]);
    }
  }

  ghost function Declared(edges: Edges): set<Path> {
    (set root | root in ROOTS) + (set path, i | path in edges && 0 <= i < |edges[path]| :: edges[path][i].module_)
  }

  /** The non-test modules a file declares, in order. */
  method ProductionModules(edges: Edges, path: Path) returns (modules: seq<Path>)
    ensures forall to :: to in modules <==> Declares(edges, path, to)
    ensures forall to :: to in modules ==> to in Declared(edges)
  {
    modules := [];
    var declarations := EdgesOf(edges, path);
    for i := 0 to |declarations|
      invariant forall to :: to in modules <==> exists j :: 0 <= j < i && declarations[j] == Edge(to, false)
      invariant forall to :: to in modules ==> to in Declared(edges)
    {
      if !declarations[i].testOnly {
        assert path in edges && edges[path][i].module_ in Declared(edges);
        modules := modules + [declarations[i].module_];
      }
    }
  }

  /** The worklist: exactly the files production code reaches. */
  method FindProduction(edges: Edges) returns (production: set<Path>)
    ensures forall path :: path in production <==> Production(edges, path)
  {
    hide Production, Declares, Declared;
    production := {};
    var pending := ROOTS;
    RootsAreDeclared(edges);
    while pending != []
      invariant forall path :: path in pending || path in production ==>
                  Production(edges, path) && path in Declared(edges)
      invariant forall root :: root in ROOTS ==> root in production || root in pending
      invariant forall from, to :: from in production && Declares(edges, from, to) ==> to in production || to in pending
      decreases Declared(edges) - production, |pending|
    {
      var path := pending[|pending| - 1];
      ghost var before := pending;
      pending := pending[..|pending| - 1];
      assert before == pending + [path];
      if path in production { continue; }
      production := production + {path};
      var modules := ProductionModules(edges, path);
      forall to | to in modules ensures Production(edges, to) { DeclaredByProduction(edges, path, to); }
      pending := pending + modules;
    }
    forall path | Production(edges, path) ensures path in production { ProductionIsCaught(edges, production, path); }
  }

  lemma RootsAreDeclared(edges: Edges)
    ensures forall root :: root in ROOTS ==> root in Declared(edges) && Production(edges, root)
  {
    forall root | root in ROOTS ensures Production(edges, root) { RootsAreProduction(edges, root); }
  }

  lemma ProductionIsCaught(edges: Edges, closed: set<Path>, path: Path)
    requires Production(edges, path) && (forall root :: root in ROOTS ==> root in closed)
    requires forall from, to :: from in closed && Declares(edges, from, to) ==> to in closed
    ensures path in closed
  {
    hide Declares;
    var c :| Chain(edges, c) && c[|c| - 1] == path;
    ClosedSetHoldsTheChain(edges, closed, c);
  }

  // ---------------------------------------------------------------- test modules

  /** The place of a name's last dot, or -1. */
  function LastDot(name: string): (i: int)
    ensures -1 <= i < |name| && (i >= 0 ==> name[i] == '.') && forall k :: i < k < |name| ==> name[k] != '.'
  {
    if name == "" then -1 else if name[|name| - 1] == '.' then |name| - 1 else LastDot(name[..|name| - 1])
  }

  /** A file name without its suffix. */
  function Stem(name: string): string {
    if 0 < LastDot(name) < |name| - 1 then name[..LastDot(name)] else name
  }

  /** The directory whose files belong to a module. */
  function Tree(path: Path): Path
    requires path != []
  {
    var last := path[|path| - 1];
    if last == "mod.rs" then path[..|path| - 1] else path[..|path| - 1] + [Stem(last)]
  }

  /** The tree of `mod.rs` is its directory, and that of `name.rs` the directory of that name beside it. */
  lemma TreesAre(dir: Path, name: string)
    ensures Tree(dir + ["mod.rs"]) == dir
    ensures name != "" && name != "mod" ==> Tree(dir + [name + ".rs"]) == dir + [name]
  {
    assert (dir + ["mod.rs"])[..|dir|] == dir && (dir + [name + ".rs"])[..|dir|] == dir;
    if name != "" && name != "mod" {
      SuffixDot(name);
      assert (name + ".rs")[..|name|] == name;
      assert "mod" + ".rs" == "mod.rs";
      if name + ".rs" == "mod" + ".rs" { SameStem(name, "mod"); }
    }
  }

  lemma SameStem(a: string, b: string)
    requires a + ".rs" == b + ".rs"
    ensures a == b
  {
    assert a == (a + ".rs")[..|a + ".rs"| - 3] == (b + ".rs")[..|b + ".rs"| - 3] == b;
  }

  lemma SuffixDot(name: string)
    ensures LastDot(name + ".rs") == |name|
  {
    var s := name + ".rs";
    assert s[|name|] == '.' && s[|name| + 1] == 'r' && s[|name| + 2] == 's';
  }

  ghost predicate TestDeclared(edges: Edges, path: Path) {
    exists from, i :: from in edges && 0 <= i < |edges[from]| && edges[from][i] == Edge(path, true)
  }

  /** Some `cfg(test)` declaration names the file, or a module whose directory holds it. */
  ghost predicate TestModule(edges: Edges, path: Path) {
    TestDeclared(edges, path) || exists named :: named != [] && TestDeclared(edges, named) && Tree(named) < path
  }

  /** The files `inspect` holds to the test limit only. */
  ghost predicate Exempt(edges: Edges, path: Path) {
    !Production(edges, path) && TestModule(edges, path)
  }

  /** Every file a `cfg(test)` declaration names. */
  method FindTestDeclared(edges: Edges) returns (named: set<Path>)
    ensures forall path :: path in named <==> TestDeclared(edges, path)
  {
    named := {};
    var left := edges.Keys;
    while left != {}
      invariant left <= edges.Keys
      invariant forall path :: path in named <==>
                  exists from, i :: from in edges && from !in left && 0 <= i < |edges[from]|
                      && edges[from][i] == Edge(path, true)
      decreases left
    {
      var from :| from in left;
      var more := TestModules(edges[from]);
      left := left - {from};
      named := named + more;
    }
  }

  method TestModules(declarations: seq<Edge>) returns (named: set<Path>)
    ensures forall path :: path in named <==> exists i :: 0 <= i < |declarations| && declarations[i] == Edge(path, true)
  {
    named := {};
    for i := 0 to |declarations|
      invariant forall path :: path in named <==> exists j :: 0 <= j < i && declarations[j] == Edge(path, true)
    {
      if declarations[i].testOnly { named := named + {declarations[i].module_}; }
    }
  }

  // ---------------------------------------------------------------- the limits

  /** What one file must satisfy. */
  ghost predicate Fits(edges: Edges, file: File) {
    file.lines < 1000 && (file.suppresses ==> Exempt(edges, file.path))
  }

  /** A file's errors, in the order they are reported. */
  function ErrorsOf(file: File, exempt: bool): seq<Finding> {
    if exempt then (if file.lines >= 1000 then [TestTooLong(file.path)] else [])
    else (if file.lines >= 1000 then [ProductionTooLong(file.path)] else []) +
           (if file.suppresses then [Suppression(file.path)] else [])
  }

  ghost function AllErrors(edges: Edges, files: seq<File>): seq<Finding> {
    if files == [] then []
    else AllErrors(edges, files[..|files| - 1]) + ErrorsOf(files[|files| - 1], Exempt(edges, files[|files| - 1].path))
  }

  lemma InATestTree(edges: Edges, named: set<Path>, trees: set<Path>, path: Path)
    requires (forall p :: p in named <==> TestDeclared(edges, p)) && trees == set p | p in named && p != [] :: Tree(p)
    ensures (exists tree :: tree in trees && tree < path) <==>
              exists p :: p != [] && TestDeclared(edges, p) && Tree(p) < path
  {
    hide TestDeclared, Tree;
    if tree :| tree in trees && tree < path {
      var p :| p in named && p != [] && Tree(p) == tree;
      assert TestDeclared(edges, p) && Tree(p) < path;
    }
    if p :| p != [] && TestDeclared(edges, p) && Tree(p) < path {
      assert p in named && Tree(p) in trees;
    }
  }

  /** `inspect`'s errors, over the files in path order. */
  method Inspect(edges: Edges, files: seq<File>) returns (errors: seq<Finding>)
    ensures errors == AllErrors(edges, files)
  {
    hide Production, TestDeclared, Tree, ErrorsOf;
    var named := FindTestDeclared(edges);
    var trees := set path | path in named && path != [] :: Tree(path);
    var production := FindProduction(edges);
    errors := [];
    for i := 0 to |files|
      invariant errors == AllErrors(edges, files[..i])
    {
      var path := files[i].path;
      var inTree := exists tree :: tree in trees && tree < path;
      InATestTree(edges, named, trees, path);
      assert files[..i + 1][..i] == files[..i];
      errors := errors + ErrorsOf(files[i], path !in production && (path in named || inTree));
    }
    assert files[..|files|] == files;
  }

  lemma FitsHasNoErrors(edges: Edges, file: File)
    ensures ErrorsOf(file, Exempt(edges, file.path)) == [] <==> Fits(edges, file)
  {
  }

  /** The gate is clean exactly when every file fits its limit and no production file suppresses the lints. */
  lemma {:induction false} CleanMeansEveryFileFits(edges: Edges, files: seq<File>)
    ensures AllErrors(edges, files) == [] <==> forall i :: 0 <= i < |files| ==> Fits(edges, files[i])
  {
    hide Exempt, Fits, ErrorsOf;
    if files != [] {
      var n := |files| - 1;
      CleanMeansEveryFileFits(edges, files[..n]);
      FitsHasNoErrors(edges, files[n]);
      assert forall i :: 0 <= i < n ==> files[..n][i] == files[i];
    }
  }

  ghost predicate TooLong(files: seq<File>, path: Path) {
    exists f :: f in files && f.path == path && f.lines >= 1000
  }

  ghost predicate Suppresses(files: seq<File>, path: Path) {
    exists f :: f in files && f.path == path && f.suppresses
  }

  lemma OneFileErrors(file: File, exempt: bool, path: Path)
    ensures TestTooLong(path) in ErrorsOf(file, exempt) <==> file.path == path && exempt && file.lines >= 1000
    ensures ProductionTooLong(path) in ErrorsOf(file, exempt) <==> file.path == path && !exempt && file.lines >= 1000
    ensures Suppression(path) in ErrorsOf(file, exempt) <==> file.path == path && !exempt && file.suppresses
  {
  }

  lemma OneMoreFile(files: seq<File>, n: nat, path: Path)
    requires n + 1 == |files|
    ensures TooLong(files, path) <==> TooLong(files[..n], path) || (files[n].path == path && files[n].lines >= 1000)
    ensures Suppresses(files, path) <==> Suppresses(files[..n], path) || (files[n].path == path && files[n].suppresses)
  {
    assert forall f :: f in files <==> f in files[..n] || f == files[n];
  }

  /** The errors name exactly the files that break a rule, and which rule. */
  lemma {:induction false} ErrorsExactly(edges: Edges, files: seq<File>, path: Path)
    ensures TestTooLong(path) in AllErrors(edges, files) <==> Exempt(edges, path) && TooLong(files, path)
    ensures ProductionTooLong(path) in AllErrors(edges, files) <==> !Exempt(edges, path) && TooLong(files, path)
    ensures Suppression(path) in AllErrors(edges, files) <==> !Exempt(edges, path) && Suppresses(files, path)
  {
    hide Exempt, ErrorsOf;
    if files != [] {
      var n := |files| - 1;
      ErrorsExactly(edges, files[..n], path);
      hide TooLong, Suppresses;
      OneMoreFile(files, n, path);
      OneFileErrors(files[n], Exempt(edges, files[n].path), path);
    }
  }

  /** Declaring a file under `cfg(test)` as well does not exempt code the crate reaches. */
  lemma ReachedCodeIsNeverExempt(edges: Edges, files: seq<File>, c: seq<Path>, i: nat)
    requires Chain(edges, c) && i < |files| && files[i].path == c[|c| - 1] && AllErrors(edges, files) == []
    ensures files[i].lines < 1000 && !files[i].suppresses
  {
    CleanMeansEveryFileFits(edges, files);
    assert Production(edges, files[i].path);
    assert Fits(edges, files[i]);
  }
}
