/** The worklist that finds every local package a manifest depends on.

    The file system is a finite graph: for each manifest file, the package directory it
    lies in (relative to the repository, if inside it) and the dependencies it names. */
module DependencyRoots {
  import opened Options

  type Manifest = string

  /** A dependency by path leads to a manifest, or to a place that has none; any other
      dependency is not followed. */
  datatype Dependency = NotLocal | NoManifest(path: string) | Local(manifest: Manifest)

  /** The dependencies are absent when the file cannot be read as a manifest. */
  datatype Node = Node(root: Option<string>, named: Option<seq<Dependency>>) {
    function Dependencies(): seq<Dependency> {
      named.GetOr([])
    }
  }

  type Graph = map<Manifest, Node>

  datatype DependencyError =
    | OutsideRepository(manifest: Manifest) | MissingManifest(path: string) | Unreadable(manifest: Manifest)

  /** A dependency that leads to a manifest leads to a file. */
  ghost predicate IsGraph(graph: Graph) {
    forall m, d | m in graph && d in graph[m].Dependencies() && d.Local? :: d.manifest in graph
  }

  ghost predicate DependsOn(graph: Graph, a: Manifest, b: Manifest) {
    a in graph && Local(b) in graph[a].Dependencies()
  }

  ghost predicate IsPath(graph: Graph, path: seq<Manifest>) {
    path != [] && forall i | 0 < i < |path| :: DependsOn(graph, path[i - 1], path[i])
  }

  ghost predicate Reaches(graph: Graph, a: Manifest, b: Manifest) {
    exists path :: IsPath(graph, path) && path[0] == a && path[|path| - 1] == b
  }

  /** The package is inside the repository, its manifest can be read, and every path it names
      has a manifest. */
  ghost predicate IsGood(graph: Graph, m: Manifest) {
    && m in graph && graph[m].root.Some? && graph[m].named.Some?
    && forall d | d in graph[m].Dependencies() :: !d.NoManifest?
  }

  lemma ReachesItself(graph: Graph, a: Manifest)
    ensures Reaches(graph, a, a)
  {
    assert IsPath(graph, [a]);
  }

  lemma ReachesNext(graph: Graph, a: Manifest, b: Manifest, c: Manifest)
    requires Reaches(graph, a, b) && DependsOn(graph, b, c)
    ensures Reaches(graph, a, c)
  {
    var path :| IsPath(graph, path) && path[0] == a && path[|path| - 1] == b;
    assert IsPath(graph, path + [c]);
  }

  /** A set that contains the start and what its members depend on contains every manifest
      that the start reaches. */
  lemma {:induction false} ClosedSetHoldsPath(graph: Graph, closed: set<Manifest>, path: seq<Manifest>, n: nat)
    requires IsPath(graph, path) && path[0] in closed && n < |path|
    requires forall a, b | a in closed && DependsOn(graph, a, b) :: b in closed
    ensures path[n] in closed
  {
    if n > 0 {
      ClosedSetHoldsPath(graph, closed, path, n - 1);
      assert DependsOn(graph, path[n - 1], path[n]);
    }
  }

  lemma ClosedSetHoldsReached(graph: Graph, closed: set<Manifest>, a: Manifest, b: Manifest)
    requires a in closed && Reaches(graph, a, b)
    requires forall a, b | a in closed && DependsOn(graph, a, b) :: b in closed
    ensures b in closed
  {
    var path :| IsPath(graph, path) && path[0] == a && path[|path| - 1] == b;
    ClosedSetHoldsPath(graph, closed, path, |path| - 1);
  }

  function RootsOf(graph: Graph, manifests: set<Manifest>): set<string> {
    set m | m in manifests && m in graph && graph[m].root.Some? :: graph[m].root.value
  }

  /** Queue the manifests that one package depends on. */
  method QueueDependencies(graph: Graph, m: Manifest, before: seq<Manifest>)
    returns (queue: seq<Manifest>, missing: Option<string>)
    requires m in graph
    ensures missing.Some? <==> exists d :: d in graph[m].Dependencies() && d.NoManifest?
    ensures missing.None? ==> before <= queue
    ensures missing.None? ==>
      forall x :: x in queue <==> x in before || DependsOn(graph, m, x)
  {
    queue := before;
    var dependencies := graph[m].Dependencies();
    for i := 0 to |dependencies|
      invariant before <= queue
      invariant forall x :: x in queue <==> x in before || Local(x) in dependencies[..i]
      invariant forall d | d in dependencies[..i] :: !d.NoManifest?
    {
      var d := dependencies[i];
      assert d in dependencies;
      if d.NoManifest? { return queue, Some(d.path); }
      if d.Local? {
        queue := queue + [d.manifest];
      }
    }
    assert dependencies[..|dependencies|] == dependencies;
    missing := None;
  }

  /** The search ends on every finite graph, cycles included. It succeeds exactly when
      every manifest it reaches is good, and then returns exactly their directories. */
  method FindRoots(graph: Graph, initial: Manifest) returns (found: Result<set<string>, DependencyError>)
    requires IsGraph(graph)
    ensures found.Ok? <==> forall m | Reaches(graph, initial, m) :: IsGood(graph, m)
    ensures found.Ok? ==>
      forall root :: root in found.value <==>
        exists m :: Reaches(graph, initial, m) && m in graph && graph[m].root == Some(root)
  {
    var queue := [initial];
    var visited: set<Manifest> := {};
    var roots: set<string> := {};
    ReachesItself(graph, initial);
    while queue != []
      invariant visited <= graph.Keys && forall m | m in queue :: m in graph || m == initial
      invariant forall m | m in visited || m in queue :: Reaches(graph, initial, m)
      invariant initial in visited || initial in queue
      invariant forall a, b | a in visited && DependsOn(graph, a, b) :: b in visited || b in queue
      invariant forall m | m in visited :: IsGood(graph, m)
      invariant roots == RootsOf(graph, visited)
      decreases graph.Keys - visited, |queue|
    {
      var m := queue[0];
      ghost var before := queue;
      queue := queue[1..];
      assert before == [m] + queue;
      if m !in visited {
        if m !in graph {
          assert Reaches(graph, initial, m) && !IsGood(graph, m);
          return Err(Unreadable(m));
        }
        visited := visited + {m};
        if graph[m].root.None? {
          assert Reaches(graph, initial, m) && !IsGood(graph, m);
          return Err(OutsideRepository(m));
        }
        roots := roots + {graph[m].root.value};
        if graph[m].named.None? {
          assert Reaches(graph, initial, m) && !IsGood(graph, m);
          return Err(Unreadable(m));
        }
        var rest, missing := QueueDependencies(graph, m, queue);
        if missing.Some? {
          assert Reaches(graph, initial, m) && !IsGood(graph, m);
          return Err(MissingManifest(missing.value));
        }
        forall x | DependsOn(graph, m, x) ensures Reaches(graph, initial, x) {
          ReachesNext(graph, initial, m, x);
        }
        queue := rest;
      }
    }
    forall m | Reaches(graph, initial, m) ensures m in visited {
      ClosedSetHoldsReached(graph, visited, initial, m);
    }
    found := Ok(roots);
  }
}
