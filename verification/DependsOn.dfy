/** The depends_on check of backwards/pipeline.go: reference errors first, then a
    three-colour depth-first search over a colour map. */
module DependsOn {
  import opened Runs

  datatype Job = Job(name: string, dependsOn: seq<string>)

  datatype DependsError =
    | Unknown(job: string, dep: string)
    | Itself(job: string)
    | Circular(from: string, to: string)

  type Graph = map<string, seq<string>>

  // ------------------------------------------------------------------- graphs

  predicate Edge(g: Graph, a: string, b: string) { a in g && b in g[a] }

  ghost predicate Chain(g: Graph, nodes: seq<string>) {
    forall i :: 0 < i < |nodes| ==> Edge(g, nodes[i - 1], nodes[i])
  }

  ghost predicate Cycle(g: Graph, nodes: seq<string>) {
    |nodes| > 0 && Chain(g, nodes) && Edge(g, nodes[|nodes| - 1], nodes[0])
  }

  ghost predicate Acyclic(g: Graph) { forall nodes :: !Cycle(g, nodes) }

  /** `from` depends on `to`, and a chain of dependencies leads from `to` back to it. */
  ghost predicate OnCycle(g: Graph, from: string, to: string) {
    exists nodes :: Cycle(g, nodes) && nodes[0] == to && nodes[|nodes| - 1] == from
  }

  ghost predicate Distinct(s: seq<string>) { forall i, j :: 0 <= i < j < |s| ==> s[i] != s[j] }

  /** Every node comes after everything it depends on. */
  ghost predicate Topological(g: Graph, order: seq<string>) {
    && Distinct(order)
    && forall i :: 0 <= i < |order| ==> order[i] in g && Covered(g[order[i]], order[..i])
  }

  ghost predicate Covered(deps: seq<string>, order: seq<string>) { forall d :: d in deps ==> d in order }

  predicate Closed(g: Graph) { forall n, d :: n in g && d in g[n] ==> d in g }

  /** Along a chain inside a topological order positions go down. */
  lemma {:induction false} ChainDescends(g: Graph, order: seq<string>, nodes: seq<string>, start: nat)
    requires Topological(g, order) && Chain(g, nodes) && |nodes| > 0
    requires start < |order| && order[start] == nodes[0]
    ensures exists end :: 0 <= end < |order| && order[end] == nodes[|nodes| - 1] && end <= start - (|nodes| - 1)
    decreases |nodes|
  {
    if |nodes| == 1 {
      assert order[start] == nodes[|nodes| - 1];
    } else {
      assert Edge(g, nodes[0], nodes[1]);
      assert nodes[1] in order[..start];
      var next :| 0 <= next < start && order[next] == nodes[1];
      var rest := nodes[1..];
      assert forall i :: 0 < i < |rest| ==> rest[i - 1] == nodes[i] && rest[i] == nodes[i + 1];
      ChainDescends(g, order, rest, next);
    }
  }

  /** A graph with a topological order of all its nodes has no cycle. */
  lemma OrderedIsAcyclic(g: Graph, order: seq<string>)
    requires Topological(g, order) && forall n :: n in g ==> n in order
    ensures Acyclic(g)
  {
    forall nodes ensures !Cycle(g, nodes) {
      if Cycle(g, nodes) {
        var last := nodes[|nodes| - 1];
        assert last in g && nodes[0] in g[last];
        var at :| 0 <= at < |order| && order[at] == last;
        assert nodes[0] in order[..at];
        var start :| 0 <= start < at && order[start] == nodes[0];
        ChainDescends(g, order, nodes, start);
        assert false;
      }
    }
  }

  // ---------------------------------------------------------------- the search

  datatype Color = Gray | Black

  type Colors = map<string, Color>

  /** `path` are the gray nodes, outermost first, `finished` the black ones in finish
      order; a node without a colour is white. */
  ghost predicate Searching(g: Graph, color: Colors, path: seq<string>, finished: seq<string>) {
    && Closed(g) && color.Keys <= g.Keys
    && (forall n :: n in path <==> n in color && color[n].Gray?)
    && (forall n :: n in finished <==> n in color && color[n].Black?)
    && Distinct(path) && Chain(g, path)
    && Topological(g, finished)
  }

  lemma EnterKeeps(g: Graph, color: Colors, path: seq<string>, finished: seq<string>, name: string)
    requires Searching(g, color, path, finished) && name in g && name !in color
    requires path != [] ==> Edge(g, path[|path| - 1], name)
    ensures Searching(g, color[name := Gray], path + [name], finished)
  {
  }

  lemma LeaveKeeps(g: Graph, color: Colors, path: seq<string>, finished: seq<string>, name: string)
    requires Searching(g, color, path + [name], finished) && name in color && Covered(g[name], finished)
    ensures Searching(g, color[name := Black], path, finished + [name])
  {
    assert name in path + [name];
    assert (path + [name])[|path|] == name;
    assert forall n :: n in path + [name] <==> n in path || n == name;
    assert forall i :: 0 <= i < |path| ==> (path + [name])[i] == path[i];
    assert name !in path && name !in finished;
    forall i | 0 < i < |path| ensures Edge(g, path[i - 1], path[i]) {
      assert (path + [name])[i - 1] == path[i - 1] && (path + [name])[i] == path[i];
    }
    var order := finished + [name];
    forall i | 0 <= i < |order| ensures order[i] in g && Covered(g[order[i]], order[..i]) {
      if i < |finished| {
        assert order[..i] == finished[..i];
      } else {
        assert order[..i] == finished;
      }
    }
    assert forall i, j :: 0 <= i < j < |path| ==> (path + [name])[i] != (path + [name])[j];
  }

  lemma GrayEdgeClosesCycle(g: Graph, path: seq<string>, name: string, dep: string)
    requires path != [] && path[|path| - 1] == name && dep in path && Chain(g, path) && Edge(g, name, dep)
    ensures OnCycle(g, name, dep)
  {
    var k :| 0 <= k < |path| && path[k] == dep;
    var nodes := path[k..];
    forall i | 0 < i < |nodes| ensures Edge(g, nodes[i - 1], nodes[i]) {
      assert nodes[i - 1] == path[k + i - 1] && nodes[i] == path[k + i];
    }
    assert Cycle(g, nodes);
  }

  /** The closure `visit` with the variables it captures. */
  class Search {
    const adj: Graph
    var color: Colors
    ghost var path: seq<string>
    ghost var finished: seq<string>

    ghost predicate Valid()
      reads this
    {
      Searching(adj, color, path, finished)
    }

    constructor (adj: Graph)
      requires Closed(adj)
      ensures Valid() && this.adj == adj && path == [] && finished == [] && color == map[]
    {
      this.adj, color, path, finished := adj, map[], [], [];
    }

    /** Every call colours one more white node, so the search ends. Success leaves the
        gray path alone and finishes the node; an error names an edge of a real cycle
        through gray nodes. */
    method Visit(name: string) returns (err: Option<DependsError>)
      requires Valid() && name in adj && name !in color
      requires path != [] ==> Edge(adj, path[|path| - 1], name)
      modifies this
      ensures err.None? ==> Valid() && path == old(path) && name in finished && old(finished) <= finished
      ensures old(color.Keys) <= color.Keys
      ensures err.Some? ==> err.value.Circular? && OnCycle(adj, err.value.from, err.value.to)
      decreases adj.Keys - color.Keys
    {
      EnterKeeps(adj, color, path, finished, name);
      color := color[name := Gray];
      path := path + [name];
      for k := 0 to |adj[name]|
        invariant Valid() && path == old(path) + [name]
        invariant old(finished) <= finished && old(color.Keys) + {name} <= color.Keys
        invariant forall l :: 0 <= l < k ==> adj[name][l] in finished
      {
        var dep := adj[name][k];
        assert Edge(adj, name, dep);
        if dep in color && color[dep].Gray? {
          GrayEdgeClosesCycle(adj, path, name, dep);
          return Some(Circular(name, dep));
        }
        if dep !in color {
          err := Visit(dep);
          if err.Some? {
            return;
          }
        }
      }
      LeaveKeeps(adj, color, old(path), finished, name);
      color := color[name := Black];
      path := old(path);
      finished := finished + [name];
      err := None;
    }
  }

  // ---------------------------------------------------------- the validation

  /** Later entries of one name replace earlier ones. */
  function Adjacency(jobs: seq<Job>): Graph {
    if jobs == [] then map[]
    else
      var last := jobs[|jobs| - 1];
      Adjacency(jobs[..|jobs| - 1])[last.name := last.dependsOn]
  }

  predicate Named(jobs: seq<Job>, name: string) { exists j :: j in jobs && j.name == name }

  predicate GoodReference(jobs: seq<Job>, job: Job, dep: string) { Named(jobs, dep) && dep != job.name }

  ghost predicate GoodReferences(jobs: seq<Job>) {
    forall j, d :: j in jobs && d in j.dependsOn ==> GoodReference(jobs, j, d)
  }

  function ReferenceError(jobs: seq<Job>, job: Job, dep: string): DependsError {
    if !Named(jobs, dep) then Unknown(job.name, dep) else Itself(job.name)
  }

  /** The error belongs to the first bad reference, reading jobs and their lists in
      order. */
  ghost predicate FirstBadReference(jobs: seq<Job>, err: DependsError) {
    exists i, k :: 0 <= i < |jobs| && 0 <= k < |jobs[i].dependsOn| && BadAt(jobs, i, k, err)
  }

  ghost predicate BadAt(jobs: seq<Job>, i: nat, k: nat, err: DependsError)
    requires i < |jobs| && k < |jobs[i].dependsOn|
  {
    && !GoodReference(jobs, jobs[i], jobs[i].dependsOn[k])
    && err == ReferenceError(jobs, jobs[i], jobs[i].dependsOn[k])
    && (forall h, l :: 0 <= h < i && 0 <= l < |jobs[h].dependsOn| ==> GoodReference(jobs, jobs[h], jobs[h].dependsOn[l]))
    && (forall l :: 0 <= l < k ==> GoodReference(jobs, jobs[i], jobs[i].dependsOn[l]))
  }

  /** The job depends on a name that no job has, or on itself. */
  predicate Refuses(jobs: seq<Job>, j: Job, err: DependsError) {
    match err
    case Unknown(job, dep) => job == j.name && dep in j.dependsOn && forall k :: k in jobs ==> k.name != dep
    case Itself(job) => job == j.name && j.name in j.dependsOn
    case Circular(_, _) => false
  }

  lemma {:induction false} AdjacencyIs(jobs: seq<Job>)
    ensures forall n :: n in Adjacency(jobs) <==> Named(jobs, n)
    ensures forall n :: n in Adjacency(jobs) ==> exists j :: j in jobs && j.name == n && Adjacency(jobs)[n] == j.dependsOn
    decreases |jobs|
  {
    if jobs != [] {
      var last := jobs[|jobs| - 1];
      var before := jobs[..|jobs| - 1];
      AdjacencyIs(before);
      assert jobs == before + [last];
      forall n | Named(before, n) || n == last.name ensures Named(jobs, n) {
        if n == last.name {
          assert last in jobs;
        }
      }
    }
  }

  method CheckReferences(jobs: seq<Job>) returns (err: Option<DependsError>)
    ensures err.None? <==> GoodReferences(jobs)
    ensures err.None? <==>
              forall j, d :: j in jobs && d in j.dependsOn ==> d != j.name && exists k :: k in jobs && k.name == d
    ensures err.Some? ==> FirstBadReference(jobs, err.value)
    ensures err.Some? ==> exists j :: j in jobs && Refuses(jobs, j, err.value)
  {
    var names: set<string> := {};
    for i := 0 to |jobs|
      invariant forall n :: n in names <==> Named(jobs[..i], n)
    {
      assert jobs[..i + 1] == jobs[..i] + [jobs[i]];
      names := names + {jobs[i].name};
    }
    assert jobs[..|jobs|] == jobs;
    for i := 0 to |jobs|
      invariant forall h, l :: 0 <= h < i && 0 <= l < |jobs[h].dependsOn| ==> GoodReference(jobs, jobs[h], jobs[h].dependsOn[l])
    {
      for k := 0 to |jobs[i].dependsOn|
        invariant forall l :: 0 <= l < k ==> GoodReference(jobs, jobs[i], jobs[i].dependsOn[l])
      {
        var dep := jobs[i].dependsOn[k];
        if dep !in names {
          assert BadAt(jobs, i, k, Unknown(jobs[i].name, dep));
          assert jobs[i] in jobs && Refuses(jobs, jobs[i], Unknown(jobs[i].name, dep));
          return Some(Unknown(jobs[i].name, dep));
        }
        if dep == jobs[i].name {
          assert BadAt(jobs, i, k, Itself(jobs[i].name));
          assert jobs[i] in jobs && Refuses(jobs, jobs[i], Itself(jobs[i].name));
          return Some(Itself(jobs[i].name));
        }
      }
    }
    err := None;
  }

  lemma AdjacencyCloses(jobs: seq<Job>)
    requires GoodReferences(jobs)
    ensures Closed(Adjacency(jobs)) && forall k :: 0 <= k < |jobs| ==> jobs[k].name in Adjacency(jobs)
  {
    AdjacencyIs(jobs);
    forall k | 0 <= k < |jobs| ensures Named(jobs, jobs[k].name) {
      assert jobs[k] in jobs;
    }
  }

  lemma AllOrdered(jobs: seq<Job>, order: seq<string>)
    requires Topological(Adjacency(jobs), order) && forall k :: 0 <= k < |jobs| ==> jobs[k].name in order
    ensures Acyclic(Adjacency(jobs)) && forall j :: j in jobs ==> j.name in order
  {
    AdjacencyIs(jobs);
    OrderedIsAcyclic(Adjacency(jobs), order);
  }

  /** Accepted exactly when every reference names another known job and the dependency
      graph has no cycle; reference errors come first, and a cycle error names an edge of
      a real cycle. On success `order` is the finish order of the search. */
  method ValidateDependsOn(jobs: seq<Job>) returns (err: Option<DependsError>, ghost order: seq<string>)
    ensures err.None? <==> GoodReferences(jobs) && Acyclic(Adjacency(jobs))
    ensures err.Some? && !err.value.Circular? <==> !GoodReferences(jobs)
    ensures err.Some? && !err.value.Circular? ==> FirstBadReference(jobs, err.value)
    ensures err.Some? && err.value.Circular? ==> OnCycle(Adjacency(jobs), err.value.from, err.value.to)
    ensures err.None? ==> Topological(Adjacency(jobs), order) && forall j :: j in jobs ==> j.name in order
  {
    order := [];
    err := CheckReferences(jobs);
    if err.Some? {
      return;
    }
    var adj: Graph := map[];
    for i := 0 to |jobs|
      invariant adj == Adjacency(jobs[..i])
    {
      assert jobs[..i + 1][..i] == jobs[..i];
      adj := adj[jobs[i].name := jobs[i].dependsOn];
    }
    assert jobs[..|jobs|] == jobs;
    AdjacencyCloses(jobs);
    var search := new Search(adj);
    for i := 0 to |jobs|
      invariant search.adj == adj && search.Valid() && search.path == []
      invariant forall k :: 0 <= k < i ==> jobs[k].name in search.finished
    {
      if jobs[i].name !in search.color {
        err := search.Visit(jobs[i].name);
        if err.Some? {
          return;
        }
      }
    }
    order := search.finished;
    AllOrdered(jobs, order);
    err := None;
  }

  // ---------------------------------------------------------- duplicate names

  /** The graph the configuration spells out: every entry's own dependencies count. */
  predicate Declared(jobs: seq<Job>, a: string, b: string) {
    exists j :: j in jobs && j.name == a && b in j.dependsOn
  }

  ghost predicate UniqueNames(jobs: seq<Job>) {
    forall i, j :: 0 <= i < j < |jobs| ==> jobs[i].name != jobs[j].name
  }

  ghost predicate DeclaredCycle(jobs: seq<Job>, nodes: seq<string>) {
    && |nodes| > 0
    && (forall i :: 0 < i < |nodes| ==> Declared(jobs, nodes[i - 1], nodes[i]))
    && Declared(jobs, nodes[|nodes| - 1], nodes[0])
  }

  predicate IsLast(jobs: seq<Job>, i: nat) {
    i < |jobs| && forall k :: i < k < |jobs| ==> jobs[k].name != jobs[i].name
  }

  /** The last entry of a name lists every dependency that an earlier entry of it lists. */
  ghost predicate LastListsAll(jobs: seq<Job>) {
    forall i, j :: 0 <= i < j < |jobs| && jobs[i].name == jobs[j].name && IsLast(jobs, j) ==>
      Covered(jobs[i].dependsOn, jobs[j].dependsOn)
  }

  lemma {:induction false} LastEntry(jobs: seq<Job>, i: nat) returns (j: nat)
    requires i < |jobs|
    ensures i <= j < |jobs| && jobs[j].name == jobs[i].name && IsLast(jobs, j)
    decreases |jobs| - i
  {
    if IsLast(jobs, i) {
      j := i;
    } else {
      var k :| i < k < |jobs| && jobs[k].name == jobs[i].name;
      j := LastEntry(jobs, k);
    }
  }

  lemma {:induction false} LastEntryCounts(jobs: seq<Job>, j: nat)
    requires IsLast(jobs, j)
    ensures jobs[j].name in Adjacency(jobs) && Adjacency(jobs)[jobs[j].name] == jobs[j].dependsOn
    decreases |jobs|
  {
    var before := jobs[..|jobs| - 1];
    if j < |before| {
      assert forall k :: j < k < |before| ==> before[k] == jobs[k];
      LastEntryCounts(before, j);
    }
  }

  lemma SearchedEdges(jobs: seq<Job>, a: string, b: string)
    ensures Edge(Adjacency(jobs), a, b) ==> Declared(jobs, a, b)
    ensures LastListsAll(jobs) && Declared(jobs, a, b) ==> Edge(Adjacency(jobs), a, b)
  {
    AdjacencyIs(jobs);
    if LastListsAll(jobs) && Declared(jobs, a, b) {
      var i :| 0 <= i < |jobs| && jobs[i].name == a && b in jobs[i].dependsOn;
      var j := LastEntry(jobs, i);
      LastEntryCounts(jobs, j);
    }
  }

  /** The graph that is searched is the declared one exactly when the last entry of each
      name lists all its dependencies; distinct names are one way to have that. */
  lemma SearchedExactly(jobs: seq<Job>)
    ensures (forall a, b :: Declared(jobs, a, b) <==> Edge(Adjacency(jobs), a, b)) <==> LastListsAll(jobs)
    ensures UniqueNames(jobs) ==> LastListsAll(jobs)
  {
    forall a, b
      ensures Edge(Adjacency(jobs), a, b) ==> Declared(jobs, a, b)
      ensures LastListsAll(jobs) && Declared(jobs, a, b) ==> Edge(Adjacency(jobs), a, b)
    {
      SearchedEdges(jobs, a, b);
    }
    if forall a, b :: Declared(jobs, a, b) <==> Edge(Adjacency(jobs), a, b) {
      forall i, j | 0 <= i < j < |jobs| && jobs[i].name == jobs[j].name && IsLast(jobs, j)
        ensures Covered(jobs[i].dependsOn, jobs[j].dependsOn)
      {
        LastEntryCounts(jobs, j);
        assert jobs[i] in jobs;
        forall d | d in jobs[i].dependsOn ensures d in jobs[j].dependsOn {
          assert Declared(jobs, jobs[i].name, d);
        }
      }
    }
  }

  /** A cycle that is reported is always declared; when the last entry of each name lists
      all its dependencies, every declared cycle is found. */
  lemma SearchedCycles(jobs: seq<Job>)
    ensures forall nodes :: Cycle(Adjacency(jobs), nodes) ==> DeclaredCycle(jobs, nodes)
    ensures LastListsAll(jobs) ==> (Acyclic(Adjacency(jobs)) <==> forall nodes :: !DeclaredCycle(jobs, nodes))
  {
    forall a, b
      ensures Edge(Adjacency(jobs), a, b) ==> Declared(jobs, a, b)
      ensures LastListsAll(jobs) && Declared(jobs, a, b) ==> Edge(Adjacency(jobs), a, b)
    {
      SearchedEdges(jobs, a, b);
    }
    if LastListsAll(jobs) {
      forall nodes ensures DeclaredCycle(jobs, nodes) ==> Cycle(Adjacency(jobs), nodes) {
      }
    }
  }

  /** A second entry of one name replaces the first, and a cycle through the first is
      accepted. */
  lemma DuplicateNameHidesCycle(a: string, b: string)
    requires a != b
    ensures var jobs := [Job(a, [b]), Job(b, [a]), Job(a, [])];
            && Declared(jobs, a, b) && Declared(jobs, b, a)
            && GoodReferences(jobs) && Acyclic(Adjacency(jobs))
  {
    var jobs := [Job(a, [b]), Job(b, [a]), Job(a, [])];
    assert jobs[0] in jobs && jobs[1] in jobs && jobs[2] in jobs;
    assert Named(jobs, a) && Named(jobs, b);
    assert jobs[..2] == [jobs[0], jobs[1]] && jobs[..2][..1] == [jobs[0]] && [jobs[0]][..0] == [];
    var g := Adjacency(jobs);
    assert Adjacency([jobs[0]]) == map[a := [b]];
    assert Adjacency(jobs[..2]) == map[a := [b], b := [a]];
    assert g == map[a := [], b := [a]];
    var order := [a, b];
    assert order[..0] == [] && order[..1] == [a];
    assert Topological(g, order);
    OrderedIsAcyclic(g, order);
  }
}
