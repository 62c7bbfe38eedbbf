/** The file map: breadth-first search for connected files, and a place for every file. */
module FileComponents {
  import opened Prelude

  /** File paths; the order of ids stands for the locale order of the paths. */
  type Path = Id

  datatype Edge = Edge(source: Path, target: Path)

  /** Neighbours in insertion order, as a JavaScript Set keeps them. */
  type Adjacency = map<Path, seq<Path>>

  // ---------------------------------------------------------------- what connected means

  predicate Linked(edges: seq<Edge>, a: Path, b: Path) {
    exists e | e in edges :: (e.source == a && e.target == b) || (e.source == b && e.target == a)
  }

  predicate IsWalk(edges: seq<Edge>, walk: seq<Path>) {
    walk != [] && forall i | 0 <= i < |walk| - 1 :: Linked(edges, walk[i], walk[i + 1])
  }

  predicate Joins(edges: seq<Edge>, walk: seq<Path>, a: Path, b: Path) {
    IsWalk(edges, walk) && walk[0] == a && walk[|walk| - 1] == b
  }

  ghost predicate Connected(edges: seq<Edge>, a: Path, b: Path) {
    exists walk :: Joins(edges, walk, a, b)
  }

  lemma ConnectedSelf(edges: seq<Edge>, a: Path)
    ensures Connected(edges, a, a)
  {
    assert Joins(edges, [a], a, a);
  }

  lemma ConnectedStep(edges: seq<Edge>, a: Path, b: Path, c: Path)
    requires Connected(edges, a, b) && Linked(edges, b, c)
    ensures Connected(edges, a, c)
  {
    var walk :| Joins(edges, walk, a, b);
    assert Joins(edges, walk + [c], a, c);
  }

  lemma {:induction false} ConnectedTransitive(edges: seq<Edge>, a: Path, b: Path, c: Path)
    requires Connected(edges, a, b) && Connected(edges, b, c)
    ensures Connected(edges, a, c)
  {
    var one :| Joins(edges, one, a, b);
    var two :| Joins(edges, two, b, c);
    assert Joins(edges, one + two[1..], a, c);
  }

  function Backwards(walk: seq<Path>): seq<Path> {
    seq(|walk|, i requires 0 <= i < |walk| => walk[|walk| - 1 - i])
  }

  lemma ConnectedSymmetric(edges: seq<Edge>, a: Path, b: Path)
    requires Connected(edges, a, b)
    ensures Connected(edges, b, a)
  {
    var walk :| Joins(edges, walk, a, b);
    var back := Backwards(walk);
    forall i | 0 <= i < |back| - 1 ensures Linked(edges, back[i], back[i + 1]) {
      assert Linked(edges, walk[|walk| - 2 - i], walk[|walk| - 1 - i]);
    }
    assert Joins(edges, back, b, a);
  }

  ghost predicate Closed(edges: seq<Edge>, part: set<Path>) {
    forall a, b | a in part && Linked(edges, a, b) :: b in part
  }

  /** A walk never leaves a closed set. */
  lemma {:induction false} WalkStays(edges: seq<Edge>, part: set<Path>, walk: seq<Path>, n: nat)
    requires Closed(edges, part) && IsWalk(edges, walk) && walk[0] in part && n < |walk|
    ensures walk[n] in part
  {
    if n > 0 {
      WalkStays(edges, part, walk, n - 1);
      assert Linked(edges, walk[n - 1], walk[n - 1 + 1]);
    }
  }

  /** The group is the connectivity class of `root`, each member once. */
  ghost predicate IsClass(edges: seq<Edge>, group: seq<Path>, root: Path) {
    Distinct(group) && forall p: Path :: p in group <==> Connected(edges, root, p)
  }

  function Members(s: seq<Path>): set<Path> {
    set p | p in s
  }

  predicate Distinct<T(==)>(s: seq<T>) {
    forall i, j | 0 <= i < j < |s| :: s[i] != s[j]
  }

  lemma ClosedClass(edges: seq<Edge>, group: seq<Path>, root: Path)
    requires Distinct(group) && root in group && (forall p | p in group :: Connected(edges, root, p))
    requires Closed(edges, Members(group))
    ensures IsClass(edges, group, root)
  {
    forall p: Path | Connected(edges, root, p) ensures p in group {
      var walk :| Joins(edges, walk, root, p);
      WalkStays(edges, Members(group), walk, |walk| - 1);
    }
  }

  // ---------------------------------------------------------------- the search

  function Added(neighbours: seq<Path>, p: Path): seq<Path> {
    if p in neighbours then neighbours else neighbours + [p]
  }

  predicate Endpoints(paths: seq<Path>, edges: seq<Edge>) {
    forall e | e in edges :: e.source in paths && e.target in paths
  }

  ghost predicate IsAdjacency(paths: seq<Path>, edges: seq<Edge>, adjacency: Adjacency) {
    && (forall p :: p in adjacency <==> p in paths)
    && (forall a | a in adjacency :: Distinct(adjacency[a]))
    && (forall a, b | a in adjacency :: b in adjacency[a] <==> Linked(edges, a, b))
  }

  /** The optional chaining skips endpoints that have no entry. */
  function WithNeighbour(adjacency: Adjacency, a: Path, b: Path): Adjacency {
    if a in adjacency then adjacency[a := Added(adjacency[a], b)] else adjacency
  }

  method BuildAdjacency(paths: seq<Path>, edges: seq<Edge>) returns (adjacency: Adjacency)
    ensures IsAdjacency(paths, edges, adjacency)
  {
    hide IsAdjacency;
    EmptyAdjacency(paths);
    adjacency := map p | p in paths :: [];
    assert edges[..0] == [];
    var i := 0;
    while i < |edges|
      invariant 0 <= i <= |edges| && IsAdjacency(paths, edges[..i], adjacency)
    {
      var e := edges[i];
      LinkAdded(paths, edges[..i], adjacency, e);
      if e.source in adjacency {
        adjacency := adjacency[e.source := Added(adjacency[e.source], e.target)];
      }
      if e.target in adjacency {
        adjacency := adjacency[e.target := Added(adjacency[e.target], e.source)];
      }
      assert edges[..i + 1] == edges[..i] + [e];
      i := i + 1;
    }
    assert edges[..|edges|] == edges;
  }

  lemma EmptyAdjacency(paths: seq<Path>)
    ensures IsAdjacency(paths, [], map p | p in paths :: [])
  {}

  lemma LinkAdded(paths: seq<Path>, edges: seq<Edge>, adjacency: Adjacency, e: Edge)
    requires IsAdjacency(paths, edges, adjacency)
    ensures IsAdjacency(paths, edges + [e],
                        WithNeighbour(WithNeighbour(adjacency, e.source, e.target), e.target, e.source))
  {
    hide Linked;
    LinkedSnoc(edges, e);
    var grown := WithNeighbour(WithNeighbour(adjacency, e.source, e.target), e.target, e.source);
    forall a | a in grown
      ensures Distinct(grown[a])
      ensures forall b :: b in grown[a] <==>
                b in adjacency[a] || (e.source == a && e.target == b) || (e.source == b && e.target == a) {
      assert Distinct(adjacency[a]);
    }
  }

  lemma LinkedSnoc(edges: seq<Edge>, e: Edge)
    ensures forall a, b :: Linked(edges + [e], a, b) <==>
              Linked(edges, a, b) || (e.source == a && e.target == b) || (e.source == b && e.target == a)
  {}

  lemma LinkedInside(paths: seq<Path>, edges: seq<Edge>, a: Path, b: Path)
    requires Endpoints(paths, edges) && Linked(edges, a, b)
    ensures a in paths && b in paths && Linked(edges, b, a)
  {}

  lemma DistinctFits(s: seq<Path>, bound: set<Path>)
    requires Distinct(s) && forall p | p in s :: p in bound
    ensures |s| <= |bound|
  {
    DistinctCounts(s);
    assert Members(s) <= bound;
    SubsetFits(Members(s), bound);
  }

  lemma {:induction false} DistinctCounts(s: seq<Path>)
    requires Distinct(s)
    ensures |Members(s)| == |s|
  {
    if s != [] {
      var few, last := s[..|s| - 1], s[|s| - 1];
      DistinctCounts(few);
      assert s == few + [last];
      assert Members(s) == Members(few) + {last};
    }
  }

  lemma {:induction false} SubsetFits(a: set<Path>, b: set<Path>)
    requires a <= b
    ensures |a| <= |b|
  {
    if a != {} {
      var x :| x in a;
      SubsetFits(a - {x}, b - {x});
    }
  }

  /** The state of one search: `component` is finished, `queue` is still to be expanded. */
  ghost predicate Searching(paths: seq<Path>, edges: seq<Edge>, start: Path, before: set<Path>,
                            component: seq<Path>, queue: seq<Path>, visited: set<Path>)
  {
    && Distinct(component + queue)
    && (forall p :: p in visited <==> p in before || p in component + queue)
    && (forall p | p in component + queue :: p in paths && p !in before && Connected(edges, start, p))
    && start in component + queue
  }

  ghost predicate Expanded(edges: seq<Edge>, component: seq<Path>, visited: set<Path>) {
    forall a, b | a in component && Linked(edges, a, b) :: b in visited
  }

  lemma Discover(paths: seq<Path>, edges: seq<Edge>, start: Path, before: set<Path>,
                 component: seq<Path>, queue: seq<Path>, visited: set<Path>, current: Path, next: Path)
    requires Searching(paths, edges, start, before, component, queue, visited) && current in component + queue
    requires Linked(edges, current, next) && next in paths && next !in visited
    ensures Searching(paths, edges, start, before, component, queue + [next], visited + {next})
  {
    ConnectedStep(edges, start, current, next);
    assert component + (queue + [next]) == component + queue + [next];
  }

  /** One turn of the search: everything linked to `current` is visited afterwards. */
  method Expand(paths: seq<Path>, edges: seq<Edge>, adjacency: Adjacency, ghost start: Path, ghost before: set<Path>,
                ghost component: seq<Path>, queue: seq<Path>, visited: set<Path>, current: Path)
    returns (queue': seq<Path>, visited': set<Path>)
    requires Endpoints(paths, edges) && IsAdjacency(paths, edges, adjacency)
    requires Searching(paths, edges, start, before, component, queue, visited) && current in component
    ensures Searching(paths, edges, start, before, component, queue', visited') && visited <= visited'
    ensures forall b | Linked(edges, current, b) :: b in visited'
  {
    queue', visited' := queue, visited;
    var neighbours := if current in adjacency then adjacency[current] else [];
    var i := 0;
    while i < |neighbours|
      invariant 0 <= i <= |neighbours|
      invariant Searching(paths, edges, start, before, component, queue', visited') && visited <= visited'
      invariant forall k | 0 <= k < i :: neighbours[k] in visited'
    {
      var next := neighbours[i];
      if next !in visited' {
        assert Linked(edges, current, next);
        LinkedInside(paths, edges, current, next);
        Discover(paths, edges, start, before, component, queue', visited', current, next);
        queue', visited' := queue' + [next], visited' + {next};
      }
      i := i + 1;
    }
    assert current in paths;
  }

  /** The search from an unvisited path finds exactly its connectivity class. */
  method Search(paths: seq<Path>, edges: seq<Edge>, adjacency: Adjacency, start: Path, before: set<Path>)
    returns (component: seq<Path>, visited: set<Path>)
    requires Endpoints(paths, edges) && IsAdjacency(paths, edges, adjacency)
    requires start in paths && start !in before && Closed(edges, before)
    ensures IsClass(edges, component, start) && component != [] && component[0] == start
    ensures forall p | p in component :: p in paths && p !in before
    ensures forall p :: p in visited <==> p in before || p in component
    ensures Closed(edges, visited)
  {
    var queue := [start];
    component := [];
    visited := before + {start};
    ConnectedSelf(edges, start);
    ghost var bound := Members(paths);
    while queue != []
      invariant Searching(paths, edges, start, before, component, queue, visited) && Expanded(edges, component, visited)
      invariant (component + queue)[0] == start
      decreases |bound| - |component|
    {
      var current := queue[0];
      ghost var finished, all := component, component + queue;
      component, queue := component + [current], queue[1..];
      assert component + queue == all && component == all[..|component|];
      DistinctFits(component, bound);
      queue, visited := Expand(paths, edges, adjacency, start, before, component, queue, visited, current);
      assert forall a | a in component :: a in finished || a == current;
    }
    assert component + [] == component;
    SearchEnds(paths, edges, start, before, component, visited);
  }

  lemma SearchEnds(paths: seq<Path>, edges: seq<Edge>, start: Path, before: set<Path>, component: seq<Path>,
                   visited: set<Path>)
    requires Endpoints(paths, edges) && Closed(edges, before)
    requires Searching(paths, edges, start, before, component, [], visited) && Expanded(edges, component, visited)
    ensures IsClass(edges, component, start) && Closed(edges, visited)
  {
    assert component + [] == component;
    forall a, b | a in component && Linked(edges, a, b) ensures b in component {
      LinkedInside(paths, edges, a, b);
    }
    ClosedClass(edges, component, start);
  }

  // ---------------------------------------------------------------- all groups

  /** The groups are whole classes, pairwise disjoint, `components` the larger ones and `isolated` the singletons. */
  ghost predicate Grouped(edges: seq<Edge>, components: seq<seq<Path>>, isolated: seq<Path>, visited: set<Path>) {
    && (forall i | 0 <= i < |components| :: |components[i]| > 1 && IsClass(edges, components[i], components[i][0]))
    && (forall p | p in isolated :: IsClass(edges, [p], p))
    && (forall i, j, p | 0 <= i < j < |components| && p in components[i] :: p !in components[j])
    && Distinct(isolated)
    && (forall p :: p in visited <==> p in isolated || InSome(components, p))
    && (forall p | p in isolated :: !InSome(components, p))
  }

  /** The group was found from the member that comes first in the path list. */
  predicate Leads(paths: seq<Path>, group: seq<Path>) {
    group != [] && exists n | 0 <= n < |paths| :: paths[n] == group[0] && forall k | 0 <= k < n :: paths[k] !in group
  }

  predicate InSome(components: seq<seq<Path>>, p: Path) {
    exists i | 0 <= i < |components| :: p in components[i]
  }

  method FindGroups(paths: seq<Path>, edges: seq<Edge>, adjacency: Adjacency)
    returns (components: seq<seq<Path>>, isolated: seq<Path>)
    requires Endpoints(paths, edges) && IsAdjacency(paths, edges, adjacency)
    ensures Grouped(edges, components, isolated, Members(paths)) && (forall g | g in components :: Leads(paths, g))
  {
    hide IsClass, IsAdjacency;
    var visited: set<Path> := {};
    components, isolated := [], [];
    var i := 0;
    while i < |paths|
      invariant 0 <= i <= |paths|
      invariant Grouped(edges, components, isolated, visited) && Closed(edges, visited)
      invariant forall g | g in components :: Leads(paths, g)
      invariant forall p | p in visited :: p in paths
      invariant forall k | 0 <= k < i :: paths[k] in visited
    {
      var path := paths[i];
      if path !in visited {
        var component, reached := Search(paths, edges, adjacency, path, visited);
        if |component| > 1 {
          GroupFound(edges, components, isolated, visited, component, reached);
          assert Leads(paths, component) by { assert paths[i] == component[0]; }
          components := components + [component];
        } else {
          assert component == [path];
          SingletonFound(edges, components, isolated, visited, path, reached);
          isolated := isolated + [path];
        }
        visited := reached;
      }
      i := i + 1;
    }
    assert visited == Members(paths);
  }

  lemma GroupFound(edges: seq<Edge>, components: seq<seq<Path>>, isolated: seq<Path>, visited: set<Path>,
                   component: seq<Path>, reached: set<Path>)
    requires Grouped(edges, components, isolated, visited) && |component| > 1 && IsClass(edges, component, component[0])
    requires (forall p | p in component :: p !in visited)
               && (forall p :: p in reached <==> p in visited || p in component)
    ensures Grouped(edges, components + [component], isolated, reached)
  {
    hide IsClass;
    InSomeSnoc(components, component);
  }

  lemma SingletonFound(edges: seq<Edge>, components: seq<seq<Path>>, isolated: seq<Path>, visited: set<Path>,
                       path: Path, reached: set<Path>)
    requires Grouped(edges, components, isolated, visited) && IsClass(edges, [path], path)
    requires path !in visited && (forall p :: p in reached <==> p in visited || p == path)
    ensures Grouped(edges, components, isolated + [path], reached)
  {}

  lemma InSomeSnoc(components: seq<seq<Path>>, component: seq<Path>)
    ensures forall p :: InSome(components + [component], p) <==> InSome(components, p) || p in component
  {
    forall p ensures InSome(components + [component], p) <==> InSome(components, p) || p in component {
      var grown := components + [component];
      if InSome(components, p) {
        var i :| 0 <= i < |components| && p in components[i];
        assert p in grown[i];
      }
      if p in component {
        assert p in grown[|components|];
      }
    }
  }

  /** One group holds both paths. */
  predicate Together(components: seq<seq<Path>>, isolated: seq<Path>, a: Path, b: Path) {
    (exists i | 0 <= i < |components| :: a in components[i] && b in components[i]) || (a in isolated && a == b)
  }

  /** Components are exact: two paths share a group exactly when edges connect them, and the isolated paths are exactly
      those that nothing else is connected to. */
  lemma GroupsAreClasses(paths: seq<Path>, edges: seq<Edge>, components: seq<seq<Path>>, isolated: seq<Path>, a: Path,
                         b: Path)
    requires Grouped(edges, components, isolated, Members(paths)) && a in paths && b in paths
    ensures Together(components, isolated, a, b) <==> Connected(edges, a, b)
    ensures a in isolated <==> forall p: Path | Connected(edges, a, p) :: p == a
  {
    hide Connected;
    if a in isolated {
      assert IsClass(edges, [a], a);
    } else {
      assert a in Members(paths);
      var i :| 0 <= i < |components| && a in components[i];
      var root := components[i][0];
      assert IsClass(edges, components[i], root);
      ConnectedSymmetric(edges, root, a);
      if b in components[i] {
        ConnectedTransitive(edges, a, root, b);
      }
      if Connected(edges, a, b) {
        ConnectedTransitive(edges, root, a, b);
      }
      var other := if root == a then components[i][1] else root;
      if root == a { assert components[i][1] in components[i]; }
      assert other != a && Connected(edges, a, other);
    }
  }
}
