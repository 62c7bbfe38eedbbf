/** Where the file map puts each file: groups by size around a hub, isolated files on a grid. Places are symbolic. */
module FileLayout {
  import opened Prelude
  import opened FileComponents

  /** The centre of a group, a slot on the rings around it, or a cell of the grid below. */
  datatype Place = Hub(group: nat) | Ring(group: nat, slot: nat) | Cell(index: nat)

  function Slot(group: nat, rank: nat): Place {
    if rank == 0 then Hub(group) else Ring(group, rank - 1)
  }

  type Key = (int, int)

  predicate NotAfter(a: Key, b: Key) {
    a.0 < b.0 || (a.0 == b.0 && a.1 <= b.1)
  }

  predicate Sorted<T>(items: seq<T>, key: T -> Key) {
    forall i, j | 0 <= i < j < |items| :: NotAfter(key(items[i]), key(items[j]))
  }

  method SortBy<T>(items: seq<T>, key: T -> Key) returns (sorted: seq<T>)
    ensures multiset(sorted) == multiset(items) && Sorted(sorted, key)
  {
    hide NotAfter, Sorted;
    NothingSorted(key);
    sorted := [];
    var n := 0;
    while n < |items|
      invariant 0 <= n <= |items| && multiset(sorted) == multiset(items[..n]) && Sorted(sorted, key)
    {
      var at := |sorted|;
      while at > 0 && !NotAfter(key(sorted[at - 1]), key(items[n]))
        invariant 0 <= at <= |sorted|
        invariant forall k | at <= k < |sorted| :: !NotAfter(key(sorted[k]), key(items[n]))
      {
        at := at - 1;
      }
      InsertKeepsOrder(sorted, key, items[n], at);
      InsertAdds(sorted, items[..n], items[n], at);
      assert items[..n + 1] == items[..n] + [items[n]];
      sorted := sorted[..at] + [items[n]] + sorted[at..];
      n := n + 1;
    }
    assert items[..|items|] == items;
  }

  lemma InsertAdds<T>(sorted: seq<T>, items: seq<T>, item: T, at: nat)
    requires at <= |sorted| && multiset(sorted) == multiset(items)
    ensures multiset(sorted[..at] + [item] + sorted[at..]) == multiset(items + [item])
  {
    assert sorted == sorted[..at] + sorted[at..];
  }

  lemma InsertKeepsOrder<T>(sorted: seq<T>, key: T -> Key, item: T, at: nat)
    requires at <= |sorted| && Sorted(sorted, key)
    requires at > 0 ==> NotAfter(key(sorted[at - 1]), key(item))
    requires forall k | at <= k < |sorted| :: !NotAfter(key(sorted[k]), key(item))
    ensures Sorted(sorted[..at] + [item] + sorted[at..], key)
  {
    forall i | 0 <= i < at ensures NotAfter(key(sorted[i]), key(item)) {
      assert i < at - 1 ==> NotAfter(key(sorted[i]), key(sorted[at - 1]));
    }
    forall k | at <= k < |sorted| ensures NotAfter(key(item), key(sorted[k])) {
      assert !NotAfter(key(sorted[k]), key(item));
    }
    hide NotAfter;
  }

  lemma NothingSorted<T>(key: T -> Key)
    ensures Sorted([], key)
  {}

  // ---------------------------------------------------------------- reordering keeps groups

  lemma {:induction false} CountedOnce<T>(s: seq<T>, x: T)
    requires Distinct(s)
    ensures multiset(s)[x] <= 1
  {
    if s != [] {
      var few := s[..|s| - 1];
      CountedOnce(few, x);
      assert s == few + [s[|s| - 1]];
      if s[|s| - 1] == x {
        assert x !in few;
      }
    }
  }

  lemma CountedTwice<T>(t: seq<T>, i: nat, j: nat)
    requires i < j < |t|
    ensures t[i] == t[j] ==> multiset(t)[t[i]] >= 2
  {
    assert t == t[..j] + t[j..];
    assert t[i] in t[..j] && t[j] in t[j..];
    assert t[i] in multiset(t[..j]) && t[j] in multiset(t[j..]);
  }

  lemma ReorderedDistinct<T>(s: seq<T>, t: seq<T>)
    requires Distinct(s) && multiset(s) == multiset(t)
    ensures Distinct(t) && |t| == |s| && forall x :: x in t <==> x in s
  {
    forall x ensures x in t <==> x in s {
      assert x in t <==> x in multiset(t);
      assert x in s <==> x in multiset(s);
    }
    forall i, j | 0 <= i < j < |t| ensures t[i] != t[j] {
      CountedOnce(s, t[i]);
      CountedTwice(t, i, j);
    }
    assert |multiset(s)| == |s| && |multiset(t)| == |t|;
  }

  lemma GroupsDistinct(edges: seq<Edge>, groups: seq<seq<Path>>, isolated: seq<Path>, visited: set<Path>)
    requires Grouped(edges, groups, isolated, visited)
    ensures Distinct(groups)
  {
    forall i, j | 0 <= i < j < |groups| ensures groups[i] != groups[j] {
      assert groups[i][0] in groups[i];
    }
  }

  lemma ReorderedGroups(edges: seq<Edge>, groups: seq<seq<Path>>, sorted: seq<seq<Path>>, isolated: seq<Path>,
                        visited: set<Path>)
    requires Grouped(edges, groups, isolated, visited) && multiset(sorted) == multiset(groups)
    ensures Grouped(edges, sorted, isolated, visited)
  {
    hide IsClass;
    GroupsDistinct(edges, groups, isolated, visited);
    ReorderedDistinct(groups, sorted);
    ReorderedDistinct(sorted, groups);
    forall p ensures InSome(sorted, p) <==> InSome(groups, p) {
      SameMembership(groups, sorted, p);
      SameMembership(sorted, groups, p);
    }
    forall i | 0 <= i < |sorted| ensures |sorted[i]| > 1 && IsClass(edges, sorted[i], sorted[i][0]) {
      assert sorted[i] in groups;
    }
    forall i, j, p | 0 <= i < j < |sorted| && p in sorted[i] ensures p !in sorted[j] {
      assert sorted[i] in groups && sorted[j] in groups;
    }
  }

  lemma SameMembership(groups: seq<seq<Path>>, sorted: seq<seq<Path>>, p: Path)
    requires forall g :: g in sorted <==> g in groups
    ensures InSome(groups, p) ==> InSome(sorted, p)
  {
    if InSome(groups, p) {
      var i :| 0 <= i < |groups| && p in groups[i];
      assert groups[i] in sorted;
    }
  }

  /** A reordered class is the class of its new first member. */
  lemma ReorderedClass(edges: seq<Edge>, group: seq<Path>, ranked: seq<Path>)
    requires group != [] && IsClass(edges, group, group[0]) && multiset(ranked) == multiset(group)
    ensures |ranked| == |group| && IsClass(edges, ranked, ranked[0]) && forall p :: p in ranked <==> p in group
  {
    hide Connected;
    ReorderedDistinct(group, ranked);
    assert ranked[0] in ranked;
    ConnectedSymmetric(edges, group[0], ranked[0]);
    forall p: Path ensures p in ranked <==> Connected(edges, ranked[0], p) {
      if p in ranked { ConnectedTransitive(edges, ranked[0], group[0], p); }
      if Connected(edges, ranked[0], p) { ConnectedTransitive(edges, group[0], ranked[0], p); }
    }
  }

  lemma RankedGroups(edges: seq<Edge>, groups: seq<seq<Path>>, ranks: seq<seq<Path>>, isolated: seq<Path>,
                     visited: set<Path>)
    requires Grouped(edges, groups, isolated, visited) && |ranks| == |groups|
    requires forall g | 0 <= g < |groups| :: multiset(ranks[g]) == multiset(groups[g])
    ensures Grouped(edges, ranks, isolated, visited)
  {
    hide IsClass;
    forall g | 0 <= g < |groups|
      ensures |ranks[g]| == |groups[g]| && IsClass(edges, ranks[g], ranks[g][0])
      ensures forall p :: p in ranks[g] <==> p in groups[g] {
      ReorderedClass(edges, groups[g], ranks[g]);
    }
    forall p ensures InSome(ranks, p) <==> InSome(groups, p) {
      if InSome(ranks, p) {
        var g :| 0 <= g < |ranks| && p in ranks[g];
        assert p in groups[g];
      }
      if InSome(groups, p) {
        var g :| 0 <= g < |groups| && p in groups[g];
        assert p in ranks[g];
      }
    }
  }

  // ---------------------------------------------------------------- the layout

  /** `ranks` are the groups in drawing order, each from its hub outwards. */
  predicate PlacesGroups(positions: map<Path, Place>, ranks: seq<seq<Path>>) {
    forall g, k | 0 <= g < |ranks| && 0 <= k < |ranks[g]| ::
        ranks[g][k] in positions && positions[ranks[g][k]] == Slot(g, k)
  }

  predicate PlacesIsolated(positions: map<Path, Place>, isolated: seq<Path>) {
    forall i | 0 <= i < |isolated| :: isolated[i] in positions && positions[isolated[i]] == Cell(i)
  }

  ghost predicate IsLayout(positions: map<Path, Place>, ranks: seq<seq<Path>>, isolated: seq<Path>) {
    && PlacesGroups(positions, ranks) && PlacesIsolated(positions, isolated)
    && forall p | p in positions :: InSome(ranks, p) || p in isolated
  }

  predicate SortedByRank(adjacency: Adjacency, group: seq<Path>) {
    forall i, j | 0 <= i < j < |group| :: NotAfter(RankKey(adjacency, group[i]), RankKey(adjacency, group[j]))
  }

  /** The groups in drawing order, largest first and then by first path; each is ranked from its hub outwards, best
      connected first and then by path. */
  ghost predicate IsRanking(adjacency: Adjacency, groups: seq<seq<Path>>, ranks: seq<seq<Path>>) {
    && |ranks| == |groups| && Sorted(groups, SizeKey)
    && forall g | 0 <= g < |groups| :: multiset(ranks[g]) == multiset(groups[g]) && SortedByRank(adjacency, ranks[g])
  }

  function Degree(adjacency: Adjacency, p: Path): nat {
    if p in adjacency then |adjacency[p]| else 0
  }

  /** Larger groups first, then by first path. */
  function SizeKey(group: seq<Path>): Key {
    (-|group|, if group == [] then 0 else group[0])
  }

  /** Better connected files first, then by path. */
  function RankKey(adjacency: Adjacency, p: Path): Key {
    var degree: int := Degree(adjacency, p);
    (-degree, p)
  }

  method PlaceGroup(positions: map<Path, Place>, group: nat, ranked: seq<Path>) returns (placed: map<Path, Place>)
    requires ranked != [] && Distinct(ranked)
    ensures forall k | 0 <= k < |ranked| :: ranked[k] in placed && placed[ranked[k]] == Slot(group, k)
    ensures forall p | p in positions && p !in ranked :: p in placed && placed[p] == positions[p]
    ensures forall p | p in placed :: p in positions || p in ranked
  {
    placed := positions[ranked[0] := Hub(group)];
    var node := 0;
    while node < |ranked| - 1
      invariant 0 <= node <= |ranked| - 1
      invariant forall k | 0 <= k <= node :: ranked[k] in placed && placed[ranked[k]] == Slot(group, k)
      invariant forall p | p in positions && p !in ranked :: p in placed && placed[p] == positions[p]
      invariant forall p | p in placed :: p in positions || p in ranked
    {
      placed := placed[ranked[node + 1] := Ring(group, node)];
      node := node + 1;
    }
  }

  method PlaceIsolated(positions: map<Path, Place>, isolated: seq<Path>) returns (placed: map<Path, Place>)
    requires Distinct(isolated)
    ensures PlacesIsolated(placed, isolated)
    ensures forall p | p in positions && p !in isolated :: p in placed && placed[p] == positions[p]
    ensures forall p | p in placed :: p in positions || p in isolated
  {
    placed := positions;
    var i := 0;
    while i < |isolated|
      invariant 0 <= i <= |isolated|
      invariant forall k | 0 <= k < i :: isolated[k] in placed && placed[isolated[k]] == Cell(k)
      invariant forall p | p in positions && p !in isolated :: p in placed && placed[p] == positions[p]
      invariant forall p | p in placed :: p in positions || p in isolated
    {
      placed := placed[isolated[i] := Cell(i)];
      i := i + 1;
    }
  }

  lemma GroupPlaced(positions: map<Path, Place>, ranks: seq<seq<Path>>, ranked: seq<Path>, placed: map<Path, Place>)
    requires IsLayout(positions, ranks, [])
    requires forall g, p | 0 <= g < |ranks| && p in ranks[g] :: p !in ranked
    requires forall k | 0 <= k < |ranked| :: ranked[k] in placed && placed[ranked[k]] == Slot(|ranks|, k)
    requires forall p | p in positions && p !in ranked :: p in placed && placed[p] == positions[p]
    requires forall p | p in placed :: p in positions || p in ranked
    ensures IsLayout(placed, ranks + [ranked], [])
  {}

  /** The whole layout: it places the groups of connected files and the isolated ones, and nothing else. */
  method FileSpiderPositions(paths: seq<Path>, edges: seq<Edge>)
    returns (positions: map<Path, Place>, adjacency: Adjacency,
             ghost groups: seq<seq<Path>>, ghost ranks: seq<seq<Path>>, ghost isolated: seq<Path>)
    requires Endpoints(paths, edges)
    ensures IsAdjacency(paths, edges, adjacency)
    ensures Grouped(edges, ranks, isolated, Members(paths)) && (forall g | g in groups :: Leads(paths, g))
    ensures IsRanking(adjacency, groups, ranks) && IsLayout(positions, ranks, isolated)
  {
    hide IsClass, IsAdjacency, IsLayout, Leads, SizeKey, RankKey, NotAfter;
    adjacency := BuildAdjacency(paths, edges);
    var components, alone := FindGroups(paths, edges, adjacency);
    var sorted := SortBy(components, SizeKey);
    ReorderedGroups(edges, components, sorted, alone, Members(paths));
    SameElements(components, sorted);
    var adj := adjacency;
    positions, groups, ranks, isolated := map[], sorted, [], alone;
    NothingPlaced();
    var index := 0;
    while index < |sorted|
      invariant 0 <= index <= |sorted| && |ranks| == index
      invariant forall g | 0 <= g < index :: multiset(ranks[g]) == multiset(sorted[g]) && SortedByRank(adj, ranks[g])
      invariant IsLayout(positions, ranks, [])
    {
      var ranked := SortBy(sorted[index], (p: Path) => RankKey(adj, p));
      GroupRanked(edges, sorted, alone, Members(paths), ranks, ranked);
      var placed := PlaceGroup(positions, index, ranked);
      GroupPlaced(positions, ranks, ranked, placed);
      positions := placed;
      ranks := ranks + [ranked];
      index := index + 1;
    }
    RankedGroups(edges, sorted, ranks, alone, Members(paths));
    var placed := PlaceIsolated(positions, alone);
    LayoutCompleted(edges, positions, ranks, alone, Members(paths), placed);
    positions := placed;
  }

  lemma SameElements<T>(s: seq<T>, t: seq<T>)
    requires multiset(s) == multiset(t)
    ensures forall x :: x in t <==> x in s
  {
    forall x ensures x in t <==> x in s {
      assert x in t <==> x in multiset(t);
      assert x in s <==> x in multiset(s);
    }
  }

  /** What a ranking shows: larger groups come first, equal ones by their first path; within a group no file is drawn
      before a better connected one, nor before an equally connected one of an earlier path. */
  lemma RankingShowsDegrees(adjacency: Adjacency, groups: seq<seq<Path>>, ranks: seq<seq<Path>>, g: nat, h: nat,
                            k: nat, l: nat)
    requires IsRanking(adjacency, groups, ranks) && g <= h < |ranks| && k <= l < |ranks[g]|
    ensures |ranks[g]| > |ranks[h]| || (|ranks[g]| == |ranks[h]| && groups[g][0] <= groups[h][0])
    ensures var a, b := ranks[g][k], ranks[g][l];
            a in adjacency && b in adjacency ==>
              |adjacency[a]| > |adjacency[b]| || (|adjacency[a]| == |adjacency[b]| && a <= b)
  {
    assert |multiset(ranks[g])| == |ranks[g]| && |multiset(groups[g])| == |groups[g]|;
    assert |multiset(ranks[h])| == |ranks[h]| && |multiset(groups[h])| == |groups[h]|;
    if g < h {
      assert NotAfter(SizeKey(groups[g]), SizeKey(groups[h]));
    }
  }

  lemma NothingPlaced()
    ensures IsLayout(map[], [], [])
  {}

  lemma GroupRanked(edges: seq<Edge>, groups: seq<seq<Path>>, isolated: seq<Path>, visited: set<Path>,
                    ranks: seq<seq<Path>>, ranked: seq<Path>)
    requires Grouped(edges, groups, isolated, visited) && |ranks| < |groups|
               && multiset(ranked) == multiset(groups[|ranks|])
    requires forall g | 0 <= g < |ranks| :: multiset(ranks[g]) == multiset(groups[g])
    ensures ranked != [] && Distinct(ranked)
    ensures forall g, p | 0 <= g < |ranks| && p in ranks[g] :: p !in ranked
  {
    ReorderedDistinct(groups[|ranks|], ranked);
    forall g, p | 0 <= g < |ranks| && p in ranks[g] ensures p !in ranked {
      assert p in multiset(ranks[g]);
      assert p in groups[g];
    }
  }

  lemma LayoutCompleted(edges: seq<Edge>, positions: map<Path, Place>, ranks: seq<seq<Path>>, isolated: seq<Path>,
                        visited: set<Path>, placed: map<Path, Place>)
    requires IsLayout(positions, ranks, []) && Grouped(edges, ranks, isolated, visited)
               && PlacesIsolated(placed, isolated)
    requires forall p | p in positions && p !in isolated :: p in placed && placed[p] == positions[p]
    requires forall p | p in placed :: p in positions || p in isolated
    ensures IsLayout(placed, ranks, isolated)
  {}

  /** Where a file is drawn tells which group it is in. */
  lemma SameCentre(edges: seq<Edge>, positions: map<Path, Place>, ranks: seq<seq<Path>>, isolated: seq<Path>,
                   visited: set<Path>, a: Path, b: Path)
    requires Grouped(edges, ranks, isolated, visited) && IsLayout(positions, ranks, isolated)
    requires a in visited && b in visited && a != b
    ensures a in positions && b in positions && positions[a] != positions[b]
    ensures Together(ranks, isolated, a, b) <==>
            !positions[a].Cell? && !positions[b].Cell? && positions[a].group == positions[b].group
  {}

  /** What the map shows: every file has a place of its own, and two files circle the same centre exactly when edges
      connect them. */
  lemma LayoutShowsComponents(paths: seq<Path>, edges: seq<Edge>, positions: map<Path, Place>, ranks: seq<seq<Path>>,
                              isolated: seq<Path>, a: Path, b: Path)
    requires Grouped(edges, ranks, isolated, Members(paths)) && IsLayout(positions, ranks, isolated)
    requires a in paths && b in paths && a != b
    ensures positions.Keys == Members(paths)
    ensures positions[a] != positions[b]
    ensures Connected(edges, a, b) <==>
            !positions[a].Cell? && !positions[b].Cell? && positions[a].group == positions[b].group
  {
    GroupsAreClasses(paths, edges, ranks, isolated, a, b);
    SameCentre(edges, positions, ranks, isolated, Members(paths), a, b);
    AllPlaced(edges, positions, ranks, isolated, Members(paths));
  }

  lemma AllPlaced(edges: seq<Edge>, positions: map<Path, Place>, ranks: seq<seq<Path>>, isolated: seq<Path>,
                  visited: set<Path>)
    requires Grouped(edges, ranks, isolated, visited) && IsLayout(positions, ranks, isolated)
    ensures positions.Keys == visited
  {}
}
