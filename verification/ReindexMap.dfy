/** The module map that an index draws, read off the tracked paths and the import lines: which paths make one
    module, what kind it is, which modules depend on which, where each is placed, and which old modules go. */
module ReindexMap {
  import opened Prelude
  import opened TextOrder
  import opened Reindex
  import opened ReindexGuarantees

  // ---------------------------------------------------------------- which paths make one module

  predicate IsSource(p: TrackedPath) {
    p.suffix in {".py", ".ts", ".tsx", ".js", ".jsx", ".mjs", ".cjs", ".css", ".html", ".sql"}
  }

  predicate UnderSrc(p: TrackedPath) {
    |p.parts| >= 2 && p.parts[0] == "src"
  }

  predicate UnderClient(p: TrackedPath) {
    |p.parts| >= 4 && p.parts[0] == "frontend" && p.parts[1] == "client" && p.parts[2] == "src"
  }

  predicate UnderTests(p: TrackedPath) {
    |p.parts| >= 1 && p.parts[0] == "tests"
  }

  /** Two source files under one root with the same directory or file below it. */
  predicate Neighbours(p: TrackedPath, q: TrackedPath) {
    && IsSource(p) && IsSource(q)
    && (|| (UnderSrc(p) && UnderSrc(q) && p.parts[1] == q.parts[1])
        || (UnderClient(p) && UnderClient(q) && p.parts[3] == q.parts[3])
        || (UnderTests(p) && UnderTests(q)))
  }

  lemma JoinedTwo(parts: seq<string>)
    requires |parts| == 2
    ensures Joined(parts) == parts[0] + "/" + parts[1]
  {}

  lemma JoinedFour(parts: seq<string>)
    requires |parts| == 4
    ensures Joined(parts) == parts[0] + "/" + (parts[1] + "/" + (parts[2] + "/" + parts[3]))
  {
    assert parts[1..][1..] == parts[2..] && parts[2..][1..] == parts[3..];
    assert Joined(parts[2..]) == parts[2] + "/" + parts[3];
    assert Joined(parts[1..]) == parts[1] + "/" + Joined(parts[2..]);
  }

  /** The scope of a path, by its root. */
  lemma ScopeText(p: TrackedPath)
    ensures ModuleScope(p).Some? <==> IsSource(p) && (UnderSrc(p) || UnderClient(p) || UnderTests(p))
    ensures IsSource(p) && UnderSrc(p) ==> ModuleScope(p) == Some("src" + ("/" + p.parts[1]))
    ensures IsSource(p) && UnderClient(p) ==> ModuleScope(p) == Some("frontend" + ("/client/src/" + p.parts[3]))
    ensures IsSource(p) && UnderTests(p) ==> ModuleScope(p) == Some("tests")
  {
    if IsSource(p) && UnderSrc(p) {
      JoinedTwo(p.parts[..2]);
      assert ("src" + "/") + p.parts[1] == "src" + ("/" + p.parts[1]);
    } else if IsSource(p) && UnderClient(p) {
      JoinedFour(p.parts[..4]);
      assert p.parts[..3] == ["frontend", "client", "src"];
      assert "frontend" + "/" + ("client" + "/" + ("src" + "/" + p.parts[3]))
          == "frontend" + ("/client/src/" + p.parts[3]);
    }
  }

  lemma SameTail(prefix: string, a: string, b: string)
    ensures prefix + a == prefix + b <==> a == b
  {
    if prefix + a == prefix + b {
      assert a == (prefix + a)[|prefix|..] && b == (prefix + b)[|prefix|..];
    }
  }

  /** Two tracked paths are drawn as one module if and only if they are neighbours, and a path is in no module if and
      only if it is no source file or lies under none of the three roots. */
  lemma ScopesGroupExactly(p: TrackedPath, q: TrackedPath)
    ensures ModuleScope(p).Some? <==> IsSource(p) && (UnderSrc(p) || UnderClient(p) || UnderTests(p))
    ensures ModuleScope(p).Some? && ModuleScope(p) == ModuleScope(q) <==> Neighbours(p, q)
  {
    hide ModuleScope;
    ScopeText(p);
    ScopeText(q);
    hide IsSource;
    if UnderSrc(p) && UnderSrc(q) {
      SameTail("src", "/" + p.parts[1], "/" + q.parts[1]);
      SameTail("/", p.parts[1], q.parts[1]);
    }
    if UnderClient(p) && UnderClient(q) {
      SameTail("frontend", "/client/src/" + p.parts[3], "/client/src/" + q.parts[3]);
      SameTail("/client/src/", p.parts[3], q.parts[3]);
    }
    DifferentRoots(if |p.parts| > 1 then p.parts[1] else "", if |q.parts| > 3 then q.parts[3] else "");
    DifferentRoots(if |q.parts| > 1 then q.parts[1] else "", if |p.parts| > 3 then p.parts[3] else "");
  }

  lemma DifferentRoots(a: string, b: string)
    ensures "src" + ("/" + a) != "tests" && "frontend" + ("/client/src/" + b) != "tests"
    ensures "src" + ("/" + a) != "frontend" + ("/client/src/" + b)
  {
    assert ("src" + ("/" + a))[0] == 's' && ("frontend" + ("/client/src/" + b))[0] == 'f' && "tests"[0] == 't';
  }

  /** The kind of a module follows the root of its files. */
  lemma KindFollowsRoot(p: TrackedPath)
    requires ModuleScope(p).Some?
    ensures ModuleKind(ModuleScope(p).value) ==
            if UnderSrc(p) then "backend" else if UnderClient(p) then "frontend" else "test"
  {
    hide ModuleScope;
    ScopeText(p);
    var scope := ModuleScope(p).value;
    if UnderSrc(p) {
      assert scope == "src/" + p.parts[1];
      NotPrefixed(scope, "frontend/");
    } else if UnderClient(p) {
      assert scope == "frontend/" + ("client/src/" + p.parts[3]);
    } else {
      NotPrefixed(scope, "frontend/");
      NotPrefixed(scope, "src/");
    }
  }

  lemma NotPrefixed(text: string, prefix: string)
    requires text != "" && prefix != "" && text[0] != prefix[0]
    ensures !StartsWith(text, prefix)
  {
    assert |prefix| <= |text| ==> text[..|prefix|][0] == text[0];
  }

  // ---------------------------------------------------------------- the row of a module

  /** Some tracked path belongs to the scope. */
  predicate Tracked(tree: Tree, scope: string) {
    exists p | p in tree.paths :: ModuleScope(p) == Some(scope)
  }

  /** Some tracked path of the scope imports from the other one. */
  predicate Imports(tree: Tree, scope: string, other: string) {
    exists p | p in tree.paths :: ModuleScope(p) == Some(scope) && other in tree.mentions(p)
  }

  lemma TrackedScopes(tree: Tree, scope: string)
    ensures Tracked(tree, scope) <==> scope in Scopes(tree.paths)
  {}

  lemma ImportedScopes(tree: Tree, scope: string, other: string)
    ensures other in DependencyScopes(tree, scope) <==>
            other != scope && Tracked(tree, other) && Imports(tree, scope, other)
  {
    hide ModuleScope;
    TrackedScopes(tree, other);
    if other != scope && Tracked(tree, other) && Imports(tree, scope, other) {
      var p :| p in tree.paths && ModuleScope(p) == Some(scope) && other in tree.mentions(p);
    }
  }

  lemma IdentifiedExactly(project: Id, scopes: seq<string>, scope: string)
    ensures GitId(project, scope) in Identified(project, scopes) <==> scope in scopes
  {
    if scope in scopes {
      var i :| 0 <= i < |scopes| && scopes[i] == scope;
      assert Identified(project, scopes)[i] == GitId(project, scope);
    }
  }

  /** The module of a tracked scope after an index, whatever the database held. */
  lemma ModuleRow(db: Database, project: Id, tree: Tree, at: Stamp, scope: string) returns (index: nat)
    requires Tracked(tree, scope)
    ensures var scopes := Ascending(Scopes(tree.paths)); index < |scopes| && scopes[index] == scope
    ensures var done := Reindexed(db, project, tree, at);
            && GitId(project, scope) in done.modules
            && done.modules[GitId(project, scope)].facts == FactsOf(project, tree, scope, index)
  {
    hide Scopes, Indexed, Ascending, FactsOf, ModuleScope;
    TrackedScopes(tree, scope);
    var scopes := Ascending(Scopes(tree.paths));
    index :| 0 <= index < |scopes| && scopes[index] == scope;
    DerivedRow(db, project, tree, at, index);
  }

  /** After an index one module depends on another if and only if they differ, both are tracked, and a tracked file of
      the one imports from the other. */
  lemma DependsExactly(db: Database, project: Id, tree: Tree, at: Stamp, scope: string, other: string)
    requires Tracked(tree, scope)
    ensures var done := Reindexed(db, project, tree, at);
            && GitId(project, scope) in done.modules
            && (GitId(project, other) in done.modules[GitId(project, scope)].facts.dependencies <==>
                  other != scope && Tracked(tree, other) && Imports(tree, scope, other))
  {
    hide Scopes, Indexed, Ascending, ModuleScope, DependencyScopes, Tracked, Imports, Identified;
    var index := ModuleRow(db, project, tree, at, scope);
    ImportedScopes(tree, scope, other);
    IdentifiedExactly(project, Ascending(DependencyScopes(tree, scope)), other);
  }

  /** The kind, the title and the scope of the module of a tracked file. */
  lemma ModuleShows(db: Database, project: Id, tree: Tree, at: Stamp, p: TrackedPath)
    requires p in tree.paths && ModuleScope(p).Some?
    ensures var scope := ModuleScope(p).value;
            var done := Reindexed(db, project, tree, at);
            && GitId(project, scope) in done.modules
            && var facts := done.modules[GitId(project, scope)].facts;
            && facts.scope == scope && facts.title == tree.title(scope) && facts.aliases == tree.aliases(scope)
            && facts.kind == (if UnderSrc(p) then "backend" else if UnderClient(p) then "frontend" else "test")
  {
    hide Scopes, Indexed, Ascending, ModuleScope, DependencyScopes, ModuleKind;
    var index := ModuleRow(db, project, tree, at, ModuleScope(p).value);
    KindFollowsRoot(p);
  }

  /** One place is in the grid, and before the other in reading order without overlap. */
  predicate PlacedBefore(a: Facts, b: Facts) {
    && a.x in {80, 380, 680, 980} && 120 <= a.y && (a.y - 120) % 190 == 0
    && (a.y + 190 <= b.y || (a.y == b.y && a.x + 300 <= b.x))
  }

  lemma PlacesInOrder(project: Id, tree: Tree, scope: string, other: string, i: nat, j: nat)
    requires i < j
    ensures PlacedBefore(FactsOf(project, tree, scope, i), FactsOf(project, tree, other, j))
  {
    hide Ascending, DependencyScopes, Identified, ModuleKind;
    assert i / 4 <= j / 4 && (i / 4 == j / 4 ==> i % 4 < j % 4);
    assert (i / 4 * 190) % 190 == 0;
  }

  /** Modules are placed in rows of four in the order of their scopes, so that no two overlap. */
  lemma PlacedInOrder(db: Database, project: Id, tree: Tree, at: Stamp, scope: string, other: string)
    requires Tracked(tree, scope) && Tracked(tree, other) && Less(scope, other)
    ensures var done := Reindexed(db, project, tree, at);
            && GitId(project, scope) in done.modules && GitId(project, other) in done.modules
            && PlacedBefore(done.modules[GitId(project, scope)].facts, done.modules[GitId(project, other)].facts)
  {
    hide Scopes, Indexed, Ascending, ModuleScope, Less, FactsOf, PlacedBefore;
    var i := ModuleRow(db, project, tree, at, scope);
    var j := ModuleRow(db, project, tree, at, other);
    AscendingSorted(Scopes(tree.paths));
    LessTotal(scope, other);
    assert i < j;
    PlacesInOrder(project, tree, scope, other, i, j);
  }

  /** What an index records about the repository. */
  lemma ListingRecords(db: Database, project: Id, tree: Tree, at: Stamp)
    ensures var done := Reindexed(db, project, tree, at);
            && done.listings == db.listings[project := Listing(tree.commit, tree.files, tree.fileEdges,
                                                               |Scopes(tree.paths)|, at)]
            && done.projects == db.projects[project := at]
  {
    hide Scopes, Ascending, Cleaned, FactsOf;
    CleanedKeepsWork(db, project, ItemIds(project, Derived(project, tree)), at);
  }

  // ---------------------------------------------------------------- which old modules go

  /** A note or a task is attached to the module. */
  predicate HoldsWork(db: Database, id: ModuleId) {
    || (exists n | n in db.notes :: db.notes[n].moduleId == id)
    || (exists t | t in db.tasks :: db.tasks[t].moduleId == id)
  }

  /** A git module of the project whose scope is not tracked any more stays if and only if a note or a task is attached
      to it, and then only as an orphan. */
  lemma UntrackedGoExactly(db: Database, project: Id, tree: Tree, at: Stamp, id: ModuleId)
    requires IdsOwn(db) && id in db.modules && db.modules[id].project == project && db.modules[id].origin == Git
    requires !(id.GitId? && Tracked(tree, id.scope))
    ensures var done := Reindexed(db, project, tree, at);
            && (id in done.modules <==> HoldsWork(db, id))
            && (id in done.modules ==> done.modules[id] == db.modules[id].(status := Orphaned, updatedAt := at))
  {
    hide Scopes, Legacy, Indexed, Derived, ModuleScope;
    RowsReconciled(db, project, tree, at, id);
    RetainedId(project, Derived(project, tree), id);
    DerivedShape(project, tree);
    if id.GitId? {
      TrackedScopes(tree, id.scope);
    }
  }

  /** A manual module stays as it is, unless it is one of the five defaults of old and holds no work, or a derived
      module takes its id. */
  lemma ManualStayExactly(db: Database, project: Id, tree: Tree, at: Stamp, id: ModuleId)
    requires id in db.modules && db.modules[id].origin == Manual && db.modules[id].project == project
    requires !(id.GitId? && id.project == project && Tracked(tree, id.scope))
    ensures var done := Reindexed(db, project, tree, at);
            && (id in done.modules <==>
                  || HoldsWork(db, id)
                  || db.modules[id].facts.scope !in {"src/orchestrator", "frontend/client/src/hooks/useChat.ts",
                                                     "src/storage/run_store.py", "src/policy",
                                                     "frontend/client/src/components/TaskGraph.tsx"})
            && (id in done.modules ==> done.modules[id] == db.modules[id])
  {
    hide Scopes, Indexed, Derived, ModuleScope;
    RowsReconciled(db, project, tree, at, id);
    RetainedId(project, Derived(project, tree), id);
    DerivedShape(project, tree);
    if id.GitId? {
      TrackedScopes(tree, id.scope);
    }
  }

  /** The index deletes the module: it holds no work, and it is a git module that is not tracked any more or one of the
      five defaults of old. */
  predicate Dropped(db: Database, project: Id, tree: Tree, id: ModuleId) {
    && id in db.modules && db.modules[id].project == project && !HoldsWork(db, id)
    && match db.modules[id].origin
       case Git => !(id.GitId? && id.project == project && Tracked(tree, id.scope))
       case Manual => db.modules[id].facts.scope in {"src/orchestrator", "frontend/client/src/hooks/useChat.ts",
                                                     "src/storage/run_store.py", "src/policy",
                                                     "frontend/client/src/components/TaskGraph.tsx"}
  }

  /** What the first deletion and the orphaning leave to the second deletion. */
  lemma OrphanedRow(db: Database, project: Id, retained: seq<ModuleId>, at: Stamp, id: ModuleId)
    ensures var stale := Stale(db, project, retained);
            var orphaned := Orphan(DeleteModules(db, stale), project, retained, at);
            && (id in orphaned.modules <==> id in db.modules && id !in stale)
            && (id in orphaned.modules ==>
                  && orphaned.modules[id].project == db.modules[id].project
                  && orphaned.modules[id].facts == db.modules[id].facts
                  && orphaned.modules[id].origin == db.modules[id].origin)
            && Held(orphaned, id) == Held(db, id)
  {
    hide Held, Remaining;
    var stale := Stale(db, project, retained);
    UnheldCascade(db, stale);
    SameHeld(DeleteModules(db, stale), Orphan(DeleteModules(db, stale), project, retained, at));
  }

  lemma DroppedExactly(db: Database, project: Id, tree: Tree, at: Stamp, id: ModuleId)
    ensures var retained := ItemIds(project, Derived(project, tree));
            var stale := Stale(db, project, retained);
            var orphaned := Orphan(DeleteModules(db, stale), project, retained, at);
            Dropped(db, project, tree, id) <==> id in stale || id in Legacy(orphaned, project, LEGACY_DEFAULT_SCOPES)
  {
    hide Scopes, Derived, ModuleScope, Held, Orphan, DeleteModules, ItemIds, Tracked, HoldsWork;
    OrphanedRow(db, project, ItemIds(project, Derived(project, tree)), at, id);
    RetainedExactly(project, tree, id);
    WorkIsHeld(db, id);
  }

  lemma RetainedExactly(project: Id, tree: Tree, id: ModuleId)
    ensures id in ItemIds(project, Derived(project, tree)) <==>
            id.GitId? && id.project == project && Tracked(tree, id.scope)
  {
    hide Scopes, Derived, ModuleScope;
    RetainedId(project, Derived(project, tree), id);
    DerivedShape(project, tree);
    if id.GitId? {
      TrackedScopes(tree, id.scope);
    }
  }

  lemma WorkIsHeld(db: Database, id: ModuleId)
    ensures HoldsWork(db, id) <==> Held(db, id)
  {}

  /** A marker goes if and only if the index deletes its module; the others stay as they are, and none is added. */
  lemma MarkersGoExactly(db: Database, project: Id, tree: Tree, at: Stamp, marker: Id)
    ensures var done := Reindexed(db, project, tree, at);
            && (marker in done.markers <==>
                  marker in db.markers && !Dropped(db, project, tree, db.markers[marker].moduleId))
            && (marker in done.markers ==> done.markers[marker] == db.markers[marker])
  {
    hide Scopes, Derived, ModuleScope, Dropped, Legacy, Stale, Held;
    if marker in db.markers {
      DroppedExactly(db, project, tree, at, db.markers[marker].moduleId);
    }
  }

  /** Every note, task and marker names a module that is there. */
  predicate KeysResolve(db: Database) {
    && (forall n | n in db.notes :: db.notes[n].moduleId in db.modules)
    && (forall t | t in db.tasks :: db.tasks[t].moduleId in db.modules)
    && (forall k | k in db.markers :: db.markers[k].moduleId in db.modules)
  }

  lemma UndroppedStay(db: Database, project: Id, tree: Tree, at: Stamp, id: ModuleId)
    requires id in db.modules && !Dropped(db, project, tree, id)
    ensures id in Reindexed(db, project, tree, at).modules
  {
    hide Scopes, Indexed, Derived, ModuleScope;
    RowsReconciled(db, project, tree, at, id);
    RetainedId(project, Derived(project, tree), id);
    DerivedShape(project, tree);
    if id.GitId? {
      TrackedScopes(tree, id.scope);
    }
  }

  /** An index leaves no note, task or marker behind without its module. */
  lemma IndexKeepsKeys(db: Database, project: Id, tree: Tree, at: Stamp)
    requires KeysResolve(db)
    ensures KeysResolve(Reindexed(db, project, tree, at))
  {
    hide Scopes, Indexed, Derived, ModuleScope, Held;
    var done := Reindexed(db, project, tree, at);
    IndexKeepsWork(db, project, tree, at);
    forall n | n in done.notes ensures done.notes[n].moduleId in done.modules {
      UndroppedStay(db, project, tree, at, db.notes[n].moduleId);
    }
    forall k | k in done.tasks ensures done.tasks[k].moduleId in done.modules {
      UndroppedStay(db, project, tree, at, db.tasks[k].moduleId);
    }
    forall k | k in done.markers ensures done.markers[k].moduleId in done.modules {
      MarkersGoExactly(db, project, tree, at, k);
      UndroppedStay(db, project, tree, at, db.markers[k].moduleId);
    }
  }
}
