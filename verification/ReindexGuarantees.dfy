/** What re-indexing promises: no work is lost, the module map is the derived one, and a second run only moves time
    stamps. */
module ReindexGuarantees {
  import opened Prelude
  import opened TextOrder
  import opened Reindex

  /** A derived id belongs to its project; ids are hashes of the project they are made for. */
  ghost predicate IdsOwn(db: Database) {
    forall id | id in db.modules && id.GitId? :: db.modules[id].project == id.project
  }

  predicate DistinctScopes(items: seq<Facts>) {
    forall i, j | 0 <= i < j < |items| :: items[i].scope != items[j].scope
  }

  lemma DerivedScopes(project: Id, tree: Tree)
    ensures var items, scopes := Derived(project, tree), Ascending(Scopes(tree.paths));
            |items| == |scopes| && forall i | 0 <= i < |items| :: items[i].scope == scopes[i]
  {}

  lemma DerivedDistinct(project: Id, tree: Tree)
    ensures DistinctScopes(Derived(project, tree))
  {
    hide Ascending, Scopes, Derived;
    DerivedScopes(project, tree);
    AscendingSorted(Scopes(tree.paths));
    var items := Derived(project, tree);
    forall i, j | 0 <= i < j < |items| ensures items[i].scope != items[j].scope {
      LessIrreflexive(items[i].scope);
    }
  }

  lemma DerivedShape(project: Id, tree: Tree)
    ensures DistinctScopes(Derived(project, tree))
    ensures forall scope ::
              GitId(project, scope) in ItemIds(project, Derived(project, tree)) <==> scope in Scopes(tree.paths)
  {
    hide Ascending, Scopes, Derived, DistinctScopes;
    DerivedDistinct(project, tree);
    DerivedScopes(project, tree);
    var scopes := Ascending(Scopes(tree.paths));
    var ids := ItemIds(project, Derived(project, tree));
    forall scope ensures GitId(project, scope) in ids <==> scope in Scopes(tree.paths) {
      if scope in Scopes(tree.paths) {
        var i :| 0 <= i < |scopes| && scopes[i] == scope;
        assert ids[i] == GitId(project, scope);
      }
      if GitId(project, scope) in ids {
        var i :| 0 <= i < |ids| && ids[i] == GitId(project, scope);
        assert scopes[i] in scopes;
      }
    }
  }

  lemma RetainedId(project: Id, items: seq<Facts>, id: ModuleId)
    ensures id in ItemIds(project, items) ==>
              id.GitId? && id.project == project && exists i :: 0 <= i < |items| && items[i].scope == id.scope
  {}

  // ---------------------------------------------------------------- one row at a time

  /** A listed module is upserted once; every other row is untouched. */
  lemma {:induction false} UpsertRow(modules: map<ModuleId, Module>, project: Id, items: seq<Facts>, at: Stamp,
                                     id: ModuleId)
    requires DistinctScopes(items)
    ensures var t := UpsertAll(modules, project, items, at);
            && (id !in ItemIds(project, items) ==> (id in t <==> id in modules) && (id in t ==> t[id] == modules[id]))
            && (forall i | 0 <= i < |items| && id == GitId(project, items[i].scope) ::
                  id in t && t[id] == if id in modules
                      then modules[id].(facts := items[i], status := Active, origin := Git, updatedAt := at)
                                      else Module(project, items[i], Active, Git, at, at))
  {
    var ids := ItemIds(project, items);
    if items != [] {
      var few, last := items[..|items| - 1], items[|items| - 1];
      UpsertRow(modules, project, few, at, id);
      assert ids == ItemIds(project, few) + [GitId(project, last.scope)];
      if id == GitId(project, last.scope) {
        forall k | 0 <= k < |few| ensures ItemIds(project, few)[k] != id {
          assert few[k] == items[k];
        }
        assert id !in ItemIds(project, few);
      }
    }
  }

  /** A module row after an index: derived rows are active with the derived facts, other git rows survive as orphans
      exactly when they hold work, legacy defaults survive exactly when they hold work, everything else is as it was. */
  ghost predicate RowReconciled(db: Database, done: Database, project: Id, items: seq<Facts>, at: Stamp, id: ModuleId) {
    var retained := ItemIds(project, items);
    if id in retained then
      && id in done.modules
      && forall i | 0 <= i < |items| && id == GitId(project, items[i].scope) ::
           done.modules[id] == if id in db.modules && id !in Legacy(db, project, LEGACY_DEFAULT_SCOPES)
                               then db.modules[id].(facts := items[i], status := Active, origin := Git, updatedAt := at)
                               else Module(project, items[i], Active, Git, at, at)
    else if GitRow(db, project, id) then
      && (id in done.modules <==> Held(db, id))
      && (id in done.modules ==> done.modules[id] == db.modules[id].(status := Orphaned, updatedAt := at))
    else
      && (id in done.modules <==> id in db.modules && id !in Legacy(db, project, LEGACY_DEFAULT_SCOPES))
      && (id in done.modules ==> done.modules[id] == db.modules[id])
  }

  lemma CleanedKeepsWork(db: Database, project: Id, retained: seq<ModuleId>, at: Stamp)
    ensures var c := Cleaned(db, project, retained, at);
            c.notes == db.notes && c.tasks == db.tasks && c.listings == db.listings && c.projects == db.projects
  {}

  lemma SameHeld(a: Database, b: Database)
    requires a.notes == b.notes && a.tasks == b.tasks
    ensures forall id :: Held(a, id) == Held(b, id)
  {}

  lemma CleanedRow(db: Database, project: Id, retained: seq<ModuleId>, at: Stamp, id: ModuleId)
    ensures var c := Cleaned(db, project, retained, at);
            if GitRow(db, project, id) && id !in retained then
              && (id in c.modules <==> Held(db, id))
              && (id in c.modules ==> c.modules[id] == db.modules[id].(status := Orphaned, updatedAt := at))
            else
              && (id in c.modules <==> id in db.modules && id !in Legacy(db, project, LEGACY_DEFAULT_SCOPES))
              && (id in c.modules ==> c.modules[id] == db.modules[id])
  {
    hide Held, Remaining;
    var stale := Stale(db, project, retained);
    var pruned := DeleteModules(db, stale);
    UnheldCascade(db, stale);
    var orphaned := Orphan(pruned, project, retained, at);
    SameHeld(pruned, orphaned);
  }

  /** What becomes of every module row, whatever the database held. */
  lemma RowsReconciled(db: Database, project: Id, tree: Tree, at: Stamp, id: ModuleId)
    ensures RowReconciled(db, Reindexed(db, project, tree, at), project, Derived(project, tree), at, id)
  {
    hide Held, Legacy, Cleaned;
    var items := Derived(project, tree);
    var retained := ItemIds(project, items);
    DerivedShape(project, tree);
    CleanedRow(db, project, retained, at, id);
    UpsertRow(Cleaned(db, project, retained, at).modules, project, items, at, id);
  }

  // ---------------------------------------------------------------- the promises

  /** No note and no task is deleted or changed, whatever was in the database. */
  lemma IndexKeepsWork(db: Database, project: Id, tree: Tree, at: Stamp)
    ensures var done := Reindexed(db, project, tree, at);
            done.notes == db.notes && done.tasks == db.tasks
  {
    hide Cleaned;
    CleanedKeepsWork(db, project, ItemIds(project, Derived(project, tree)), at);
  }

  /** Markers go only with a deleted module, so those of a module that holds work stay. */
  lemma MarkersOfHeldModulesStay(db: Database, project: Id, tree: Tree, at: Stamp, marker: Id)
    requires marker in db.markers && Held(db, db.markers[marker].moduleId)
    ensures var done := Reindexed(db, project, tree, at);
            marker in done.markers && done.markers[marker] == db.markers[marker]
  {
    hide Held;
    var retained := ItemIds(project, Derived(project, tree));
    var stale := Stale(db, project, retained);
    UnheldCascade(db, stale);
    var orphaned := Orphan(DeleteModules(db, stale), project, retained, at);
    SameHeld(DeleteModules(db, stale), orphaned);
  }

  /** The active git modules are exactly the derived ones; every other git module is orphaned and holds a note or a
      task. */
  lemma ActiveModulesAreDerived(db: Database, project: Id, tree: Tree, at: Stamp, id: ModuleId)
    requires IdsOwn(db)
    ensures var done := Reindexed(db, project, tree, at);
            && ((GitRow(done, project, id) && done.modules[id].status == Active)
                  <==> (id.GitId? && id.project == project && id.scope in Scopes(tree.paths)))
            && (GitRow(done, project, id) && done.modules[id].status != Active
                ==> done.modules[id].status == Orphaned && Held(done, id))
  {
    hide Held, Scopes, Legacy, Indexed;
    var items := Derived(project, tree);
    var done := Reindexed(db, project, tree, at);
    RowsReconciled(db, project, tree, at, id);
    DerivedShape(project, tree);
    IndexKeepsWork(db, project, tree, at);
    SameHeld(db, done);
    RetainedId(project, items, id);
  }

  /** The row of a derived scope holds the scope's facts. */
  lemma DerivedRow(db: Database, project: Id, tree: Tree, at: Stamp, i: nat)
    requires i < |Derived(project, tree)|
    ensures var scope := Ascending(Scopes(tree.paths))[i];
            var done := Reindexed(db, project, tree, at);
            GitId(project, scope) in done.modules
                && done.modules[GitId(project, scope)].facts == FactsOf(project, tree, scope, i)
  {
    hide Held, Scopes, Legacy, Indexed, Ascending;
    var items := Derived(project, tree);
    var scope := Ascending(Scopes(tree.paths))[i];
    assert ItemIds(project, items)[i] == GitId(project, scope);
    RowsReconciled(db, project, tree, at, GitId(project, scope));
  }

  lemma IdentifiedMember(project: Id, scopes: seq<string>, id: ModuleId)
    requires id in Identified(project, scopes)
    ensures id.GitId? && id.project == project && id.scope in scopes
  {}

  /** Every dependency of a derived module names another module of the project that is active. */
  lemma DependenciesResolve(db: Database, project: Id, tree: Tree, at: Stamp, scope: string, dependency: ModuleId)
    requires IdsOwn(db) && scope in Scopes(tree.paths)
    ensures var done := Reindexed(db, project, tree, at);
            && GitId(project, scope) in done.modules
            && (dependency in done.modules[GitId(project, scope)].facts.dependencies ==>
                  dependency != GitId(project, scope) && GitRow(done, project, dependency)
                      && done.modules[dependency].status == Active)
  {
    hide Scopes, Indexed, Ascending;
    var done := Reindexed(db, project, tree, at);
    var scopes := Ascending(Scopes(tree.paths));
    var i :| 0 <= i < |scopes| && scopes[i] == scope;
    DerivedRow(db, project, tree, at, i);
    if dependency in done.modules[GitId(project, scope)].facts.dependencies {
      IdentifiedMember(project, Ascending(DependencyScopes(tree, scope)), dependency);
      ActiveModulesAreDerived(db, project, tree, at, dependency);
    }
  }

  /** Ids keep belonging to their projects. */
  lemma IdsStayOwn(db: Database, project: Id, tree: Tree, at: Stamp)
    requires IdsOwn(db)
    ensures IdsOwn(Reindexed(db, project, tree, at))
  {
    hide Held, Indexed, Legacy;
    var items := Derived(project, tree);
    var done := Reindexed(db, project, tree, at);
    forall id | id in done.modules && id.GitId? ensures done.modules[id].project == id.project {
      RowsReconciled(db, project, tree, at, id);
      RetainedId(project, items, id);
    }
  }

  /** Another project's modules are left alone. */
  lemma OtherProjectsUntouched(db: Database, project: Id, tree: Tree, at: Stamp, id: ModuleId)
    requires IdsOwn(db)
    requires id in db.modules && db.modules[id].project != project
    ensures var done := Reindexed(db, project, tree, at); id in done.modules && done.modules[id] == db.modules[id]
  {
    hide Held, Indexed;
    var items := Derived(project, tree);
    RowsReconciled(db, project, tree, at, id);
    RetainedId(project, items, id);
  }

  // ---------------------------------------------------------------- dependencies of every git module

  predicate IsDerivedId(project: Id, tree: Tree, id: ModuleId) {
    id.GitId? && id.project == project && id.scope in Scopes(tree.paths)
  }

  /** Every dependency of a git module of the project names another git module of the project that is active. */
  ghost predicate Resolved(db: Database, project: Id) {
    forall id, d | GitRow(db, project, id) && d in db.modules[id].facts.dependencies ::
      d != id && GitRow(db, project, d) && db.modules[d].status == Active
  }

  /** A module that an index will orphan depends on nothing but scopes that are still there. */
  predicate OrphanResolves(db: Database, project: Id, tree: Tree, id: ModuleId) {
    GitRow(db, project, id) && Held(db, id) && !IsDerivedId(project, tree, id) ==>
      forall d | d in db.modules[id].facts.dependencies :: IsDerivedId(project, tree, d)
  }

  /** The dependencies of one git row after an index: a derived row's always resolve, an orphan's exactly when they name
      derived modules. */
  lemma RowResolves(db: Database, project: Id, tree: Tree, at: Stamp, id: ModuleId)
    requires IdsOwn(db) && GitRow(Reindexed(db, project, tree, at), project, id)
    ensures var done := Reindexed(db, project, tree, at);
            (forall d | d in done.modules[id].facts.dependencies ::
               d != id && GitRow(done, project, d) && done.modules[d].status == Active)
              <==> OrphanResolves(db, project, tree, id)
  {
    hide Held, Scopes, Legacy, Indexed;
    var done := Reindexed(db, project, tree, at);
    ActiveModulesAreDerived(db, project, tree, at, id);
    RowsReconciled(db, project, tree, at, id);
    RetainedId(project, Derived(project, tree), id);
    DerivedShape(project, tree);
    forall d | d in done.modules[id].facts.dependencies
      ensures IsDerivedId(project, tree, d) <==> GitRow(done, project, d) && done.modules[d].status == Active
      ensures IsDerivedId(project, tree, id) ==> d != id && IsDerivedId(project, tree, d) {
      ActiveModulesAreDerived(db, project, tree, at, d);
      if IsDerivedId(project, tree, id) {
        DependenciesResolve(db, project, tree, at, id.scope, d);
      }
    }
  }

  /** After an index every dependency of every git module resolves if and only if the modules it orphans depend on
      scopes that are still tracked. */
  lemma DependenciesResolveExactly(db: Database, project: Id, tree: Tree, at: Stamp)
    requires IdsOwn(db)
    ensures Resolved(Reindexed(db, project, tree, at), project) <==>
            forall id | id in db.modules :: OrphanResolves(db, project, tree, id)
  {
    hide Held, Scopes, Legacy, Indexed, OrphanResolves, IsDerivedId;
    var done := Reindexed(db, project, tree, at);
    forall id | id in db.modules
      ensures Resolved(done, project) ==> OrphanResolves(db, project, tree, id) {
      OrphanStays(db, project, tree, at, id);
      if GitRow(done, project, id) {
        RowResolves(db, project, tree, at, id);
      }
    }
    forall id | GitRow(done, project, id)
      ensures (forall k | k in db.modules :: OrphanResolves(db, project, tree, k)) ==>
                forall d | d in done.modules[id].facts.dependencies ::
                  d != id && GitRow(done, project, d) && done.modules[d].status == Active {
      RowResolves(db, project, tree, at, id);
      OrphanStays(db, project, tree, at, id);
    }
  }

  /** Only a held git row that survives has anything to resolve. */
  lemma OrphanStays(db: Database, project: Id, tree: Tree, at: Stamp, id: ModuleId)
    requires IdsOwn(db)
    ensures !GitRow(Reindexed(db, project, tree, at), project, id) ==> OrphanResolves(db, project, tree, id)
    ensures id !in db.modules ==> OrphanResolves(db, project, tree, id)
  {
    hide Held, Scopes, Legacy, Indexed, Derived;
    RowsReconciled(db, project, tree, at, id);
    RetainedId(project, Derived(project, tree), id);
    DerivedShape(project, tree);
    if id in ItemIds(project, Derived(project, tree)) {
      assert id == GitId(project, id.scope);
    }
  }

  /** Two modules, the first with a note and importing from the second; all dependencies resolve. */
  const LINKED_PAIR := Database(
    map[GitId(1, "src/a") := Module(1, Facts("A", "backend", "src/a", [], [GitId(1, "src/b")], 80, 120), Active, Git,
                                    0, 0),
        GitId(1, "src/b") := Module(1, Facts("B", "backend", "src/b", [], [], 380, 120), Active, Git, 0, 0)],
    map[7 := Attached(1, GitId(1, "src/a"), "keep")], map[], map[], map[], map[1 := 0])

  lemma Dangles(db: Database, project: Id, id: ModuleId, d: ModuleId)
    requires GitRow(db, project, id) && d in db.modules[id].facts.dependencies && d !in db.modules
    ensures !Resolved(db, project)
  {
    assert !GitRow(db, project, d);
  }

  /** When both sources disappear, the module with the note stays as an orphan and names a module that is gone. */
  lemma OrphanDangles(tree: Tree, at: Stamp)
    requires tree.paths == []
    ensures var done := Reindexed(LINKED_PAIR, 1, tree, at);
            && IdsOwn(LINKED_PAIR) && Resolved(LINKED_PAIR, 1) && !Resolved(done, 1)
            && GitRow(done, 1, GitId(1, "src/a"))
                 && GitId(1, "src/b") in done.modules[GitId(1, "src/a")].facts.dependencies
            && GitId(1, "src/b") !in done.modules
  {
    hide Legacy, Indexed;
    var a, b := GitId(1, "src/a"), GitId(1, "src/b");
    assert LINKED_PAIR.notes[7].moduleId == a;
    assert Held(LINKED_PAIR, a) && !Held(LINKED_PAIR, b);
    DerivedShape(1, tree);
    RowsReconciled(LINKED_PAIR, 1, tree, at, a);
    RowsReconciled(LINKED_PAIR, 1, tree, at, b);
    var done := Reindexed(LINKED_PAIR, 1, tree, at);
    Dangles(done, 1, a, b);
  }

  // ---------------------------------------------------------------- running it twice

  function UndatedModules(modules: map<ModuleId, Module>): map<ModuleId, Module> {
    map id | id in modules :: modules[id].(updatedAt := 0)
  }

  function UndatedListings(listings: map<Id, Listing>): map<Id, Listing> {
    map p | p in listings :: listings[p].(indexedAt := 0)
  }

  /** The database without the update times that an index writes. */
  function Undated(db: Database): Database {
    db.(modules := UndatedModules(db.modules), listings := UndatedListings(db.listings),
        projects := map p | p in db.projects :: 0)
  }

  lemma RowTwice(db: Database, once: Database, twice: Database, project: Id, items: seq<Facts>, at: Stamp,
                 later: Stamp, id: ModuleId)
    requires IdsOwn(db) && once.notes == db.notes && once.tasks == db.tasks
    requires RowReconciled(db, once, project, items, at, id) && RowReconciled(once, twice, project, items, later, id)
    ensures (id in once.modules <==> id in twice.modules)
    ensures id in once.modules ==> once.modules[id].(updatedAt := 0) == twice.modules[id].(updatedAt := 0)
  {}

  lemma {:induction false} SecondDeletionsIdle(once: Database, project: Id, retained: seq<ModuleId>, later: Stamp)
    requires forall id | GitRow(once, project, id) && id !in retained :: Held(once, id)
    requires forall id | id in once.modules :: id !in Legacy(once, project, LEGACY_DEFAULT_SCOPES)
    ensures Cleaned(once, project, retained, later).markers == once.markers
  {
    hide Held;
    assert Stale(once, project, retained) == {};
    DeleteNothing(once);
    var orphaned := Orphan(once, project, retained, later);
    SameHeld(once, orphaned);
    assert Legacy(orphaned, project, LEGACY_DEFAULT_SCOPES) == {};
    DeleteNothing(orphaned);
  }

  lemma NothingLeftToDelete(db: Database, project: Id, tree: Tree, at: Stamp)
    requires IdsOwn(db)
    ensures var once := Reindexed(db, project, tree, at);
            && (forall id | GitRow(once, project, id) && id !in ItemIds(project, Derived(project, tree)) ::
                Held(once, id))
            && (forall id | id in once.modules :: id !in Legacy(once, project, LEGACY_DEFAULT_SCOPES))
  {
    hide Held, Indexed;
    var items := Derived(project, tree);
    var once := Reindexed(db, project, tree, at);
    IndexKeepsWork(db, project, tree, at);
    SameHeld(db, once);
    forall id
      ensures GitRow(once, project, id) && id !in ItemIds(project, items) ==> Held(once, id)
      ensures id in once.modules ==> id !in Legacy(once, project, LEGACY_DEFAULT_SCOPES) {
      RowsReconciled(db, project, tree, at, id);
      RetainedId(project, items, id);
    }
  }

  lemma ModulesTwice(db: Database, project: Id, tree: Tree, at: Stamp, later: Stamp)
    requires IdsOwn(db)
    ensures var once := Reindexed(db, project, tree, at);
            UndatedModules(Reindexed(once, project, tree, later).modules) == UndatedModules(once.modules)
  {
    hide RowReconciled, Indexed;
    var items := Derived(project, tree);
    var once := Reindexed(db, project, tree, at);
    var twice := Reindexed(once, project, tree, later);
    IndexKeepsWork(db, project, tree, at);
    forall id
      ensures id in once.modules <==> id in twice.modules
      ensures id in once.modules ==> once.modules[id].(updatedAt := 0) == twice.modules[id].(updatedAt := 0) {
      RowsReconciled(db, project, tree, at, id);
      RowsReconciled(once, project, tree, later, id);
      RowTwice(db, once, twice, project, items, at, later, id);
    }
  }

  /** Indexing the same tree again changes nothing but update times. */
  lemma IndexTwice(db: Database, project: Id, tree: Tree, at: Stamp, later: Stamp)
    requires IdsOwn(db)
    ensures var once := Reindexed(db, project, tree, at);
            project in once.projects && Undated(Reindexed(once, project, tree, later)) == Undated(once)
  {
    hide Legacy, UndatedModules, UndatedListings, Indexed;
    var items := Derived(project, tree);
    var once := Reindexed(db, project, tree, at);
    var twice := Reindexed(once, project, tree, later);
    ModulesTwice(db, project, tree, at, later);
    NothingLeftToDelete(db, project, tree, at);
    SecondDeletionsIdle(once, project, ItemIds(project, items), later);
    OtherTables(db, project, tree, items, at);
    OtherTables(once, project, tree, items, later);
    ListingTwice(db.listings, project, Listing(tree.commit, tree.files, tree.fileEdges, |items|, at), later);
    assert Undated(once).projects == Undated(twice).projects;
  }

  lemma OtherTables(db: Database, project: Id, tree: Tree, items: seq<Facts>, at: Stamp)
    ensures var done := Indexed(db, project, tree, items, at);
            && done.notes == db.notes && done.tasks == db.tasks
            && done.markers == Cleaned(db, project, ItemIds(project, items), at).markers
            && done.listings == db.listings[project := Listing(tree.commit, tree.files, tree.fileEdges, |items|, at)]
            && done.projects == db.projects[project := at]
  {}

  lemma ListingTwice(listings: map<Id, Listing>, project: Id, row: Listing, later: Stamp)
    ensures UndatedListings(listings[project := row][project := row.(indexedAt := later)])
              == UndatedListings(listings[project := row])
  {}
}
