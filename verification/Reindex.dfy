/** Re-indexing a project: the module table is reconciled with the modules derived from the tracked files. */
module Reindex {
  import opened Prelude
  import opened TextOrder

  // ---------------------------------------------------------------- the tables

  /** `module_id` hashes project and scope; the hash is taken to be injective. Other modules carry ids of their own. */
  datatype ModuleId = GitId(project: Id, scope: string) | OwnId(id: Id)

  datatype Origin = Git | Manual
  datatype Status = Active | Orphaned | Other(status: string)

  /** The columns that an index derives for a scope. */
  datatype Facts = Facts(title: string, kind: string, scope: string, aliases: seq<string>, dependencies: seq<ModuleId>,
                         x: int, y: int)

  datatype Module = Module(project: Id, facts: Facts, status: Status, origin: Origin, createdAt: Stamp,
                           updatedAt: Stamp)

  /** A note, a task or a marker on a module. */
  datatype Attached = Attached(project: Id, moduleId: ModuleId, body: string)

  /** The repository_indexes row together with the file and file dependency rows, which an index replaces wholesale. */
  datatype Listing = Listing(commit: string, files: set<string>, fileEdges: set<(string, string)>, modules: nat,
                             indexedAt: Stamp)

  datatype Database = Database(modules: map<ModuleId, Module>, notes: map<Id, Attached>, tasks: map<Id, Attached>,
                               markers: map<Id, Attached>,
                               listings: map<Id, Listing>, projects: map<Id, Stamp>)

  // ---------------------------------------------------------------- the derived modules

  /** A tracked path: its components and its lower-cased suffix. */
  datatype TrackedPath = TrackedPath(parts: seq<string>, suffix: string)

  /** What an index reads from the repository. `mentions` are the scopes a file's import lines name, known or not;
      titles and aliases are text functions of the scope. */
  datatype Tree = Tree(paths: seq<TrackedPath>, mentions: TrackedPath -> set<string>, title: string -> string,
                       aliases: string -> seq<string>,
                       commit: string, files: set<string>, fileEdges: set<(string, string)>)

  const SOURCE_SUFFIXES := {".py", ".ts", ".tsx", ".js", ".jsx", ".mjs", ".cjs", ".css", ".html", ".sql"}

  function Joined(parts: seq<string>): string {
    if parts == [] then "" else if |parts| == 1 then parts[0] else parts[0] + "/" + Joined(parts[1..])
  }

  function ModuleScope(path: TrackedPath): Option<string> {
    if path.suffix !in SOURCE_SUFFIXES then None
    else if |path.parts| >= 2 && path.parts[0] == "src" then Some(Joined(path.parts[..2]))
    else if |path.parts| >= 4 && path.parts[..3] == ["frontend", "client", "src"] then Some(Joined(path.parts[..4]))
    else if path.parts != [] && path.parts[0] == "tests" then Some("tests")
    else None
  }

  predicate StartsWith(text: string, prefix: string) {
    |prefix| <= |text| && text[..|prefix|] == prefix
  }

  function ModuleKind(scope: string): string {
    if StartsWith(scope, "frontend/") then "frontend"
    else if StartsWith(scope, "src/") then "backend"
    else if scope == "tests" then "test"
    else "repository"
  }

  function Scopes(paths: seq<TrackedPath>): set<string> {
    set p | p in paths && ModuleScope(p).Some? :: ModuleScope(p).value
  }

  /** The other known scopes that the files of a scope import from. */
  function DependencyScopes(tree: Tree, scope: string): set<string> {
    set p, t | p in tree.paths && ModuleScope(p) == Some(scope) && t in tree.mentions(p) && t in Scopes(tree.paths)
        && t != scope :: t
  }

  function Identified(project: Id, scopes: seq<string>): seq<ModuleId> {
    seq(|scopes|, i requires 0 <= i < |scopes| => GitId(project, scopes[i]))
  }

  ghost function FactsOf(project: Id, tree: Tree, scope: string, index: nat): Facts {
    Facts(tree.title(scope), ModuleKind(scope), scope, tree.aliases(scope),
          Identified(project, Ascending(DependencyScopes(tree, scope))), 80 + index % 4 * 300, 120 + index / 4 * 190)
  }

  /** One derived module per scope, in ascending order. */
  ghost function Derived(project: Id, tree: Tree): (items: seq<Facts>)
    ensures |items| == |Ascending(Scopes(tree.paths))|
  {
    var scopes := Ascending(Scopes(tree.paths));
    seq(|scopes|, i requires 0 <= i < |scopes| => FactsOf(project, tree, scopes[i], i))
  }

  /** The paths of each scope, in tracked order. */
  method GroupPaths(paths: seq<TrackedPath>) returns (grouped: map<string, seq<TrackedPath>>)
    ensures grouped.Keys == Scopes(paths)
    ensures forall s, p | s in grouped :: p in grouped[s] <==> p in paths && ModuleScope(p) == Some(s)
  {
    hide ModuleScope, Scopes;
    grouped := map[];
    ScopesNil();
    assert paths[..0] == [];
    var n := 0;
    while n < |paths|
      invariant 0 <= n <= |paths| && grouped.Keys == Scopes(paths[..n])
      invariant forall s, p | s in grouped :: p in grouped[s] <==> p in paths[..n] && ModuleScope(p) == Some(s)
      invariant forall p | p in paths[..n] && ModuleScope(p).Some? :: ModuleScope(p).value in grouped
    {
      var path := paths[n];
      assert paths[..n + 1] == paths[..n] + [path];
      ScopesSnoc(paths[..n], path);
      var scope := ModuleScope(path);
      if scope.Some? {
        grouped := grouped[scope.value := (if scope.value in grouped then grouped[scope.value] else []) + [path]];
      }
      n := n + 1;
    }
    assert paths[..|paths|] == paths;
  }

  lemma ScopesNil()
    ensures Scopes([]) == {}
  {}

  method DeriveModule(project: Id, tree: Tree, available: set<string>, paths: seq<TrackedPath>, scope: string,
                      index: nat) returns (item: Facts)
    requires available == Scopes(tree.paths)
    requires forall p :: p in paths <==> p in tree.paths && ModuleScope(p) == Some(scope)
    ensures item == FactsOf(project, tree, scope, index)
  {
    hide Ascending, ModuleScope, Scopes, DependencyScopes;
    var found := CollectDependencies(tree, available, paths, scope);
    var dependencies := Sort(found);
    item := Facts(tree.title(scope), ModuleKind(scope), scope, tree.aliases(scope), Identified(project, dependencies),
                  80 + index % 4 * 300, 120 + index / 4 * 190);
  }

  /** `_derived_modules`. */
  method DerivedModules(project: Id, tree: Tree) returns (items: seq<Facts>)
    ensures items == Derived(project, tree)
  {
    hide Ascending, ModuleScope, Scopes, FactsOf;
    var grouped := GroupPaths(tree.paths);
    var available := grouped.Keys;
    var scopes := Sort(available);
    items := [];
    while |items| < |scopes|
      invariant |items| <= |scopes|
      invariant forall i | 0 <= i < |items| :: items[i] == FactsOf(project, tree, scopes[i], i)
    {
      assert scopes[|items|] in scopes;
      var item := DeriveModule(project, tree, available, grouped[scopes[|items|]], scopes[|items|], |items|);
      items := items + [item];
    }
  }

  lemma ScopesSnoc(paths: seq<TrackedPath>, path: TrackedPath)
    ensures Scopes(paths + [path]) == if ModuleScope(path).Some? then Scopes(paths) + {ModuleScope(path).value}
              else Scopes(paths)
  {}

  method CollectDependencies(tree: Tree, available: set<string>, paths: seq<TrackedPath>, scope: string)
    returns (found: set<string>)
    requires available == Scopes(tree.paths)
    requires forall p :: p in paths <==> p in tree.paths && ModuleScope(p) == Some(scope)
    ensures found == DependencyScopes(tree, scope)
  {
    hide ModuleScope, Scopes;
    found := {};
    var i := 0;
    while i < |paths|
      invariant 0 <= i <= |paths|
      invariant found == set p, t | p in paths[..i] && t in tree.mentions(p) && t in available :: t
    {
      assert forall p :: p in paths[..i + 1] <==> p in paths[..i] || p == paths[i];
      found := found + tree.mentions(paths[i]) * available;
      i := i + 1;
    }
    assert paths[..|paths|] == paths;
    found := found - {scope};
  }

  // ---------------------------------------------------------------- the write transaction

  predicate Held(db: Database, id: ModuleId) {
    (exists n | n in db.notes :: db.notes[n].moduleId == id) || (exists t | t in db.tasks :: db.tasks[t].moduleId == id)
  }

  function Remaining(rows: map<Id, Attached>, gone: set<ModuleId>): map<Id, Attached> {
    map k | k in rows && rows[k].moduleId !in gone :: rows[k]
  }

  /** DELETE FROM modules, with ON DELETE CASCADE on notes, tasks and markers. */
  function DeleteModules(db: Database, gone: set<ModuleId>): Database {
    db.(modules := db.modules - gone, notes := Remaining(db.notes, gone), tasks := Remaining(db.tasks, gone),
        markers := Remaining(db.markers, gone))
  }

  predicate GitRow(db: Database, project: Id, id: ModuleId) {
    id in db.modules && db.modules[id].project == project && db.modules[id].origin == Git
  }

  function Stale(db: Database, project: Id, retained: seq<ModuleId>): set<ModuleId> {
    set id | id in db.modules && GitRow(db, project, id) && id !in retained && !Held(db, id)
  }

  function Orphan(db: Database, project: Id, retained: seq<ModuleId>, at: Stamp): Database {
    db.(modules := map id | id in db.modules ::
      if GitRow(db, project, id) && id !in retained then db.modules[id].(status := Orphaned, updatedAt := at)
          else db.modules[id])
  }

  const LEGACY_DEFAULT_SCOPES := {"src/orchestrator", "frontend/client/src/hooks/useChat.ts",
                                  "src/storage/run_store.py",
                                  "src/policy", "frontend/client/src/components/TaskGraph.tsx"}

  function Legacy(db: Database, project: Id, scopes: set<string>): set<ModuleId> {
    set id | id in db.modules && db.modules[id].project == project && db.modules[id].facts.scope in scopes
             && db.modules[id].origin == Manual && !Held(db, id)
  }

  /** INSERT .. ON CONFLICT(id) DO UPDATE; a conflict keeps the row's project and creation time. */
  function Upsert(modules: map<ModuleId, Module>, project: Id, item: Facts, at: Stamp): map<ModuleId, Module> {
    var id := GitId(project, item.scope);
    modules[id := if id in modules then modules[id].(facts := item, status := Active, origin := Git, updatedAt := at)
                  else Module(project, item, Active, Git, at, at)]
  }

  function UpsertAll(modules: map<ModuleId, Module>, project: Id, items: seq<Facts>, at: Stamp): map<ModuleId, Module> {
    if items == [] then modules else Upsert(UpsertAll(modules, project, items[..|items| - 1], at), project,
                                            items[|items| - 1], at)
  }

  function ItemIds(project: Id, items: seq<Facts>): seq<ModuleId> {
    seq(|items|, i requires 0 <= i < |items| => GitId(project, items[i].scope))
  }

  /** The database between the deletions and the upserts. */
  function Cleaned(db: Database, project: Id, retained: seq<ModuleId>, at: Stamp): Database {
    var orphaned := Orphan(DeleteModules(db, Stale(db, project, retained)), project, retained, at);
    DeleteModules(orphaned, Legacy(orphaned, project, LEGACY_DEFAULT_SCOPES))
  }

  /** The write transaction for a project that exists. */
  function Indexed(db: Database, project: Id, tree: Tree, items: seq<Facts>, at: Stamp): Database {
    var cleaned := Cleaned(db, project, ItemIds(project, items), at);
    cleaned.(modules := UpsertAll(cleaned.modules, project, items, at),
             listings := cleaned.listings[project := Listing(tree.commit, tree.files, tree.fileEdges, |items|, at)],
             projects := cleaned.projects[project := at])
  }

  /** A re-index of a tree. */
  ghost function Reindexed(db: Database, project: Id, tree: Tree, at: Stamp): Database {
    Indexed(db, project, tree, Derived(project, tree), at)
  }

  class RepositoryIndex {
    var db: Database

    constructor (db: Database)
      ensures this.db == db
    {
      this.db := db;
    }

    method DeleteLegacyDefaults(project: Id)
      modifies this
      ensures db == DeleteModules(old(db), Legacy(old(db), project, LEGACY_DEFAULT_SCOPES))
    {
      var left := LEGACY_DEFAULT_SCOPES;
      ghost var done: set<string> := {};
      DeleteNothing(db);
      assert Legacy(db, project, {}) == {};
      while left != {}
        invariant done + left == LEGACY_DEFAULT_SCOPES
        invariant db == DeleteModules(old(db), Legacy(old(db), project, done))
        decreases |left|
      {
        var scope :| scope in left;
        DeleteLegacyStep(old(db), project, done, scope);
        db := DeleteModules(db, Legacy(db, project, {scope}));
        done, left := done + {scope}, left - {scope};
      }
    }

    method UpsertModules(project: Id, items: seq<Facts>, at: Stamp)
      modifies this
      ensures db == old(db).(modules := UpsertAll(old(db).modules, project, items, at))
    {
      var i := 0;
      while i < |items|
        invariant 0 <= i <= |items| && db == old(db).(modules := UpsertAll(old(db).modules, project, items[..i], at))
      {
        assert items[..i + 1][..i] == items[..i];
        db := db.(modules := Upsert(db.modules, project, items[i], at));
        i := i + 1;
      }
      assert items[..|items|] == items;
    }

    /** The whole call; false is LookupError, after which nothing has changed. */
    method IndexRepository(project: Id, tree: Tree, at: Stamp) returns (indexed: bool)
      modifies this
      ensures indexed == (project in old(db).projects)
      ensures db == if indexed then Reindexed(old(db), project, tree, at) else old(db)
    {
      var derived := DerivedModules(project, tree);
      if project !in db.projects {
        return false;
      }
      var retained := ItemIds(project, derived);
      db := DeleteModules(db, Stale(db, project, retained));
      db := Orphan(db, project, retained, at);
      DeleteLegacyDefaults(project);
      UpsertModules(project, derived, at);
      db := db.(listings := db.listings[project := Listing(tree.commit, tree.files, tree.fileEdges, |derived|, at)],
                projects := db.projects[project := at]);
      indexed := true;
    }
  }

  lemma DeleteNothing(db: Database)
    ensures DeleteModules(db, {}) == db
  {}

  /** Deleting modules without notes and tasks deletes no note and no task. */
  lemma UnheldCascade(db: Database, gone: set<ModuleId>)
    requires forall id | id in gone :: !Held(db, id)
    ensures DeleteModules(db, gone).notes == db.notes && DeleteModules(db, gone).tasks == db.tasks
    ensures forall id :: Held(DeleteModules(db, gone), id) == Held(db, id)
  {}

  lemma DeleteTwice(db: Database, one: set<ModuleId>, two: set<ModuleId>)
    ensures DeleteModules(DeleteModules(db, one), two) == DeleteModules(db, one + two)
  {}

  lemma DeleteLegacyStep(db: Database, project: Id, done: set<string>, scope: string)
    ensures var before := DeleteModules(db, Legacy(db, project, done));
            DeleteModules(before, Legacy(before, project, {scope}))
                == DeleteModules(db, Legacy(db, project, done + {scope}))
  {
    hide Held;
    var gone := Legacy(db, project, done);
    var before := DeleteModules(db, gone);
    UnheldCascade(db, gone);
    DeleteTwice(db, gone, Legacy(before, project, {scope}));
    assert gone + Legacy(before, project, {scope}) == Legacy(db, project, done + {scope});
  }
}
