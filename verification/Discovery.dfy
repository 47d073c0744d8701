/**
 Module discovery (crates/nexl-cli/src/main.rs, `discover_and_load_modules`): a breadth-first search over imports.
 Resolving a module path, reading and parsing the file is the partial function `load`.
*/
module Discovery {
  import opened Basics
  import opened ModuleEval

  type Loader = Name -> Result<ModuleSource, string>

  function ImportPaths(m: ModuleSource): set<Name> {
    set i | 0 <= i < |m.imports| :: m.imports[i].modulePath
  }

  /** The module found under a path: the entry module under its own name, any other through the loader. */
  function Found(entry: ModuleSource, load: Loader, path: Name): Option<ModuleSource> {
    if path == entry.name then Some(entry)
    else match load(path) case Ok(m) => Some(m) case Err(_) => None
  }

  function ImportsOf(entry: ModuleSource, load: Loader, path: Name): set<Name> {
    match Found(entry, load, path)
    case Some(m) => ImportPaths(m)
    case None => {}
  }

  /** A chain of imports from the entry module. */
  predicate IsChain(entry: ModuleSource, load: Loader, chain: seq<Name>) {
    chain != [] && chain[0] == entry.name &&
    forall i | 0 <= i < |chain| - 1 :: chain[i + 1] in ImportsOf(entry, load, chain[i])
  }

  ghost predicate Reachable(entry: ModuleSource, load: Loader, path: Name) {
    exists chain :: IsChain(entry, load, chain) && chain[|chain| - 1] == path
  }

  lemma EntryReachable(entry: ModuleSource, load: Loader)
    ensures Reachable(entry, load, entry.name)
  {
    assert IsChain(entry, load, [entry.name]);
  }

  lemma ImportReachable(entry: ModuleSource, load: Loader, from: Name, to: Name)
    requires Reachable(entry, load, from) && to in ImportsOf(entry, load, from)
    ensures Reachable(entry, load, to)
  {
    hide ImportsOf;
    var chain :| IsChain(entry, load, chain) && chain[|chain| - 1] == from;
    var longer := chain + [to];
    assert forall i | 0 <= i < |longer| - 1 :: longer[i + 1] in ImportsOf(entry, load, longer[i]);
    assert IsChain(entry, load, longer) && longer[|longer| - 1] == to;
  }

  /** A set that contains the entry and is closed under imports contains everything reachable. */
  lemma {:induction false} ChainInside(entry: ModuleSource, load: Loader, names: set<Name>, chain: seq<Name>)
    requires entry.name in names && forall n <- names :: ImportsOf(entry, load, n) <= names
    requires IsChain(entry, load, chain)
    ensures chain[|chain| - 1] in names
  {
    hide ImportsOf;
    if |chain| > 1 {
      ChainInside(entry, load, names, chain[..|chain| - 1]);
    }
  }

  lemma ReachableInside(entry: ModuleSource, load: Loader, names: set<Name>)
    requires entry.name in names && forall n <- names :: ImportsOf(entry, load, n) <= names
    ensures forall p | Reachable(entry, load, p) :: p in names
  {
    hide ImportsOf;
    forall p | Reachable(entry, load, p)
      ensures p in names
    {
      var chain :| IsChain(entry, load, chain) && chain[|chain| - 1] == p;
      ChainInside(entry, load, names, chain);
    }
  }

  /** `paths` lists distinct paths, and `modules` the modules found under them. */
  ghost predicate Lists(entry: ModuleSource, load: Loader, paths: seq<Name>, modules: seq<ModuleSource>) {
    && |paths| == |modules|
    && (forall i | 0 <= i < |paths| :: Found(entry, load, paths[i]) == Some(modules[i]))
    && (forall i, j | 0 <= i < j < |paths| :: paths[i] != paths[j])
  }

  function PathSet(paths: seq<Name>): set<Name> {
    set p | p in paths
  }

  /**
   The search over a finite `universe` of paths. On success `loaded` is the module of every reachable path, once
   each; it fails exactly when some reachable path cannot be loaded.
  */
  method DiscoverAndLoadModules(entry: ModuleSource, load: Loader, ghost universe: set<Name>)
    returns (r: Result<seq<ModuleSource>, string>, ghost paths: seq<Name>)
    requires entry.name in universe && forall n <- universe :: ImportsOf(entry, load, n) <= universe
    ensures r.Ok? ==> Lists(entry, load, paths, r.value)
    ensures r.Ok? ==> forall p :: p in paths <==> Reachable(entry, load, p)
    ensures r.Ok? ==> forall i | 0 <= i < |r.value| :: ImportPaths(r.value[i]) <= PathSet(paths)
    ensures r.Err? <==> exists p :: Reachable(entry, load, p) && Found(entry, load, p).None?
  {
    hide Reachable, ImportsOf, Found;
    var loaded: seq<ModuleSource>, queue: seq<ModuleSource>, seen: set<Name> := [], [entry], {entry.name};
    ghost var waiting := [entry.name];
    paths := [];
    EntryReachable(entry, load);
    EntryFound(entry, load);
    while queue != []
      invariant Lists(entry, load, paths, loaded)
      invariant Lists(entry, load, paths + waiting, loaded + queue)
      invariant seen == PathSet(paths + waiting) && entry.name in seen && seen <= universe
      invariant forall p <- seen :: Reachable(entry, load, p)
      invariant forall p <- paths :: ImportsOf(entry, load, p) <= seen
      decreases universe - PathSet(paths)
    {
      var m := queue[0];
      ghost var name := waiting[0];
      HeadOfQueue(entry, load, paths, waiting, loaded, queue);
      queue, waiting := queue[1..], waiting[1..];
      ghost var done := paths + [name];
      ghost var before := seen;
      for i := 0 to |m.imports|
        invariant Lists(entry, load, done + waiting, (loaded + [m]) + queue)
        invariant seen == PathSet(done + waiting) && before <= seen <= universe
        invariant forall p <- seen :: Reachable(entry, load, p)
        invariant forall j | 0 <= j < i :: m.imports[j].modulePath in seen
      {
        var path := m.imports[i].modulePath;
        ImportedPath(entry, load, name, m, i);
        if path in seen {
          continue;
        }
        seen := seen + {path};
        ImportReachable(entry, load, name, path);
        NotEntry(entry, load, path);
        match load(path) {
          case Err(e) => return Err(e), paths;
          case Ok(dep) =>
            EnqueueLists(entry, load, done + waiting, (loaded + [m]) + queue, path, dep);
            assert (done + waiting) + [path] == done + (waiting + [path]);
            assert ((loaded + [m]) + queue) + [dep] == (loaded + [m]) + (queue + [dep]);
            queue, waiting := queue + [dep], waiting + [path];
        }
      }
      DoneLists(entry, load, done, waiting, loaded + [m], queue);
      AllImports(entry, load, name, m, seen);
      loaded, paths := loaded + [m], done;
    }
    assert paths + waiting == paths && loaded + queue == loaded;
    ReachableInside(entry, load, seen);
    FoundAll(entry, load, paths, loaded, seen);
    r := Ok(loaded);
  }

  lemma EntryFound(entry: ModuleSource, load: Loader)
    ensures Found(entry, load, entry.name) == Some(entry)
  {
  }

  lemma NotEntry(entry: ModuleSource, load: Loader, path: Name)
    requires path != entry.name
    ensures Found(entry, load, path) == match load(path) case Ok(m) => Some(m) case Err(_) => None
  {
  }

  lemma HeadOfQueue(entry: ModuleSource, load: Loader, paths: seq<Name>, waiting: seq<Name>, loaded: seq<ModuleSource>,
                    queue: seq<ModuleSource>)
    requires Lists(entry, load, paths, loaded) && Lists(entry, load, paths + waiting, loaded + queue) && queue != []
    ensures waiting != [] && Found(entry, load, waiting[0]) == Some(queue[0]) && waiting[0] !in paths
    ensures paths + waiting == (paths + [waiting[0]]) + waiting[1..]
    ensures loaded + queue == (loaded + [queue[0]]) + queue[1..]
    ensures PathSet(paths + [waiting[0]]) == PathSet(paths) + {waiting[0]} && waiting[0] in PathSet(paths + waiting)
  {
    hide Found;
    var k := |paths|;
    assert (paths + waiting)[k] == waiting[0] && (loaded + queue)[k] == queue[0];
    assert forall i | 0 <= i < k :: (paths + waiting)[i] == paths[i];
  }

  lemma ImportedPath(entry: ModuleSource, load: Loader, name: Name, m: ModuleSource, i: nat)
    requires Found(entry, load, name) == Some(m) && i < |m.imports|
    ensures m.imports[i].modulePath in ImportsOf(entry, load, name)
  {
  }

  lemma EnqueueLists(entry: ModuleSource, load: Loader, paths: seq<Name>, modules: seq<ModuleSource>, path: Name,
                     m: ModuleSource)
    requires Lists(entry, load, paths, modules) && path !in PathSet(paths) && Found(entry, load, path) == Some(m)
    ensures Lists(entry, load, paths + [path], modules + [m])
    ensures PathSet(paths + [path]) == PathSet(paths) + {path}
  {
    hide Found;
  }

  lemma DoneLists(entry: ModuleSource, load: Loader, done: seq<Name>, waiting: seq<Name>, loaded: seq<ModuleSource>,
                  queue: seq<ModuleSource>)
    requires Lists(entry, load, done + waiting, loaded + queue) && |done| == |loaded|
    ensures Lists(entry, load, done, loaded)
  {
    hide Found;
    assert forall i | 0 <= i < |done| :: (done + waiting)[i] == done[i] && (loaded + queue)[i] == loaded[i];
  }

  lemma AllImports(entry: ModuleSource, load: Loader, name: Name, m: ModuleSource, seen: set<Name>)
    requires Found(entry, load, name) == Some(m)
    requires forall j | 0 <= j < |m.imports| :: m.imports[j].modulePath in seen
    ensures ImportsOf(entry, load, name) <= seen
  {
  }

  lemma FoundAll(entry: ModuleSource, load: Loader, paths: seq<Name>, loaded: seq<ModuleSource>, seen: set<Name>)
    requires Lists(entry, load, paths, loaded) && seen == PathSet(paths)
    requires forall p | Reachable(entry, load, p) :: p in seen
    requires forall p <- paths :: ImportsOf(entry, load, p) <= seen
    ensures forall p | Reachable(entry, load, p) :: Found(entry, load, p).Some?
    ensures forall i | 0 <= i < |loaded| :: ImportPaths(loaded[i]) <= PathSet(paths)
  {
    hide Found, Reachable;
    forall i | 0 <= i < |loaded|
      ensures ImportPaths(loaded[i]) <= PathSet(paths)
    {
      assert paths[i] in paths && Found(entry, load, paths[i]) == Some(loaded[i]);
      assert ImportsOf(entry, load, paths[i]) == ImportPaths(loaded[i]);
    }
  }
}
