/**
 The module dependency graph and its topological sort (crates/nexl-modules/src/lib.rs), and `eval_modules`, which runs
 on its result (crates/nexl-eval/src/modules.rs).
*/
module ModuleGraph {
  import opened Basics
  import opened ModuleEval

  /** The dependencies of each module, one per import declaration. */
  type Graph = map<Name, seq<Name>>

  /** Every module once, dependencies first. */
  ghost predicate Sorted(edges: Graph, order: seq<Name>) {
    (forall n <- edges :: n in order) && Placed(edges, order)
  }

  /** Distinct modules, each after its dependencies. */
  ghost predicate Placed(edges: Graph, order: seq<Name>) {
    && (forall i, j | 0 <= i < j < |order| :: order[i] != order[j])
    && (forall k | 0 <= k < |order| :: order[k] in edges && forall d <- edges[order[k]] :: d in order[..k])
  }

  /** Modules that no order can place: each waits for another of them or for a module outside the graph. */
  ghost predicate Stuck(edges: Graph, nodes: set<Name>) {
    nodes != {} && nodes <= edges.Keys && forall n <- nodes :: exists d :: d in edges[n] && (d in nodes || d !in edges)
  }

  lemma StuckHasEarlier(edges: Graph, nodes: set<Name>, order: seq<Name>, k: nat)
    requires Stuck(edges, nodes) && Placed(edges, order) && k < |order| && order[k] in nodes
    ensures exists i :: 0 <= i < k && order[i] in nodes
  {
    var d :| d in edges[order[k]] && (d in nodes || d !in edges);
    var i :| 0 <= i < |order[..k]| && order[..k][i] == d;
    assert order[i] in edges;
  }

  lemma {:induction false} StuckNeverPlaced(edges: Graph, nodes: set<Name>, order: seq<Name>, k: nat)
    requires Stuck(edges, nodes) && Placed(edges, order) && k <= |order|
    ensures forall i | 0 <= i < k :: order[i] !in nodes
    decreases k
  {
    hide Stuck, Placed;
    if k > 0 {
      StuckNeverPlaced(edges, nodes, order, k - 1);
      if order[k - 1] in nodes { StuckHasEarlier(edges, nodes, order, k - 1); }
    }
  }

  lemma StuckListed(edges: Graph, nodes: set<Name>, order: seq<Name>)
    requires Stuck(edges, nodes) && Sorted(edges, order)
    ensures exists i :: 0 <= i < |order| && order[i] in nodes
  {
    var n :| n in nodes;
    assert n in order;
  }

  /** A stuck set rules out every order. */
  lemma StuckUnsortable(edges: Graph, nodes: set<Name>, order: seq<Name>)
    requires Stuck(edges, nodes)
    ensures !Sorted(edges, order)
  {
    hide Stuck, Placed;
    if Sorted(edges, order) {
      StuckListed(edges, nodes, order);
      StuckNeverPlaced(edges, nodes, order, |order|);
    }
  }

  // ---------------------------------------------------------------------------------------------
  // Counting dependencies
  // ---------------------------------------------------------------------------------------------

  /** How many dependencies are not done. */
  function Missing(deps: seq<Name>, done: set<Name>): nat {
    if deps == [] then 0 else Missing(deps[..|deps| - 1], done) + if deps[|deps| - 1] in done then 0 else 1
  }

  /** How often a name is listed. */
  function Times(names: seq<Name>, name: Name): nat {
    if names == [] then 0 else Times(names[..|names| - 1], name) + if names[|names| - 1] == name then 1 else 0
  }

  lemma {:induction false} MissingAfter(deps: seq<Name>, done: set<Name>, name: Name)
    requires name !in done
    ensures Missing(deps, done + {name}) + Times(deps, name) == Missing(deps, done)
  {
    if deps != [] { MissingAfter(deps[..|deps| - 1], done, name); }
  }

  lemma {:induction false} MissingNone(deps: seq<Name>, done: set<Name>)
    ensures Missing(deps, done) == 0 <==> forall d <- deps :: d in done
    ensures Missing(deps, {}) == |deps|
  {
    if deps != [] {
      MissingNone(deps[..|deps| - 1], done);
      assert deps == deps[..|deps| - 1] + [deps[|deps| - 1]];
    }
  }

  lemma {:induction false} TimesNone(names: seq<Name>, name: Name)
    ensures Times(names, name) > 0 <==> name in names
  {
    if names != [] {
      TimesNone(names[..|names| - 1], name);
      assert names == names[..|names| - 1] + [names[|names| - 1]];
    }
  }

  lemma TimesStep(names: seq<Name>, last: Name, name: Name)
    ensures Times(names + [last], name) == Times(names, name) + if last == name then 1 else 0
  {
    assert (names + [last])[..|names|] == names;
  }

  lemma {:induction false} TimesPrefix(names: seq<Name>, k: nat, name: Name)
    requires k <= |names|
    ensures Times(names[..k], name) <= Times(names, name)
    decreases |names| - k
  {
    if k < |names| {
      assert names[..k + 1] == names[..k] + [names[k]];
      TimesStep(names[..k], names[k], name);
      TimesPrefix(names, k + 1, name);
    } else {
      assert names[..k] == names;
    }
  }

  function Users(dependents: map<Name, seq<Name>>, dep: Name): seq<Name> {
    if dep in dependents then dependents[dep] else []
  }

  /**
   How often `d` is a dependency of `m`, for the modules gone through so far and the first `k` dependencies of `at`.
  */
  function Listed(edges: Graph, through: set<Name>, at: Name, k: nat, m: Name, d: Name): nat
    requires through <= edges.Keys && at in edges && k <= |edges[at]|
  {
    if m == at then Times(edges[at][..k], d) else if m in through then Times(edges[m], d) else 0
  }

  /** Each module is listed under a dependency as often as it names it. */
  ghost predicate Reversed(dependents: map<Name, seq<Name>>, edges: Graph, through: set<Name>)
    requires through <= edges.Keys
  {
    forall d, m :: Times(Users(dependents, d), m) == if m in through then Times(edges[m], d) else 0
  }

  /** The first loop of `topo_sort`. */
  method CountDependencies(edges: Graph) returns (indegree: map<Name, nat>, dependents: map<Name, seq<Name>>)
    ensures indegree.Keys == edges.Keys && forall m <- edges :: indegree[m] == |edges[m]|
    ensures Reversed(dependents, edges, edges.Keys)
  {
    indegree, dependents := map[], map[];
    var todo := edges.Keys;
    while todo != {}
      invariant todo <= edges.Keys && indegree.Keys == edges.Keys - todo
      invariant forall m <- indegree :: indegree[m] == |edges[m]|
      invariant Reversed(dependents, edges, edges.Keys - todo)
      decreases todo
    {
      var m :| m in todo;
      indegree := indegree[m := |edges[m]|];
      dependents := AddUser(edges, edges.Keys - todo, m, dependents);
      todo := todo - {m};
      assert edges.Keys - todo == edges.Keys - (todo + {m}) + {m};
    }
    assert edges.Keys - todo == edges.Keys;
  }

  method AddUser(edges: Graph, ghost through: set<Name>, m: Name, before: map<Name, seq<Name>>)
    returns (dependents: map<Name, seq<Name>>)
    requires through <= edges.Keys && m in edges && m !in through && Reversed(before, edges, through)
    ensures Reversed(dependents, edges, through + {m})
  {
    dependents := before;
    var deps := edges[m];
    for k := 0 to |deps|
      invariant forall d, n :: Times(Users(dependents, d), n) == Listed(edges, through, m, k, n, d)
    {
      ghost var was := dependents;
      var dep := deps[k];
      dependents := dependents[dep := Users(dependents, dep) + [m]];
      assert deps[..k + 1] == deps[..k] + [dep];
      forall d, n
        ensures Times(Users(dependents, d), n) == Listed(edges, through, m, k + 1, n, d)
      {
        assert Times(Users(was, d), n) == Listed(edges, through, m, k, n, d);
        assert Users(dependents, d) == if d == dep then Users(was, dep) + [m] else Users(was, d);
        TimesStep(Users(was, dep), m, n);
        TimesStep(deps[..k], dep, d);
      }
    }
    assert deps[..|deps|] == deps;
    assert forall d, n ::
        Listed(edges, through, m, |deps|, n, d) == if n in through + {m} then Times(edges[n], d) else 0;
  }

  // ---------------------------------------------------------------------------------------------
  // The sort
  // ---------------------------------------------------------------------------------------------

  /** The counts when the modules in `done` are placed. */
  ghost predicate Counts(edges: Graph, done: set<Name>, indegree: map<Name, nat>) {
    indegree.Keys == edges.Keys && forall m <- edges :: indegree[m] == Missing(edges[m], done)
  }

  ghost predicate Ready(edges: Graph, done: set<Name>, indegree: map<Name, nat>, ready: set<Name>)
    requires indegree.Keys == edges.Keys
  {
    forall m :: m in ready <==> m in edges && m !in done && indegree[m] == 0
  }

  function Elements(order: seq<Name>): set<Name> {
    set n | n in order
  }

  /** `topo_sort`. An error names the modules left over; the smallest ready module is any ready module here. */
  method TopoSort(edges: Graph) returns (r: Result<seq<Name>, set<Name>>)
    ensures r.Ok? ==> Sorted(edges, r.value)
    ensures r.Err? ==> Stuck(edges, r.error)
    ensures r.Err? <==> forall order :: !Sorted(edges, order)
  {
    hide Missing, Times, Sorted, Placed, Stuck, Reversed, Counts, Ready;
    var indegree, dependents := CountDependencies(edges);
    var ready := set m | m in indegree && indegree[m] == 0;
    var order: seq<Name> := [];
    StartCounts(edges, indegree, ready);
    while ready != {}
      invariant Placed(edges, order) && Counts(edges, Elements(order), indegree) && indegree.Keys == edges.Keys
      invariant Ready(edges, Elements(order), indegree, ready)
      decreases edges.Keys - Elements(order)
    {
      var node :| node in ready;
      TakeReady(edges, order, indegree, ready, node);
      assert (ready - {node}) + {node} == ready;
      indegree, ready := Release(edges, dependents, order, node, indegree, ready - {node});
      order := order + [node];
    }
    if |order| != |indegree| {
      var nodes := set m | m in indegree && indegree[m] > 0;
      LeftStuck(edges, order, indegree, nodes);
      forall other ensures !Sorted(edges, other) { StuckUnsortable(edges, nodes, other); }
      return Err(nodes);
    }
    AllPlaced(edges, order);
    r := Ok(order);
  }

  lemma StartCounts(edges: Graph, indegree: map<Name, nat>, ready: set<Name>)
    requires indegree.Keys == edges.Keys && forall m <- edges :: indegree[m] == |edges[m]|
    requires ready == set m | m in indegree && indegree[m] == 0
    ensures Placed(edges, []) && Counts(edges, Elements([]), indegree) && Ready(edges, Elements([]), indegree, ready)
  {
    assert Elements([]) == {};
    forall m | m in edges ensures indegree[m] == Missing(edges[m], {}) { MissingNone(edges[m], {}); }
  }

  /** A ready module can be placed next. */
  lemma TakeReady(edges: Graph, order: seq<Name>, indegree: map<Name, nat>, ready: set<Name>, node: Name)
    requires Placed(edges, order) && Counts(edges, Elements(order), indegree)
    requires Ready(edges, Elements(order), indegree, ready) && node in ready
    ensures Placed(edges, order + [node]) && node in edges && node !in Elements(order)
    ensures Elements(order + [node]) == Elements(order) + {node}
  {
    MissingNone(edges[node], Elements(order));
    var longer := order + [node];
    forall k | 0 <= k < |longer|
      ensures longer[k] in edges && forall d <- edges[longer[k]] :: d in longer[..k]
    {
      assert longer[..k] == order[..k];
      if k == |order| { assert order[..k] == order; }
    }
  }

  /** The loop over the users of a placed module. */
  method Release(
    edges: Graph, dependents: map<Name, seq<Name>>, ghost order: seq<Name>, node: Name, before: map<Name, nat>,
    waiting: set<Name>)
    returns (indegree: map<Name, nat>, ready: set<Name>)
    requires Reversed(dependents, edges, edges.Keys) && Counts(edges, Elements(order), before)
    requires Ready(edges, Elements(order), before, waiting + {node}) && node in edges && node !in waiting
    requires Placed(edges, order) && node !in Elements(order)
    ensures Counts(edges, Elements(order + [node]), indegree) && indegree.Keys == edges.Keys
    ensures Ready(edges, Elements(order + [node]), indegree, ready)
  {
    hide Missing, Times, Reversed, Counts, Ready, Placed, Releasing;
    indegree, ready := before, waiting;
    PlacedClosed(edges, order);
    Unneeded(edges, Elements(order), before, waiting, node);
    var users := Users(dependents, node);
    ghost var done := Elements(order);
    ReleaseStart(edges, done, before, waiting, node);
    for k := 0 to |users|
      invariant Releasing(edges, done, node, users[..k], indegree, ready)
    {
      ReleaseRoom(edges, dependents, done, node, k, indegree, ready);
      var dependent := users[k];
      ghost var was, wasReady := indegree, ready;
      indegree := indegree[dependent := indegree[dependent] - 1];
      if indegree[dependent] == 0 {
        ready := ready + {dependent};
      }
      assert users[..k + 1] == users[..k] + [dependent];
      ReleaseStep(edges, done, node, users[..k], dependent, was, wasReady, indegree, ready);
    }
    assert users[..|users|] == users;
    ReleaseEnd(edges, dependents, order, node, indegree, ready);
  }

  /** After the users in `past` are counted down for `node`. */
  ghost predicate Releasing(
    edges: Graph, done: set<Name>, node: Name, past: seq<Name>, indegree: map<Name, nat>, ready: set<Name>)
  {
    && indegree.Keys == edges.Keys
    && (forall m <- edges :: indegree[m] + Times(past, m) == Missing(edges[m], done))
    && (forall m :: m in ready <==> m in edges && m !in done && m != node && indegree[m] == 0)
  }

  lemma ReleaseStart(edges: Graph, done: set<Name>, before: map<Name, nat>, waiting: set<Name>, node: Name)
    requires Counts(edges, done, before) && Ready(edges, done, before, waiting + {node}) && node !in waiting
    ensures Releasing(edges, done, node, [], before, waiting)
  {
    hide Missing;
    forall m ensures m in waiting <==> m in edges && m !in done && m != node && before[m] == 0 {
      assert m in waiting + {node} <==> m in waiting || m == node;
    }
  }

  /** What is placed has only placed dependencies. */
  ghost predicate DoneClosed(edges: Graph, done: set<Name>) {
    forall m <- done :: m in edges && forall d <- edges[m] :: d in done
  }

  lemma PlacedClosed(edges: Graph, order: seq<Name>)
    requires Placed(edges, order)
    ensures DoneClosed(edges, Elements(order))
  {
    forall m | m in Elements(order)
      ensures m in edges && forall d <- edges[m] :: d in Elements(order)
    {
      var k :| 0 <= k < |order| && order[k] == m;
      assert forall d <- order[..k] :: d in order;
    }
  }

  lemma Unneeded(edges: Graph, done: set<Name>, indegree: map<Name, nat>, waiting: set<Name>, node: Name)
    requires Counts(edges, done, indegree) && Ready(edges, done, indegree, waiting + {node}) && node in edges
    ensures node !in done ==> node !in edges[node]
  {
    assert node in waiting + {node};
    MissingNone(edges[node], done);
  }

  lemma ReleaseRoom(
    edges: Graph, dependents: map<Name, seq<Name>>, done: set<Name>, node: Name, k: nat, indegree: map<Name, nat>,
    ready: set<Name>)
    requires Reversed(dependents, edges, edges.Keys) && DoneClosed(edges, done) && k < |Users(dependents, node)|
    requires node in edges && node !in done && node !in edges[node]
    requires Releasing(edges, done, node, Users(dependents, node)[..k], indegree, ready)
    ensures var m := Users(dependents, node)[k]; m in indegree && indegree[m] > 0 && m !in done && m != node
  {
    hide Missing, Times;
    var users := Users(dependents, node);
    var m := users[k];
    TimesNone(users, m);
    assert m in edges && Times(users, m) == Times(edges[m], node);
    TimesNone(edges[m], node);
    MissingAfter(edges[m], done, node);
    assert users[..k + 1] == users[..k] + [m];
    TimesStep(users[..k], m, m);
    TimesPrefix(users, k + 1, m);
  }

  lemma ReleaseStep(
    edges: Graph, done: set<Name>, node: Name, past: seq<Name>, m: Name, was: map<Name, nat>, wasReady: set<Name>,
    indegree: map<Name, nat>, ready: set<Name>)
    requires Releasing(edges, done, node, past, was, wasReady) && m in was && was[m] > 0 && m !in done && m != node
    requires indegree == was[m := was[m] - 1] && ready == if indegree[m] == 0 then wasReady + {m} else wasReady
    ensures Releasing(edges, done, node, past + [m], indegree, ready)
  {
    hide Missing, Times;
    forall n | n in edges ensures indegree[n] + Times(past + [m], n) == Missing(edges[n], done) {
      TimesStep(past, m, n);
    }
  }

  lemma ReleaseEnd(
    edges: Graph, dependents: map<Name, seq<Name>>, order: seq<Name>, node: Name, indegree: map<Name, nat>,
    ready: set<Name>)
    requires Reversed(dependents, edges, edges.Keys) && node !in Elements(order)
    requires Releasing(edges, Elements(order), node, Users(dependents, node), indegree, ready)
    ensures Counts(edges, Elements(order + [node]), indegree) && indegree.Keys == edges.Keys
    ensures Ready(edges, Elements(order + [node]), indegree, ready)
  {
    hide Missing, Times;
    var done := Elements(order);
    assert Elements(order + [node]) == done + {node};
    forall m | m in edges ensures indegree[m] == Missing(edges[m], done + {node}) {
      assert Times(Users(dependents, node), m) == Times(edges[m], node);
      MissingAfter(edges[m], done, node);
    }
  }

  lemma {:induction false} DistinctSize(order: seq<Name>)
    requires forall i, j | 0 <= i < j < |order| :: order[i] != order[j]
    ensures |Elements(order)| == |order|
  {
    if order == [] {
      assert Elements(order) == {};
    } else {
      var rest, last := order[..|order| - 1], order[|order| - 1];
      DistinctSize(rest);
      assert Elements(order) == Elements(rest) + {last} && last !in rest;
    }
  }

  lemma SubsetSize(some: set<Name>, all: set<Name>)
    requires some <= all
    ensures |some| <= |all| && (|some| == |all| ==> some == all)
  {
    assert all == some + (all - some);
  }

  /** An order as long as the graph places everything. */
  lemma AllPlaced(edges: Graph, order: seq<Name>)
    requires Placed(edges, order) && |order| == |edges.Keys|
    ensures Sorted(edges, order)
  {
    DistinctSize(order);
    SubsetSize(Elements(order), edges.Keys);
    assert forall n <- edges :: n in Elements(order);
  }

  /** When nothing is ready, the modules left over are stuck. */
  lemma LeftStuck(edges: Graph, order: seq<Name>, indegree: map<Name, nat>, nodes: set<Name>)
    requires Placed(edges, order) && Counts(edges, Elements(order), indegree) && indegree.Keys == edges.Keys
    requires Ready(edges, Elements(order), indegree, {}) && |order| != |edges.Keys|
    requires nodes == set m | m in indegree && indegree[m] > 0
    ensures Stuck(edges, nodes)
  {
    var done := Elements(order);
    DistinctSize(order);
    PlacedClosed(edges, order);
    assert done != edges.Keys;
    assert done <= edges.Keys;
    forall n | n in edges ensures n in nodes <==> n !in done {
      MissingNone(edges[n], done);
    }
    forall n | n in nodes ensures exists d :: d in edges[n] && (d in nodes || d !in edges) {
      MissingNone(edges[n], done);
      var d :| d in edges[n] && d !in done;
    }
  }

  // ---------------------------------------------------------------------------------------------
  // eval_modules
  // ---------------------------------------------------------------------------------------------

  function Paths(imports: seq<ImportDecl>): (paths: seq<Name>)
    ensures |paths| == |imports|
  {
    seq(|imports|, i requires 0 <= i < |imports| => imports[i].modulePath)
  }

  /** `build_module_graph` on modules with distinct names. */
  function EdgesOf(byName: map<Name, ModuleSource>): Graph {
    map n | n in byName :: Paths(byName[n].imports)
  }

  /** The orders of the graph are the orders of the modules. */
  lemma SortedIsTopological(byName: map<Name, ModuleSource>, order: seq<Name>)
    ensures Sorted(EdgesOf(byName), order) <==> Topological(byName, order)
  {
    var edges := EdgesOf(byName);
    if Sorted(edges, order) {
      forall k | 0 <= k < |order| ensures ImportsIn(byName[order[k]].imports, order[..k]) {
        var imports := byName[order[k]].imports;
        forall i | 0 <= i < |imports| ensures imports[i].modulePath in order[..k] {
          assert Paths(imports)[i] in edges[order[k]];
        }
      }
    }
    if Topological(byName, order) {
      forall k, d | 0 <= k < |order| && d in edges[order[k]] ensures d in order[..k] {
        var i :| 0 <= i < |Paths(byName[order[k]].imports)| && Paths(byName[order[k]].imports)[i] == d;
      }
    }
  }

  /** Imports that some order respects name modules of the set. */
  lemma TopologicalClosed(byName: map<Name, ModuleSource>, order: seq<Name>)
    requires Topological(byName, order) && forall n <- byName :: byName[n].name == n
    ensures Closed(byName)
  {
    forall n, i | n in byName && 0 <= i < |byName[n].imports| ensures byName[n].imports[i].modulePath in byName {
      var k :| 0 <= k < |order| && order[k] == n;
      assert byName[n].imports[i].modulePath in order[..k];
    }
  }

  datatype ModulesError<E> = Cycle(nodes: set<Name>) | EvalFailed(error: Error<E>)

  type Evaluation<!V, E> = Result<Progress<V>, ModulesError<E>>

  /** The outcome of `eval_modules` when its last loop gives `r`. */
  function Reported<V, E>(r: Result<Progress<V>, Error<E>>): Evaluation<V, E> {
    match r
    case Ok(done) => Ok(done)
    case Err(e) => Err(EvalFailed(e))
  }

  /** The same environments, exports and base, or failures that never are an unknown module. */
  ghost predicate Agrees<V, E>(r: Evaluation<V, E>, expected: Result<Progress<V>, Error<E>>) {
    match expected
    case Ok(done) => r == Ok(done)
    case Err(e) => r.Err? && r.error.EvalFailed? && !r.error.error.UnknownModule? && !e.UnknownModule?
  }

  ghost predicate HasOrder(byName: map<Name, ModuleSource>) {
    exists order :: Topological(byName, order)
  }

  /**
   `eval_modules`. Without a topological order it is a cycle error; otherwise it is evaluation in such an order, and
   never an unknown module. When no form changes the base environment it agrees with every such order.
  */
  method EvalModules<V(!new), E>(host: Host<V, E>, modules: seq<ModuleSource>) returns (r: Evaluation<V, E>)
    ensures match ByName(modules)
            case None => r.Err? && r.error.EvalFailed? && r.error.error.DuplicateModule?
            case Some(byName) =>
              (r.Err? && r.error.Cycle? <==> !HasOrder(byName)) &&
              (HasOrder(byName) ==>
                 exists order :: Topological(byName, order) && r == Reported(InOrder(host, byName, order)) &&
                                 Agrees(r, InOrder(host, byName, order))) &&
              (AllKeepBase(host, byName) ==>
                 forall order | Topological(byName, order) :: Agrees(r, InOrder(host, byName, order)))
  {
    hide InOrder, Topological, Sorted, Stuck, Closed, EdgesOf, Agrees, AllKeepBase;
    var byName := IndexModules<E>(modules);
    if byName.Err? {
      return Err(EvalFailed(byName.error));
    }
    var sorted := TopoSort(EdgesOf(byName.value));
    SameOrders(byName.value);
    if sorted.Err? {
      return Err(Cycle(sorted.error));
    }
    var done := EvalInOrder(host, byName.value, sorted.value);
    r := Reported(done);
    OwnOrder(host, byName.value, sorted.value);
    if AllKeepBase(host, byName.value) { AnyOrder(host, byName.value, sorted.value); }
  }

  lemma SameOrders(byName: map<Name, ModuleSource>)
    ensures forall order :: Sorted(EdgesOf(byName), order) <==> Topological(byName, order)
  {
    hide Sorted, Topological, EdgesOf;
    forall order ensures Sorted(EdgesOf(byName), order) <==> Topological(byName, order) {
      SortedIsTopological(byName, order);
    }
  }

  lemma OwnOrder<V, E>(host: Host<V, E>, byName: map<Name, ModuleSource>, order: seq<Name>)
    requires Topological(byName, order) && forall n <- byName :: byName[n].name == n
    ensures Agrees(Reported(InOrder(host, byName, order)), InOrder(host, byName, order))
  {
    hide InOrder, Topological, Closed;
    TopologicalClosed(byName, order);
    AllKeys(host, byName, order);
  }

  lemma AnyOrder<V(!new), E>(host: Host<V, E>, byName: map<Name, ModuleSource>, one: seq<Name>)
    requires Topological(byName, one) && forall n <- byName :: byName[n].name == n
    requires AllKeepBase(host, byName)
    ensures forall order | Topological(byName, order) ::
              Agrees(Reported(InOrder(host, byName, one)), InOrder(host, byName, order))
  {
    hide InOrder, Topological, Closed, AllKeepBase;
    TopologicalClosed(byName, one);
    forall order | Topological(byName, order)
      ensures Agrees(Reported(InOrder(host, byName, one)), InOrder(host, byName, order))
    {
      OrderIndependent(host, byName, order, one);
    }
  }
}
