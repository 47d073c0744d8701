/**
 Evaluation of a set of modules (crates/nexl-eval/src/modules.rs): imports, forms, exports, one module after the
 other in a topological order. The evaluation of one form is a function of the form, the module's scope and the base
 environment that all modules share; `ModuleRuns` gives the evaluator for it.
*/
module ModuleEval {
  import opened Basics
  import opened Ast

  type Name = string

  datatype Renaming = Renaming(old_: Name, new_: Name)

  datatype ImportKind =
    | Alias(alias: Name)
    | All
    | Refer(names: seq<Name>)
    | Exclude(excluded: seq<Name>)
    | Rename(renames: seq<Renaming>)

  datatype ImportDecl = ImportDecl(modulePath: Name, kind: ImportKind)

  /** A parsed module: name, `:exports` list, imports, remaining forms. */
  datatype ModuleSource = ModuleSource(
    name: Name, exports: Option<seq<Name>>, imports: seq<ImportDecl>, forms: seq<Node>)

  type Exports<V> = map<Name, V>

  /** The bindings and module aliases of a module's own environment. */
  datatype Scope<V> = Scope(vars: map<Name, V>, aliases: map<Name, Exports<V>>)

  datatype Error<E> =
    | DuplicateModule(name: Name)
    | UnknownModule(name: Name)
    | ImportNotExported(path: Name, name: Name)
    | MissingExport(path: Name, name: Name)
    | FormError(error: E)

  datatype Runtime<V> = Runtime(scope: Scope<V>, exports: Exports<V>)

  /** What a form sees and may change: the module's own scope and the shared base environment. */
  datatype View<V> = View(scope: Scope<V>, base: map<Name, V>)

  /** The base environment before any module is evaluated, and the evaluation of one form. */
  datatype Host<!V, E> = Host(base: map<Name, V>, evalForm: (Node, View<V>) -> Result<View<V>, E>)

  // ---------------------------------------------------------------------------------------------
  // Specification
  // ---------------------------------------------------------------------------------------------

  /** `:refer` and `:rename`: bind each source name under its target name, in order. */
  function Bound<V, E>(path: Name, renames: seq<Renaming>, exports: Exports<V>, vars: map<Name, V>)
    : Result<map<Name, V>, Error<E>>
  {
    if renames == [] then Ok(vars)
    else
      match Bound(path, renames[..|renames| - 1], exports, vars)
      case Err(e) => Err(e)
      case Ok(before) =>
        var r := renames[|renames| - 1];
        if r.old_ in exports then Ok(before[r.new_ := exports[r.old_]]) else Err(ImportNotExported(path, r.old_))
  }

  function Unrenamed(names: seq<Name>): (renames: seq<Renaming>)
    ensures |renames| == |names|
  {
    seq(|names|, i requires 0 <= i < |names| => Renaming(names[i], names[i]))
  }

  function FirstMissing<V>(names: seq<Name>, exports: Exports<V>): Option<Name> {
    if names == [] then None
    else if names[0] !in exports then Some(names[0])
    else FirstMissing(names[1..], exports)
  }

  function Imported<V, E>(decl: ImportDecl, exports: Exports<V>, scope: Scope<V>): Result<Scope<V>, Error<E>> {
    match decl.kind
    case Alias(alias) => Ok(scope.(aliases := scope.aliases[alias := exports]))
    case All => Ok(scope.(vars := scope.vars + exports))
    case Refer(names) => WithVars(scope, Bound(decl.modulePath, Unrenamed(names), exports, scope.vars))
    case Rename(renames) => WithVars(scope, Bound(decl.modulePath, renames, exports, scope.vars))
    case Exclude(excluded) =>
      (match FirstMissing(excluded, exports)
       case Some(name) => Err(ImportNotExported(decl.modulePath, name))
       case None => Ok(scope.(vars := scope.vars + (exports - NameSet(excluded)))))
  }

  function NameSet(names: seq<Name>): set<Name> {
    set n | n in names
  }

  function WithVars<V, E>(scope: Scope<V>, vars: Result<map<Name, V>, Error<E>>): Result<Scope<V>, Error<E>> {
    match vars
    case Ok(v) => Ok(scope.(vars := v))
    case Err(e) => Err(e)
  }

  /** All imports of a module, from the exports of the modules evaluated so far. */
  function ImportedAll<V, E>(imports: seq<ImportDecl>, runtimes: map<Name, Runtime<V>>): Result<Scope<V>, Error<E>> {
    if imports == [] then Ok(Scope(map[], map[]))
    else
      var last := imports[|imports| - 1];
      match ImportedAll(imports[..|imports| - 1], runtimes)
      case Err(e) => Err(e)
      case Ok(scope) =>
        if last.modulePath in runtimes then Imported(last, runtimes[last.modulePath].exports, scope)
        else Err(UnknownModule(last.modulePath))
  }

  /** `top_level_def_name`: the name defined by `(def name ..)` or `(defn name ..)`. */
  function TopLevelDefName(form: Node): Option<Name> {
    if form.kind.List? && |form.kind.items| >= 2 &&
       (HeadName(form.kind.items) == Some("def") || HeadName(form.kind.items) == Some("defn"))
    then
      match form.kind.items[1].kind
      case Atomic(Symbol(None, name)) => Some(name)
      case _ => None
    else None
  }

  datatype Evaluated<V> = Evaluated(defined: seq<Name>, view: View<V>)

  function FormsEvaluated<V, E>(host: Host<V, E>, forms: seq<Node>, view: View<V>): Result<Evaluated<V>, Error<E>> {
    if forms == [] then Ok(Evaluated([], view))
    else
      var last := forms[|forms| - 1];
      match FormsEvaluated(host, forms[..|forms| - 1], view)
      case Err(e) => Err(e)
      case Ok(before) =>
        match host.evalForm(last, before.view)
        case Err(e) => Err(FormError(e))
        case Ok(after) =>
          Ok(Evaluated(before.defined + (match TopLevelDefName(last) case Some(n) => [n] case None => []), after))
  }

  function Lookup<V>(base: map<Name, V>, scope: Scope<V>, name: Name): Option<V> {
    if name in scope.vars then Some(scope.vars[name]) else if name in base then Some(base[name]) else None
  }

  function Exported<V, E>(base: map<Name, V>, path: Name, names: seq<Name>, scope: Scope<V>)
    : Result<Exports<V>, Error<E>>
  {
    if names == [] then Ok(map[])
    else
      var last := names[|names| - 1];
      match Exported(base, path, names[..|names| - 1], scope)
      case Err(e) => Err(e)
      case Ok(before) =>
        match Lookup(base, scope, last)
        case Some(v) => Ok(before[last := v])
        case None => Err(MissingExport(path, last))
  }

  /** A module once evaluated, and the base environment it leaves. */
  datatype Loaded<V> = Loaded(runtime: Runtime<V>, base: map<Name, V>)

  /** One module, given the modules evaluated before it and the base environment they left. */
  function ModuleEvaluated<V, E>(host: Host<V, E>, m: ModuleSource, runtimes: map<Name, Runtime<V>>, base: map<Name, V>)
    : Result<Loaded<V>, Error<E>>
  {
    match ImportedAll(m.imports, runtimes)
    case Err(e) => Err(e)
    case Ok(scope) =>
      match FormsEvaluated(host, m.forms, View(scope, base))
      case Err(e) => Err(e)
      case Ok(done) =>
        match Exported(done.view.base, m.name, m.exports.GetOr(done.defined), done.view.scope)
        case Err(e) => Err(e)
        case Ok(exports) => Ok(Loaded(Runtime(done.view.scope, exports), done.view.base))
  }

  /** The modules evaluated so far, and the base environment they left. */
  datatype Progress<V> = Progress(runtimes: map<Name, Runtime<V>>, base: map<Name, V>)

  /** The modules of `order`, one after the other. */
  function InOrder<V, E>(host: Host<V, E>, byName: map<Name, ModuleSource>, order: seq<Name>)
    : Result<Progress<V>, Error<E>>
  {
    if order == [] then Ok(Progress(map[], host.base))
    else
      var last := order[|order| - 1];
      match InOrder(host, byName, order[..|order| - 1])
      case Err(e) => Err(e)
      case Ok(done) =>
        if last !in byName then Err(UnknownModule(last))
        else
          match ModuleEvaluated(host, byName[last], done.runtimes, done.base)
          case Err(e) => Err(e)
          case Ok(m) => Ok(Progress(done.runtimes[byName[last].name := m.runtime], m.base))
  }

  // ---------------------------------------------------------------------------------------------
  // The imperative code
  // ---------------------------------------------------------------------------------------------

  /** A module environment, filled by imports and definitions. */
  class ModuleEnv<V> {
    var vars: map<Name, V>
    var aliases: map<Name, Exports<V>>

    constructor ()
      ensures Contents() == Scope(map[], map[])
    {
      vars, aliases := map[], map[];
    }

    function Contents(): Scope<V>
      reads this
    {
      Scope(vars, aliases)
    }

    method Define(name: Name, value: V)
      modifies this
      ensures Contents() == old(Contents()).(vars := old(vars)[name := value])
    {
      vars := vars[name := value];
    }

    /** The loop over `exports.iter()`, in whatever order the hash map yields its keys. */
    method DefineAll(exports: Exports<V>)
      modifies this
      ensures Contents() == old(Contents()).(vars := old(vars) + exports)
    {
      var todo := exports.Keys;
      while todo != {}
        invariant todo <= exports.Keys
        invariant aliases == old(aliases) && vars == old(vars) + (exports - todo)
        decreases todo
      {
        var name :| name in todo;
        todo := todo - {name};
        Define(name, exports[name]);
      }
      assert exports - todo == exports;
    }
  }

  /** The base environment, of which every module environment is a child. */
  class BaseEnv<V> {
    var vars: map<Name, V>

    constructor (vars: map<Name, V>)
      ensures this.vars == vars
    {
      this.vars := vars;
    }
  }

  /** `apply_import`. An error aborts the evaluation, so the bindings made before it do not matter. */
  method ApplyImport<V, E>(decl: ImportDecl, exports: Exports<V>, env: ModuleEnv<V>) returns (r: Result<(), Error<E>>)
    modifies env
    ensures match Imported<V, E>(decl, exports, old(env.Contents()))
            case Ok(scope) => r == Ok(()) && env.Contents() == scope
            case Err(e) => r == Err(e)
  {
    match decl.kind
    case Alias(alias) =>
      env.aliases := env.aliases[alias := exports];
      r := Ok(());
    case All =>
      env.DefineAll(exports);
      r := Ok(());
    case Refer(names) => r := BindAll(decl.modulePath, Unrenamed(names), exports, env);
    case Rename(renames) => r := BindAll(decl.modulePath, renames, exports, env);
    case Exclude(excluded) =>
      for i := 0 to |excluded|
        invariant FirstMissing(excluded, exports) == FirstMissing(excluded[i..], exports)
        invariant env.Contents() == old(env.Contents())
      {
        assert excluded[i..][0] == excluded[i] && excluded[i..][1..] == excluded[i + 1..];
        if excluded[i] !in exports {
          return Err(ImportNotExported(decl.modulePath, excluded[i]));
        }
      }
      env.DefineAll(exports - NameSet(excluded));
      r := Ok(());
  }

  method BindAll<V, E>(path: Name, renames: seq<Renaming>, exports: Exports<V>, env: ModuleEnv<V>)
    returns (r: Result<(), Error<E>>)
    modifies env
    ensures match Bound<V, E>(path, renames, exports, old(env.vars))
            case Ok(vars) => r == Ok(()) && env.Contents() == old(env.Contents()).(vars := vars)
            case Err(e) => r == Err(e)
  {
    for i := 0 to |renames|
      invariant Bound<V, E>(path, renames[..i], exports, old(env.vars)) == Ok(env.vars)
      invariant env.aliases == old(env.aliases)
    {
      assert renames[..i + 1][..i] == renames[..i];
      if renames[i].old_ !in exports {
        BoundStops<V, E>(path, renames, exports, old(env.vars), i + 1);
        return Err(ImportNotExported(path, renames[i].old_));
      }
      env.Define(renames[i].new_, exports[renames[i].old_]);
    }
    assert renames[..|renames|] == renames;
    r := Ok(());
  }

  lemma {:induction false} BoundStops<V, E>(path: Name, renames: seq<Renaming>, exports: Exports<V>, vars: map<Name, V>,
                                            k: nat)
    requires k <= |renames| && Bound<V, E>(path, renames[..k], exports, vars).Err?
    ensures Bound<V, E>(path, renames, exports, vars) == Bound<V, E>(path, renames[..k], exports, vars)
  {
    if k < |renames| {
      assert renames[..|renames| - 1][..k] == renames[..k];
      BoundStops<V, E>(path, renames[..|renames| - 1], exports, vars, k);
    } else {
      assert renames[..k] == renames;
    }
  }

  /** `eval_module_forms`. */
  method EvalModuleForms<V, E>(host: Host<V, E>, forms: seq<Node>, env: ModuleEnv<V>, base: BaseEnv<V>)
    returns (r: Result<seq<Name>, Error<E>>)
    modifies env, base
    ensures match FormsEvaluated(host, forms, View(old(env.Contents()), old(base.vars)))
            case Ok(done) => r == Ok(done.defined) && View(env.Contents(), base.vars) == done.view
            case Err(e) => r == Err(e)
  {
    var defined: seq<Name> := [];
    ghost var start := View(env.Contents(), base.vars);
    for i := 0 to |forms|
      invariant FormsEvaluated(host, forms[..i], start) == Ok(Evaluated(defined, View(env.Contents(), base.vars)))
    {
      assert forms[..i + 1][..i] == forms[..i];
      match TopLevelDefName(forms[i]) {
        case Some(name) => defined := defined + [name];
        case None => assert defined + [] == defined;
      }
      match host.evalForm(forms[i], View(env.Contents(), base.vars)) {
        case Err(e) =>
          FormsStop(host, forms, start, i + 1);
          return Err(FormError(e));
        case Ok(view) =>
          env.vars, env.aliases, base.vars := view.scope.vars, view.scope.aliases, view.base;
      }
    }
    assert forms[..|forms|] == forms;
    r := Ok(defined);
  }

  lemma {:induction false} FormsStop<V, E>(host: Host<V, E>, forms: seq<Node>, view: View<V>, k: nat)
    requires k <= |forms| && FormsEvaluated(host, forms[..k], view).Err?
    ensures FormsEvaluated(host, forms, view) == FormsEvaluated(host, forms[..k], view)
  {
    if k < |forms| {
      assert forms[..|forms| - 1][..k] == forms[..k];
      FormsStop(host, forms[..|forms| - 1], view, k);
    } else {
      assert forms[..k] == forms;
    }
  }

  /** `build_exports`. */
  method BuildExports<V, E>(m: ModuleSource, defined: seq<Name>, env: ModuleEnv<V>, base: BaseEnv<V>)
    returns (r: Result<Exports<V>, Error<E>>)
    ensures r == Exported(base.vars, m.name, m.exports.GetOr(defined), env.Contents())
  {
    var names := m.exports.GetOr(defined);
    var exports: Exports<V> := map[];
    for i := 0 to |names|
      invariant Exported<V, E>(base.vars, m.name, names[..i], env.Contents()) == Ok(exports)
    {
      assert names[..i + 1][..i] == names[..i];
      match Lookup(base.vars, env.Contents(), names[i]) {
        case Some(v) => exports := exports[names[i] := v];
        case None =>
          ExportsStop<V, E>(base.vars, m.name, names, env.Contents(), i + 1);
          return Err(MissingExport(m.name, names[i]));
      }
    }
    assert names[..|names|] == names;
    r := Ok(exports);
  }

  lemma {:induction false} ExportsStop<V, E>(base: map<Name, V>, path: Name, names: seq<Name>, scope: Scope<V>, k: nat)
    requires k <= |names| && Exported<V, E>(base, path, names[..k], scope).Err?
    ensures Exported<V, E>(base, path, names, scope) == Exported<V, E>(base, path, names[..k], scope)
  {
    if k < |names| {
      assert names[..|names| - 1][..k] == names[..k];
      ExportsStop<V, E>(base, path, names[..|names| - 1], scope, k);
    } else {
      assert names[..k] == names;
    }
  }

  method EvalModule<V, E>(host: Host<V, E>, m: ModuleSource, runtimes: map<Name, Runtime<V>>, base: BaseEnv<V>)
    returns (r: Result<Runtime<V>, Error<E>>)
    modifies base
    ensures match ModuleEvaluated(host, m, runtimes, old(base.vars))
            case Ok(loaded) => r == Ok(loaded.runtime) && base.vars == loaded.base
            case Err(e) => r == Err(e)
  {
    var env := new ModuleEnv<V>();
    for i := 0 to |m.imports|
      invariant base.vars == old(base.vars)
      invariant ImportedAll<V, E>(m.imports[..i], runtimes) == Ok(env.Contents())
    {
      assert m.imports[..i + 1][..i] == m.imports[..i];
      var decl := m.imports[i];
      if decl.modulePath !in runtimes {
        ImportsStop<V, E>(m.imports, runtimes, i + 1);
        return Err(UnknownModule(decl.modulePath));
      }
      var applied: Result<(), Error<E>> := ApplyImport(decl, runtimes[decl.modulePath].exports, env);
      if applied.Err? {
        ImportsStop<V, E>(m.imports, runtimes, i + 1);
        return Err(applied.error);
      }
    }
    assert m.imports[..|m.imports|] == m.imports;
    var defined := EvalModuleForms(host, m.forms, env, base);
    if defined.Err? {
      return Err(defined.error);
    }
    var exports: Result<Exports<V>, Error<E>> := BuildExports(m, defined.value, env, base);
    r := match exports case Err(e) => Err(e) case Ok(x) => Ok(Runtime(env.Contents(), x));
  }

  lemma {:induction false} ImportsStop<V, E>(imports: seq<ImportDecl>, runtimes: map<Name, Runtime<V>>, k: nat)
    requires k <= |imports| && ImportedAll<V, E>(imports[..k], runtimes).Err?
    ensures ImportedAll<V, E>(imports, runtimes) == ImportedAll<V, E>(imports[..k], runtimes)
  {
    if k < |imports| {
      assert imports[..|imports| - 1][..k] == imports[..k];
      ImportsStop<V, E>(imports[..|imports| - 1], runtimes, k);
    } else {
      assert imports[..k] == imports;
    }
  }

  /** The modules by name; `None` when a name is declared twice. */
  function ByName(modules: seq<ModuleSource>): (byName: Option<map<Name, ModuleSource>>)
    ensures byName.Some? ==> forall n <- byName.value :: byName.value[n].name == n && byName.value[n] in modules
    ensures byName.Some? ==> forall m <- modules :: m.name in byName.value
  {
    if modules == [] then Some(map[])
    else
      var last := modules[|modules| - 1];
      match ByName(modules[..|modules| - 1])
      case None => None
      case Some(before) => if last.name in before then None else Some(before[last.name := last])
  }

  lemma {:induction false} DuplicateStays(modules: seq<ModuleSource>, k: nat)
    requires k <= |modules| && ByName(modules[..k]).None?
    ensures ByName(modules).None?
  {
    if k < |modules| {
      assert modules[..|modules| - 1][..k] == modules[..k];
      DuplicateStays(modules[..|modules| - 1], k);
    } else {
      assert modules[..k] == modules;
    }
  }

  /** The first loop of `eval_modules`. */
  method IndexModules<E>(modules: seq<ModuleSource>) returns (r: Result<map<Name, ModuleSource>, Error<E>>)
    ensures match ByName(modules)
            case None => r.Err? && r.error.DuplicateModule?
            case Some(byName) => r == Ok(byName)
  {
    var byName: map<Name, ModuleSource> := map[];
    for i := 0 to |modules|
      invariant ByName(modules[..i]) == Some(byName)
    {
      assert modules[..i + 1][..i] == modules[..i];
      if modules[i].name in byName {
        DuplicateStays(modules, i + 1);
        return Err(DuplicateModule(modules[i].name));
      }
      byName := byName[modules[i].name := modules[i]];
    }
    assert modules[..|modules|] == modules;
    r := Ok(byName);
  }

  /** The last loop of `eval_modules`. */
  method EvalInOrder<V, E>(host: Host<V, E>, byName: map<Name, ModuleSource>, order: seq<Name>)
    returns (r: Result<Progress<V>, Error<E>>)
    ensures r == InOrder(host, byName, order)
  {
    var base := new BaseEnv(host.base);
    var runtimes: map<Name, Runtime<V>> := map[];
    for i := 0 to |order|
      invariant fresh(base)
      invariant InOrder(host, byName, order[..i]) == Ok(Progress(runtimes, base.vars))
    {
      assert order[..i + 1][..i] == order[..i];
      if order[i] !in byName {
        OrderStops(host, byName, order, i + 1);
        return Err(UnknownModule(order[i]));
      }
      var runtime := EvalModule(host, byName[order[i]], runtimes, base);
      if runtime.Err? {
        OrderStops(host, byName, order, i + 1);
        return Err(runtime.error);
      }
      runtimes := runtimes[byName[order[i]].name := runtime.value];
    }
    assert order[..|order|] == order;
    r := Ok(Progress(runtimes, base.vars));
  }

  lemma {:induction false} OrderStops<V, E>(host: Host<V, E>, byName: map<Name, ModuleSource>, order: seq<Name>, k: nat)
    requires k <= |order| && InOrder(host, byName, order[..k]).Err?
    ensures InOrder(host, byName, order) == InOrder(host, byName, order[..k])
  {
    hide ModuleEvaluated;
    if k < |order| {
      assert order[..|order| - 1][..k] == order[..k];
      OrderStops(host, byName, order[..|order| - 1], k);
    } else {
      assert order[..k] == order;
    }
  }

  // ---------------------------------------------------------------------------------------------
  // Independence of the order
  // ---------------------------------------------------------------------------------------------

  /** Every import names a module of the set. */
  predicate Closed(byName: map<Name, ModuleSource>) {
    && (forall n <- byName :: byName[n].name == n)
    && (forall n <- byName :: forall i | 0 <= i < |byName[n].imports| :: byName[n].imports[i].modulePath in byName)
  }

  /** Each module once, imports before importers. */
  ghost predicate Topological(byName: map<Name, ModuleSource>, order: seq<Name>) {
    && (forall n :: n in order <==> n in byName)
    && (forall i, j | 0 <= i < j < |order| :: order[i] != order[j])
    && (forall k | 0 <= k < |order| :: order[k] in byName && ImportsIn(byName[order[k]].imports, order[..k]))
  }

  predicate ImportsIn(imports: seq<ImportDecl>, names: seq<Name>) {
    forall i | 0 <= i < |imports| :: imports[i].modulePath in names
  }

  /** The result of a module depends only on the exports of the modules it imports. */
  lemma {:induction false} ImportsDecide<V, E>(
    imports: seq<ImportDecl>, a: map<Name, Runtime<V>>, b: map<Name, Runtime<V>>)
    requires forall i | 0 <= i < |imports| :: imports[i].modulePath in a && imports[i].modulePath in b
    requires forall i | 0 <= i < |imports| :: a[imports[i].modulePath].exports == b[imports[i].modulePath].exports
    ensures ImportedAll<V, E>(imports, a) == ImportedAll<V, E>(imports, b)
    ensures ImportedAll<V, E>(imports, a).Err? ==> !ImportedAll<V, E>(imports, a).error.UnknownModule?
  {
    if imports != [] {
      var last := imports[|imports| - 1];
      ImportsDecide<V, E>(imports[..|imports| - 1], a, b);
      match ImportedAll<V, E>(imports[..|imports| - 1], a)
      case Ok(scope) => ImportedNeverUnknown<V, E>(last, a[last.modulePath].exports, scope);
      case Err(_) =>
    }
  }

  lemma ImportedNeverUnknown<V, E>(decl: ImportDecl, exports: Exports<V>, scope: Scope<V>)
    ensures var r := Imported<V, E>(decl, exports, scope); r.Err? ==> r.error.ImportNotExported?
  {
    match decl.kind
    case Refer(names) => BoundErrors<V, E>(decl.modulePath, Unrenamed(names), exports, scope.vars);
    case Rename(renames) => BoundErrors<V, E>(decl.modulePath, renames, exports, scope.vars);
    case _ =>
  }

  lemma {:induction false} BoundErrors<V, E>(
    path: Name, renames: seq<Renaming>, exports: Exports<V>, vars: map<Name, V>)
    ensures var r := Bound<V, E>(path, renames, exports, vars); r.Err? ==> r.error.ImportNotExported?
  {
    if renames != [] { BoundErrors<V, E>(path, renames[..|renames| - 1], exports, vars); }
  }

  lemma {:induction false} FormsErrors<V, E>(host: Host<V, E>, forms: seq<Node>, view: View<V>)
    ensures var r := FormsEvaluated(host, forms, view); r.Err? ==> r.error.FormError?
  {
    if forms != [] { FormsErrors(host, forms[..|forms| - 1], view); }
  }

  lemma {:induction false} ExportErrors<V, E>(base: map<Name, V>, path: Name, names: seq<Name>, scope: Scope<V>)
    ensures var r := Exported<V, E>(base, path, names, scope); r.Err? ==> r.error.MissingExport?
  {
    if names != [] { ExportErrors<V, E>(base, path, names[..|names| - 1], scope); }
  }

  lemma ModuleDecided<V, E>(
    host: Host<V, E>, m: ModuleSource, a: map<Name, Runtime<V>>, b: map<Name, Runtime<V>>, base: map<Name, V>)
    requires forall i | 0 <= i < |m.imports| :: m.imports[i].modulePath in a && m.imports[i].modulePath in b
    requires forall i | 0 <= i < |m.imports| :: a[m.imports[i].modulePath].exports == b[m.imports[i].modulePath].exports
    ensures ModuleEvaluated(host, m, a, base) == ModuleEvaluated(host, m, b, base)
    ensures ModuleEvaluated(host, m, a, base).Err? ==> !ModuleEvaluated(host, m, a, base).error.UnknownModule?
  {
    ImportsDecide<V, E>(m.imports, a, b);
    match ImportedAll<V, E>(m.imports, a)
    case Err(_) =>
    case Ok(scope) =>
      FormsErrors(host, m.forms, View(scope, base));
      match FormsEvaluated(host, m.forms, View(scope, base))
      case Err(_) =>
      case Ok(done) => ExportErrors<V, E>(done.view.base, m.name, m.exports.GetOr(done.defined), done.view.scope);
  }

  /** No form changes the base environment, whatever it is evaluated in. */
  ghost predicate KeepsBase<V(!new), E>(host: Host<V, E>, forms: seq<Node>) {
    forall i, view: View<V> | 0 <= i < |forms| ::
      host.evalForm(forms[i], view).Ok? ==> host.evalForm(forms[i], view).value.base == view.base
  }

  ghost predicate AllKeepBase<V(!new), E>(host: Host<V, E>, byName: map<Name, ModuleSource>) {
    forall n <- byName :: KeepsBase(host, byName[n].forms)
  }

  lemma {:induction false} FormsKeepBase<V(!new), E>(host: Host<V, E>, forms: seq<Node>, view: View<V>)
    requires KeepsBase(host, forms) && FormsEvaluated(host, forms, view).Ok?
    ensures FormsEvaluated(host, forms, view).value.view.base == view.base
  {
    if forms != [] {
      var init, last := forms[..|forms| - 1], forms[|forms| - 1];
      assert KeepsBase(host, init) by {
        forall i, v: View<V> | 0 <= i < |init| && host.evalForm(init[i], v).Ok?
          ensures host.evalForm(init[i], v).value.base == v.base
        {
          assert init[i] == forms[i];
        }
      }
      FormsKeepBase(host, init, view);
      var before := FormsEvaluated(host, init, view).value;
      assert host.evalForm(forms[|forms| - 1], before.view).Ok?;
    }
  }

  lemma ModuleKeepsBase<V(!new), E>(
    host: Host<V, E>, m: ModuleSource, runtimes: map<Name, Runtime<V>>, base: map<Name, V>)
    requires KeepsBase(host, m.forms) && ModuleEvaluated(host, m, runtimes, base).Ok?
    ensures ModuleEvaluated(host, m, runtimes, base).value.base == base
  {
    FormsKeepBase(host, m.forms, View(ImportedAll<V, E>(m.imports, runtimes).value, base));
  }

  /** Then the base environment stays what it was through any order. */
  lemma {:induction false} OrderKeepsBase<V(!new), E>(
    host: Host<V, E>, byName: map<Name, ModuleSource>, order: seq<Name>)
    requires AllKeepBase(host, byName) && InOrder(host, byName, order).Ok?
    ensures InOrder(host, byName, order).value.base == host.base
  {
    hide ModuleEvaluated, KeepsBase;
    if order != [] {
      var init, last := order[..|order| - 1], order[|order| - 1];
      OrderKeepsBase(host, byName, init);
      ModuleKeepsBase(host, byName[last], InOrder(host, byName, init).value.runtimes, host.base);
    }
  }

  ghost predicate HasKeys<V>(runtimes: map<Name, Runtime<V>>, names: seq<Name>) {
    forall n :: n in runtimes <==> n in names
  }

  /** Evaluating a prefix of a topological order never meets an unknown module. */
  lemma {:induction false} PrefixKnown<V, E>(
    host: Host<V, E>, byName: map<Name, ModuleSource>, order: seq<Name>, k: nat)
    requires Closed(byName) && Topological(byName, order) && k <= |order|
    ensures var r := InOrder(host, byName, order[..k]);
            if r.Ok? then HasKeys(r.value.runtimes, order[..k]) else !r.error.UnknownModule?
  {
    hide ModuleEvaluated;
    if k > 0 {
      PrefixKnown(host, byName, order, k - 1);
      assert order[..k][..k - 1] == order[..k - 1];
      var r := InOrder(host, byName, order[..k - 1]);
      if r.Ok? {
        var m := byName[order[k - 1]];
        assert ImportsIn(m.imports, order[..k - 1]);
        ModuleDecided(host, m, r.value.runtimes, r.value.runtimes, r.value.base);
        assert order[..k] == order[..k - 1] + [order[k - 1]];
      }
    }
  }

  /** A later prefix keeps the runtimes of an earlier one. */
  lemma {:induction false} PrefixGrows<V, E>(
    host: Host<V, E>, byName: map<Name, ModuleSource>, order: seq<Name>, j: nat,
                                             k: nat)
    requires Closed(byName) && Topological(byName, order) && j <= k <= |order|
    requires InOrder(host, byName, order[..k]).Ok?
    ensures InOrder(host, byName, order[..j]).Ok?
    ensures Within(InOrder(host, byName, order[..j]).value.runtimes, InOrder(host, byName, order[..k]).value.runtimes)
  {
    hide ModuleEvaluated, Closed, Topological;
    if j < k {
      assert order[..k][..k - 1] == order[..k - 1];
      PrefixGrows(host, byName, order, j, k - 1);
      PrefixKnown(host, byName, order, j);
      InTopological(byName, order, k - 1);
      NotEarlier(byName, order, j, k - 1);
    }
  }

  lemma NotEarlier(byName: map<Name, ModuleSource>, order: seq<Name>, j: nat, k: nat)
    requires Topological(byName, order) && j <= k < |order|
    ensures order[k] !in order[..j]
  {
  }

  /** The runtimes of a successful order satisfy the module equation at every module. */
  lemma Fixpoint<V(!new), E>(host: Host<V, E>, byName: map<Name, ModuleSource>, order: seq<Name>, name: Name)
    requires Closed(byName) && Topological(byName, order) && name in byName && AllKeepBase(host, byName)
    requires InOrder(host, byName, order).Ok?
    ensures var all := InOrder(host, byName, order).value.runtimes;
            name in all && ModuleEvaluated(host, byName[name], all, host.base) == Ok(Loaded(all[name], host.base))
  {
    hide ModuleEvaluated;
    var k :| 0 <= k < |order| && order[k] == name;
    assert order[..|order|] == order;
    var m := byName[name];
    hide Closed, Topological, AllKeepBase;
    PrefixGrows(host, byName, order, k, |order|);
    PrefixGrows(host, byName, order, k + 1, |order|);
    PrefixKnown(host, byName, order, k);
    PrefixStep(host, byName, order, k);
    OrderKeepsBase(host, byName, order[..k]);
    OrderKeepsBase(host, byName, order[..k + 1]);
    var some, all := InOrder(host, byName, order[..k]).value.runtimes, InOrder(host, byName, order).value.runtimes;
    WithinImports(m.imports, order[..k], some, all);
    ModuleDecided(host, m, some, all, host.base);
  }

  lemma PrefixStep<V, E>(host: Host<V, E>, byName: map<Name, ModuleSource>, order: seq<Name>, k: nat)
    requires Closed(byName) && Topological(byName, order) && k < |order|
    requires InOrder(host, byName, order[..k + 1]).Ok?
    ensures order[k] in byName && ImportsIn(byName[order[k]].imports, order[..k])
    ensures InOrder(host, byName, order[..k]).Ok?
    ensures var before, after := InOrder(host, byName, order[..k]).value, InOrder(host, byName, order[..k + 1]).value;
            order[k] in after.runtimes &&
            ModuleEvaluated(host, byName[order[k]], before.runtimes, before.base) ==
            Ok(Loaded(after.runtimes[order[k]], after.base))
  {
    hide ModuleEvaluated;
    assert order[..k + 1][..k] == order[..k];
  }

  /** If one order succeeds, every prefix of another order succeeds with the same runtimes. */
  lemma {:induction false} OrdersAgreeUpTo<V(!new), E>(
    host: Host<V, E>, byName: map<Name, ModuleSource>, one: seq<Name>, two: seq<Name>, k: nat)
    requires Closed(byName) && Topological(byName, one) && Topological(byName, two) && k <= |two|
    requires AllKeepBase(host, byName) && InOrder(host, byName, one).Ok?
    ensures InOrder(host, byName, two[..k]).Ok?
    ensures Within(InOrder(host, byName, two[..k]).value.runtimes, InOrder(host, byName, one).value.runtimes)
  {
    hide ModuleEvaluated, Closed, Topological, Within, AllKeepBase;
    var all := InOrder(host, byName, one).value.runtimes;
    if k == 0 {
      assert two[..0] == [];
      EmptyWithin(all);
    } else {
      OrdersAgreeUpTo(host, byName, one, two, k - 1);
      assert two[..k][..k - 1] == two[..k - 1];
      var name, before := two[k - 1], InOrder(host, byName, two[..k - 1]).value.runtimes;
      OrderKeepsBase(host, byName, two[..k - 1]);
      InTopological(byName, two, k - 1);
      Fixpoint(host, byName, one, name);
      PrefixKnown(host, byName, two, k - 1);
      WithinImports(byName[name].imports, two[..k - 1], before, all);
      ModuleDecided(host, byName[name], before, all, host.base);
      WithinOneMore(before, all, name);
    }
  }

  /** The runtimes `some` are among `all`. */
  ghost predicate Within<V>(some: map<Name, Runtime<V>>, all: map<Name, Runtime<V>>) {
    forall n <- some :: n in all && all[n] == some[n]
  }

  lemma EmptyWithin<V>(all: map<Name, Runtime<V>>)
    ensures Within(map[], all)
  {
  }

  lemma WithinOneMore<V>(some: map<Name, Runtime<V>>, all: map<Name, Runtime<V>>, n: Name)
    requires Within(some, all) && n in all
    ensures Within(some[n := all[n]], all)
  {
  }

  lemma WithinImports<V>(imports: seq<ImportDecl>, names: seq<Name>, some: map<Name, Runtime<V>>,
                         all: map<Name, Runtime<V>>)
    requires Within(some, all) && HasKeys(some, names) && ImportsIn(imports, names)
    ensures forall i | 0 <= i < |imports| :: imports[i].modulePath in some && imports[i].modulePath in all
    ensures forall i | 0 <= i < |imports| ::
              some[imports[i].modulePath].exports == all[imports[i].modulePath].exports
  {
  }

  lemma InTopological(byName: map<Name, ModuleSource>, order: seq<Name>, k: nat)
    requires Closed(byName) && Topological(byName, order) && k < |order|
    ensures order[k] in byName && byName[order[k]].name == order[k]
    ensures ImportsIn(byName[order[k]].imports, order[..k])
  {
  }

  /**
   For a duplicate-free set of modules closed under imports, no topological order meets an unknown module. When no form
   changes the base environment, either all orders fail or all give the same environments and exports.
  */
  lemma OrderIndependent<V(!new), E>(host: Host<V, E>, byName: map<Name, ModuleSource>, one: seq<Name>, two: seq<Name>)
    requires Closed(byName) && Topological(byName, one) && Topological(byName, two) && AllKeepBase(host, byName)
    ensures var a, b := InOrder(host, byName, one), InOrder(host, byName, two);
            if a.Ok? then b == a && a.value.runtimes.Keys == byName.Keys && a.value.base == host.base
            else b.Err? && !a.error.UnknownModule? && !b.error.UnknownModule?
  {
    hide ModuleEvaluated, InOrder, Closed, Topological, AllKeepBase;
    assert one[..|one|] == one && two[..|two|] == two;
    AllKeys(host, byName, one);
    AllKeys(host, byName, two);
    if InOrder(host, byName, one).Ok? {
      OrdersAgreeUpTo(host, byName, one, two, |two|);
      OrderKeepsBase(host, byName, one);
      OrderKeepsBase(host, byName, two);
      assert InOrder(host, byName, two).value.runtimes == InOrder(host, byName, one).value.runtimes;
    } else if InOrder(host, byName, two).Ok? {
      OrdersAgreeUpTo(host, byName, two, one, |one|);
    }
  }

  lemma AllKeys<V, E>(host: Host<V, E>, byName: map<Name, ModuleSource>, order: seq<Name>)
    requires Closed(byName) && Topological(byName, order)
    ensures var r := InOrder(host, byName, order);
            if r.Ok? then r.value.runtimes.Keys == byName.Keys else !r.error.UnknownModule?
  {
    hide InOrder;
    assert order[..|order|] == order;
    PrefixKnown(host, byName, order, |order|);
  }
}
