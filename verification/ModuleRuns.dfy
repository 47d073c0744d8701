/**
 Modules evaluated by the evaluator (crates/nexl-eval/src/modules.rs, `eval_module_forms`): every module has an
 environment of its own, and all of them are children of one base environment, which a form can change by `set!`.
*/
module ModuleRuns {
  import opened Basics
  import opened Ast
  import opened ModuleEval
  import opened SpecialForms
  import S = Scopes
  import R = Semantics
  import V = Values

  /** Aliases of the base environment, and the imported ones in front of them. */
  function Aliases(outer: map<string, map<string, V.Value>>, inner: map<string, map<string, V.Value>>)
    : map<string, map<string, V.Value>>
  {
    map a | a in outer.Keys + inner.Keys ::
      (if a in outer then outer[a] else map[]) + (if a in inner then inner[a] else map[])
  }

  function InModule(c: R.Context, scope: Scope<V.Value>): R.Context {
    R.NoLoop(c).(world := c.world.(modules := Aliases(c.world.modules, scope.aliases)))
  }

  /** A module-level form, in the module's environment under the base environment. */
  function EvalForm(c: R.Context, form: Node, view: View<V.Value>): Result<View<V.Value>, EvalError> {
    var r := R.Eval(InModule(c, view.scope), form, [view.base, view.scope.vars]);
    if r.out.Done? then Ok(View(view.scope.(vars := r.env[1]), r.env[0])) else Err(R.Error(r.out))
  }

  function Nexl(c: R.Context, base: map<Name, V.Value>): Host<V.Value, EvalError> {
    Host(base, (form, view) => EvalForm(c, form, view))
  }

  /** Outside function bodies, no form assigns to a name or interpolates. */
  predicate Setless(byName: map<Name, ModuleSource>) {
    forall n <- byName :: AllWithin(SETLESS, byName[n].forms)
  }

  lemma SetlessKeepsBase(c: R.Context, base: map<Name, V.Value>, byName: map<Name, ModuleSource>)
    requires Setless(byName)
    ensures AllKeepBase(Nexl(c, base), byName)
  {
    hide R.Eval, SpecialForms.Within;
    var host := Nexl(c, base);
    forall n | n in byName ensures KeepsBase(host, byName[n].forms) {
      var forms := byName[n].forms;
      forall i, view: View<V.Value> | 0 <= i < |forms| && host.evalForm(forms[i], view).Ok?
        ensures host.evalForm(forms[i], view).value.base == view.base
      {
        FormKeepsBase(c, forms[i], view);
      }
    }
  }

  lemma FormKeepsBase(c: R.Context, form: Node, view: View<V.Value>)
    requires SpecialForms.Within(SETLESS, form) && EvalForm(c, form, view).Ok?
    ensures EvalForm(c, form, view).value.base == view.base
  {
    hide R.Eval, SpecialForms.Within;
    var env := [view.base, view.scope.vars];
    var r := R.Eval(InModule(c, view.scope), form, env);
    assert S.Pop(r.env) == S.Pop(env);
    assert r.env[0] == S.Pop(r.env)[0] && S.Pop(env)[0] == env[0];
  }

  /** With `set!` confined to function bodies, every topological order gives the same environments and exports. */
  lemma SetlessOrderIndependent(
    c: R.Context, base: map<Name, V.Value>, byName: map<Name, ModuleSource>, one: seq<Name>, two: seq<Name>)
    requires Closed(byName) && Topological(byName, one) && Topological(byName, two) && Setless(byName)
    ensures var a, b := InOrder(Nexl(c, base), byName, one), InOrder(Nexl(c, base), byName, two);
            if a.Ok? then b == a else b.Err? && !a.error.UnknownModule? && !b.error.UnknownModule?
  {
    hide InOrder, Closed, Topological, Setless, AllKeepBase, R.Eval, SpecialForms.Within;
    SetlessKeepsBase(c, base, byName);
    OrderIndependent(Nexl(c, base), byName, one, two);
  }

  // ---------------------------------------------------------------------------------------------
  // A form that changes the base environment
  // ---------------------------------------------------------------------------------------------

  function Bare(k: Kind): Node {
    Node(k, [], None)
  }

  function Sym(name: string): Node {
    Bare(Atomic(Symbol(None, name)))
  }

  /** `(set! name 5)` */
  function Setter(name: Name): Node {
    Bare(List([Sym("set!"), Sym(name), Bare(Atomic(Int(5, None)))]))
  }

  /** `(def x name)` */
  function Getter(x: Name, name: Name): Node {
    Bare(List([Sym("def"), Sym(x), Sym(name)]))
  }

  function Single(name: Name, form: Node): ModuleSource {
    ModuleSource(name, None, [], [form])
  }

  const NO_SCOPE: Scope<V.Value> := Scope(map[], map[])

  const FIVE := V.Int(5)

  lemma Spelling()
    ensures FormOf(Sym("set!")) == SetForm && FormOf(Sym("def")) == DefForm
  {
  }

  lemma Defines(x: Name, name: Name)
    ensures TopLevelDefName(Setter(name)) == None && TopLevelDefName(Getter(x, name)) == Some(x)
  {
  }

  lemma TwoFrames(base: map<Name, V.Value>, name: Name)
    requires name in base
    ensures S.Assign([base, map[]], name, FIVE) == Some([base[name := FIVE], map[]])
    ensures S.Lookup([base, map[]], name) == Some(base[name])
  {
    var env: S.Chain := [base, map[]];
    assert env[..1] == [base] && [base][..0] == [];
    assert [] + [base[name := FIVE]] == [base[name := FIVE]];
    assert S.Assign([base], name, FIVE) == Some([base[name := FIVE]]);
    assert S.Lookup([base], name) == Some(base[name]);
    assert [base[name := FIVE]] + [env[1]] == [base[name := FIVE], env[1]];
  }

  lemma SetterSets(c: R.Context, base: map<Name, V.Value>, name: Name)
    requires name in base
    ensures EvalForm(c, Setter(name), View(NO_SCOPE, base)) == Ok(View(NO_SCOPE, base[name := FIVE]))
  {
    hide FormOf, S.Assign, S.Lookup, Sym;
    Spelling();
    TwoFrames(base, name);
    Named(name);
    var inner, items: seq<Node>, env: S.Chain := InModule(c, NO_SCOPE), Setter(name).kind.items, [base, map[]];
    FiveIs(inner, items[2], env);
    SetRuns(inner, items, name, env);
  }

  lemma Named(name: Name)
    ensures SymbolName(Sym(name)) == Some(name) && Sym(name).kind == Atomic(Symbol(None, name))
  {
  }

  lemma SetRuns(c: R.Context, items: seq<Node>, name: Name, env: S.Chain)
    requires env != [] && |items| == 3 && FormOf(items[0]) == SetForm && SymbolName(items[1]) == Some(name)
    requires R.Eval(R.NoLoop(c), items[2], env) == R.Step(R.Done(FIVE), env) && S.Assign(env, name, FIVE).Some?
    ensures R.Eval(c, Bare(List(items)), env) == R.Step(R.Done(V.Unit), S.Assign(env, name, FIVE).value)
  {
    hide R.Eval, FormOf, SymbolName, S.Assign;
    ListRuns(c, items, env);
    assert R.EvalList(c, items, env) == R.EvalSet(c, items, env);
  }

  lemma ListRuns(c: R.Context, items: seq<Node>, env: S.Chain)
    requires env != []
    ensures R.Eval(c, Bare(List(items)), env) == R.EvalList(c, items, env)
  {
    hide R.EvalList;
  }

  lemma FiveIs(c: R.Context, five: Node, env: S.Chain)
    requires env != [] && five.kind == Atomic(Int(5, None))
    ensures R.Eval(R.NoLoop(c), five, env) == R.Step(R.Done(FIVE), env)
  {
  }

  lemma GetterGets(c: R.Context, base: map<Name, V.Value>, x: Name, name: Name)
    requires name in base
    ensures EvalForm(c, Getter(x, name), View(NO_SCOPE, base)) == Ok(View(Scope(map[x := base[name]], map[]), base))
  {
    hide FormOf, S.Assign, S.Lookup, Sym;
    Spelling();
    TwoFrames(base, name);
    Named(x);
    Named(name);
    var inner, items: seq<Node>, env: S.Chain := InModule(c, NO_SCOPE), Getter(x, name).kind.items, [base, map[]];
    NameIs(inner, items[2], name, env);
    DefRuns(inner, items, x, base[name], env);
    assert S.Define(env, x, base[name]) == [base, map[x := base[name]]];
  }

  lemma DefRuns(c: R.Context, items: seq<Node>, x: Name, v: V.Value, env: S.Chain)
    requires env != [] && |items| == 3 && FormOf(items[0]) == DefForm && SymbolName(items[1]) == Some(x)
    requires R.Eval(R.NoLoop(c), items[2], env) == R.Step(R.Done(v), env)
    ensures R.Eval(c, Bare(List(items)), env) == R.Step(R.Done(V.Unit), S.Define(env, x, v))
  {
    hide R.Eval, FormOf, SymbolName, S.Define;
    ListRuns(c, items, env);
    assert R.EvalList(c, items, env) == R.EvalDef(c, items, env);
  }

  lemma NameIs(c: R.Context, n: Node, name: Name, env: S.Chain)
    requires env != [] && n.kind == Atomic(Symbol(None, name)) && S.Lookup(env, name).Some?
    ensures R.Eval(R.NoLoop(c), n, env) == R.Step(R.Done(S.Lookup(env, name).value), env)
  {
    hide S.Lookup;
  }

  /** A module without imports whose one form succeeds. */
  lemma SingleLoads(
    host: Host<V.Value, EvalError>, m: ModuleSource, form: Node, runtimes: map<Name, Runtime<V.Value>>,
    base: map<Name, V.Value>, view: View<V.Value>)
    requires m == Single(m.name, form) && host.evalForm(form, View(NO_SCOPE, base)) == Ok(view)
    ensures ModuleEvaluated(host, m, runtimes, base) ==
            match TopLevelDefName(form)
            case None => Ok(Loaded(Runtime(view.scope, map[]), view.base))
            case Some(n) =>
              match Lookup(view.base, view.scope, n)
              case None => Err(MissingExport(m.name, n))
              case Some(v) => Ok(Loaded(Runtime(view.scope, map[n := v]), view.base))
  {
    hide TopLevelDefName, Lookup;
    assert [form][..0] == [];
    var defined: seq<Name> := match TopLevelDefName(form) case Some(n) => [n] case None => [];
    assert [] + defined == defined;
    assert FormsEvaluated(host, [form], View(NO_SCOPE, base)) == Ok(Evaluated(defined, view));
    assert Exported<V.Value, EvalError>(view.base, m.name, [], view.scope) == Ok(map[]);
    if TopLevelDefName(form).Some? {
      var n := TopLevelDefName(form).value;
      assert defined == [n] && defined[..0] == [];
      assert Exported<V.Value, EvalError>(view.base, m.name, defined, view.scope) ==
             (match Lookup(view.base, view.scope, n)
              case None => Err(MissingExport(m.name, n))
              case Some(v) => Ok(map[n := v]));
    }
  }

  /** One module sets a base name, another one reads it. */
  function SetAndGet(a: Name, b: Name, x: Name, name: Name): map<Name, ModuleSource> {
    map[a := Single(a, Setter(name)), b := Single(b, Getter(x, name))]
  }

  /** Both orders are topological, and they give the second module different exports. */
  lemma SetBangBreaksIndependence(c: R.Context, base: map<Name, V.Value>, a: Name, b: Name, x: Name, name: Name)
    requires a != b && name in base && base[name] != FIVE
    ensures var byName, host := SetAndGet(a, b, x, name), Nexl(c, base);
            var one, two := InOrder(host, byName, [a, b]), InOrder(host, byName, [b, a]);
            Closed(byName) && Topological(byName, [a, b]) && Topological(byName, [b, a]) &&
            one.Ok? && two.Ok? && b in one.value.runtimes && b in two.value.runtimes &&
            one.value.runtimes[b].exports == map[x := FIVE] && two.value.runtimes[b].exports == map[x := base[name]]
  {
    hide EvalForm, TopLevelDefName, Setter, Getter, ModuleEvaluated;
    var host, setter, getter := Nexl(c, base), Single(a, Setter(name)), Single(b, Getter(x, name));
    var byName, changed := SetAndGet(a, b, x, name), base[name := FIVE];
    Defines(x, name);
    SetterSets(c, base, name);
    GetterGets(c, base, x, name);
    GetterGets(c, changed, x, name);
    var quiet, before, after :=
      Runtime(NO_SCOPE, map[]), Runtime(Scope(map[x := base[name]], map[]), map[x := base[name]]),
      Runtime(Scope(map[x := FIVE], map[]), map[x := FIVE]);
    SingleLoads(host, setter, Setter(name), map[], base, View(NO_SCOPE, changed));
    SingleLoads(host, getter, Getter(x, name), map[a := quiet], changed, View(after.scope, changed));
    SingleLoads(host, getter, Getter(x, name), map[], base, View(before.scope, base));
    SingleLoads(host, setter, Setter(name), map[b := before], base, View(NO_SCOPE, changed));
    TwoInOrder(host, byName, a, b, Loaded(quiet, changed), Loaded(after, changed));
    TwoInOrder(host, byName, b, a, Loaded(before, base), Loaded(quiet, changed));
  }

  lemma TwoInOrder(
    host: Host<V.Value, EvalError>, byName: map<Name, ModuleSource>, p: Name, q: Name, first: Loaded<V.Value>,
    second: Loaded<V.Value>)
    requires p in byName && q in byName && p != q && byName[p].name == p && byName[q].name == q
    requires ModuleEvaluated(host, byName[p], map[], host.base) == Ok(first)
    requires ModuleEvaluated(host, byName[q], map[p := first.runtime], first.base) == Ok(second)
    ensures InOrder(host, byName, [p, q]) == Ok(Progress(map[p := first.runtime, q := second.runtime], second.base))
  {
    hide ModuleEvaluated;
    assert [p, q][..1] == [p] && [p][..0] == [];
    assert InOrder(host, byName, [p]) == Ok(Progress(map[p := first.runtime], first.base));
    assert map[p := first.runtime][q := second.runtime] == map[p := first.runtime, q := second.runtime];
  }
}
