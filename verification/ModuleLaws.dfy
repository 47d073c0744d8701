/** What imports bind and what a module exports (crates/nexl-eval/src/modules.rs), name by name. */
module ModuleLaws {
  import opened Basics
  import opened Ast
  import opened ModuleEval

  /** The name means the export of that name, or what it meant before. */
  ghost predicate BindsSome<V(!new)>(
    selected: Name -> bool, exports: Exports<V>, before: Scope<V>, after: Scope<V>)
  {
    after.aliases == before.aliases &&
    forall n: Name ::
      if selected(n) && n in exports then n in after.vars && after.vars[n] == exports[n]
      else (n in after.vars <==> n in before.vars) && (n in after.vars ==> after.vars[n] == before.vars[n])
  }

  /** `(import m)` binds every export and nothing else. */
  lemma ImportAll<V(!new), E>(path: Name, exports: Exports<V>, scope: Scope<V>)
    ensures var r := Imported<V, E>(ImportDecl(path, All), exports, scope);
            r.Ok? && BindsSome((n: Name) => true, exports, scope, r.value)
  {
  }

  /** `:as alias` binds no name; the alias stands for the exports. */
  lemma ImportAlias<V(!new), E>(path: Name, alias: Name, exports: Exports<V>, scope: Scope<V>, other: Name)
    ensures var r := Imported<V, E>(ImportDecl(path, Alias(alias)), exports, scope);
            r.Ok? && r.value.vars == scope.vars && alias in r.value.aliases && r.value.aliases[alias] == exports &&
            (other != alias ==>
               (other in r.value.aliases <==> other in scope.aliases) &&
               (other in scope.aliases ==> r.value.aliases[other] == scope.aliases[other]))
  {
  }

  /** The first of the names that is not exported. */
  predicate MissingAt<V>(names: seq<Name>, exports: Exports<V>, i: nat) {
    i < |names| && names[i] !in exports && forall j | 0 <= j < i :: names[j] in exports
  }

  predicate AllExported<V>(names: seq<Name>, exports: Exports<V>) {
    forall i | 0 <= i < |names| :: names[i] in exports
  }

  /** `:refer` binds exactly the listed names; the first one that is not exported is an error. */
  lemma ImportRefer<V(!new), E>(path: Name, names: seq<Name>, exports: Exports<V>, scope: Scope<V>, i: nat)
    ensures var r := Imported<V, E>(ImportDecl(path, Refer(names)), exports, scope);
            (AllExported(names, exports) ==> r.Ok? && BindsSome((n: Name) => n in names, exports, scope, r.value)) &&
            (MissingAt(names, exports, i) ==> r == Err(ImportNotExported(path, names[i])))
  {
    hide Bound;
    var renames := Unrenamed(names);
    if AllExported(names, exports) {
      RenamedAll<V, E>(path, renames, exports, scope.vars);
      forall n: Name
        ensures var vars := Bound<V, E>(path, renames, exports, scope.vars).value;
                if n in names then n in exports && n in vars && vars[n] == exports[n]
                else (n in vars <==> n in scope.vars) && (n in vars ==> vars[n] == scope.vars[n])
      {
        assert forall j | 0 <= j < |renames| :: renames[j].new_ == names[j] == renames[j].old_;
        if n in names {
          var j :| 0 <= j < |names| && names[j] == n;
          assert renames[j].new_ == n;
          var k := LastTarget(renames, n);
        }
      }
    }
    if MissingAt(names, exports, i) { RenamedMissing<V, E>(path, renames, exports, scope.vars, i); }
  }

  /** The last renaming to a name. */
  predicate LastTo(renames: seq<Renaming>, target: Name, i: nat) {
    i < |renames| && renames[i].new_ == target && forall j | i < j < |renames| :: renames[j].new_ != target
  }

  lemma {:induction false} LastTarget(renames: seq<Renaming>, target: Name) returns (i: nat)
    requires exists j :: 0 <= j < |renames| && renames[j].new_ == target
    ensures LastTo(renames, target, i)
  {
    var last := |renames| - 1;
    if renames[last].new_ == target {
      i := last;
    } else {
      var j :| 0 <= j < |renames| && renames[j].new_ == target;
      assert renames[..last][j].new_ == target;
      i := LastTarget(renames[..last], target);
      forall k | i < k < |renames| ensures renames[k].new_ != target {
        if k < last { assert renames[..last][k] == renames[k]; }
      }
    }
  }

  /**
   Renamed names mean the exports they stand for, the last renaming to a name winning; other names mean what they did.
  */
  ghost predicate BindsRenamed<V(!new)>(
    renames: seq<Renaming>, exports: Exports<V>, before: map<Name, V>, after: map<Name, V>)
  {
    (forall n: Name, i: nat | LastTo(renames, n, i) ::
       renames[i].old_ in exports && n in after && after[n] == exports[renames[i].old_]) &&
    forall n: Name | (forall j | 0 <= j < |renames| :: renames[j].new_ != n) ::
      (n in after <==> n in before) && (n in after ==> after[n] == before[n])
  }

  lemma {:induction false} RenamedAll<V(!new), E>(
    path: Name, renames: seq<Renaming>, exports: Exports<V>, vars: map<Name, V>)
    requires forall i | 0 <= i < |renames| :: renames[i].old_ in exports
    ensures var r := Bound<V, E>(path, renames, exports, vars);
            r.Ok? && BindsRenamed(renames, exports, vars, r.value)
  {
    if renames != [] {
      var last, init := |renames| - 1, renames[..|renames| - 1];
      RenamedAll<V, E>(path, init, exports, vars);
      var before := Bound<V, E>(path, init, exports, vars).value;
      var after := Bound<V, E>(path, renames, exports, vars).value;
      forall n: Name, i: nat | LastTo(renames, n, i)
        ensures n in after && after[n] == exports[renames[i].old_]
      {
        if i < last {
          assert renames[last].new_ != n;
          assert LastTo(init, n, i);
        }
      }
      forall n: Name | forall j | 0 <= j < |renames| :: renames[j].new_ != n
        ensures (n in after <==> n in vars) && (n in after ==> after[n] == vars[n])
      {
        assert renames[last].new_ != n;
        assert forall j | 0 <= j < |init| :: init[j] == renames[j];
      }
    }
  }

  lemma {:induction false} RenamedMissing<V(!new), E>(
    path: Name, renames: seq<Renaming>, exports: Exports<V>, vars: map<Name, V>, i: nat)
    requires i < |renames| && renames[i].old_ !in exports && forall j | 0 <= j < i :: renames[j].old_ in exports
    ensures Bound<V, E>(path, renames, exports, vars) == Err(ImportNotExported(path, renames[i].old_))
    decreases |renames|
  {
    var last, init := |renames| - 1, renames[..|renames| - 1];
    if i < last {
      assert forall j | 0 <= j < |init| :: init[j] == renames[j];
      RenamedMissing<V, E>(path, init, exports, vars, i);
    } else {
      assert forall j | 0 <= j < |init| :: init[j] == renames[j];
      RenamedAll<V, E>(path, init, exports, vars);
    }
  }

  /** `:rename` binds exactly the new names; the first old name that is not exported is an error. */
  lemma ImportRename<V(!new), E>(path: Name, renames: seq<Renaming>, exports: Exports<V>, scope: Scope<V>, i: nat)
    ensures var r := Imported<V, E>(ImportDecl(path, Rename(renames)), exports, scope);
            ((forall j | 0 <= j < |renames| :: renames[j].old_ in exports) ==>
               r.Ok? && r.value.aliases == scope.aliases && BindsRenamed(renames, exports, scope.vars, r.value.vars)) &&
            (i < |renames| && renames[i].old_ !in exports && (forall j | 0 <= j < i :: renames[j].old_ in exports) ==>
               r == Err(ImportNotExported(path, renames[i].old_)))
  {
    hide Bound;
    if forall j | 0 <= j < |renames| :: renames[j].old_ in exports {
      RenamedAll<V, E>(path, renames, exports, scope.vars);
    }
    if i < |renames| && renames[i].old_ !in exports && (forall j | 0 <= j < i :: renames[j].old_ in exports) {
      RenamedMissing<V, E>(path, renames, exports, scope.vars, i);
    }
  }

  /** `:exclude` binds every export but the listed ones; the first one that is not exported is an error. */
  lemma ImportExclude<V(!new), E>(path: Name, names: seq<Name>, exports: Exports<V>, scope: Scope<V>, i: nat)
    ensures var r := Imported<V, E>(ImportDecl(path, Exclude(names)), exports, scope);
            (AllExported(names, exports) ==> r.Ok? && BindsSome((n: Name) => n !in names, exports, scope, r.value)) &&
            (MissingAt(names, exports, i) ==> r == Err(ImportNotExported(path, names[i])))
  {
    if AllExported(names, exports) { NoneMissing(names, exports); }
    if MissingAt(names, exports, i) { FirstIsMissing(names, exports, i); }
  }

  lemma {:induction false} NoneMissing<V>(names: seq<Name>, exports: Exports<V>)
    requires AllExported(names, exports)
    ensures FirstMissing(names, exports) == None
  {
    if names != [] {
      assert names[0] in exports;
      assert forall i | 0 <= i < |names[1..]| :: names[1..][i] == names[i + 1];
      NoneMissing(names[1..], exports);
    }
  }

  lemma {:induction false} FirstIsMissing<V>(names: seq<Name>, exports: Exports<V>, i: nat)
    requires MissingAt(names, exports, i)
    ensures FirstMissing(names, exports) == Some(names[i])
    decreases i
  {
    if i > 0 {
      assert names[0] in exports;
      assert forall j | 0 <= j < |names[1..]| :: names[1..][j] == names[j + 1];
      FirstIsMissing(names[1..], exports, i - 1);
    }
  }

  // ---------------------------------------------------------------------------------------------
  // Exports
  // ---------------------------------------------------------------------------------------------

  /** A module exports exactly the given names, with its own bindings before those of the base environment. */
  lemma {:induction false} ExportsNamed<V(!new), E>(base: map<Name, V>, path: Name, names: seq<Name>, scope: Scope<V>)
    requires forall i | 0 <= i < |names| :: names[i] in scope.vars || names[i] in base
    ensures var r := Exported<V, E>(base, path, names, scope);
            r.Ok? && (forall n :: n in r.value <==> n in names) &&
            forall n <- r.value :: r.value[n] == if n in scope.vars then scope.vars[n] else base[n]
  {
    if names != [] {
      var init := names[..|names| - 1];
      assert forall i | 0 <= i < |init| :: init[i] == names[i];
      ExportsNamed<V, E>(base, path, init, scope);
      assert names == init + [names[|names| - 1]];
    }
  }

  /** The first name that is bound nowhere is an error. */
  lemma {:induction false} ExportsMissing<V(!new), E>(
    base: map<Name, V>, path: Name, names: seq<Name>, scope: Scope<V>, i: nat)
    requires i < |names| && names[i] !in scope.vars && names[i] !in base
    requires forall j | 0 <= j < i :: names[j] in scope.vars || names[j] in base
    ensures Exported<V, E>(base, path, names, scope) == Err(MissingExport(path, names[i]))
    decreases |names|
  {
    var last, init := |names| - 1, names[..|names| - 1];
    assert forall j | 0 <= j < |init| :: init[j] == names[j];
    if i < last {
      ExportsMissing<V, E>(base, path, init, scope, i);
    } else {
      ExportsNamed<V, E>(base, path, init, scope);
    }
  }

  // ---------------------------------------------------------------------------------------------
  // One thing after the other
  // ---------------------------------------------------------------------------------------------

  /** `scopes[i]` is the scope before import `i`, from nothing at all. */
  ghost predicate ImportTrace<V(!new), E>(
    imports: seq<ImportDecl>, runtimes: map<Name, Runtime<V>>, scopes: seq<Scope<V>>)
  {
    |scopes| == |imports| + 1 && scopes[0] == Scope(map[], map[]) &&
    forall i | 0 <= i < |imports| ::
      imports[i].modulePath in runtimes &&
      Imported<V, E>(imports[i], runtimes[imports[i].modulePath].exports, scopes[i]) == Ok(scopes[i + 1])
  }

  /** Imports are made in order, each on what the ones before bound. */
  lemma {:induction false} ImportsRun<V(!new), E>(
    imports: seq<ImportDecl>, runtimes: map<Name, Runtime<V>>, scopes: seq<Scope<V>>)
    requires ImportTrace<V, E>(imports, runtimes, scopes)
    ensures ImportedAll<V, E>(imports, runtimes) == Ok(scopes[|imports|])
    decreases |imports|
  {
    hide Imported;
    if imports != [] {
      var init := imports[..|imports| - 1];
      assert forall i | 0 <= i < |init| :: init[i] == imports[i];
      ImportsRun<V, E>(init, runtimes, scopes[..|imports|]);
    }
  }

  /** `views[i]` is what form `i` sees. */
  ghost predicate FormTrace<V(!new), E>(host: Host<V, E>, forms: seq<Node>, views: seq<View<V>>) {
    |views| == |forms| + 1 &&
    forall i | 0 <= i < |forms| :: host.evalForm(forms[i], views[i]) == Ok(views[i + 1])
  }

  predicate Defines(form: Node, name: Name) {
    TopLevelDefName(form) == Some(name)
  }

  /** Forms are evaluated in order, each where the one before left off; the names they define are collected. */
  lemma {:induction false} FormsRun<V(!new), E>(host: Host<V, E>, forms: seq<Node>, views: seq<View<V>>)
    requires FormTrace(host, forms, views)
    ensures var r := FormsEvaluated(host, forms, views[0]);
            r.Ok? && r.value.view == views[|forms|] &&
            forall n :: n in r.value.defined <==> exists i :: 0 <= i < |forms| && Defines(forms[i], n)
    decreases |forms|
  {
    hide TopLevelDefName;
    if forms != [] {
      var last := |forms| - 1;
      var init := forms[..last];
      assert forall i | 0 <= i < |init| :: init[i] == forms[i];
      assert views[..|forms|][0] == views[0] && views[..|forms|][last] == views[last];
      FormsRun(host, init, views[..|forms|]);
      assert host.evalForm(forms[last], views[last]) == Ok(views[last + 1]);
      var r := FormsEvaluated(host, forms, views[0]);
      var before := FormsEvaluated(host, init, views[0]).value.defined;
      forall n ensures n in r.value.defined <==> exists i :: 0 <= i < |forms| && Defines(forms[i], n) {
        assert n in r.value.defined <==> n in before || Defines(forms[last], n);
        DefinesInit(forms, n);
      }
    }
  }

  lemma DefinesInit(forms: seq<Node>, n: Name)
    requires forms != []
    ensures var last := |forms| - 1;
            (exists i :: 0 <= i < |forms| && Defines(forms[i], n)) <==>
            (exists i :: 0 <= i < last && Defines(forms[..last][i], n)) || Defines(forms[last], n)
  {
    hide Defines;
    var last := |forms| - 1;
    assert forall i | 0 <= i < last :: forms[..last][i] == forms[i];
  }

  /** The first form that fails decides. */
  lemma {:induction false} FormsStop<V(!new), E>(
    host: Host<V, E>, forms: seq<Node>, views: seq<View<V>>, i: nat, e: E)
    requires i < |forms| && FormTrace(host, forms[..i], views) && host.evalForm(forms[i], views[i]) == Err(e)
    ensures FormsEvaluated(host, forms, views[0]) == Err(FormError(e))
    decreases |forms|
  {
    hide TopLevelDefName;
    var last := |forms| - 1;
    if i < last {
      assert forms[..last][..i] == forms[..i];
      FormsStop(host, forms[..last], views, i, e);
    } else {
      FormsRun(host, forms[..i], views);
    }
  }

  /**
   A module: its imports, its forms in that scope on the base environment, and as exports the declared names or, when
   it declares none, the names its forms define.
  */
  lemma ModuleIs<V(!new), E>(
    host: Host<V, E>, m: ModuleSource, runtimes: map<Name, Runtime<V>>, base: map<Name, V>, scopes: seq<Scope<V>>,
    views: seq<View<V>>, exported: Exports<V>)
    requires ImportTrace<V, E>(m.imports, runtimes, scopes) && FormTrace(host, m.forms, views)
    requires views[0] == View(scopes[|m.imports|], base)
    requires forall n ::
               n in exported <==>
               if m.exports.Some? then n in m.exports.value
               else exists i :: 0 <= i < |m.forms| && Defines(m.forms[i], n)
    requires var end := views[|m.forms|];
             forall n <- exported ::
               (n in end.scope.vars || n in end.base) &&
               exported[n] == if n in end.scope.vars then end.scope.vars[n] else end.base[n]
    ensures ModuleEvaluated(host, m, runtimes, base) ==
            Ok(Loaded(Runtime(views[|m.forms|].scope, exported), views[|m.forms|].base))
  {
    hide ImportedAll, FormsEvaluated, Exported, Defines;
    ImportsRun<V, E>(m.imports, runtimes, scopes);
    FormsRun(host, m.forms, views);
    var end, names := views[|m.forms|], m.exports.GetOr(FormsEvaluated(host, m.forms, views[0]).value.defined);
    assert forall n :: n in exported <==> n in names;
    ExportsNamed<V, E>(end.base, m.name, names, end.scope);
    assert Exported<V, E>(end.base, m.name, names, end.scope).value == exported;
  }

  function Plain(k: Kind): Node {
    Node(k, [], None)
  }

  /** `(def name ..)` and `(defn name ..)` define a name at the top level; no other head does. */
  lemma TopLevelNames(head: Name, name: Name, parts: seq<Node>)
    ensures var form := Plain(List([Plain(Atomic(Symbol(None, head))), Plain(Atomic(Symbol(None, name)))] + parts));
            TopLevelDefName(form) == if head == "def" || head == "defn" then Some(name) else None
  {
  }
}
