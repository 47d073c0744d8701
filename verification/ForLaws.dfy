/**
 What `for` means (crates/nexl-eval/src/eval.rs, `eval_for`), as laws between programs: what a clause does to the
 comprehension that the rest of the clauses make.
*/
module ForLaws {
  import opened Basics
  import opened Ast
  import opened Scopes
  import opened SpecialForms
  import opened Semantics
  import E = EvaluatorTheorems
  import V = Values

  // ---------------------------------------------------------------------------------------------
  // The written form
  // ---------------------------------------------------------------------------------------------

  function Kw(name: string): Node {
    Node(Atomic(Keyword(None, name)), [], None)
  }

  function VectorNode(items: seq<Node>): Node {
    Node(Vector(items), [], None)
  }

  function ForItems(clauses: seq<Node>, body: seq<Node>): (items: seq<Node>)
    ensures |items| == 2 + |body| && items[2..] == body && items[1] == VectorNode(clauses)
  {
    [E.Sym("for"), VectorNode(clauses)] + body
  }

  /** `(for [clauses] body)`, evaluated. */
  function For(c: Context, clauses: seq<Node>, body: seq<Node>, env: Chain): Step
    requires env != []
  {
    Eval(c, E.ListNode(ForItems(clauses, body)), env)
  }

  /** `(do body)` outside any loop. */
  function Do(c: Context, body: seq<Node>, env: Chain): Step
    requires env != []
  {
    Eval(NoLoop(c), E.ListNode(E.Block(body)), env)
  }

  lemma ForOpens(c: Context, clauses: seq<Node>, body: seq<Node>, env: Chain)
    requires env != [] && body != []
    ensures var f := ForRows(NoLoop(c), ForItems(clauses, body), 0, env);
            For(c, clauses, body, env) ==
            match f.rows
            case Yield(values, _) => Step(Done(V.Vec(values)), f.env)
            case Abort(e) => Step(Fail(e), f.env)
  {
    hide Eval, ForRows;
    var items := ForItems(clauses, body);
    E.EvalListNode(c, items, env);
    assert FormOf(items[0]) == ForForm;
  }

  lemma DoOpens(c: Context, body: seq<Node>, env: Chain)
    requires env != [] && body != []
    ensures Do(c, body, env) == EvalBody(NoLoop(c), E.Block(body), 1, V.Unit, env)
  {
    hide EvalList, EvalBody;
    E.FormSpelling();
    E.EvalListNode(NoLoop(c), E.Block(body), env);
    E.DoItems(NoLoop(c), E.Block(body), env);
  }

  // ---------------------------------------------------------------------------------------------
  // The rest of the clauses as a form of its own
  // ---------------------------------------------------------------------------------------------

  /** The same clauses from `i` and from `j` on, and the same body. */
  predicate SameRest(xs: seq<Node>, i: nat, ys: seq<Node>, j: nat) {
    |xs| >= 3 && |ys| >= 3 && xs[1].kind.Vector? && ys[1].kind.Vector? && xs[2..] == ys[2..] &&
    i <= |xs[1].kind.items| && j <= |ys[1].kind.items| && xs[1].kind.items[i..] == ys[1].kind.items[j..]
  }

  lemma RestAt(xs: seq<Node>, i: nat, ys: seq<Node>, j: nat)
    requires SameRest(xs, i, ys, j)
    ensures var a, b := xs[1].kind.items, ys[1].kind.items;
            |a| - i == |b| - j && (i < |a| ==> a[i] == b[j]) && (i + 1 < |a| ==> a[i + 1] == b[j + 1]) &&
            (i + 2 <= |a| ==> SameRest(xs, i + 2, ys, j + 2))
  {
    var a, b := xs[1].kind.items, ys[1].kind.items;
    assert forall k | 0 <= k < |a| - i :: a[i..][k] == a[i + k];
    assert forall k | 0 <= k < |b| - j :: b[j..][k] == b[j + k];
    assert i + 2 <= |a| ==> a[i + 2..] == a[i..][2..] && b[j + 2..] == b[j..][2..];
  }

  lemma {:induction false} Shifted(c: Context, xs: seq<Node>, i: nat, ys: seq<Node>, j: nat, env: Chain)
    requires env != [] && SameRest(xs, i, ys, j)
    ensures ForRows(c, xs, i, env) == ForRows(c, ys, j, env)
    decreases |xs[1].kind.items| - i, 1
  {
    hide Eval, EvalBody, ForScope, ForEach, SameRest, Elements;
    RestAt(xs, i, ys, j);
    Parts(xs, i, ys, j);
    var b := xs[1].kind.items;
    if i >= |b| {
      E.SameBody(c, xs, 2, ys, 2, V.Unit, env);
    } else if i + 1 < |b| {
      var clause := ClauseOf(b[i]);
      var r := Eval(c, b[i + 1], env);
      if clause.LetClause? {
        ShiftedScope(c, xs, i, ys, j, env);
      } else if r.out.Done? && clause.Generator? {
        if Elements(r.out.value).Ok? {
          ShiftedEach(c, xs, i, ys, j, clause.name, Elements(r.out.value).value, 0, r.env);
        }
      } else if r.out.Done? && !clause.NoClause? && r.out.value.Bool? && r.out.value.b {
        Shifted(c, xs, i + 2, ys, j + 2, r.env);
      }
    }
  }

  lemma Parts(xs: seq<Node>, i: nat, ys: seq<Node>, j: nat)
    requires SameRest(xs, i, ys, j)
    ensures |xs| >= 3 && |ys| >= 3 && xs[1].kind.Vector? && ys[1].kind.Vector? && xs[2..] == ys[2..]
  {
  }

  lemma {:induction false} ShiftedScope(c: Context, xs: seq<Node>, i: nat, ys: seq<Node>, j: nat, env: Chain)
    requires env != [] && SameRest(xs, i, ys, j) && i + 1 < |xs[1].kind.items| && j + 1 < |ys[1].kind.items|
    ensures ForScope(c, xs, i, env) == ForScope(c, ys, j, env)
    decreases |xs[1].kind.items| - i, 0
  {
    hide ForRows, ForLet, SameRest, Push, Pop;
    RestAt(xs, i, ys, j);
    Parts(xs, i, ys, j);
    var target := xs[1].kind.items[i + 1];
    if target.kind.Vector? && |target.kind.items| % 2 == 0 {
      var g := ForLet(c, target.kind.items, 0, Push(env, map[]));
      if g.All? { Shifted(c, xs, i + 2, ys, j + 2, g.env); }
    }
  }

  lemma {:induction false} ShiftedEach(
    c: Context, xs: seq<Node>, i: nat, ys: seq<Node>, j: nat, name: string, vs: seq<V.Value>, k: nat, env: Chain)
    requires env != [] && SameRest(xs, i, ys, j) && i + 1 < |xs[1].kind.items| && j + 1 < |ys[1].kind.items|
    ensures ForEach(c, xs, i, name, vs, k, env) == ForEach(c, ys, j, name, vs, k, env)
    decreases |xs[1].kind.items| - i, 0, |vs| - k
  {
    hide ForRows, SameRest, Push, Pop;
    RestAt(xs, i, ys, j);
    Parts(xs, i, ys, j);
    if k < |vs| {
      Shifted(c, xs, i + 2, ys, j + 2, Push(env, map[name := vs[k]]));
      var f := ForRows(c, xs, i + 2, Push(env, map[name := vs[k]]));
      if f.rows.Yield? && !f.rows.stop { ShiftedEach(c, xs, i, ys, j, name, vs, k + 1, Pop(f.env)); }
    }
  }

  /** What follows the first clause is what a form without that clause does. */
  lemma RestRows(c: Context, clauses: seq<Node>, body: seq<Node>, env: Chain)
    requires env != [] && body != [] && |clauses| >= 2
    ensures ForRows(c, ForItems(clauses, body), 2, env) == ForRows(c, ForItems(clauses[2..], body), 0, env)
  {
    hide ForRows;
    assert clauses[2..][0..] == clauses[2..];
    Shifted(c, ForItems(clauses, body), 2, ForItems(clauses[2..], body), 0, env);
  }

  // ---------------------------------------------------------------------------------------------
  // Clauses
  // ---------------------------------------------------------------------------------------------

  /** Without clauses there is one row: the value of the body. */
  lemma NoClauses(c: Context, body: seq<Node>, env: Chain)
    requires env != [] && body != []
    ensures var r := Do(c, body, env);
            For(c, [], body, env) == Step(if r.out.Done? then Done(V.Vec([r.out.value])) else NoRecur(r.out), r.env)
  {
    hide Eval, EvalBody;
    ForOpens(c, [], body, env);
    DoOpens(c, body, env);
    E.SameBody(NoLoop(c), ForItems([], body), 2, E.Block(body), 1, V.Unit, env);
    assert ForRows(NoLoop(c), ForItems([], body), 0, env) ==
           (var r := EvalBody(NoLoop(c), ForItems([], body), 2, V.Unit, env);
            ForStep(if r.out.Done? then Yield([r.out.value], false) else Abort(Error(r.out)), r.env));
  }

  /** What a test as first clause comes to. */
  function Tested(c: Context, test: Node, rest: seq<Node>, body: seq<Node>, env: Chain): Step
    requires env != []
  {
    var r := Eval(NoLoop(c), test, env);
    match r.out
    case Done(Bool(true)) => For(c, rest, body, r.env)
    case Done(Bool(false)) => Step(Done(V.Vec([])), r.env)
    case Done(v) => Step(Fail(NativeError(NotBool(v))), r.env)
    case out => Step(NoRecur(out), r.env)
  }

  lemma TestFirst(c: Context, keyword: string, test: Node, rest: seq<Node>, body: seq<Node>, env: Chain)
    requires env != [] && body != [] && (keyword == "when" || keyword == "while")
    ensures For(c, [Kw(keyword), test] + rest, body, env) == Tested(c, test, rest, body, env)
  {
    hide Eval, EvalBody, ForRows, For;
    var clauses := [Kw(keyword), test] + rest;
    assert clauses[2..] == rest;
    ForOpens(c, clauses, body, env);
    TestRows(NoLoop(c), keyword, test, rest, body, env);
    var r := Eval(NoLoop(c), test, env);
    if r.out == Done(V.Bool(true)) {
      ForOpens(c, rest, body, r.env);
    }
  }

  lemma TestRows(c: Context, keyword: string, test: Node, rest: seq<Node>, body: seq<Node>, env: Chain)
    requires env != [] && body != [] && (keyword == "when" || keyword == "while")
    ensures var r := Eval(c, test, env);
            ForRows(c, ForItems([Kw(keyword), test] + rest, body), 0, env) ==
            if !r.out.Done? then ForStep(Abort(Error(r.out)), r.env)
            else if !r.out.value.Bool? then ForStep(Abort(NativeError(NotBool(r.out.value))), r.env)
            else if r.out.value.b then ForRows(c, ForItems(rest, body), 0, r.env)
            else ForStep(Yield([], keyword == "while"), r.env)
  {
    var clauses := [Kw(keyword), test] + rest;
    assert clauses[0] == Kw(keyword) && clauses[1] == test && clauses[2..] == rest;
    var r := Eval(c, test, env);
    RestRows(c, clauses, body, r.env);
    assert ClauseOf(Kw(keyword)) == if keyword == "while" then While else When;
    FirstRows(c, clauses, body, env);
  }

  /** `ForRows` at a test. */
  lemma FirstRows(c: Context, clauses: seq<Node>, body: seq<Node>, env: Chain)
    requires env != [] && body != [] && |clauses| >= 2 && (ClauseOf(clauses[0]).When? || ClauseOf(clauses[0]).While?)
    ensures var r, items := Eval(c, clauses[1], env), ForItems(clauses, body);
            ForRows(c, items, 0, env) ==
            if !r.out.Done? then ForStep(Abort(Error(r.out)), r.env)
            else if !r.out.value.Bool? then ForStep(Abort(NativeError(NotBool(r.out.value))), r.env)
            else if r.out.value.b then ForRows(c, items, 2, r.env)
            else ForStep(Yield([], ClauseOf(clauses[0]).While?), r.env)
  {
    hide Eval, EvalBody, ClauseOf;
  }

  /** `:when` goes on with the other clauses or gives no row. */
  lemma WhenFirst(c: Context, test: Node, rest: seq<Node>, body: seq<Node>, env: Chain)
    requires env != [] && body != []
    ensures For(c, [Kw("when"), test] + rest, body, env) == Tested(c, test, rest, body, env)
  {
    TestFirst(c, "when", test, rest, body, env);
  }

  /** So does `:while`, when it stands after no generator. */
  lemma WhileFirst(c: Context, test: Node, rest: seq<Node>, body: seq<Node>, env: Chain)
    requires env != [] && body != []
    ensures For(c, [Kw("while"), test] + rest, body, env) == Tested(c, test, rest, body, env)
  {
    TestFirst(c, "while", test, rest, body, env);
  }

  /** `:let` evaluates the other clauses with the name defined in a scope of its own. */
  lemma LetFirst(c: Context, name: string, value: Node, rest: seq<Node>, body: seq<Node>, env: Chain)
    requires env != [] && body != [] && name != "mut"
    ensures var r := Eval(NoLoop(c), value, Push(env, map[]));
            For(c, [Kw("let"), VectorNode([E.Sym(name), value])] + rest, body, env) ==
            if !r.out.Done? then Step(NoRecur(r.out), Pop(r.env))
            else
              var inner := For(c, rest, body, Define(r.env, name, r.out.value));
              Step(inner.out, Pop(inner.env))
  {
    hide Eval, EvalBody, ForRows, For, Define, Push, Pop;
    var clauses := [Kw("let"), VectorNode([E.Sym(name), value])] + rest;
    assert clauses[0] == Kw("let") && clauses[1] == VectorNode([E.Sym(name), value]) && clauses[2..] == rest;
    ForOpens(c, clauses, body, env);
    ScopeRows(NoLoop(c), clauses, name, value, body, env);
    var r := Eval(NoLoop(c), value, Push(env, map[]));
    if r.out.Done? {
      var scope := Define(r.env, name, r.out.value);
      RestRows(NoLoop(c), clauses, body, scope);
      ForOpens(c, rest, body, scope);
    }
  }

  lemma ScopeRows(c: Context, clauses: seq<Node>, name: string, value: Node, body: seq<Node>, env: Chain)
    requires env != [] && body != [] && name != "mut" && |clauses| >= 2
    requires clauses[0] == Kw("let") && clauses[1] == VectorNode([E.Sym(name), value])
    ensures var r := Eval(c, value, Push(env, map[]));
            ForRows(c, ForItems(clauses, body), 0, env) ==
            if !r.out.Done? then ForStep(Abort(Error(r.out)), Pop(r.env))
            else
              var f := ForRows(c, ForItems(clauses, body), 2, Define(r.env, name, r.out.value));
              ForStep(f.rows, Pop(f.env))
  {
    OneScoped(c, name, value, Push(env, map[]));
    assert ClauseOf(Kw("let")) == LetClause;
    hide Eval, EvalBody, ForLet, ClauseOf, Push, Pop, Define;
    var items := ForItems(clauses, body);
    assert ForRows(c, items, 0, env) == ForScope(c, items, 0, env);
  }

  /** The one binding of `:let`. */
  lemma OneScoped(c: Context, name: string, value: Node, env: Chain)
    requires env != [] && name != "mut"
    ensures var r := Eval(c, value, env);
            ForLet(c, [E.Sym(name), value], 0, env) ==
            if r.out.Done? then All([], Define(r.env, name, r.out.value)) else Stopped(r.out, r.env)
  {
    hide Eval, Define;
    var b := [E.Sym(name), value];
    assert ScopeAt(b, 0) == Ok(ScopeBinding(name, 1, 2));
  }

  /** What `:let` makes of its vector. */
  lemma ScopeOpens(c: Context, b: seq<Node>, rest: seq<Node>, body: seq<Node>, env: Chain)
    requires env != [] && body != []
    ensures ForRows(c, ForItems([Kw("let"), VectorNode(b)] + rest, body), 0, env) ==
            if |b| % 2 != 0 then ForStep(Abort(Arity), env)
            else
              var g := ForLet(c, b, 0, Push(env, map[]));
              if g.Stopped? then ForStep(Abort(Error(g.out)), Pop(g.env))
              else
                var f := ForRows(c, ForItems(rest, body), 0, g.env);
                ForStep(f.rows, Pop(f.env))
  {
    assert ClauseOf(Kw("let")) == LetClause;
    hide Eval, EvalBody, ForLet, ClauseOf, Push, Pop;
    var clauses := [Kw("let"), VectorNode(b)] + rest;
    var items := ForItems(clauses, body);
    assert clauses[0] == Kw("let") && clauses[1] == VectorNode(b) && clauses[2..] == rest;
    assert ForRows(c, items, 0, env) == ForScope(c, items, 0, env);
    var g := ForLet(c, b, 0, Push(env, map[]));
    if |b| % 2 == 0 && g.All? { RestRows(c, clauses, body, g.env); }
  }

  /** One `mut` in a `:let` makes its vector odd, which is an error. */
  lemma MutRefused(c: Context, name: string, value: Node, rest: seq<Node>, body: seq<Node>, env: Chain)
    requires env != [] && body != []
    ensures For(c, [Kw("let"), VectorNode([E.Sym("mut"), E.Sym(name), value])] + rest, body, env) ==
            Step(Fail(Arity), env)
  {
    hide Eval, ForRows, For;
    var b := [E.Sym("mut"), E.Sym(name), value];
    ScopeOpens(NoLoop(c), b, rest, body, env);
    ForOpens(c, [Kw("let"), VectorNode(b)] + rest, body, env);
  }

  /** Two of them change nothing. */
  lemma MutInPairs(
    c: Context, x: string, a: Node, y: string, b: Node, rest: seq<Node>, body: seq<Node>, env: Chain)
    requires env != [] && body != [] && x != "mut" && y != "mut"
    ensures var mut_ := E.Sym("mut");
            For(c, [Kw("let"), VectorNode([mut_, E.Sym(x), a, mut_, E.Sym(y), b])] + rest, body, env) ==
            For(c, [Kw("let"), VectorNode([E.Sym(x), a, E.Sym(y), b])] + rest, body, env)
  {
    hide Eval, ForRows, For, ForLet, Push, Pop;
    var marked := [E.Sym("mut"), E.Sym(x), a, E.Sym("mut"), E.Sym(y), b];
    var plain := [E.Sym(x), a, E.Sym(y), b];
    TwoScoped(NoLoop(c), x, a, y, b, Push(env, map[]));
    ScopeOpens(NoLoop(c), marked, rest, body, env);
    ScopeOpens(NoLoop(c), plain, rest, body, env);
    ForOpens(c, [Kw("let"), VectorNode(marked)] + rest, body, env);
    ForOpens(c, [Kw("let"), VectorNode(plain)] + rest, body, env);
  }

  lemma TwoScoped(c: Context, x: string, a: Node, y: string, b: Node, env: Chain)
    requires env != [] && x != "mut" && y != "mut"
    ensures ForLet(c, [E.Sym("mut"), E.Sym(x), a, E.Sym("mut"), E.Sym(y), b], 0, env) ==
            ForLet(c, [E.Sym(x), a, E.Sym(y), b], 0, env)
  {
    hide Eval, Define, ForLet;
    var marked := [E.Sym("mut"), E.Sym(x), a, E.Sym("mut"), E.Sym(y), b];
    var plain := [E.Sym(x), a, E.Sym(y), b];
    assert ScopeAt(marked, 0) == Ok(ScopeBinding(x, 2, 3)) && ScopeAt(marked, 3) == Ok(ScopeBinding(y, 5, 6));
    assert ScopeAt(plain, 0) == Ok(ScopeBinding(x, 1, 2)) && ScopeAt(plain, 2) == Ok(ScopeBinding(y, 3, 4));
    LetStep(c, marked, 0, env);
    LetStep(c, plain, 0, env);
    var r := Eval(c, a, env);
    if r.out.Done? {
      var e := Define(r.env, x, r.out.value);
      LetStep(c, marked, 3, e);
      LetStep(c, plain, 2, e);
      var q := Eval(c, b, e);
      if q.out.Done? {
        LetEnds(c, marked, Define(q.env, y, q.out.value));
        LetEnds(c, plain, Define(q.env, y, q.out.value));
      }
    }
  }

  lemma LetStep(c: Context, b: seq<Node>, i: nat, env: Chain)
    requires env != [] && i < |b| && ScopeAt(b, i).Ok?
    ensures var part := ScopeAt(b, i).value;
            var r := Eval(c, b[part.value], env);
            ForLet(c, b, i, env) ==
            if r.out.Done? then ForLet(c, b, part.next, Define(r.env, part.name, r.out.value))
            else Stopped(r.out, r.env)
  {
    hide Eval, Define, ScopeAt;
  }

  lemma LetEnds(c: Context, b: seq<Node>, env: Chain)
    requires env != []
    ensures ForLet(c, b, |b|, env) == All([], env)
  {
  }

  // ---------------------------------------------------------------------------------------------
  // Generators
  // ---------------------------------------------------------------------------------------------

  /** The elements of a vector or set, the values of a map, the content of an option. */
  predicate RangesOver(v: V.Value, vs: seq<V.Value>) {
    match v
    case Vec(items) => vs == items
    case Set(items) => vs == items
    case Map(entries) => |vs| == |entries| && forall i | 0 <= i < |vs| :: vs[i] == entries[i].value
    case Adt(typeName, ctor, fields) =>
      typeName == "Option" && ((ctor == "None" && vs == []) || (ctor == "Some" && fields != [] && vs == [fields[0]]))
    case _ => false
  }

  lemma Ranges(v: V.Value, vs: seq<V.Value>)
    requires RangesOver(v, vs)
    ensures Elements(v) == Ok(vs)
  {
    if v.Map? { assert Elements(v).value == vs; }
  }

  /** Nothing in the clauses or the body defines or assigns. */
  predicate Quiet(clauses: seq<Node>, body: seq<Node>) {
    AllWithin(QUIET, clauses) && AllWithin(QUIET, body)
  }

  lemma QuietItems(clauses: seq<Node>, body: seq<Node>)
    requires Quiet(clauses, body)
    ensures AllWithin(QUIET, ForItems(clauses, body))
  {
    var items := ForItems(clauses, body);
    assert Within(QUIET, items[0]) && Within(QUIET, items[1]);
    forall i | 0 <= i < |items| ensures Within(QUIET, items[i]) {
      if i >= 2 { assert items[i] == body[i - 2]; }
    }
  }

  function Joined(rows: seq<seq<V.Value>>): seq<V.Value> {
    if rows == [] then [] else Joined(rows[..|rows| - 1]) + rows[|rows| - 1]
  }

  lemma {:induction false} JoinedFirst(rows: seq<seq<V.Value>>)
    requires rows != []
    ensures Joined(rows) == rows[0] + Joined(rows[1..])
  {
    if |rows| > 1 {
      JoinedFirst(rows[..|rows| - 1]);
      assert rows[..|rows| - 1][1..] == rows[1..][..|rows| - 2];
    }
  }

  function Bound(env: Chain, name: string, v: V.Value): (r: Chain)
    ensures r != []
  {
    Push(env, map[name := v])
  }

  /** The generator loop over elements that each give their rows and go on. */
  lemma {:induction false} EachGoesOn(
    c: Context, items: seq<Node>, name: string, vs: seq<V.Value>, k: nat, n: nat, rows: seq<seq<V.Value>>, env: Chain)
    requires env != [] && |items| >= 3 && items[1].kind.Vector? && items[1].kind.items != [] && AllWithin(QUIET, items)
    requires k <= n <= |vs| && |rows| == n - k
    requires forall j | k <= j < n :: E.RowsOf(c, items, 0, name, vs[j], env) == Yield(rows[j - k], false)
    ensures var rest := ForEach(c, items, 0, name, vs, n, env);
            ForEach(c, items, 0, name, vs, k, env) ==
            ForStep(
              if rest.rows.Yield? then Yield(Joined(rows) + rest.rows.values, rest.rows.stop) else rest.rows, rest.env)
    decreases n - k
  {
    hide ForEach, E.RowsOf, AllWithin;
    var rest := ForEach(c, items, 0, name, vs, n, env);
    if k < n {
      E.OneElement(c, items, 0, name, vs, k, env);
      forall j | k + 1 <= j < n
        ensures E.RowsOf(c, items, 0, name, vs[j], env) == Yield(rows[1..][j - (k + 1)], false)
      {
        assert rows[1..][j - (k + 1)] == rows[j - k];
      }
      EachGoesOn(c, items, name, vs, k + 1, n, rows[1..], env);
      JoinedFirst(rows);
      if rest.rows.Yield? {
        assert rows[0] + (Joined(rows[1..]) + rest.rows.values) == Joined(rows) + rest.rows.values;
      }
    } else if rest.rows.Yield? {
      assert Joined(rows) + rest.rows.values == rest.rows.values;
    }
  }

  /** `ForRows` at a generator. */
  lemma GeneratorRows(c: Context, name: string, source: Node, rest: seq<Node>, body: seq<Node>, vs: seq<V.Value>,
    env: Chain)
    requires env != [] && body != [] && Eval(c, source, env).out.Done? && RangesOver(Eval(c, source, env).out.value, vs)
    ensures var items := ForItems([E.Sym(name), source] + rest, body);
            ForRows(c, items, 0, env) == ForEach(c, items, 0, name, vs, 0, Eval(c, source, env).env)
  {
    var clauses := [E.Sym(name), source] + rest;
    assert clauses[0] == E.Sym(name) && clauses[1] == source;
    assert ClauseOf(E.Sym(name)) == Generator(name);
    Ranges(Eval(c, source, env).out.value, vs);
    hide Eval, EvalBody, ClauseOf, ForEach, Elements, RangesOver;
  }

  predicate IsKeyword(n: Node) {
    n.kind.Atomic? && n.kind.atom.Keyword?
  }

  predicate IsWhile(n: Node) {
    n.kind == Atomic(Keyword(None, "while"))
  }

  /** No `:while` before the next generator. */
  predicate Endless(clauses: seq<Node>) {
    |clauses| < 2 || (!IsWhile(clauses[0]) && (IsKeyword(clauses[0]) ==> Endless(clauses[2..])))
  }

  /** Clauses without such a `:while` never end the generator they stand after. */
  lemma {:induction false} EndlessRows(c: Context, clauses: seq<Node>, body: seq<Node>, env: Chain)
    requires env != [] && body != [] && Endless(clauses)
    ensures var f := ForRows(c, ForItems(clauses, body), 0, env); f.rows.Yield? ==> !f.rows.stop
    decreases |clauses|
  {
    hide Eval, EvalBody, ForEach, ForLet, Elements, Push, Pop;
    var items := ForItems(clauses, body);
    if |clauses| >= 2 && IsKeyword(clauses[0]) {
      forall e: Chain | e != [] ensures var f := ForRows(c, items, 2, e); f.rows.Yield? ==> !f.rows.stop {
        EndlessRows(c, clauses[2..], body, e);
        RestRows(c, clauses, body, e);
      }
      WhileOnly(clauses[0]);
      hide ForRows, ClauseOf;
      EndlessFirst(c, items, env);
    }
  }

  lemma WhileOnly(n: Node)
    ensures ClauseOf(n).While? <==> IsWhile(n)
    ensures ClauseOf(n).Generator? ==> !IsKeyword(n)
  {
  }

  lemma EndlessFirst(c: Context, items: seq<Node>, env: Chain)
    requires env != [] && |items| >= 3 && items[1].kind.Vector? && |items[1].kind.items| >= 2
    requires !ClauseOf(items[1].kind.items[0]).While?
    requires forall e: Chain :: e != [] ==> var f := ForRows(c, items, 2, e); f.rows.Yield? ==> !f.rows.stop
    ensures var f := ForRows(c, items, 0, env); f.rows.Yield? ==> !f.rows.stop
  {
    hide Eval, EvalBody, ForEach, ForScope, Elements, ClauseOf;
    if ClauseOf(items[1].kind.items[0]).LetClause? {
      ScopeEndless(c, items, env);
      assert ForRows(c, items, 0, env) == ForScope(c, items, 0, env);
    }
  }

  lemma ScopeEndless(c: Context, items: seq<Node>, env: Chain)
    requires env != [] && |items| >= 3 && items[1].kind.Vector? && |items[1].kind.items| >= 2
    requires forall e: Chain :: e != [] ==> var f := ForRows(c, items, 2, e); f.rows.Yield? ==> !f.rows.stop
    ensures var f := ForScope(c, items, 0, env); f.rows.Yield? ==> !f.rows.stop
  {
    hide Eval, ForRows, ForLet, Push, Pop;
  }

  /** A generator joins the rows that the other clauses give for its elements, in order, up to the first error. */
  lemma GeneratorFirst(
    c: Context, name: string, source: Node, rest: seq<Node>, body: seq<Node>, vs: seq<V.Value>, rows: seq<seq<V.Value>>,
    env: Chain)
    requires env != [] && body != [] && Quiet([E.Sym(name), source] + rest, body) && Endless(rest)
    requires Eval(NoLoop(c), source, env).out.Done? && RangesOver(Eval(NoLoop(c), source, env).out.value, vs)
    requires |rows| <= |vs|
    requires forall k | 0 <= k < |rows| :: For(c, rest, body, Bound(env, name, vs[k])).out == Done(V.Vec(rows[k]))
    requires |rows| < |vs| ==> For(c, rest, body, Bound(env, name, vs[|rows|])).out.Fail?
    ensures For(c, [E.Sym(name), source] + rest, body, env) ==
            Step(
              if |rows| < |vs| then For(c, rest, body, Bound(env, name, vs[|rows|])).out else Done(V.Vec(Joined(rows))),
              env)
  {
    hide Eval, For, ForRows, ForEach, E.RowsOf, Endless, Quiet, RangesOver, Bound;
    var clauses, n := [E.Sym(name), source] + rest, |rows|;
    var items, c0 := ForItems(clauses, body), NoLoop(c);
    QuietItems(clauses, body);
    QuietSource(clauses, body);
    ForOpens(c, clauses, body, env);
    GeneratorRows(c0, name, source, rest, body, vs, env);
    forall k | 0 <= k < |vs| ensures
      var f := ForRows(c0, ForItems(rest, body), 0, Bound(env, name, vs[k]));
      E.RowsOf(c0, items, 0, name, vs[k], env) == f.rows && (f.rows.Yield? ==> !f.rows.stop) &&
      For(c, rest, body, Bound(env, name, vs[k])).out == RowsOut(f.rows)
    {
      ElementRows(c, name, source, rest, body, vs[k], env);
    }
    forall k | 0 <= k < n ensures E.RowsOf(c0, items, 0, name, vs[k], env) == Yield(rows[k], false) {
      assert For(c, rest, body, Bound(env, name, vs[k])).out == Done(V.Vec(rows[k]));
    }
    EachGoesOn(c0, items, name, vs, 0, n, rows, env);
    EachEnds(c0, items, name, vs, n, env);
    assert Joined(rows) + [] == Joined(rows);
  }

  function RowsOut(rows: Rows): Outcome {
    match rows
    case Yield(values, _) => Done(V.Vec(values))
    case Abort(e) => Fail(e)
  }

  lemma QuietSource(clauses: seq<Node>, body: seq<Node>)
    requires Quiet(clauses, body) && |clauses| >= 2
    ensures Within(QUIET, clauses[1])
  {
  }

  /** The rows of one element are those of the form without the generator. */
  lemma ElementRows(c: Context, name: string, source: Node, rest: seq<Node>, body: seq<Node>, v: V.Value, env: Chain)
    requires env != [] && body != [] && Endless(rest)
    ensures var f := ForRows(NoLoop(c), ForItems(rest, body), 0, Bound(env, name, v));
            E.RowsOf(NoLoop(c), ForItems([E.Sym(name), source] + rest, body), 0, name, v, env) == f.rows &&
            (f.rows.Yield? ==> !f.rows.stop) && For(c, rest, body, Bound(env, name, v)).out == RowsOut(f.rows)
  {
    hide Eval, For, ForRows, Endless, Push;
    var clauses := [E.Sym(name), source] + rest;
    assert clauses[2..] == rest;
    RestRows(NoLoop(c), clauses, body, Bound(env, name, v));
    EndlessRows(NoLoop(c), rest, body, Bound(env, name, v));
    ForOpens(c, rest, body, Bound(env, name, v));
  }

  /** The generator loop from the element that ends it, or past the last one. */
  lemma EachEnds(c: Context, items: seq<Node>, name: string, vs: seq<V.Value>, n: nat, env: Chain)
    requires env != [] && |items| >= 3 && items[1].kind.Vector? && items[1].kind.items != [] && AllWithin(QUIET, items)
    requires n <= |vs|
    ensures n == |vs| ==> ForEach(c, items, 0, name, vs, n, env) == ForStep(Yield([], false), env)
    ensures n < |vs| && E.RowsOf(c, items, 0, name, vs[n], env).Abort? ==>
              ForEach(c, items, 0, name, vs, n, env) == ForStep(E.RowsOf(c, items, 0, name, vs[n], env), env)
    ensures n < |vs| && E.RowsOf(c, items, 0, name, vs[n], env) == Yield([], true) ==>
              ForEach(c, items, 0, name, vs, n, env) == ForStep(Yield([], false), env)
  {
    hide ForEach, E.RowsOf, AllWithin;
    if n < |vs| { E.OneElement(c, items, 0, name, vs, n, env); } else { E.NoElement(c, items, 0, name, vs, env); }
  }

  /** With `:while` right after it, a generator ends at the first element for which the test is false. */
  lemma GeneratorWhile(
    c: Context, name: string, source: Node, test: Node, rest: seq<Node>, body: seq<Node>, vs: seq<V.Value>,
    rows: seq<seq<V.Value>>, env: Chain)
    requires env != [] && body != [] && Quiet([E.Sym(name), source] + ([Kw("while"), test] + rest), body) &&
             Endless(rest)
    requires Eval(NoLoop(c), source, env).out.Done? && RangesOver(Eval(NoLoop(c), source, env).out.value, vs)
    requires |rows| <= |vs|
    requires forall k | 0 <= k < |rows| ::
               Eval(NoLoop(c), test, Bound(env, name, vs[k])).out == Done(V.Bool(true)) &&
               For(c, rest, body, Bound(env, name, vs[k])).out == Done(V.Vec(rows[k]))
    requires |rows| < |vs| ==> Eval(NoLoop(c), test, Bound(env, name, vs[|rows|])).out == Done(V.Bool(false))
    ensures For(c, [E.Sym(name), source] + ([Kw("while"), test] + rest), body, env) ==
            Step(Done(V.Vec(Joined(rows))), env)
  {
    hide Eval, For, ForRows, ForEach, E.RowsOf, Endless, Quiet, RangesOver, Bound;
    var tail := [Kw("while"), test] + rest;
    var clauses, n := [E.Sym(name), source] + tail, |rows|;
    var items, c0 := ForItems(clauses, body), NoLoop(c);
    QuietItems(clauses, body);
    QuietSource(clauses, body);
    QuietTest(name, source, test, rest, body);
    ForOpens(c, clauses, body, env);
    GeneratorRows(c0, name, source, tail, body, vs, env);
    forall k | 0 <= k < |vs| && Eval(c0, test, Bound(env, name, vs[k])).out.Done?
      ensures var r := Eval(c0, test, Bound(env, name, vs[k]));
              r.out == Done(V.Bool(false)) ==> E.RowsOf(c0, items, 0, name, vs[k], env) == Yield([], true)
      ensures var r := Eval(c0, test, Bound(env, name, vs[k]));
              r.out == Done(V.Bool(true)) && For(c, rest, body, Bound(env, name, vs[k])).out.Done? ==>
                E.RowsOf(c0, items, 0, name, vs[k], env).Yield? && !E.RowsOf(c0, items, 0, name, vs[k], env).stop &&
                For(c, rest, body, Bound(env, name, vs[k])).out == RowsOut(E.RowsOf(c0, items, 0, name, vs[k], env))
    {
      WhileRows(c, name, source, test, rest, body, vs[k], env);
    }
    forall k | 0 <= k < n ensures E.RowsOf(c0, items, 0, name, vs[k], env) == Yield(rows[k], false) {
      assert For(c, rest, body, Bound(env, name, vs[k])).out == Done(V.Vec(rows[k]));
    }
    EachGoesOn(c0, items, name, vs, 0, n, rows, env);
    EachEnds(c0, items, name, vs, n, env);
    assert Joined(rows) + [] == Joined(rows);
  }

  lemma QuietTest(name: string, source: Node, test: Node, rest: seq<Node>, body: seq<Node>)
    requires Quiet([E.Sym(name), source] + ([Kw("while"), test] + rest), body)
    ensures Within(QUIET, test)
  {
    hide Within;
    assert ([E.Sym(name), source] + ([Kw("while"), test] + rest))[3] == test;
  }

  lemma WhileRows(
    c: Context, name: string, source: Node, test: Node, rest: seq<Node>, body: seq<Node>, v: V.Value, env: Chain)
    requires env != [] && body != [] && Endless(rest) && Within(QUIET, test)
    ensures var items := ForItems([E.Sym(name), source] + ([Kw("while"), test] + rest), body);
            var rows, r := E.RowsOf(NoLoop(c), items, 0, name, v, env), Eval(NoLoop(c), test, Bound(env, name, v));
            (r.out == Done(V.Bool(false)) ==> rows == Yield([], true)) &&
            (r.out == Done(V.Bool(true)) ==>
               (rows.Yield? ==> !rows.stop) && For(c, rest, body, Bound(env, name, v)).out == RowsOut(rows))
  {
    hide Eval, For, ForRows, Endless, Push, Within;
    var tail := [Kw("while"), test] + rest;
    var clauses := [E.Sym(name), source] + tail;
    assert clauses[2..] == tail;
    RestRows(NoLoop(c), clauses, body, Bound(env, name, v));
    TestRows(NoLoop(c), "while", test, rest, body, Bound(env, name, v));
    EndlessRows(NoLoop(c), rest, body, Bound(env, name, v));
    ForOpens(c, rest, body, Bound(env, name, v));
  }

  // ---------------------------------------------------------------------------------------------
  // Common comprehensions
  // ---------------------------------------------------------------------------------------------

  /** The values whose flag is set, in order. */
  function Picked(flags: seq<bool>, vals: seq<V.Value>): seq<V.Value>
    requires |flags| == |vals|
  {
    if flags == [] then []
    else
      var n := |flags| - 1;
      Picked(flags[..n], vals[..n]) + if flags[n] then [vals[n]] else []
  }

  function Singles(flags: seq<bool>, vals: seq<V.Value>): (rows: seq<seq<V.Value>>)
    requires |flags| == |vals|
    ensures |rows| == |vals|
  {
    seq(|vals|, i requires 0 <= i < |vals| => if flags[i] then [vals[i]] else [])
  }

  lemma {:induction false} JoinedSingles(flags: seq<bool>, vals: seq<V.Value>)
    requires |flags| == |vals|
    ensures Joined(Singles(flags, vals)) == Picked(flags, vals)
    decreases |vals|
  {
    if vals != [] {
      var n := |vals| - 1;
      JoinedSingles(flags[..n], vals[..n]);
      assert Singles(flags, vals)[..n] == Singles(flags[..n], vals[..n]);
    }
  }

  lemma QuietTail(name: string, source: Node, rest: seq<Node>, body: seq<Node>)
    requires Quiet([E.Sym(name), source] + rest, body)
    ensures Quiet(rest, body)
  {
    hide Within;
    forall i | 0 <= i < |rest| ensures Within(QUIET, rest[i]) {
      assert rest[i] == ([E.Sym(name), source] + rest)[i + 2];
    }
  }

  /** `(for [name source :when test] body)` keeps the rows of exactly the elements that pass the test, in order. */
  lemma WhenKeeps(
    c: Context, name: string, source: Node, test: Node, body: seq<Node>, vs: seq<V.Value>, flags: seq<bool>,
    vals: seq<V.Value>, env: Chain)
    requires env != [] && body != [] && Quiet([E.Sym(name), source] + [Kw("when"), test], body)
    requires Eval(NoLoop(c), source, env).out.Done? && RangesOver(Eval(NoLoop(c), source, env).out.value, vs)
    requires |flags| == |vs| == |vals|
    requires forall k | 0 <= k < |vs| ::
               Eval(NoLoop(c), test, Bound(env, name, vs[k])).out == Done(V.Bool(flags[k])) &&
               (flags[k] ==> Do(c, body, Bound(env, name, vs[k])).out == Done(vals[k]))
    ensures For(c, [E.Sym(name), source] + [Kw("when"), test], body, env) ==
            Step(Done(V.Vec(Picked(flags, vals))), env)
  {
    hide Eval, For, Do, Quiet, RangesOver, Bound, Picked, Joined;
    var rest, rows := [Kw("when"), test], Singles(flags, vals);
    QuietTail(name, source, rest, body);
    QuietSource(rest, body);
    assert rest + [] == rest;
    forall k | 0 <= k < |rows| ensures For(c, rest, body, Bound(env, name, vs[k])).out == Done(V.Vec(rows[k])) {
      var scope := Bound(env, name, vs[k]);
      WhenFirst(c, test, [], body, scope);
      NoClauses(c, body, scope);
      assert Eval(NoLoop(c), test, scope).out == Done(V.Bool(flags[k]));
    }
    TestEndless("when", test);
    GeneratorFirst(c, name, source, rest, body, vs, rows, env);
    JoinedSingles(flags, vals);
  }

  lemma TestEndless(keyword: string, test: Node)
    requires keyword != "while"
    ensures Endless([Kw(keyword), test]) && Endless([])
  {
    assert [Kw(keyword), test][2..] == [];
  }

  /** `(for [name source :while test] body)` keeps the rows of the longest prefix that passes the test. */
  lemma WhileTakes(
    c: Context, name: string, source: Node, test: Node, body: seq<Node>, vs: seq<V.Value>, vals: seq<V.Value>,
    env: Chain)
    requires env != [] && body != [] && Quiet([E.Sym(name), source] + [Kw("while"), test], body)
    requires Eval(NoLoop(c), source, env).out.Done? && RangesOver(Eval(NoLoop(c), source, env).out.value, vs)
    requires |vals| <= |vs|
    requires forall k | 0 <= k < |vals| ::
               Eval(NoLoop(c), test, Bound(env, name, vs[k])).out == Done(V.Bool(true)) &&
               Do(c, body, Bound(env, name, vs[k])).out == Done(vals[k])
    requires |vals| < |vs| ==> Eval(NoLoop(c), test, Bound(env, name, vs[|vals|])).out == Done(V.Bool(false))
    ensures For(c, [E.Sym(name), source] + [Kw("while"), test], body, env) == Step(Done(V.Vec(vals)), env)
  {
    hide Eval, For, Do, Quiet, RangesOver, Bound, Joined;
    var all := seq(|vals|, _ => true);
    var rows := Singles(all, vals);
    assert [Kw("while"), test] + [] == [Kw("while"), test];
    forall k | 0 <= k < |rows| ensures For(c, [], body, Bound(env, name, vs[k])).out == Done(V.Vec(rows[k])) {
      NoClauses(c, body, Bound(env, name, vs[k]));
    }
    TestEndless("when", test);
    GeneratorWhile(c, name, source, test, [], body, vs, rows, env);
    JoinedSingles(all, vals);
    AllPicked(all, vals);
  }

  lemma {:induction false} AllPicked(flags: seq<bool>, vals: seq<V.Value>)
    requires |flags| == |vals| && forall i | 0 <= i < |flags| :: flags[i]
    ensures Picked(flags, vals) == vals
    decreases |vals|
  {
    if vals != [] {
      var n := |vals| - 1;
      AllPicked(flags[..n], vals[..n]);
      assert vals == vals[..n] + [vals[n]];
    }
  }

  /** `taken` are the values of the body over a prefix of the elements of the inner generator, up to a failed test. */
  ghost predicate Prefix(
    c: Context, name: string, source: Node, test: Node, body: seq<Node>, vs: seq<V.Value>, vals: seq<V.Value>,
    env: Chain)
    requires env != []
  {
    Eval(NoLoop(c), source, env).out.Done? && RangesOver(Eval(NoLoop(c), source, env).out.value, vs) &&
      |vals| <= |vs| &&
    (forall k | 0 <= k < |vals| ::
       Eval(NoLoop(c), test, Bound(env, name, vs[k])).out == Done(V.Bool(true)) &&
       Do(c, body, Bound(env, name, vs[k])).out == Done(vals[k])) &&
    (|vals| < |vs| ==> Eval(NoLoop(c), test, Bound(env, name, vs[|vals|])).out == Done(V.Bool(false)))
  }

  /** A failed `:while` after the inner of two generators leaves the outer one going. */
  lemma InnerWhile(
    c: Context, x: string, xs: Node, y: string, ys: Node, test: Node, body: seq<Node>, outer: seq<V.Value>,
    inner: seq<seq<V.Value>>, rows: seq<seq<V.Value>>, env: Chain)
    requires env != [] && body != [] && Quiet([E.Sym(x), xs] + ([E.Sym(y), ys] + [Kw("while"), test]), body)
    requires Eval(NoLoop(c), xs, env).out.Done? && RangesOver(Eval(NoLoop(c), xs, env).out.value, outer)
    requires |rows| == |outer| == |inner|
    requires forall k | 0 <= k < |outer| :: Prefix(c, y, ys, test, body, inner[k], rows[k], Bound(env, x, outer[k]))
    ensures For(c, [E.Sym(x), xs] + ([E.Sym(y), ys] + [Kw("while"), test]), body, env) ==
            Step(Done(V.Vec(Joined(rows))), env)
  {
    hide Eval, For, Do, Quiet, RangesOver, Bound, Joined, Prefix, Endless;
    var rest := [E.Sym(y), ys] + [Kw("while"), test];
    QuietTail(x, xs, rest, body);
    forall k | 0 <= k < |rows| ensures For(c, rest, body, Bound(env, x, outer[k])).out == Done(V.Vec(rows[k])) {
      assert Prefix(c, y, ys, test, body, inner[k], rows[k], Bound(env, x, outer[k]));
      PrefixTaken(c, y, ys, test, body, inner[k], rows[k], Bound(env, x, outer[k]));
    }
    GeneratorEndless(y, ys, [Kw("while"), test]);
    GeneratorFirst(c, x, xs, rest, body, outer, rows, env);
  }

  lemma PrefixTaken(
    c: Context, name: string, source: Node, test: Node, body: seq<Node>, vs: seq<V.Value>, vals: seq<V.Value>,
    env: Chain)
    requires env != [] && body != [] && Quiet([E.Sym(name), source] + [Kw("while"), test], body)
    requires Prefix(c, name, source, test, body, vs, vals, env)
    ensures For(c, [E.Sym(name), source] + [Kw("while"), test], body, env) == Step(Done(V.Vec(vals)), env)
  {
    hide Eval, For, Do, Quiet, RangesOver, Bound;
    WhileTakes(c, name, source, test, body, vs, vals, env);
  }

  lemma GeneratorEndless(name: string, source: Node, rest: seq<Node>)
    ensures Endless([E.Sym(name), source] + rest)
  {
    assert ([E.Sym(name), source] + rest)[0] == E.Sym(name);
  }

  /** `(for [name source :let [bound value]] body)`: the body of every row sees the bound value. */
  lemma LetSeen(
    c: Context, name: string, source: Node, bound: string, value: Node, body: seq<Node>, vs: seq<V.Value>,
    values: seq<V.Value>, vals: seq<V.Value>, env: Chain)
    requires env != [] && body != [] && bound != "mut"
    requires Quiet([E.Sym(name), source] + [Kw("let"), VectorNode([E.Sym(bound), value])], body)
    requires Eval(NoLoop(c), source, env).out.Done? && RangesOver(Eval(NoLoop(c), source, env).out.value, vs)
    requires |values| == |vs| == |vals|
    requires forall k | 0 <= k < |vs| ::
               var scope := Push(Bound(env, name, vs[k]), map[]);
               Eval(NoLoop(c), value, scope).out == Done(values[k]) &&
               Do(c, body, Define(scope, bound, values[k])).out == Done(vals[k])
    ensures For(c, [E.Sym(name), source] + [Kw("let"), VectorNode([E.Sym(bound), value])], body, env) ==
            Step(Done(V.Vec(vals)), env)
  {
    hide Eval, For, Do, Quiet, RangesOver, Bound, Joined, Push, Define, Pop;
    var rest, all := [Kw("let"), VectorNode([E.Sym(bound), value])], seq(|vals|, _ => true);
    var rows := Singles(all, vals);
    QuietTail(name, source, rest, body);
    QuietLet(bound, value, body);
    assert rest + [] == rest;
    forall k | 0 <= k < |rows| ensures For(c, rest, body, Bound(env, name, vs[k])).out == Done(V.Vec(rows[k])) {
      var scope := Push(Bound(env, name, vs[k]), map[]);
      assert Eval(NoLoop(c), value, scope).out == Done(values[k]);
      LetFirst(c, bound, value, [], body, Bound(env, name, vs[k]));
      NoClauses(c, body, Define(scope, bound, values[k]));
    }
    LetEndless(bound, value);
    GeneratorFirst(c, name, source, rest, body, vs, rows, env);
    JoinedSingles(all, vals);
    AllPicked(all, vals);
  }

  lemma QuietLet(bound: string, value: Node, body: seq<Node>)
    requires Quiet([Kw("let"), VectorNode([E.Sym(bound), value])], body)
    ensures Within(QUIET, value)
  {
    var clauses := [Kw("let"), VectorNode([E.Sym(bound), value])];
    assert Within(QUIET, clauses[1]);
    assert AllWithin(QUIET, [E.Sym(bound), value]);
    assert [E.Sym(bound), value][1] == value;
  }

  lemma LetEndless(bound: string, value: Node)
    ensures Endless([Kw("let"), VectorNode([E.Sym(bound), value])])
  {
    assert [Kw("let"), VectorNode([E.Sym(bound), value])][2..] == [];
  }
}
