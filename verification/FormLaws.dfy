/**
 What the special forms mean (crates/nexl-eval/src/eval.rs), as laws between programs written with their own keywords.
*/
module FormLaws {
  import opened Basics
  import opened Ast
  import opened Patterns
  import opened Scopes
  import opened SpecialForms
  import opened Semantics
  import opened ForLaws
  import opened CallLaws
  import E = EvaluatorTheorems
  import M = MatchLaws
  import V = Values

  function Form(keyword: string, parts: seq<Node>): Node {
    E.ListNode([E.Sym(keyword)] + parts)
  }

  function Literal(a: Atom): Node {
    Node(Atomic(a), [], None)
  }

  /** A form is evaluated by its own keyword. */
  lemma FormOpens(c: Context, keyword: string, parts: seq<Node>, env: Chain)
    requires env != []
    ensures Eval(c, Form(keyword, parts), env) == EvalList(c, [E.Sym(keyword)] + parts, env)
    ensures FormOf(E.Sym(keyword)) == FormNamed(keyword)
  {
    hide EvalList;
    E.EvalListNode(c, [E.Sym(keyword)] + parts, env);
  }

  // ---------------------------------------------------------------------------------------------
  // if, and, or, cond
  // ---------------------------------------------------------------------------------------------

  /** `(if test yes no)` */
  function If(c: Context, test: Node, yes: Node, no: Node, env: Chain): Step
    requires env != []
  {
    Eval(c, Form("if", [test, yes, no]), env)
  }

  lemma IfDecides(c: Context, test: Node, yes: Node, no: Node, env: Chain)
    requires env != []
    ensures var r := Eval(c, test, env);
            If(c, test, yes, no, env) ==
            match r.out
            case Done(Bool(true)) => Eval(c, yes, r.env)
            case Done(Bool(false)) => Eval(c, no, r.env)
            case Done(_) => Step(Fail(InvalidConditionType), r.env)
            case _ => r
  {
    hide Eval;
    FormOpens(c, "if", [test, yes, no], env);
    var items := [E.Sym("if")] + [test, yes, no];
    assert items == [E.Sym("if"), test, yes, no];
    assert EvalList(c, items, env) == EvalIf(c, items, env);
  }

  const TRUE := Literal(Bool(true))

  const FALSE := Literal(Bool(false))

  lemma TruthRuns(c: Context, env: Chain)
    requires env != []
    ensures Eval(c, TRUE, env) == Step(Done(V.Bool(true)), env)
    ensures Eval(c, FALSE, env) == Step(Done(V.Bool(false)), env)
    ensures Eval(c, Literal(Unit), env) == Step(Done(V.Unit), env)
  {
    assert EvalAtom(c, Bool(true), env) == Step(Done(V.Bool(true)), env);
    assert EvalAtom(c, Bool(false), env) == Step(Done(V.Bool(false)), env);
    assert EvalAtom(c, Unit, env) == Step(Done(V.Unit), env);
  }

  lemma {:induction false} JunctionShifts(
    c: Context, xs: seq<Node>, i: nat, ys: seq<Node>, j: nat, stop: bool, env: Chain)
    requires env != [] && i <= |xs| && j <= |ys| && xs[i..] == ys[j..]
    ensures EvalJunction(c, xs, i, stop, env) == EvalJunction(c, ys, j, stop, env)
    decreases |xs| - i
  {
    hide Eval;
    if i < |xs| {
      assert xs[i] == xs[i..][0] == ys[j..][0] == ys[j];
      assert xs[i + 1..] == xs[i..][1..] == ys[j..][1..] == ys[j + 1..];
      JunctionShifts(c, xs, i + 1, ys, j + 1, stop, Eval(c, xs[i], env).env);
    }
  }

  /** What `and` or `or` makes of its first part and the others. */
  lemma JunctionFirst(c: Context, keyword: string, first: Node, rest: seq<Node>, env: Chain)
    requires env != [] && (keyword == "and" || keyword == "or")
    ensures var stop, r := keyword == "or", Eval(c, first, env);
            Eval(c, Form(keyword, [first] + rest), env) ==
            if !r.out.Done? then r
            else if !r.out.value.Bool? then Step(Fail(InvalidConditionType), r.env)
            else if r.out.value.b == stop then Step(Done(V.Bool(stop)), r.env)
            else if rest == [] then Step(Done(V.Bool(!stop)), r.env)
            else Eval(c, Form(keyword, rest), r.env)
  {
    hide Eval, EvalJunction;
    var items, tail := [E.Sym(keyword)] + ([first] + rest), [E.Sym(keyword)] + rest;
    var stop, r := keyword == "or", Eval(c, first, env);
    JunctionOpens(c, keyword, [first] + rest, env);
    assert items[1] == first && items[2..] == rest == tail[1..];
    JunctionStep(c, items, stop, env);
    if rest != [] {
      JunctionOpens(c, keyword, rest, r.env);
      JunctionShifts(c, items, 2, tail, 1, stop, r.env);
    }
  }

  lemma JunctionOpens(c: Context, keyword: string, parts: seq<Node>, env: Chain)
    requires env != [] && (keyword == "and" || keyword == "or") && parts != []
    ensures Eval(c, Form(keyword, parts), env) == EvalJunction(c, [E.Sym(keyword)] + parts, 1, keyword == "or", env)
  {
    hide Eval, EvalJunction;
    FormOpens(c, keyword, parts, env);
    assert ([E.Sym(keyword)] + parts)[0] == E.Sym(keyword);
  }

  lemma JunctionStep(c: Context, items: seq<Node>, stop: bool, env: Chain)
    requires env != [] && |items| >= 2
    ensures var r := Eval(c, items[1], env);
            EvalJunction(c, items, 1, stop, env) ==
            if !r.out.Done? then r
            else if !r.out.value.Bool? then Step(Fail(InvalidConditionType), r.env)
            else if r.out.value.b == stop then Step(Done(V.Bool(stop)), r.env)
            else if |items| == 2 then Step(Done(V.Bool(!stop)), r.env)
            else EvalJunction(c, items, 2, stop, r.env)
  {
    hide Eval;
  }

  /** `(and a)` is `(if a true false)`, and `(and a rest)` is `(if a (and rest) false)`. */
  lemma AndIsIf(c: Context, first: Node, rest: seq<Node>, env: Chain)
    requires env != []
    ensures Eval(c, Form("and", [first] + rest), env) ==
            If(c, first, if rest == [] then TRUE else Form("and", rest), FALSE, env)
  {
    hide Eval;
    JunctionFirst(c, "and", first, rest, env);
    IfDecides(c, first, if rest == [] then TRUE else Form("and", rest), FALSE, env);
    TruthRuns(c, Eval(c, first, env).env);
  }

  /** `(or a)` is `(if a true false)`, and `(or a rest)` is `(if a true (or rest))`. */
  lemma OrIsIf(c: Context, first: Node, rest: seq<Node>, env: Chain)
    requires env != []
    ensures Eval(c, Form("or", [first] + rest), env) ==
            If(c, first, TRUE, if rest == [] then FALSE else Form("or", rest), env)
  {
    hide Eval;
    JunctionFirst(c, "or", first, rest, env);
    IfDecides(c, first, TRUE, if rest == [] then FALSE else Form("or", rest), env);
    TruthRuns(c, Eval(c, first, env).env);
  }

  lemma {:induction false} CondShifts(c: Context, xs: seq<Node>, i: nat, ys: seq<Node>, j: nat, env: Chain)
    requires env != [] && i <= |xs| && j <= |ys| && xs[i..] == ys[j..]
    ensures EvalCond(c, xs, i, env) == EvalCond(c, ys, j, env)
    decreases |xs| - i
  {
    hide Eval;
    if i + 1 < |xs| {
      assert xs[i] == xs[i..][0] == ys[j..][0] == ys[j] && xs[i + 1] == xs[i..][1] == ys[j..][1] == ys[j + 1];
      assert xs[i + 2..] == xs[i..][2..] == ys[j..][2..] == ys[j + 2..];
      CondShifts(c, xs, i + 2, ys, j + 2, Eval(c, xs[i], env).env);
    }
  }

  lemma CondOpens(c: Context, parts: seq<Node>, env: Chain)
    requires env != [] && parts != [] && |parts| % 2 == 0
    ensures Eval(c, Form("cond", parts), env) == EvalCond(c, [E.Sym("cond")] + parts, 1, env)
  {
    hide Eval, EvalCond;
    var items := [E.Sym("cond")] + parts;
    FormOpens(c, "cond", parts, env);
    assert items[0] == E.Sym("cond");
  }

  /** `(cond test result rest)` is `(if test result (cond rest))`, without `rest` `(if test result unit)`. */
  lemma CondIsIf(c: Context, test: Node, result: Node, rest: seq<Node>, env: Chain)
    requires env != [] && |rest| % 2 == 0 && test.kind != Atomic(Keyword(None, "else"))
    ensures Eval(c, Form("cond", [test, result] + rest), env) ==
            If(c, test, result, if rest == [] then Literal(Unit) else Form("cond", rest), env)
  {
    hide Eval;
    var parts := [test, result] + rest;
    var items, tail, r := [E.Sym("cond")] + parts, [E.Sym("cond")] + rest, Eval(c, test, env);
    CondOpens(c, parts, env);
    assert items[1] == test && items[2] == result && items[3..] == rest == tail[1..] && !IsElse(test);
    IfDecides(c, test, result, if rest == [] then Literal(Unit) else Form("cond", rest), env);
    TruthRuns(c, r.env);
    if rest != [] {
      CondOpens(c, rest, r.env);
      CondShifts(c, items, 3, tail, 1, r.env);
    }
  }

  /** `:else` always takes its result. */
  lemma CondElse(c: Context, result: Node, rest: seq<Node>, env: Chain)
    requires env != [] && |rest| % 2 == 0
    ensures Eval(c, Form("cond", [Kw("else"), result] + rest), env) == Eval(c, result, env)
  {
    hide Eval;
    var parts := [Kw("else"), result] + rest;
    CondOpens(c, parts, env);
    var items := [E.Sym("cond")] + parts;
    assert items[1] == Kw("else") && items[2] == result;
  }

  // ---------------------------------------------------------------------------------------------
  // Values in order
  // ---------------------------------------------------------------------------------------------

  /** `nodes` define and assign nothing, and evaluate to `vs`. */
  ghost predicate Evaluate(c: Context, nodes: seq<Node>, vs: seq<V.Value>, env: Chain)
    requires env != []
  {
    AllWithin(QUIET, nodes) && |vs| == |nodes| &&
      forall i | 0 <= i < |nodes| :: Eval(c, nodes[i], env).out == Done(vs[i])
  }

  lemma {:induction false} ArgsInOrder(c: Context, nodes: seq<Node>, from: nat, parts: seq<Node>, vs: seq<V.Value>,
    i: nat, env: Chain)
    requires env != [] && from <= |nodes| && nodes[from..] == parts && Evaluate(c, parts, vs, env) && i <= |parts|
    ensures EvalArgs(c, nodes, from + i, vs[..i], env) == All(vs, env)
    decreases |parts| - i
  {
    hide Eval, Within;
    if i < |parts| {
      assert nodes[from + i] == nodes[from..][i] == parts[i];
      assert Within(QUIET, parts[i]) && Eval(c, parts[i], env).env == env;
      assert vs[..i] + [vs[i]] == vs[..i + 1];
      ArgsInOrder(c, nodes, from, parts, vs, i + 1, env);
    } else {
      assert vs[..i] == vs;
    }
  }

  /** `[items]` and `#{items}` hold the values of their items, in order. */
  lemma VectorHolds(c: Context, items: seq<Node>, vs: seq<V.Value>, env: Chain)
    requires env != [] && Evaluate(c, items, vs, env)
    ensures Eval(c, VectorNode(items), env) == Step(Done(V.Vec(vs)), env)
    ensures Eval(c, Node(Set(items), [], None), env) == Step(Done(V.Set(vs)), env)
  {
    hide EvalArgs, Evaluate;
    assert items[0..] == items && vs[..0] == [];
    ArgsInOrder(c, items, 0, items, vs, 0, env);
  }

  /** `(f args)` of a native function gives it the values of the arguments, in order. */
  lemma NativeCall(c: Context, f: string, name: string, args: seq<Node>, vs: seq<V.Value>, env: Chain)
    requires env != [] && FormNamed(f) == ApplyForm && Lookup(env, f) == Some(V.Native(name)) &&
             Evaluate(c, args, vs, env)
    ensures Eval(c, Form(f, args), env) ==
            Step(
              match c.world.native(name, vs)
              case Ok(v) => Done(v)
              case Err(message) => Fail(NativeError(Primitive(message))),
              env)
  {
    hide Eval, EvalArgs, Evaluate, Lookup;
    var items := [E.Sym(f)] + args;
    FormOpens(c, f, args, env);
    assert items[0] == E.Sym(f) && items[1..] == args && vs[..0] == [];
    E.SymbolRuns(c, f, env);
    ArgsInOrder(c, items, 1, args, vs, 0, env);
    assert EvalList(c, items, env) == EvalApply(c, items, env);
  }

  /** `(:name m)` looks a keyword up in a map. */
  lemma KeywordCall(c: Context, name: string, arg: Node, env: Chain)
    requires env != [] && Eval(c, arg, env).out.Done?
    ensures var r := Eval(c, arg, env);
            Eval(c, E.ListNode([Kw(name), arg]), env) ==
            Step(
              match r.out.value
              case Map(entries) => Done(V.MapGet(entries, V.Keyword(None, name)).GetOr(V.Adt("Option", "None", [])))
              case v => Fail(NativeError(NotAMap(v))),
              r.env)
  {
    var items := [Kw(name), arg];
    assert EvalAtom(c, Keyword(None, name), env) == Step(Done(V.Keyword(None, name)), env);
    assert Eval(c, Kw(name), env) == Step(Done(V.Keyword(None, name)), env);
    hide Eval, EvalArgs;
    E.EvalListNode(c, items, env);
    assert FormOf(items[0]) == ApplyForm;
    assert EvalList(c, items, env) == EvalApply(c, items, env);
  }

  /** `(recur args)` inside a loop continues it with the values of the arguments, in order. */
  lemma RecurContinues(c: Context, args: seq<Node>, vs: seq<V.Value>, env: Chain)
    requires env != [] && c.frame.Some? && |args| == |c.frame.value| && Evaluate(c, args, vs, env)
    ensures Eval(c, Form("recur", args), env) == Step(Again(vs), env)
  {
    hide Eval, EvalArgs, Evaluate;
    var items := [E.Sym("recur")] + args;
    FormOpens(c, "recur", args, env);
    assert items[0] == E.Sym("recur") && items[1..] == args && vs[..0] == [];
    ArgsInOrder(c, items, 1, args, vs, 0, env);
    assert EvalList(c, items, env) == EvalRecur(c, items, env);
  }

  lemma RecurOutside(c: Context, args: seq<Node>, env: Chain)
    requires env != []
    ensures c.frame.None? ==> Eval(c, Form("recur", args), env) == Step(Fail(InvalidRecur), env)
    ensures c.frame.Some? && |args| != |c.frame.value| ==> Eval(c, Form("recur", args), env) == Step(Fail(Arity), env)
  {
    hide Eval, EvalArgs;
    var items := [E.Sym("recur")] + args;
    FormOpens(c, "recur", args, env);
    assert items[0] == E.Sym("recur");
    assert EvalList(c, items, env) == EvalRecur(c, items, env);
  }

  // ---------------------------------------------------------------------------------------------
  // Definitions and assignments
  // ---------------------------------------------------------------------------------------------

  lemma DefinedSeen(env: Chain, x: string, v: V.Value, y: string)
    requires env != []
    ensures Lookup(Define(env, x, v), y) == if y == x then Some(v) else Lookup(env, y)
  {
    var top := |env| - 1;
    assert Define(env, x, v)[..top] == env[..top];
  }

  /** `(def x e)` makes `x` the value of `e`, evaluated outside any loop. */
  lemma DefDefines(c: Context, x: string, e: Node, env: Chain)
    requires env != [] && Eval(NoLoop(c), e, env).out.Done?
    ensures var r := Eval(NoLoop(c), e, env);
            Eval(c, Form("def", [E.Sym(x), e]), env) == Step(Done(V.Unit), Define(r.env, x, r.out.value))
  {
    hide Eval, Define;
    var items := [E.Sym("def")] + [E.Sym(x), e];
    assert items == [E.Sym("def"), E.Sym(x), e];
    FormOpens(c, "def", [E.Sym(x), e], env);
    assert EvalList(c, items, env) == EvalDef(c, items, env);
  }

  /** The nearest frame that has the name is the `i`-th. */
  predicate Nearest(env: Chain, x: string, i: nat) {
    i < |env| && x in env[i] && forall j | i < j < |env| :: x !in env[j]
  }

  lemma {:induction false} AssignedNearest(env: Chain, x: string, v: V.Value, i: nat)
    requires Nearest(env, x, i)
    ensures Assign(env, x, v) == Some(env[i := env[i][x := v]])
  {
    var top := |env| - 1;
    var outer, inner := env[..top], env[top];
    assert outer + [inner] == env;
    if i < top {
      assert x !in env[top];
      AssignedNearest(outer, x, v, i);
      assert outer[i := outer[i][x := v]] + [inner] == env[i := env[i][x := v]];
    } else {
      assert outer + [inner[x := v]] == env[i := env[i][x := v]];
    }
  }

  /** `(set! x e)` changes `x` in the nearest frame that has it, and nothing else; without one it is an error. */
  lemma SetAssigns(c: Context, x: string, e: Node, env: Chain, i: nat)
    requires env != [] && Eval(NoLoop(c), e, env).out.Done?
    ensures var r := Eval(NoLoop(c), e, env);
            (Nearest(r.env, x, i) ==>
               Eval(c, Form("set!", [E.Sym(x), e]), env) ==
               Step(Done(V.Unit), r.env[i := r.env[i][x := r.out.value]])) &&
            (Lookup(r.env, x).None? ==>
               Eval(c, Form("set!", [E.Sym(x), e]), env) == Step(Fail(UnboundSymbol(None, x)), r.env))
  {
    hide Eval, Assign, Lookup, Flatten;
    var items := [E.Sym("set!")] + [E.Sym(x), e];
    assert items == [E.Sym("set!"), E.Sym(x), e];
    FormOpens(c, "set!", [E.Sym(x), e], env);
    assert EvalList(c, items, env) == EvalSet(c, items, env);
    var r := Eval(NoLoop(c), e, env);
    if Nearest(r.env, x, i) { AssignedNearest(r.env, x, r.out.value, i); }
    AssignFlatten(r.env, x, r.out.value);
    LookupFlatten(r.env, x);
  }

  // ---------------------------------------------------------------------------------------------
  // Scopes and loops
  // ---------------------------------------------------------------------------------------------

  function Body(c: Context, body: seq<Node>, env: Chain): Step
    requires env != []
  {
    Eval(c, E.ListNode(E.Block(body)), env)
  }

  lemma BodyOpens(c: Context, body: seq<Node>, items: seq<Node>, i: nat, env: Chain)
    requires env != [] && body != [] && i <= |items| && items[i..] == body
    ensures Body(c, body, env) == EvalBody(c, items, i, V.Unit, env)
  {
    hide Eval, EvalList, EvalBody;
    E.FormSpelling();
    E.EvalListNode(c, E.Block(body), env);
    E.DoItems(c, E.Block(body), env);
    assert E.Block(body)[1..] == body;
    E.SameBody(c, E.Block(body), 1, items, i, V.Unit, env);
  }

  /** A name that a pattern takes for a variable. */
  predicate IsVariable(x: string) {
    PatternOf(E.Sym(x)) == Ok(Var(x)) && x != "mut" && x != "|"
  }

  /**
   `(let [x e] body)`: the body sees the value of `e` as `x`, in a scope that is dropped; `mut` makes no difference.
  */
  lemma LetBinds(c: Context, mutable: bool, x: string, e: Node, body: seq<Node>, env: Chain)
    requires env != [] && body != [] && IsVariable(x) && !IsPipe(e)
    ensures var r := Eval(NoLoop(c), e, Push(env, map[]));
            Eval(c, Form("let", [VectorNode((if mutable then [E.Sym("mut")] else []) + [E.Sym(x), e])] + body), env) ==
            if !r.out.Done? then Step(NoRecur(r.out), Pop(r.env))
            else
              var b := Body(c, body, Define(r.env, x, r.out.value));
              Step(b.out, Pop(b.env))
  {
    hide Eval, EvalBody, LetFrom, PatternOf, Define, Push, Pop, Match;
    var b := (if mutable then [E.Sym("mut")] else []) + [E.Sym(x), e];
    var parts := [VectorNode(b)] + body;
    var items := [E.Sym("let")] + parts;
    assert items[0] == E.Sym("let") && items[1] == VectorNode(b) && items[2..] == body;
    FormOpens(c, "let", parts, env);
    assert EvalList(c, items, env) == EvalLet(c, items, env);
    var child := Push(env, map[]);
    OneBinding(c, items, mutable, x, e, child);
    var r := Eval(NoLoop(c), e, child);
    if r.out.Done? { BodyOpens(c, body, items, 2, Define(r.env, x, r.out.value)); }
  }

  lemma OneBinding(c: Context, items: seq<Node>, mutable: bool, x: string, e: Node, env: Chain)
    requires env != [] && |items| >= 3 && IsVariable(x) && !IsPipe(e)
    requires items[1] == VectorNode((if mutable then [E.Sym("mut")] else []) + [E.Sym(x), e])
    ensures var r := Eval(NoLoop(c), e, env);
            LetFrom(c, items, 0, env) ==
            if !r.out.Done? then Step(NoRecur(r.out), r.env)
            else EvalBody(c, items, 2, V.Unit, Define(r.env, x, r.out.value))
  {
    hide Eval, EvalBody, PatternOf;
    var b, p := items[1].kind.items, if mutable then 1 else 0;
    assert b[p] == E.Sym(x) && b[p + 1] == e && (mutable ==> b[0] == E.Sym("mut")) && |b| == p + 2;
    assert BindingAt(b, 0) == Some(LetBinding(p, p + 1, None, p + 2));
    var r := Eval(NoLoop(c), e, env);
    if r.out.Done? {
      assert Match(Var(x), r.out.value) == Some([Bind(x, r.out.value)]);
      DefineIsDefineAll(r.env, x, r.out.value);
      hide DefineAll, Define, Match;
      assert LetFrom(c, items, p + 2, Define(r.env, x, r.out.value)) ==
             EvalBody(c, items, 2, V.Unit, Define(r.env, x, r.out.value));
    }
  }

  /** `(let [pattern e] body)`: the body sees the variables of the pattern; a value that does not fit is an error. */
  lemma LetTakesApart(c: Context, pattern: Node, p: Pattern, e: Node, body: seq<Node>, env: Chain)
    requires env != [] && body != [] && PatternOf(pattern) == Ok(p) && !IsMut(pattern)
    requires Eval(NoLoop(c), e, Push(env, map[])).out.Done?
    ensures var r := Eval(NoLoop(c), e, Push(env, map[]));
            Eval(c, Form("let", [VectorNode([pattern, e])] + body), env) ==
            match Match(p, r.out.value)
            case Some(bs) => var b := Body(c, body, DefineAll(r.env, bs)); Step(b.out, Pop(b.env))
            case None => Step(Fail(NativeError(NoMatch(r.out.value))), Pop(r.env))
  {
    hide Eval, EvalBody, PatternOf, DefineAll, Push, Pop, Match, EvalList;
    var parts := [VectorNode([pattern, e])] + body;
    var items, child := [E.Sym("let")] + parts, Push(env, map[]);
    assert items[0] == E.Sym("let") && items[1] == VectorNode([pattern, e]) && items[2..] == body;
    FormOpens(c, "let", parts, env);
    LetDispatch(c, items, env);
    var r := Eval(NoLoop(c), e, child);
    OnePattern(c, items, pattern, p, e, child);
    if Match(p, r.out.value).Some? { BodyOpens(c, body, items, 2, DefineAll(r.env, Match(p, r.out.value).value)); }
  }

  lemma OnePattern(c: Context, items: seq<Node>, pattern: Node, p: Pattern, e: Node, env: Chain)
    requires env != [] && |items| >= 3 && items[1] == VectorNode([pattern, e])
    requires PatternOf(pattern) == Ok(p) && !IsMut(pattern) && Eval(NoLoop(c), e, env).out.Done?
    ensures var r := Eval(NoLoop(c), e, env);
            LetFrom(c, items, 0, env) ==
            match Match(p, r.out.value)
            case Some(bs) => EvalBody(c, items, 2, V.Unit, DefineAll(r.env, bs))
            case None => Step(Fail(NativeError(NoMatch(r.out.value))), r.env)
  {
    hide Eval, EvalBody, PatternOf, DefineAll, Match;
    var r := Eval(NoLoop(c), e, env);
    assert BindingAt([pattern, e], 0) == Some(LetBinding(0, 1, None, 2));
    if Match(p, r.out.value).Some? { LetEnd(c, items, DefineAll(r.env, Match(p, r.out.value).value)); }
  }

  lemma LetDispatch(c: Context, items: seq<Node>, env: Chain)
    requires env != [] && items != [] && items[0] == E.Sym("let")
    ensures EvalList(c, items, env) == EvalLet(c, items, env)
  {
    hide EvalLet;
    assert FormOf(items[0]) == LetForm;
  }

  /** `[x1 e1 x2 e2]` */
  function Bindings(names: seq<string>, inits: seq<Node>): (nodes: seq<Node>)
    requires |names| == |inits|
    ensures |nodes| == 2 * |names|
    ensures forall i | 0 <= i < |names| :: nodes[2 * i] == E.Sym(names[i]) && nodes[2 * i + 1] == inits[i]
  {
    if names == [] then []
    else
      var n := |names| - 1;
      Bindings(names[..n], inits[..n]) + [E.Sym(names[n]), inits[n]]
  }

  /** The environment once the first `n` names have their initial values, one after the other. */
  function Started(c: Context, names: seq<string>, inits: seq<Node>, n: nat, from: Chain): (env: Option<Chain>)
    requires |names| == |inits| && n <= |names| && from != []
    ensures env.Some? ==> env.value != []
  {
    if n == 0 then Some(from)
    else
      match Started(c, names, inits, n - 1, from)
      case None => None
      case Some(before) =>
        var r := Eval(NoLoop(c), inits[n - 1], before);
        if r.out.Done? then Some(Define(r.env, names[n - 1], r.out.value)) else None
  }

  lemma {:induction false} StartedNames(c: Context, names: seq<string>, inits: seq<Node>, n: nat, from: Chain)
    requires |names| == |inits| && n <= |names| && from != [] && Started(c, names, inits, n, from).Some?
    ensures LoopNames(NoLoop(c), Bindings(names, inits), 0, [], from) ==
            LoopNames(NoLoop(c), Bindings(names, inits), 2 * n, names[..n], Started(c, names, inits, n, from).value)
    decreases n
  {
    hide Eval, Define, LoopNames;
    if n > 0 {
      StartedNames(c, names, inits, n - 1, from);
      assert names[..n] == names[..n - 1] + [names[n - 1]];
      NamesStep(NoLoop(c), Bindings(names, inits), 2 * (n - 1), names[..n - 1], names[n - 1],
        Started(c, names, inits, n - 1, from).value);
    }
  }

  /** `(let [x1 e1 x2 e2] body)`: every value is evaluated, and the body too, where the names before it are defined. */
  lemma LetRuns(c: Context, names: seq<string>, inits: seq<Node>, body: seq<Node>, env: Chain)
    requires env != [] && body != [] && |names| == |inits|
    requires forall i | 0 <= i < |names| :: IsVariable(names[i]) && !IsPipe(inits[i])
    requires Started(c, names, inits, |names|, Push(env, map[])).Some?
    ensures var b := Body(c, body, Started(c, names, inits, |names|, Push(env, map[])).value);
            Eval(c, Form("let", [VectorNode(Bindings(names, inits))] + body), env) == Step(b.out, Pop(b.env))
  {
    hide Eval, EvalBody, Push, Pop, Match, EvalList, LetFrom, Started, IsVariable;
    var parts := [VectorNode(Bindings(names, inits))] + body;
    var items, child := [E.Sym("let")] + parts, Push(env, map[]);
    assert items[0] == E.Sym("let") && items[1] == VectorNode(Bindings(names, inits)) && items[2..] == body;
    FormOpens(c, "let", parts, env);
    LetDispatch(c, items, env);
    StartedLet(c, items, names, inits, |names|, child);
    var last := Started(c, names, inits, |names|, child).value;
    BodyOpens(c, body, items, 2, last);
    LetEnd(c, items, last);
  }

  lemma LetEnd(c: Context, items: seq<Node>, env: Chain)
    requires env != [] && |items| >= 3 && items[1].kind.Vector?
    ensures LetFrom(c, items, |items[1].kind.items|, env) == EvalBody(c, items, 2, V.Unit, env)
  {
    hide EvalBody;
  }

  lemma {:induction false} StartedLet(
    c: Context, items: seq<Node>, names: seq<string>, inits: seq<Node>, n: nat, from: Chain)
    requires |names| == |inits| && n <= |names| && from != [] && Started(c, names, inits, n, from).Some?
    requires |items| >= 3 && items[1] == VectorNode(Bindings(names, inits))
    requires forall i | 0 <= i < |names| :: IsVariable(names[i]) && !IsPipe(inits[i])
    ensures LetFrom(c, items, 0, from) == LetFrom(c, items, 2 * n, Started(c, names, inits, n, from).value)
    decreases n
  {
    hide Eval, Define, LetFrom, IsVariable, IsPipe, Bindings;
    if n > 0 {
      StartedLet(c, items, names, inits, n - 1, from);
      BindingParts(names, inits, n - 1);
      NextBinds(names, inits, n);
      LetStep(c, items, 2 * (n - 1), names[n - 1], Started(c, names, inits, n - 1, from).value);
    }
  }

  lemma NextBinds(names: seq<string>, inits: seq<Node>, n: nat)
    requires n <= |names| == |inits| && (n < |names| ==> IsVariable(names[n]))
    ensures var b := Bindings(names, inits); |b| == 2 * |names| && (n < |names| ==> !IsPipe(b[2 * n]))
  {
    hide IsVariable, IsPipe;
    if n < |names| {
      BindingParts(names, inits, n);
      VariableNotPipe(names[n]);
    }
  }

  lemma BindingParts(names: seq<string>, inits: seq<Node>, i: nat)
    requires i < |names| == |inits|
    ensures var b := Bindings(names, inits);
            2 * i + 1 < |b| && b[2 * i] == E.Sym(names[i]) && b[2 * i + 1] == inits[i]
  {
  }

  lemma VariableNotPipe(x: string)
    requires IsVariable(x)
    ensures !IsPipe(E.Sym(x)) && !IsMut(E.Sym(x)) && PatternOf(E.Sym(x)) == Ok(Var(x))
  {
  }

  lemma LetStep(c: Context, items: seq<Node>, i: nat, x: string, env: Chain)
    requires env != [] && |items| >= 3 && items[1].kind.Vector? && i + 1 < |items[1].kind.items|
    requires var b := items[1].kind.items; b[i] == E.Sym(x) && (i + 2 < |b| ==> !IsPipe(b[i + 2]))
    requires IsVariable(x) && Eval(NoLoop(c), items[1].kind.items[i + 1], env).out.Done?
    ensures var r := Eval(NoLoop(c), items[1].kind.items[i + 1], env);
            LetFrom(c, items, i, env) == LetFrom(c, items, i + 2, Define(r.env, x, r.out.value))
  {
    hide Eval, EvalBody, PatternOf, IsVariable, DefineAll, Define;
    VariableNotPipe(x);
    var r := Eval(NoLoop(c), items[1].kind.items[i + 1], env);
    assert BindingAt(items[1].kind.items, i) == Some(LetBinding(i, i + 1, None, i + 2));
    assert Match(Var(x), r.out.value) == Some([Bind(x, r.out.value)]);
    DefineIsDefineAll(r.env, x, r.out.value);
    hide Match;
  }

  lemma NamesStep(c: Context, b: seq<Node>, i: nat, names: seq<string>, name: string, env: Chain)
    requires env != [] && i + 1 < |b| && b[i] == E.Sym(name)
    ensures var r := Eval(c, b[i + 1], env);
            r.out.Done? ==>
              LoopNames(c, b, i, names, env) ==
              LoopNames(c, b, i + 2, names + [name], Define(r.env, name, r.out.value))
  {
    hide Eval, Define;
  }

  /** `after` is `before` with the names standing for the values, and nothing else changed. */
  ghost predicate Rebound(before: Chain, names: seq<string>, vals: seq<V.Value>, after: Chain) {
    |before| == |after| && before != [] && |names| == |vals| && before[..|before| - 1] == after[..|after| - 1] &&
    Sees(after[|after| - 1], before[|before| - 1], names, None, vals)
  }

  lemma ReboundIs(before: Chain, names: seq<string>, vals: seq<V.Value>, after: Chain)
    requires Rebound(before, names, vals, after) && Proper(names, None)
    ensures after == DefineAll(before, Zip(names, vals))
  {
    hide Sees;
    var top := before[|before| - 1];
    var f := V.Closure(None, names, None, top, [], [], []);
    CallSees(f, vals, top);
    SeenOnce(CallFrame(f, vals), after[|after| - 1], top, names, None, vals);
    assert after == after[..|after| - 1] + [after[|after| - 1]];
    assert DefineAll(before, Zip(names, vals)) == before[..|before| - 1] + [BindAll(top, Zip(names, vals))];
  }

  function Round(c: Context, names: seq<string>, j: nat): Context
    requires j <= c.fuel
  {
    c.(fuel := c.fuel - j, frame := Some(names))
  }

  /** In every round but the last the body recurs, and its values become those of the names. */
  ghost predicate Trace(c: Context, names: seq<string>, body: seq<Node>, envs: seq<Chain>, vals: seq<seq<V.Value>>) {
    |envs| == |vals| + 1 && |vals| <= c.fuel && (forall j | 0 <= j < |envs| :: envs[j] != []) &&
    forall j | 0 <= j < |vals| ::
      Body(Round(c, names, j), body, envs[j]).out == Again(vals[j]) &&
      Rebound(Body(Round(c, names, j), body, envs[j]).env, names, vals[j], envs[j + 1])
  }

  /** `(loop [x1 e1] body)` runs the body until it ends without `recur`; the last round decides. */
  lemma LoopRuns(
    c: Context, names: seq<string>, inits: seq<Node>, body: seq<Node>, env: Chain, envs: seq<Chain>,
    vals: seq<seq<V.Value>>)
    requires env != [] && body != [] && |names| == |inits| && Proper(names, None)
    requires Trace(c, names, body, envs, vals) && Started(c, names, inits, |names|, Push(env, map[])) == Some(envs[0])
    requires !Body(Round(c, names, |vals|), body, envs[|vals|]).out.Again?
    ensures var last := Body(Round(c, names, |vals|), body, envs[|vals|]);
            Eval(c, Form("loop", [VectorNode(Bindings(names, inits))] + body), env) == Step(last.out, Pop(last.env))
  {
    hide Eval, Rounds, Body, Started, Push, Pop, Proper, Rebound, LoopNames, Define;
    LoopOpens(c, names, inits, body, env);
    StartedNames(c, names, inits, |names|, Push(env, map[]));
    assert names[..|names|] == names;
    NamesDone(NoLoop(c), Bindings(names, inits), names, envs[0]);
    var items := [E.Sym("loop")] + ([VectorNode(Bindings(names, inits))] + body);
    assert items[2..] == body;
    RoundsRun(c, names, items, body, envs, vals, 0);
    assert Round(c, names, 0) == c.(frame := Some(names));
  }

  lemma LoopOpens(c: Context, names: seq<string>, inits: seq<Node>, body: seq<Node>, env: Chain)
    requires env != [] && body != [] && |names| == |inits|
    ensures var items := [E.Sym("loop")] + ([VectorNode(Bindings(names, inits))] + body);
            Eval(c, Form("loop", [VectorNode(Bindings(names, inits))] + body), env) ==
            match LoopNames(NoLoop(c), Bindings(names, inits), 0, [], Push(env, map[]))
            case Stopped(out, e) => Step(NoRecur(out), Pop(e))
            case All(found, e) =>
              var r := Rounds(c.(frame := Some(found)), items, e);
              Step(r.out, Pop(r.env))
  {
    hide Eval, EvalList, FormNamed, Rounds, Push, Pop, LoopNames, Bindings;
    var parts := [VectorNode(Bindings(names, inits))] + body;
    var items := [E.Sym("loop")] + parts;
    assert items[0] == E.Sym("loop") && items[1] == VectorNode(Bindings(names, inits));
    FormOpens(c, "loop", parts, env);
    LoopDispatch(c, items, env);
  }

  lemma LoopDispatch(c: Context, items: seq<Node>, env: Chain)
    requires env != [] && items != [] && items[0] == E.Sym("loop")
    ensures EvalList(c, items, env) == EvalLoop(c, items, env)
  {
    hide EvalLoop;
  }

  lemma NamesDone(c: Context, b: seq<Node>, names: seq<string>, env: Chain)
    requires env != [] && |b| == 2 * |names|
    ensures LoopNames(c, b, |b|, names, env) == All(names, env)
  {
  }

  lemma {:induction false} RoundsRun(
    c: Context, names: seq<string>, items: seq<Node>, body: seq<Node>, envs: seq<Chain>, vals: seq<seq<V.Value>>,
    j: nat)
    requires body != [] && |items| >= 3 && items[2..] == body && Proper(names, None) && j <= |vals|
    requires Trace(c, names, body, envs, vals) && !Body(Round(c, names, |vals|), body, envs[|vals|]).out.Again?
    ensures Rounds(Round(c, names, j), items, envs[j]) == Body(Round(c, names, |vals|), body, envs[|vals|])
    decreases |vals| - j
  {
    hide EvalBody, Body, Proper, Rebound, Zip, DefineAll;
    BodyOpens(Round(c, names, j), body, items, 2, envs[j]);
    if j < |vals| {
      var r := Body(Round(c, names, j), body, envs[j]);
      ReboundIs(r.env, names, vals[j], envs[j + 1]);
      RoundsRun(c, names, items, body, envs, vals, j + 1);
      assert Round(c, names, j).(fuel := Round(c, names, j).fuel - 1) == Round(c, names, j + 1);
      ReboundSizes(r.env, names, vals[j], envs[j + 1]);
    }
  }

  lemma ReboundSizes(before: Chain, names: seq<string>, vals: seq<V.Value>, after: Chain)
    requires Rebound(before, names, vals, after)
    ensures |names| == |vals|
  {
    hide Sees;
  }

  // ---------------------------------------------------------------------------------------------
  // match, ?, panic
  // ---------------------------------------------------------------------------------------------

  /**
   `(match subject pattern result more)`: the first arm is taken when its pattern fits, and otherwise the others
   decide; without others no arm fits.
  */
  lemma MatchFirst(c: Context, subject: Node, pattern: Node, result: Node, more: seq<Node>, p: Pattern, env: Chain)
    requires env != [] && Eval(c, subject, env).out.Done? && PatternOf(pattern) == Ok(p) && |more| % 2 == 0
    ensures var r := Eval(c, subject, env);
            Eval(c, Form("match", [subject, pattern, result] + more), env) ==
            match Match(p, r.out.value)
            case Some(bs) =>
              var inner := Eval(c, result, Push(r.env, BindAll(map[], bs)));
              Step(inner.out, Pop(inner.env))
            case None =>
              if more == [] then Step(Fail(NativeError(NoMatch(r.out.value))), r.env)
              else EvalArms(c, [E.Sym("match"), subject] + more, 2, r.out.value, r.env)
  {
    hide Eval, PatternOf, Match, Push, Pop, BindAll, EvalArms;
    var items := [E.Sym("match")] + ([subject, pattern, result] + more);
    var tail, r := [E.Sym("match"), subject] + more, Eval(c, subject, env);
    MatchOpens(c, subject, [pattern, result] + more, env);
    assert [subject] + ([pattern, result] + more) == [subject, pattern, result] + more;
    assert items[2] == pattern && items[3] == result && items[4..] == more == tail[2..];
    ArmStep(c, items, p, r.out.value, r.env);
    ArmsShift(c, items, 4, tail, 2, r.out.value, r.env);
    if more == [] { ArmsEnd(c, items, r.out.value, r.env); }
  }

  lemma ArmsEnd(c: Context, items: seq<Node>, v: V.Value, env: Chain)
    requires env != []
    ensures EvalArms(c, items, |items|, v, env) == Step(Fail(NativeError(NoMatch(v))), env)
  {
  }

  lemma MatchOpens(c: Context, subject: Node, arms: seq<Node>, env: Chain)
    requires env != [] && |arms| >= 2 && |arms| % 2 == 0 && Eval(c, subject, env).out.Done?
    ensures var r := Eval(c, subject, env);
            Eval(c, Form("match", [subject] + arms), env) ==
            EvalArms(c, [E.Sym("match")] + ([subject] + arms), 2, r.out.value, r.env)
  {
    hide Eval, EvalArms, EvalList;
    var items := [E.Sym("match")] + ([subject] + arms);
    FormOpens(c, "match", [subject] + arms, env);
    assert items[0] == E.Sym("match") && items[1] == subject;
    MatchDispatch(c, items, env);
  }

  lemma MatchDispatch(c: Context, items: seq<Node>, env: Chain)
    requires env != [] && items != [] && items[0] == E.Sym("match")
    ensures EvalList(c, items, env) == EvalMatch(c, items, env)
  {
    hide EvalMatch;
    assert FormOf(items[0]) == MatchForm;
  }

  lemma ArmStep(c: Context, items: seq<Node>, p: Pattern, v: V.Value, env: Chain)
    requires env != [] && |items| >= 4 && PatternOf(items[2]) == Ok(p)
    ensures EvalArms(c, items, 2, v, env) ==
            match Match(p, v)
            case Some(bs) =>
              var inner := Eval(c, items[3], Push(env, BindAll(map[], bs)));
              Step(inner.out, Pop(inner.env))
            case None => EvalArms(c, items, 4, v, env)
  {
    hide Eval, PatternOf, Match, Push, Pop, BindAll;
  }

  lemma {:induction false} ArmsShift(
    c: Context, xs: seq<Node>, i: nat, ys: seq<Node>, j: nat, v: V.Value, env: Chain)
    requires env != [] && i <= |xs| && j <= |ys| && xs[i..] == ys[j..]
    ensures EvalArms(c, xs, i, v, env) == EvalArms(c, ys, j, v, env)
    decreases |xs| - i
  {
    hide Eval, PatternOf, Match, Push, Pop, BindAll;
    if i + 1 < |xs| {
      assert xs[i] == xs[i..][0] == ys[j..][0] == ys[j] && xs[i + 1] == xs[i..][1] == ys[j..][1] == ys[j + 1];
      assert xs[i + 2..] == xs[i..][2..] == ys[j..][2..] == ys[j + 2..];
      ArmsShift(c, xs, i + 2, ys, j + 2, v, env);
    }
  }

  /** `(? e)`: `Ok` and `Some` give their content, `Err` and `None` leave the function with themselves. */
  lemma QuestionUnwraps(c: Context, e: Node, env: Chain, content: V.Value, more: seq<V.Value>)
    requires env != [] && Eval(c, e, env).out.Done?
    ensures var r, q := Eval(c, e, env), Eval(c, Form("?", [e]), env);
            (r.out.value == V.Adt("Result", "Ok", [content] + more) ==> q == Step(Done(content), r.env)) &&
            (r.out.value == V.Adt("Option", "Some", [content] + more) ==> q == Step(Done(content), r.env)) &&
            (r.out.value == V.Adt("Result", "Err", more) ==> q == Step(Fail(EarlyReturn(r.out.value)), r.env)) &&
            (r.out.value == V.Adt("Option", "None", more) ==> q == Step(Fail(EarlyReturn(r.out.value)), r.env)) &&
            (!r.out.value.Adt? ==> q == Step(Fail(NativeError(NotResult(r.out.value))), r.env))
  {
    hide Eval;
    var items := [E.Sym("?")] + [e];
    assert items == [E.Sym("?"), e];
    FormOpens(c, "?", [e], env);
    assert EvalList(c, items, env) == EvalQuestion(c, items, env);
  }

  /** `(panic e)` panics with the text of `e`. */
  lemma PanicTells(c: Context, e: Node, env: Chain, text: string)
    requires env != [] && Eval(c, e, env).out == Done(V.Str(text))
    ensures Eval(c, Form("panic", [e]), env) == Step(Fail(Panic(Message(text))), Eval(c, e, env).env)
  {
    hide Eval;
    var items := [E.Sym("panic")] + [e];
    assert items == [E.Sym("panic"), e];
    FormOpens(c, "panic", [e], env);
    assert EvalList(c, items, env) == EvalPanic(c, items, env);
  }

  // ---------------------------------------------------------------------------------------------
  // Literals and names
  // ---------------------------------------------------------------------------------------------

  /** A literal evaluates to the one value that its literal pattern fits. */
  lemma LiteralMeans(c: Context, a: Atom, env: Chain, v: V.Value)
    requires env != [] && M.LiteralValue(a).Some? && (a.Str? ==> !HasBrace(a.s))
    ensures Eval(c, Literal(a), env) == Step(Done(M.LiteralValue(a).value), env)
    ensures Match(Patterns.Literal(a), v).Some? <==> Eval(c, Literal(a), env).out == Done(v)
  {
    M.LiteralFits(a, v);
    hide Match;
    assert EvalAtom(c, a, env) == Step(Done(M.LiteralValue(a).value), env);
  }

  /** A name means what the nearest frame that has it says. */
  lemma NameMeans(c: Context, x: string, env: Chain, i: nat)
    requires env != []
    ensures Nearest(env, x, i) ==> Eval(c, E.Sym(x), env) == Step(Done(env[i][x]), env)
    ensures (forall j | 0 <= j < |env| :: x !in env[j]) ==>
            Eval(c, E.Sym(x), env) == Step(Fail(UnboundSymbol(None, x)), env)
  {
    assert EvalAtom(c, Symbol(None, x), env) == Step(Unqualified(env, x), env);
    hide Lookup;
    if Nearest(env, x, i) { NearestFound(env, x, i); }
    if forall j | 0 <= j < |env| :: x !in env[j] { NowhereFound(env, x); }
  }

  lemma {:induction false} NearestFound(env: Chain, x: string, i: nat)
    requires Nearest(env, x, i)
    ensures Lookup(env, x) == Some(env[i][x])
  {
    var top := |env| - 1;
    if i < top {
      assert x !in env[top];
      NearestFound(env[..top], x, i);
    }
  }

  lemma {:induction false} NowhereFound(env: Chain, x: string)
    requires forall j | 0 <= j < |env| :: x !in env[j]
    ensures Lookup(env, x) == None
  {
    if env != [] { NowhereFound(env[..|env| - 1], x); }
  }

  /** A qualified name means an export of the module behind the alias. */
  lemma QualifiedMeans(c: Context, alias: string, x: string, env: Chain)
    requires env != [] && alias in c.world.modules
    ensures Eval(c, Literal(Symbol(Some(alias), x)), env) ==
            Step(
              if x in c.world.modules[alias] then Done(c.world.modules[alias][x])
              else Fail(UnboundSymbol(Some(alias), x)),
              env)
  {
    assert EvalAtom(c, Symbol(Some(alias), x), env) == Step(Semantics.Qualified(c.world, alias, x), env);
  }

  // ---------------------------------------------------------------------------------------------
  // Map literals
  // ---------------------------------------------------------------------------------------------

  /** The keys and values of the entries of a map literal that defines and assigns nothing. */
  ghost predicate EvaluateEntries(c: Context, pairs: seq<Entry>, keys: seq<V.Value>, vals: seq<V.Value>, env: Chain)
    requires env != []
  {
    |keys| == |pairs| == |vals| && forall i | 0 <= i < |pairs| ::
      EntryWithin(QUIET, pairs[i]) &&
      Eval(c, pairs[i].key, env).out == Done(keys[i]) && Eval(c, pairs[i].val, env).out == Done(vals[i])
  }

  /** The last value for a key, if there is one. */
  function LastOf(keys: seq<V.Value>, vals: seq<V.Value>, key: V.Value): Option<V.Value>
    requires |keys| == |vals|
  {
    if keys == [] then None
    else if keys[|keys| - 1] == key then Some(vals[|vals| - 1])
    else LastOf(keys[..|keys| - 1], vals[..|vals| - 1], key)
  }

  /** A map literal holds, under every key, the value of the last entry for it. */
  lemma MapHolds(c: Context, pairs: seq<Entry>, keys: seq<V.Value>, vals: seq<V.Value>, env: Chain)
    requires env != [] && EvaluateEntries(c, pairs, keys, vals, env)
    ensures var r := Eval(c, Node(Map(pairs), [], None), env);
            r.out.Done? && r.out.value.Map? && r.env == env &&
            forall key :: V.MapGet(r.out.value.entries, key) == LastOf(keys, vals, key)
  {
    hide EvalPairs, EvaluateEntries;
    EntriesHeld(c, pairs, keys, vals, 0, [], env);
    assert keys[..0] == [] && vals[..0] == [];
  }

  lemma {:induction false} EntriesHeld(
    c: Context, pairs: seq<Entry>, keys: seq<V.Value>, vals: seq<V.Value>, i: nat, acc: seq<V.Binding>, env: Chain)
    requires env != [] && EvaluateEntries(c, pairs, keys, vals, env) && i <= |pairs|
    requires forall key :: V.MapGet(acc, key) == LastOf(keys[..i], vals[..i], key)
    ensures var r := EvalPairs(c, pairs, i, acc, env);
            r.out.Done? && r.out.value.Map? && r.env == env &&
            forall key :: V.MapGet(r.out.value.entries, key) == LastOf(keys, vals, key)
    decreases |pairs| - i
  {
    hide Eval, EntryWithin, V.MapGet, V.MapPut;
    if i < |pairs| {
      var more := V.MapPut(acc, keys[i], vals[i]);
      assert EvalEntry(c, pairs[i], env) == All([keys[i], vals[i]], env) by {
        OneEntry(c, pairs[i], keys[i], vals[i], env);
      }
      forall key ensures V.MapGet(more, key) == LastOf(keys[..i + 1], vals[..i + 1], key) {
        V.MapGetPut(acc, keys[i], vals[i], key);
        assert keys[..i + 1][..i] == keys[..i] && vals[..i + 1][..i] == vals[..i];
      }
      EntriesHeld(c, pairs, keys, vals, i + 1, more, env);
    } else {
      assert keys[..i] == keys && vals[..i] == vals;
    }
  }

  lemma OneEntry(c: Context, e: Entry, key: V.Value, val: V.Value, env: Chain)
    requires env != [] && EntryWithin(QUIET, e)
    requires Eval(c, e.key, env).out == Done(key) && Eval(c, e.val, env).out == Done(val)
    ensures EvalEntry(c, e, env) == All([key, val], env)
  {
    hide Eval, Within;
  }

  // ---------------------------------------------------------------------------------------------
  // Text
  // ---------------------------------------------------------------------------------------------

  /** A discarded form is `unit`. */
  lemma DiscardMeans(c: Context, inner: Node, env: Chain)
    requires env != []
    ensures Eval(c, Node(Prefixed(Discard, inner), [], None), env) == Step(Done(V.Unit), env)
  {
  }
}
