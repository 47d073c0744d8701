/**
 What a call means (crates/nexl-eval/src/eval.rs, `eval_fn`, `eval_defn`, `apply_value`): the body of the function is
 evaluated where the function was made, with its parameters standing for the arguments.
*/
module CallLaws {
  import opened Basics
  import opened Ast
  import opened Patterns
  import opened Scopes
  import opened SpecialForms
  import opened Semantics
  import opened ForLaws
  import E = EvaluatorTheorems
  import V = Values

  // ---------------------------------------------------------------------------------------------
  // Functions as written
  // ---------------------------------------------------------------------------------------------

  function Syms(names: seq<string>): (nodes: seq<Node>)
    ensures |nodes| == |names| && forall i | 0 <= i < |names| :: nodes[i] == E.Sym(names[i])
  {
    seq(|names|, i requires 0 <= i < |names| => E.Sym(names[i]))
  }

  /** `[params & rest]` */
  function ParamNode(params: seq<string>, rest: Option<string>): Node {
    VectorNode(Syms(params) + if rest.Some? then [E.Sym("&"), E.Sym(rest.value)] else [])
  }

  /** `(fn [params & rest] body)` */
  function Fn(params: seq<string>, rest: Option<string>, body: seq<Node>): Node {
    E.ListNode([E.Sym("fn"), ParamNode(params, rest)] + body)
  }

  /** No parameter occurs twice, and none is the rest marker. */
  predicate Proper(params: seq<string>, rest: Option<string>) {
    (forall i, j | 0 <= i < j < |params| :: params[i] != params[j]) && "&" !in params &&
    (rest.Some? ==> rest.value !in params)
  }

  lemma {:induction false} ParamsRead(params: seq<string>, rest: Option<string>, i: nat)
    requires i <= |params| && "&" !in params
    ensures ParamsFrom(ParamNode(params, rest).kind.items, i, params[..i]) == Ok(Params(params, rest))
    decreases |params| - i
  {
    var nodes := ParamNode(params, rest).kind.items;
    if i < |params| {
      assert nodes[i] == E.Sym(params[i]) && params[i] in params;
      assert params[..i + 1] == params[..i] + [params[i]];
      ParamsRead(params, rest, i + 1);
    } else {
      assert params[..i] == params;
      if rest.Some? { assert nodes[i] == E.Sym("&") && nodes[i + 1] == E.Sym(rest.value); }
    }
  }

  function Lambda0(params: seq<string>, rest: Option<string>, captures: Frame, body: seq<Node>): V.Closure {
    V.Closure(None, params, rest, captures, body, [], [])
  }

  lemma LambdaRead(items: seq<Node>, params: seq<string>, rest: Option<string>, captures: Frame)
    requires |items| >= 3 && items[1] == ParamNode(params, rest) && "&" !in params
    ensures Lambda(items, captures) == Ok(Lambda0(params, rest, captures, items[2..]))
  {
    ParamsRead(params, rest, 0);
    hide ParamsFrom;
  }

  /** `fn` makes a function of everything it sees. */
  lemma FnMakes(c: Context, params: seq<string>, rest: Option<string>, body: seq<Node>, env: Chain)
    requires env != [] && body != [] && "&" !in params
    ensures Eval(c, Fn(params, rest, body), env) ==
            Step(Done(V.Function(Lambda0(params, rest, Flatten(env), body))), env)
  {
    hide Eval, Lambda;
    var items := [E.Sym("fn"), ParamNode(params, rest)] + body;
    E.EvalListNode(c, items, env);
    LambdaRead(items, params, rest, Flatten(env));
    assert items[2..] == body && FormOf(items[0]) == FnForm;
  }

  // ---------------------------------------------------------------------------------------------
  // What a body sees
  // ---------------------------------------------------------------------------------------------

  /**
   Parameters stand for their arguments, the rest for a vector of the others, and every other name for what `base`
   says.
  */
  ghost predicate Sees(frame: Frame, base: Frame, params: seq<string>, rest: Option<string>, args: seq<V.Value>)
    requires |params| <= |args|
  {
    (forall i | 0 <= i < |params| :: params[i] in frame && frame[params[i]] == args[i]) &&
    (rest.Some? ==> rest.value in frame && frame[rest.value] == V.Vec(args[|params|..])) &&
    forall n | n !in params && Some(n) != rest :: (n in frame <==> n in base) && (n in base ==> frame[n] == base[n])
  }

  lemma SeenOnce(a: Frame, b: Frame, base: Frame, params: seq<string>, rest: Option<string>, args: seq<V.Value>)
    requires |params| <= |args| && Sees(a, base, params, rest, args) && Sees(b, base, params, rest, args)
    ensures a == b
  {
    forall n ensures (n in a <==> n in b) && (n in a ==> a[n] == b[n]) {
      if n in params {
        var i :| 0 <= i < |params| && params[i] == n;
        assert a[params[i]] == args[i] && b[params[i]] == args[i];
      }
    }
  }

  lemma {:induction false} BoundLast(base: Frame, bs: seq<Bind>, i: nat)
    requires i < |bs| && forall j | i < j < |bs| :: bs[j].name != bs[i].name
    ensures bs[i].name in BindAll(base, bs) && BindAll(base, bs)[bs[i].name] == bs[i].value
    decreases |bs|
  {
    var last := |bs| - 1;
    if i < last {
      assert bs[..last][i] == bs[i] && bs[last].name != bs[i].name;
      BoundLast(base, bs[..last], i);
    }
  }

  lemma {:induction false} NotBound(base: Frame, bs: seq<Bind>, n: string)
    requires forall j | 0 <= j < |bs| :: bs[j].name != n
    ensures (n in BindAll(base, bs) <==> n in base) && (n in base ==> BindAll(base, bs)[n] == base[n])
    decreases |bs|
  {
    if bs != [] {
      var last := |bs| - 1;
      assert bs[last].name != n;
      NotBound(base, bs[..last], n);
    }
  }

  lemma CallSees(f: V.Closure, args: seq<V.Value>, base: Frame)
    requires Accepts(f, |args|) && Proper(f.params, f.rest)
    requires base == if f.name.Some? then f.captures[f.name.value := V.Function(f)] else f.captures
    ensures |f.params| <= |args| && Sees(CallFrame(f, args), base, f.params, f.rest, args)
  {
    var bs := Zip(f.params, args);
    var bound := BindAll(base, bs);
    hide BindAll;
    forall i | 0 <= i < |f.params| ensures f.params[i] in bound && bound[f.params[i]] == args[i] {
      assert bs[i] == Bind(f.params[i], args[i]);
      BoundLast(base, bs, i);
    }
    forall n | n !in f.params ensures (n in bound <==> n in base) && (n in base ==> bound[n] == base[n]) {
      NotBound(base, bs, n);
    }
  }

  // ---------------------------------------------------------------------------------------------
  // Calls
  // ---------------------------------------------------------------------------------------------

  /** What a body's outcome means for the caller: an early return is the value. */
  function Returned(out: Outcome): Outcome {
    match out
    case Fail(EarlyReturn(v)) => Done(v)
    case _ => out
  }

  /** `(do body)` one call deeper. */
  function BodyRun(c: Context, body: seq<Node>, frame: Frame): Step
    requires c.fuel > 0
  {
    Do(c.(depth := c.depth + 1, fuel := c.fuel - 1), body, [frame])
  }

  lemma BodyOf(c: Context, body: seq<Node>, frame: Frame)
    requires c.fuel > 0 && body != []
    ensures BodyRun(c, body, frame) ==
            EvalBody(NoLoop(c).(depth := c.depth + 1, fuel := c.fuel - 1), body, 0, V.Unit, [frame])
  {
    hide Eval, EvalBody, Do;
    var inner := c.(depth := c.depth + 1, fuel := c.fuel - 1);
    DoOpens(inner, body, [frame]);
    assert E.Block(body)[1..] == body[0..];
    E.SameBody(NoLoop(inner), E.Block(body), 1, body, 0, V.Unit, [frame]);
  }

  /**
   The value of `(fn [params & rest] body)` made in `env`, called with enough depth and fuel: the body, evaluated in the
   bindings visible in `env` with the parameters standing for the arguments.
  */
  lemma FnApplies(
    c: Context, at: Context, params: seq<string>, rest: Option<string>, body: seq<Node>, env: Chain, args: seq<V.Value>,
    frame: Frame)
    requires env != [] && body != [] && Proper(params, rest) && |params| <= |args| &&
             (rest.None? ==> |params| == |args|)
    requires Sees(frame, Flatten(env), params, rest, args) && c.depth < MAX_CALL_DEPTH && c.fuel > 0
    ensures Eval(at, Fn(params, rest, body), env).out.Done?
    ensures ApplyValue(c, Eval(at, Fn(params, rest, body), env).out.value, args) ==
            Returned(BodyRun(c, body, frame).out)
  {
    hide Eval, EvalBody, BodyRun, CallFrame, Sees, Proper;
    FnMakes(at, params, rest, body, env) by { NoMarker(params, rest); }
    var f := Lambda0(params, rest, Flatten(env), body);
    CallSees(f, args, Flatten(env));
    SeenOnce(CallFrame(f, args), frame, Flatten(env), params, rest, args);
    BodyOf(c, body, frame);
    NoConditions(NoLoop(c).(depth := c.depth + 1, fuel := c.fuel - 1), Precondition, [frame]);
    hide Conditions;
  }

  lemma NoMarker(params: seq<string>, rest: Option<string>)
    requires Proper(params, rest)
    ensures "&" !in params
  {
  }

  lemma NoConditions(c: Context, reason: Reason, env: Chain)
    requires env != []
    ensures Conditions(c, [], 0, reason, env) == Step(Done(V.Unit), env)
  {
  }

  /** Calls with another number of arguments, too deep or out of fuel fail. */
  lemma FnRefuses(
    c: Context, at: Context, params: seq<string>, rest: Option<string>, body: seq<Node>, env: Chain, args: seq<V.Value>)
    requires env != [] && body != [] && Proper(params, rest)
    ensures Eval(at, Fn(params, rest, body), env).out.Done?
    ensures var out := ApplyValue(c, Eval(at, Fn(params, rest, body), env).out.value, args);
            (c.depth >= MAX_CALL_DEPTH ==> out == Fail(StackOverflow)) &&
            (c.depth < MAX_CALL_DEPTH && (|args| < |params| || (rest.None? && |args| != |params|)) ==>
              out == Fail(Arity))
  {
    hide Eval, Enter;
    FnMakes(at, params, rest, body, env);
  }

  /** `((fn [] x))` is what `x` was where the function was made. */
  lemma CaptureSeen(c: Context, at: Context, x: string, env: Chain)
    requires env != [] && Lookup(env, x).Some? && c.depth < MAX_CALL_DEPTH && c.fuel > 0
    ensures Eval(at, Fn([], None, [E.Sym(x)]), env).out.Done?
    ensures ApplyValue(c, Eval(at, Fn([], None, [E.Sym(x)]), env).out.value, []) == Done(Lookup(env, x).value)
  {
    hide Eval, ApplyValue, Lookup, BodyRun;
    var frame := Flatten(env);
    LookupFlatten(env, x);
    FnApplies(c, at, [], None, [E.Sym(x)], env, [], frame);
    NameRun(c, x, frame);
  }

  /** `((fn [x] x) v)` is `v`, whatever `x` was where the function was made. */
  lemma ParameterHides(c: Context, at: Context, x: string, env: Chain, v: V.Value)
    requires env != [] && x != "&" && c.depth < MAX_CALL_DEPTH && c.fuel > 0
    ensures Eval(at, Fn([x], None, [E.Sym(x)]), env).out.Done?
    ensures ApplyValue(c, Eval(at, Fn([x], None, [E.Sym(x)]), env).out.value, [v]) == Done(v)
  {
    hide Eval, ApplyValue, Lookup, BodyRun, Flatten;
    var frame := Flatten(env)[x := v];
    FnApplies(c, at, [x], None, [E.Sym(x)], env, [v], frame);
    NameRun(c, x, frame);
  }

  /** A body that is one name. */
  lemma NameRun(c: Context, x: string, frame: Frame)
    requires x in frame && c.fuel > 0
    ensures BodyRun(c, [E.Sym(x)], frame) == Step(Done(frame[x]), [frame])
  {
    hide Eval;
    BodyOf(c, [E.Sym(x)], frame);
    assert [frame][..0] == [] && Lookup([frame], x) == Some(frame[x]);
    E.SymbolRuns(NoLoop(c).(depth := c.depth + 1, fuel := c.fuel - 1), x, [frame]);
  }

  // ---------------------------------------------------------------------------------------------
  // Named functions and their contracts
  // ---------------------------------------------------------------------------------------------

  function Clause(keyword: string, exprs: seq<Node>): seq<Node> {
    [Kw(keyword), VectorNode(exprs)]
  }

  /** `(defn name [params & rest] :requires [pre] :ensures [post] body)` */
  function DefnItems(
    name: string, params: seq<string>, rest: Option<string>, pre: seq<Node>, post: seq<Node>,
    body: seq<Node>): seq<Node>
  {
    [E.Sym("defn"), E.Sym(name), ParamNode(params, rest)] + Clause("requires", pre) + Clause("ensures", post) + body
  }

  function Named(
    name: string, params: seq<string>, rest: Option<string>, captures: Frame, pre: seq<Node>, post: seq<Node>,
    body: seq<Node>): V.Closure
  {
    V.Closure(Some(name), params, rest, captures, body, pre, post)
  }

  /** The contract clauses are found, and the body after them. */
  lemma ContractsRead(
    name: string, params: seq<string>, rest: Option<string>, pre: seq<Node>, post: seq<Node>, body: seq<Node>)
    requires body != [] && !IsKeyword(body[0])
    ensures var items := DefnItems(name, params, rest, pre, post, body);
            |items| == 7 + |body| && ContractsFrom(items, Contracts([], [], 3)) == Contracts(pre, post, 7) &&
              items[7..] == body
  {
    var items := DefnItems(name, params, rest, pre, post, body);
    assert items[3] == Kw("requires") && items[4] == VectorNode(pre);
    assert items[5] == Kw("ensures") && items[6] == VectorNode(post);
    assert items[7] == body[0];
    assert ContractOf(items[3]) == Requires && ContractOf(items[5]) == Ensures && ContractOf(items[7]) == NoContract;
    hide ContractOf;
    assert ContractsFrom(items, Contracts(pre, post, 7)) == Contracts(pre, post, 7);
    assert ContractsFrom(items, Contracts(pre, [], 5)) == ContractsFrom(items, Contracts(pre, post, 7));
  }

  /** `defn` defines a function that knows its own name. */
  lemma DefnMakes(
    c: Context, name: string, params: seq<string>, rest: Option<string>, pre: seq<Node>, post: seq<Node>,
    body: seq<Node>, env: Chain)
    requires env != [] && body != [] && !IsKeyword(body[0]) && "&" !in params
    ensures Eval(c, E.ListNode(DefnItems(name, params, rest, pre, post, body)), env) ==
            Step(Done(V.Unit), Define(env, name, V.Function(Named(name, params, rest, Flatten(env), pre, post, body))))
  {
    hide Eval, EvalList, Lambda, ContractsFrom, Flatten, Define;
    var items := DefnItems(name, params, rest, pre, post, body);
    ContractsRead(name, params, rest, pre, post, body);
    assert items[0] == E.Sym("defn") && items[1] == E.Sym(name) && items[2] == ParamNode(params, rest);
    E.EvalListNode(c, items, env);
    DefnDispatch(c, items, env);
    var lambda := [items[0], items[2]] + items[7..];
    assert lambda[2..] == body;
    LambdaRead(lambda, params, rest, Flatten(env));
    assert DefnOf(items, Flatten(env)) == Ok(Defined(name, Named(name, params, rest, Flatten(env), pre, post, body)));
  }

  /** Contract clauses are read alike wherever they stand. */
  lemma {:induction false} ContractsShift(
    xs: seq<Node>, i: nat, ys: seq<Node>, j: nat, pre: seq<Node>, post: seq<Node>)
    requires i <= |xs| && j <= |ys| && xs[i..] == ys[j..]
    ensures var a, b := ContractsFrom(xs, Contracts(pre, post, i)), ContractsFrom(ys, Contracts(pre, post, j));
            SameContracts(xs, a, ys, b)
    decreases |xs| - i
  {
    hide ContractOf;
    if i + 1 < |xs| {
      assert xs[i] == xs[i..][0] == ys[j..][0] == ys[j] && xs[i + 1] == xs[i..][1] == ys[j..][1] == ys[j + 1];
      assert xs[i + 2..] == xs[i..][2..] == ys[j..][2..] == ys[j + 2..];
      match ContractOf(xs[i]) {
        case Requires =>
          if xs[i + 1].kind.Vector? { ContractsShift(xs, i + 2, ys, j + 2, xs[i + 1].kind.items, post); }
        case Ensures =>
          if xs[i + 1].kind.Vector? { ContractsShift(xs, i + 2, ys, j + 2, pre, xs[i + 1].kind.items); }
        case Examples => ContractsShift(xs, i + 2, ys, j + 2, pre, post);
        case NoContract =>
      }
    }
  }

  predicate SameContracts(xs: seq<Node>, a: Contracts, ys: seq<Node>, b: Contracts) {
    a.start <= |xs| && b.start <= |ys| && a.pre == b.pre && a.post == b.post && xs[a.start..] == ys[b.start..]
  }

  /** The start of the clauses of a `defn`. */
  function ClausesAt(items: seq<Node>): nat {
    if |items| > 2 && IsDocstring(items[2]) then 4 else 3
  }

  lemma SameDefn(c: Context, xs: seq<Node>, ys: seq<Node>, env: Chain)
    requires env != [] && |xs| >= 2 && |ys| >= 2 && xs[..2] == ys[..2] && xs[0] == E.Sym("defn")
    requires var i, j := ClausesAt(xs), ClausesAt(ys);
             i < |xs| && j < |ys| && xs[i - 1] == ys[j - 1] &&
             SameContracts(xs, ContractsFrom(xs, Contracts([], [], i)), ys, ContractsFrom(ys, Contracts([], [], j)))
    ensures Eval(c, E.ListNode(xs), env) == Eval(c, E.ListNode(ys), env)
  {
    hide Eval, Lambda, ContractsFrom, Flatten, IsDocstring;
    assert xs[0] == xs[..2][0] == ys[..2][0] == ys[0] && xs[1] == xs[..2][1] == ys[..2][1] == ys[1];
    E.EvalListNode(c, xs, env);
    E.EvalListNode(c, ys, env);
    assert DefnOf(xs, Flatten(env)) == DefnOf(ys, Flatten(env));
    DefnDispatch(c, xs, env);
    DefnDispatch(c, ys, env);
  }

  lemma DefnDispatch(c: Context, items: seq<Node>, env: Chain)
    requires env != [] && items != [] && items[0] == E.Sym("defn")
    ensures EvalList(c, items, env) == EvalDefn(items, env)
  {
    hide EvalDefn;
    assert FormOf(items[0]) == DefnForm;
  }

  /** A `defn` with a docstring is the `defn` without it. */
  lemma DocstringIgnored(c: Context, name: Node, doc: string, params: Node, parts: seq<Node>, env: Chain)
    requires env != [] && parts != [] && !IsDocstring(params)
    ensures Eval(c, E.ListNode([E.Sym("defn"), name, Node(Atomic(Str(doc)), [], None), params] + parts), env) ==
            Eval(c, E.ListNode([E.Sym("defn"), name, params] + parts), env)
  {
    hide Eval, ContractsFrom;
    var xs := [E.Sym("defn"), name, Node(Atomic(Str(doc)), [], None), params] + parts;
    var ys := [E.Sym("defn"), name, params] + parts;
    assert xs[4..] == parts == ys[3..];
    ContractsShift(xs, 4, ys, 3, [], []);
    SameDefn(c, xs, ys, env);
  }

  /** `:examples` in a `defn` changes nothing. */
  lemma ExamplesIgnored(c: Context, name: Node, params: Node, examples: Node, parts: seq<Node>, env: Chain)
    requires env != [] && parts != [] && !IsDocstring(params)
    ensures Eval(c, E.ListNode([E.Sym("defn"), name, params, Kw("examples"), examples] + parts), env) ==
            Eval(c, E.ListNode([E.Sym("defn"), name, params] + parts), env)
  {
    hide Eval;
    var xs := [E.Sym("defn"), name, params, Kw("examples"), examples] + parts;
    var ys := [E.Sym("defn"), name, params] + parts;
    assert xs[5..] == parts == ys[3..];
    assert ContractOf(xs[3]) == Examples;
    ContractsShift(xs, 5, ys, 3, [], []);
    SameDefn(c, xs, ys, env);
  }

  /** The second of two `:requires` clauses, or of two `:ensures` clauses, is the one that counts. */
  lemma LastClauseCounts(
    c: Context, name: Node, params: Node, keyword: string, first: seq<Node>, second: seq<Node>, parts: seq<Node>,
    env: Chain)
    requires env != [] && !IsDocstring(params) && (keyword == "requires" || keyword == "ensures")
    ensures var head := [E.Sym("defn"), name, params];
            Eval(c, E.ListNode(head + Clause(keyword, first) + Clause(keyword, second) + parts), env) ==
            Eval(c, E.ListNode(head + Clause(keyword, second) + parts), env)
  {
    hide Eval;
    var head := [E.Sym("defn"), name, params];
    var xs := head + Clause(keyword, first) + Clause(keyword, second) + parts;
    var ys := head + Clause(keyword, second) + parts;
    assert xs[7..] == parts == ys[5..];
    assert xs[3] == xs[5] == ys[3] == Kw(keyword);
    assert xs[4] == VectorNode(first) && xs[6] == VectorNode(second) == ys[4];
    var found := if keyword == "requires" then Contracts(second, [], 7) else Contracts([], second, 7);
    assert ContractsFrom(xs, Contracts([], [], 3)) == ContractsFrom(xs, found);
    assert ContractsFrom(ys, Contracts([], [], 3)) == ContractsFrom(ys, found.(start := 5));
    ContractsShift(xs, 7, ys, 5, found.pre, found.post);
    SameDefn(c, xs, ys, env);
  }

  /** All expressions hold in `env`, or the first that does not is false. */
  ghost predicate HoldUpTo(c: Context, exprs: seq<Node>, n: nat, env: Chain)
    requires env != []
  {
    n <= |exprs| && AllWithin(QUIET, exprs) &&
    (forall i | 0 <= i < n :: Eval(NoLoop(c), exprs[i], env).out == Done(V.Bool(true))) &&
    (n < |exprs| ==> Eval(NoLoop(c), exprs[n], env).out == Done(V.Bool(false)))
  }

  lemma {:induction false} ConditionsHold(c: Context, exprs: seq<Node>, i: nat, n: nat, reason: Reason, env: Chain)
    requires env != [] && i <= n && c.frame.None? && HoldUpTo(c, exprs, n, env)
    ensures Conditions(c, exprs, i, reason, env) ==
            Step(if n < |exprs| then Fail(Panic(reason)) else Done(V.Unit), env)
    decreases n - i
  {
    hide Eval, Within;
    assert NoLoop(c) == c;
    if i < n { ConditionsHold(c, exprs, i + 1, n, reason, env); }
  }

  function Deeper(c: Context): Context
    requires c.fuel > 0
  {
    NoLoop(c).(depth := c.depth + 1, fuel := c.fuel - 1)
  }

  /** What a call of a `defn` function with `args` starts from: the function sees itself under its own name. */
  ghost predicate Called(c: Context, f: V.Closure, args: seq<V.Value>, frame: Frame) {
    f.name.Some? && Proper(f.params, f.rest) && |f.params| <= |args| && (f.rest.None? ==> |f.params| == |args|) &&
    Sees(frame, f.captures[f.name.value := V.Function(f)], f.params, f.rest, args) && c.depth < MAX_CALL_DEPTH &&
      c.fuel > 0
  }

  lemma CalledFrame(c: Context, f: V.Closure, args: seq<V.Value>, frame: Frame)
    requires Called(c, f, args, frame)
    ensures Accepts(f, |args|) && CallFrame(f, args) == frame
    ensures ApplyValue(c, V.Function(f), args) == Enter(Deeper(c), f, args)
  {
    hide Enter, CallFrame, Sees;
    CallSees(f, args, f.captures[f.name.value := V.Function(f)]);
    SeenOnce(CallFrame(f, args), frame, f.captures[f.name.value := V.Function(f)], f.params, f.rest, args);
  }

  /** A failed precondition is a panic, and the body is not evaluated. */
  lemma PreconditionFails(c: Context, f: V.Closure, args: seq<V.Value>, frame: Frame, n: nat)
    requires Called(c, f, args, frame) && n < |f.pre| && HoldUpTo(Deeper(c), f.pre, n, [frame])
    ensures ApplyValue(c, V.Function(f), args) == Fail(Panic(Precondition))
  {
    hide Eval, EvalBody, ApplyValue, CallFrame, Called, HoldUpTo, Conditions;
    CalledFrame(c, f, args, frame);
    ConditionsHold(Deeper(c), f.pre, 0, n, Precondition, [frame]);
  }

  /**
   When the preconditions hold, the outcome is that of the body; a value counts only when the postconditions hold where
   `result` is the value.
  */
  lemma ContractDecides(c: Context, f: V.Closure, args: seq<V.Value>, frame: Frame, n: nat)
    requires Called(c, f, args, frame) && HoldUpTo(Deeper(c), f.pre, |f.pre|, [frame]) && f.body != []
    requires var r := BodyRun(c, f.body, frame);
             r.out.Done? ==> HoldUpTo(Deeper(c), f.post, n, Push(r.env, map["result" := r.out.value]))
    ensures var r := BodyRun(c, f.body, frame);
            ApplyValue(c, V.Function(f), args) ==
            if r.out.Done? && n < |f.post| then Fail(Panic(Postcondition)) else Returned(r.out)
  {
    hide Eval, EvalBody, ApplyValue, CallFrame, Called, HoldUpTo, BodyRun, Conditions;
    CalledFrame(c, f, args, frame);
    ConditionsHold(Deeper(c), f.pre, 0, |f.pre|, Precondition, [frame]);
    BodyOf(c, f.body, frame);
    var r := BodyRun(c, f.body, frame);
    if r.out.Done? {
      ConditionsHold(Deeper(c), f.post, 0, n, Postcondition, Push(r.env, map["result" := r.out.value]));
      UpTo(Deeper(c), f.post, n, Push(r.env, map["result" := r.out.value]));
    }
  }

  lemma UpTo(c: Context, exprs: seq<Node>, n: nat, env: Chain)
    requires env != [] && HoldUpTo(c, exprs, n, env)
    ensures n <= |exprs|
  {
  }
}
