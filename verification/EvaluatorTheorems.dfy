/** What holds of every evaluation (crates/nexl-eval/src/eval.rs). */
module EvaluatorTheorems {
  import opened Basics
  import opened Ast
  import opened Patterns
  import opened Scopes
  import opened SpecialForms
  import opened Semantics
  import opened Simulation
  import opened Tame
  import opened TameRuns
  import I = Interpolation
  import V = Values

  // ---------------------------------------------------------------------------------------------
  // Fuel, depth and captured environments
  // ---------------------------------------------------------------------------------------------

  /** More fuel and a shallower depth change nothing in a run that keeps within its own bounds. */
  lemma SameRun(small: Context, large: Context, node: Node, env: Chain)
    requires env != [] && small.world == large.world && small.frame == large.frame
    requires small.fuel <= large.fuel && large.depth <= small.depth
    requires Ran(Eval(small, node, env).out)
    ensures Eval(large, node, env) == Eval(small, node, env)
  {
    hide Eval, Within;
    var k := Link(UNLIMITED, small, large, 0, |env|);
    SimilarEqual(env, env);
    UnlimitedWithin(node);
    SimEval(k, node, env, env);
    SimilarEqual(Eval(small, node, env).env, Eval(large, node, env).env);
  }

  lemma SimilarEqual(a: Chain, b: Chain)
    requires |a| == |b|
    ensures Similar(a, b, 0, |a|) <==> a == b
  {
    assert a[0..] == a && b[0..] == b && a[..0] == b[..0] == a[0..0] == b[0..0];
  }

  /** A closure's snapshot is as good as the chain it was taken from: nesting of frames cannot be observed. */
  lemma SnapshotIsScope(c: Context, node: Node, env: Chain)
    requires env != []
    ensures Eval(c, node, [Flatten(env)]).out == Eval(c, node, env).out
    ensures Flatten(Eval(c, node, [Flatten(env)]).env) == Flatten(Eval(c, node, env).env)
  {
    hide Eval, Within;
    var k, flat := Link(UNLIMITED, c, c, 0, 0), [Flatten(env)];
    SnapshotSimilar(env);
    UnlimitedWithin(node);
    SimEval(k, node, env, flat);
    SimilarFlatten(Eval(c, node, env).env, Eval(c, node, flat).env, 0, 0);
  }

  lemma SnapshotSimilar(env: Chain)
    ensures Similar(env, [Flatten(env)], 0, 0)
  {
    var flat := [Flatten(env)];
    assert env[0..|env|] == env && flat[0..|flat|] == flat && flat[..0] == [];
    assert Flatten(flat) == Flatten([]) + Flatten(env);
  }

  // ---------------------------------------------------------------------------------------------
  // match
  // ---------------------------------------------------------------------------------------------

  /** The `j`-th arm has a pattern that does not fit the value. */
  predicate Passed(items: seq<Node>, v: V.Value, j: nat)
    requires 2 + 2 * j < |items|
  {
    var p := PatternOf(items[2 + 2 * j]);
    p.Ok? && Match(p.value, v).None?
  }

  /** `match` runs the first arm that fits; a bad pattern counts only when it is reached; no arm at all is an error. */
  lemma {:induction false} MatchTakesFirst(c: Context, items: seq<Node>, v: V.Value, env: Chain, i: nat, j: nat)
    requires env != [] && |items| % 2 == 0 && i <= j && 2 + 2 * j <= |items|
    requires forall m | i <= m < j :: Passed(items, v, m)
    ensures EvalArms(c, items, 2 + 2 * i, v, env) == EvalArms(c, items, 2 + 2 * j, v, env)
    ensures 2 + 2 * j == |items| ==> EvalArms(c, items, 2 + 2 * i, v, env) == Step(Fail(NativeError(NoMatch(v))), env)
    ensures 2 + 2 * j < |items| && PatternOf(items[2 + 2 * j]).Err? ==>
              EvalArms(c, items, 2 + 2 * i, v, env) ==
                Step(Fail(NativeError(BadPattern(PatternOf(items[2 + 2 * j]).error))), env)
    ensures 2 + 2 * j < |items| && PatternOf(items[2 + 2 * j]).Ok? && !Passed(items, v, j) ==>
              var bs := Match(PatternOf(items[2 + 2 * j]).value, v).value;
              var r := Eval(c, items[3 + 2 * j], Push(env, BindAll(map[], bs)));
              EvalArms(c, items, 2 + 2 * i, v, env) == Step(r.out, Pop(r.env))
    decreases j - i
  {
    hide Eval, PatternOf, Match, Push, Pop, BindAll;
    if i < j {
      assert Passed(items, v, i);
      MatchTakesFirst(c, items, v, env, i + 1, j);
    }
  }

  // ---------------------------------------------------------------------------------------------
  // let-else
  // ---------------------------------------------------------------------------------------------

  /** A let-else binding `pattern value | fallback`. */
  datatype ElseBinding = ElseBinding(pattern: Node, value: Node, fallback: Node)

  function Sym(name: string): Node {
    Node(Atomic(Symbol(None, name)), [], None)
  }

  function ListNode(items: seq<Node>): Node {
    Node(List(items), [], None)
  }

  function BindingNodes(bs: seq<ElseBinding>): (nodes: seq<Node>)
    ensures |nodes| == 4 * |bs|
  {
    if bs == [] then [] else [bs[0].pattern, bs[0].value, Sym("|"), bs[0].fallback] + BindingNodes(bs[1..])
  }

  function LetElse(bs: seq<ElseBinding>, body: seq<Node>): (items: seq<Node>)
    ensures |items| == 2 + |body| && items[1].kind == Vector(BindingNodes(bs)) && items[2..] == body
  {
    [Sym("let"), Node(Vector(BindingNodes(bs)), [], None)] + body
  }

  function Block(body: seq<Node>): (items: seq<Node>)
    ensures |items| == 1 + |body| && items[1..] == body && items[0] == Sym("do")
  {
    [Sym("do")] + body
  }

  /** One `match` inside the other, each falling back through a wildcard arm. */
  function NestedMatch(bs: seq<ElseBinding>, body: seq<Node>): Node {
    if bs == [] then ListNode(Block(body))
    else ListNode([Sym("match"), bs[0].value, bs[0].pattern, NestedMatch(bs[1..], body), Sym("_"), bs[0].fallback])
  }

  predicate Readable(bs: seq<ElseBinding>) {
    forall i | 0 <= i < |bs| :: !IsMut(bs[i].pattern)
  }

  predicate Restrained(bs: seq<ElseBinding>, noJumps: bool) {
    forall i | 0 <= i < |bs| :: Within(Limits(i == 0, false, noJumps), bs[i].value)
  }

  ghost predicate TameValues(w: World, bs: seq<ElseBinding>, env: Chain) {
    TameWorld(w) && TameChain(w.read, env) && forall i | 0 <= i < |bs| :: Tidy(w.read, PLAIN, bs[i].value)
  }

  /**
   The first value defines nothing. Inside a loop, the values neither `recur` nor call, or they are tidy and what they
   see is tame.
  */
  ghost predicate Suitable(c: Context, bs: seq<ElseBinding>, env: Chain) {
    Restrained(bs, c.frame.Some?) || (Restrained(bs, false) && TameValues(c.world, bs, env))
  }

  /**
   A let-else with any number of bindings is the nested `match` with its fallbacks, in outcome and in environment. The
   first value must define nothing, since `let` evaluates it in the child environment and `match` in the enclosing one;
   a `recur` that a value lets out of a called function is an error in `let` and continues the loop in `match`.
  */
  lemma LetElseIsNestedMatch(c: Context, bs: seq<ElseBinding>, body: seq<Node>, env: Chain)
    requires env != [] && bs != [] && body != [] && Readable(bs) && Suitable(c, bs, env)
    ensures EvalList(c, LetElse(bs, body), env) == Eval(c, NestedMatch(bs, body), env)
  {
    hide Eval, LetFrom, BindingNodes, NestedMatch, Within, Readable, Suitable, FormNamed, PatternOf, IsPipe, EvalBody;
    var items, child := LetElse(bs, body), Push(env, map[]);
    FormSpelling();
    EmptyScope(env);
    LetFromNested(c, bs, body, 0, child, env, |env|);
    assert bs[0..] == bs;
    var r, t := LetFrom(c, items, 0, child), Eval(c, NestedMatch(bs, body), env);
    assert EvalLet(c, items, env) == Step(r.out, Pop(r.env));
    assert Pop(r.env) == r.env[..|env|] == t.env[..|env|] == t.env;
  }

  lemma FormSpelling()
    ensures FormOf(Sym("let")) == LetForm && FormOf(Sym("match")) == MatchForm && FormOf(Sym("do")) == DoForm
    ensures PatternOf(Sym("_")) == Ok(Wildcard) && !IsMut(Sym("_")) && IsPipe(Sym("|"))
  {
  }

  lemma EmptyScope(env: Chain)
    requires env != []
    ensures Similar(Push(env, map[]), env, |env|, 0)
  {
    SimilarSelf(env);
    PushedDefinitions(env, env, |env|, []);
  }

  lemma SimilarSelf(env: Chain)
    ensures Similar(env, env, |env|, 0)
  {
  }

  /** Defining names in a frame looks the same as pushing a frame of them. */
  lemma PushedDefinitions(a: Chain, b: Chain, n: nat, bs: seq<Bind>)
    requires Similar(a, b, n, 0) && a != [] && (n < |a| || bs == [])
    ensures Similar(DefineAll(a, bs), Push(b, BindAll(map[], bs)), n, 0)
    ensures bs == [] ==> DefineAll(a, bs) == a
  {
    hide Flatten, BindAll;
    NoBinds(map[]);
    if bs == [] { NoBinds(a[|a| - 1]); }
    var frame := BindAll(map[], bs);
    var x, y := DefineAll(a, bs), Push(b, frame);
    assert a[n..|a| - 0] == a[n..] && b[n..|b| - 0] == b[n..] && x[n..|x| - 0] == x[n..] &&
      y[n..|y| - 0] == b[n..] + [frame];
    assert x[|x|..] == y[|y|..];
    FlattenConcat(b[n..], [frame]);
    FlattenOne(frame);
    BindAllMerge(Flatten(b[n..]), map[], bs);
    assert Flatten(b[n..]) + map[] == Flatten(b[n..]);
    if n < |a| {
      AboveDefineAll(a, n, bs);
      FlattenDefineAll(a[n..], bs);
    } else {
      NoBinds(Flatten(a[n..]));
    }
  }

  lemma NoBinds(frame: Frame)
    ensures BindAll(frame, []) == frame
  {
  }

  lemma FlattenOne(frame: Frame)
    ensures Flatten([frame]) == frame
  {
    assert [frame][..0] == [];
  }

  lemma AboveDefineAll(env: Chain, n: nat, bs: seq<Bind>)
    requires n < |env|
    ensures DefineAll(env, bs)[..n] == env[..n] && DefineAll(env, bs)[n..] == DefineAll(env[n..], bs)
  {
  }

  lemma {:induction false} BindingNodesAt(bs: seq<ElseBinding>, i: nat)
    requires i < |bs|
    ensures var v := BindingNodes(bs);
            v[4 * i] == bs[i].pattern && v[4 * i + 1] == bs[i].value && v[4 * i + 2] == Sym("|") &&
            v[4 * i + 3] == bs[i].fallback
  {
    hide Sym;
    if i > 0 { BindingNodesAt(bs[1..], i - 1); }
  }

  /** What `let` does with the `i`-th binding once its value is evaluated. */
  function LetAfter(c: Context, bs: seq<ElseBinding>, body: seq<Node>, i: nat, r: Step): Step
    requires body != [] && i < |bs| && r.env != []
  {
    if !r.out.Done? then Step(NoRecur(r.out), r.env)
    else
      match PatternOf(bs[i].pattern)
      case Err(e) => Step(Fail(NativeError(BadPattern(e))), r.env)
      case Ok(p) =>
        match Match(p, r.out.value)
        case Some(found) => LetFrom(c, LetElse(bs, body), 4 * i + 4, DefineAll(r.env, found))
        case None => Eval(c, bs[i].fallback, r.env)
  }

  lemma LetBindingStep(c: Context, bs: seq<ElseBinding>, body: seq<Node>, i: nat, a: Chain)
    requires a != [] && body != [] && i < |bs| && Readable(bs)
    ensures LetFrom(c, LetElse(bs, body), 4 * i, a) == LetAfter(c, bs, body, i, Eval(NoLoop(c), bs[i].value, a))
  {
    hide Eval, EvalBody, BindingNodes, PatternOf, Match, DefineAll, IsMut, IsPipe, Sym, FormNamed;
    FormSpelling();
    BindingNodesAt(bs, i);
    assert BindingAt(BindingNodes(bs), 4 * i) == Some(LetBinding(4 * i, 4 * i + 1, Some(4 * i + 3), 4 * i + 4));
  }

  /** What the nested `match` does with the `i`-th value. */
  function MatchAfter(c: Context, bs: seq<ElseBinding>, body: seq<Node>, i: nat, t: Step): Step
    requires i < |bs|
  {
    if !t.out.Done? then t
    else
      match PatternOf(bs[i].pattern)
      case Err(e) => Step(Fail(NativeError(BadPattern(e))), t.env)
      case Ok(p) =>
        var bound := Match(p, t.out.value);
        var arm := if bound.Some? then NestedMatch(bs[i + 1..], body) else bs[i].fallback;
        var u := Eval(c, arm, Push(t.env, BindAll(map[], bound.GetOr([]))));
        Step(u.out, Pop(u.env))
  }

  lemma MatchStep(c: Context, bs: seq<ElseBinding>, body: seq<Node>, i: nat, b: Chain)
    requires b != [] && i < |bs|
    ensures Eval(c, NestedMatch(bs[i..], body), b) == MatchAfter(c, bs, body, i, Eval(c, bs[i].value, b))
  {
    hide Eval, NestedMatch, FormOf, PatternOf, Match, Push, Pop, BindAll, Sym;
    FormSpelling();
    NestedAt(bs, body, i);
    var items := [Sym("match"), bs[i].value, bs[i].pattern, NestedMatch(bs[i + 1..], body), Sym("_"), bs[i].fallback];
    EvalListNode(c, items, b);
    MatchItems(c, items, b);
    var t := Eval(c, bs[i].value, b);
    if t.out.Done? { TwoArms(c, items, t.out.value, t.env); }
  }

  lemma MatchItems(c: Context, items: seq<Node>, env: Chain)
    requires env != [] && |items| == 6 && FormOf(items[0]) == MatchForm
    ensures var t := Eval(c, items[1], env);
            EvalList(c, items, env) == if t.out.Done? then EvalArms(c, items, 2, t.out.value, t.env) else t
  {
    hide Eval, EvalArms, FormOf;
  }

  /** A `match` with one arm and a wildcard arm. */
  lemma TwoArms(c: Context, items: seq<Node>, v: V.Value, env: Chain)
    requires env != [] && |items| == 6 && PatternOf(items[4]) == Ok(Wildcard)
    ensures EvalArms(c, items, 2, v, env) ==
            match PatternOf(items[2])
            case Err(e) => Step(Fail(NativeError(BadPattern(e))), env)
            case Ok(p) =>
              var bound := Match(p, v);
              var arm := if bound.Some? then items[3] else items[5];
              var u := Eval(c, arm, Push(env, BindAll(map[], bound.GetOr([]))));
              Step(u.out, Pop(u.env))
  {
    WildcardMatches(v);
    hide Eval, PatternOf, Match, Push, Pop, BindAll;
  }

  lemma WildcardMatches(v: V.Value)
    ensures Match(Wildcard, v) == Some([])
  {
  }

  lemma NestedAt(bs: seq<ElseBinding>, body: seq<Node>, i: nat)
    requires i < |bs|
    ensures NestedMatch(bs[i..], body) ==
            ListNode([
              Sym("match"), bs[i].value, bs[i].pattern, NestedMatch(bs[i + 1..], body), Sym("_"), bs[i].fallback])
  {
    hide Sym;
    assert bs[i..][0] == bs[i] && bs[i..][1..] == bs[i + 1..];
  }

  lemma EvalListNode(c: Context, items: seq<Node>, env: Chain)
    requires env != []
    ensures Eval(c, ListNode(items), env) == EvalList(c, items, env)
  {
    hide EvalList;
  }

  /**
   The part of the argument that goes through the bindings: `a` is the child of the `let`, `b` the arms of the
   `match`.
  */
  lemma {:induction false} LetFromNested(
    c: Context, bs: seq<ElseBinding>, body: seq<Node>, i: nat, a: Chain, b: Chain, n: nat)
    requires i <= |bs| && bs != [] && body != [] && Readable(bs) && Suitable(c, bs, b)
    requires b != [] && n < |a| && Similar(a, b, n, 0) && (i == 0 || n < |b|)
    ensures SameBelow(LetFrom(c, LetElse(bs, body), 4 * i, a), Eval(c, NestedMatch(bs[i..], body), b), n)
    decreases |bs| - i
  {
    hide Eval, LetFrom, BindingNodes, NestedMatch, Suitable, Readable, Similar, DefineAll, Push, Pop, BindAll, Match,
      PatternOf;
    if i == |bs| {
      assert bs[i..] == [];
      BodyNested(c, bs, body, a, b, n);
    } else {
      LetBindingStep(c, bs, body, i, a);
      MatchStep(c, bs, body, i, b);
      SameValue(c, bs, i, a, b, n);
      var r, t := Eval(NoLoop(c), bs[i].value, a), Eval(c, bs[i].value, b);
      SimilarBelow(r.env, t.env, n);
      if r.out.Done? && PatternOf(bs[i].pattern).Ok? {
        var bound := Match(PatternOf(bs[i].pattern).value, r.out.value);
        var x, y := DefineAll(r.env, bound.GetOr([])), Push(t.env, BindAll(map[], bound.GetOr([])));
        PushedDefinitions(r.env, t.env, n, bound.GetOr([]));
        if bound.Some? {
          StillSuitable(c, bs, i, b, PatternOf(bs[i].pattern).value);
          LetFromNested(c, bs, body, i + 1, x, y, n);
          PopBelow(Eval(c, NestedMatch(bs[i + 1..], body), y).env, n);
        } else {
          UnlimitedWithin(bs[i].fallback);
          SimEval(Link(UNLIMITED, c, c, n, 0), bs[i].fallback, x, y);
          SimilarBelow(Eval(c, bs[i].fallback, x).env, Eval(c, bs[i].fallback, y).env, n);
          PopBelow(Eval(c, bs[i].fallback, y).env, n);
        }
      }
    }
  }

  /** The value of a binding, outside the loop in the `let` and inside it in the `match`. */
  lemma SameValue(c: Context, bs: seq<ElseBinding>, i: nat, a: Chain, b: Chain, n: nat)
    requires i < |bs| && Suitable(c, bs, b) && b != [] && n < |a| && Similar(a, b, n, 0) && (i == 0 || n < |b|)
    ensures var r, t := Eval(NoLoop(c), bs[i].value, a), Eval(c, bs[i].value, b);
            r.out == t.out && Similar(r.env, t.env, n, 0)
  {
    hide Eval, Within, Similar, Tidy, TameWorld, TameChain;
    if Restrained(bs, c.frame.Some?) {
      SimEval(Link(Limits(i == 0, false, c.frame.Some?), NoLoop(c), c, n, 0), bs[i].value, a, b);
    } else {
      TameEval(c, PLAIN, bs[i].value, b);
      SimEval(Link(Limits(i == 0, false, false), NoLoop(c), NoLoop(c), n, 0), bs[i].value, a, b);
    }
  }

  lemma StillSuitable(c: Context, bs: seq<ElseBinding>, i: nat, b: Chain, p: Pattern)
    requires i < |bs| && Suitable(c, bs, b) && b != []
    requires var t := Eval(c, bs[i].value, b); t.out.Done? && Match(p, t.out.value).Some?
    ensures var t := Eval(c, bs[i].value, b);
            Suitable(c, bs, Push(t.env, BindAll(map[], Match(p, t.out.value).value)))
  {
    hide Eval, Restrained, Tidy, Tame.Tame, TameWorld, TameChain, TameFrame, BindAll, Match, Push;
    if TameValues(c.world, bs, b) {
      TameEval(c, PLAIN, bs[i].value, b);
      var t, read := Eval(c, bs[i].value, b), c.world.read;
      var found := Match(p, t.out.value).value;
      MatchTame(read, p, t.out.value);
      EmptyTame(read);
      BindAllTame(read, map[], found);
      PushTame(read, t.env, BindAll(map[], found));
    }
  }

  function Num(n: int): Node {
    Node(Atomic(Int(n, None)), [], None)
  }

  function Defining(name: string, n: int): Node {
    ListNode([Sym("def"), Sym(name), Num(n)])
  }

  /** `(let [_ (def y 1) | 2] 3)`: `let` drops `y` with its child environment and the nested `match` keeps it. */
  lemma LetElseDropsDefinition(c: Context, y: string, env: Chain)
    requires env != []
    ensures var bs, body := [ElseBinding(Sym("_"), Defining(y, 1), Num(2))], [Num(3)];
            EvalList(c, LetElse(bs, body), env) == Step(Done(V.Int(3)), env) &&
            Eval(c, NestedMatch(bs, body), env) == Step(Done(V.Int(3)), Define(env, y, V.Int(1)))
  {
    hide Eval, EvalList, EvalBody, LetFrom, LetElse, NestedMatch, PatternOf, IsMut, Defining, Match, Push, Pop, BindAll,
      Define, Block, BindingNodes;
    var bs, body := [ElseBinding(Sym("_"), Defining(y, 1), Num(2))], [Num(3)];
    var child := Push(env, map[]);
    FormSpelling();
    WildcardMatches(V.Unit);
    LetScope(c, bs, body, env);
    LetBindingStep(c, bs, body, 0, child);
    DefiningRuns(NoLoop(c), y, 1, child);
    var a := Define(child, y, V.Int(1));
    NoneDefined(a);
    LetEnd(c, bs, body, a);
    JustNum(c, LetElse(bs, body), 2, 3, a);
    MatchStep(c, bs, body, 0, env);
    DefiningRuns(c, y, 1, env);
    var b := Define(env, y, V.Int(1));
    NestedEnd(body);
    EvalListNode(c, Block(body), Push(b, map[]));
    DoItems(c, Block(body), Push(b, map[]));
    JustNum(c, Block(body), 1, 3, Push(b, map[]));
    NoBinds(map[]);
    assert bs[0..] == bs && bs[1..] == [];
  }

  lemma LetScope(c: Context, bs: seq<ElseBinding>, body: seq<Node>, env: Chain)
    requires env != [] && body != []
    ensures var r := LetFrom(c, LetElse(bs, body), 0, Push(env, map[]));
            EvalList(c, LetElse(bs, body), env) == Step(r.out, Pop(r.env))
  {
    hide LetFrom, BindingNodes, Push, Pop, FormNamed;
    FormSpelling();
  }

  lemma DefiningRuns(c: Context, y: string, n: V.i64, env: Chain)
    requires env != []
    ensures Eval(c, Defining(y, n), env) == Step(Done(V.Unit), Define(env, y, V.Int(n)))
  {
    hide Eval, Define;
    var items := Defining(y, n).kind.items;
    EvalListNode(c, items, env);
    NumRuns(NoLoop(c), n, env);
    assert FormOf(items[0]) == DefForm;
    assert EvalList(c, items, env) == EvalDef(c, items, env);
  }

  lemma NumRuns(c: Context, n: V.i64, env: Chain)
    requires env != []
    ensures Eval(c, Num(n), env) == Step(Done(V.Int(n)), env)
  {
    assert EvalAtom(c, Int(n, None), env) == Step(Done(V.Int(n)), env);
  }

  lemma JustNum(c: Context, nodes: seq<Node>, i: nat, n: V.i64, env: Chain)
    requires env != [] && i + 1 == |nodes| && nodes[i] == Num(n)
    ensures EvalBody(c, nodes, i, V.Unit, env) == Step(Done(V.Int(n)), env)
  {
    hide Eval;
    NumRuns(c, n, env);
  }

  lemma NoneDefined(env: Chain)
    requires env != []
    ensures DefineAll(env, []) == env
  {
    NoBinds(env[|env| - 1]);
  }

  ghost predicate SameBelow(r: Step, t: Step, n: nat) {
    r.out == t.out && n <= |r.env| && n <= |t.env| && r.env[..n] == t.env[..n]
  }

  lemma SimilarBelow(a: Chain, b: Chain, n: nat)
    requires Similar(a, b, n, 0)
    ensures n <= |a| && n <= |b| && a[..n] == b[..n]
  {
  }

  lemma PopBelow(env: Chain, n: nat)
    requires n < |env|
    ensures Pop(env)[..n] == env[..n]
  {
  }

  lemma BodyNested(c: Context, bs: seq<ElseBinding>, body: seq<Node>, a: Chain, b: Chain, n: nat)
    requires body != [] && n < |a| && n < |b| && Similar(a, b, n, 0)
    ensures SameBelow(LetFrom(c, LetElse(bs, body), 4 * |bs|, a), Eval(c, NestedMatch([], body), b), n)
  {
    hide Eval, EvalBody, EvalList, LetFrom, NestedMatch, Similar, Within, FormOf, BindingNodes, Sym, LetElse, Block;
    NestedEnd(body);
    var items, block := LetElse(bs, body), Block(body);
    FormSpelling();
    LetEnd(c, bs, body, a);
    EvalListNode(c, block, b);
    DoItems(c, block, b);
    SameBody(c, items, 2, block, 1, V.Unit, a);
    BodySimilar(c, block, a, b, n);
  }

  lemma BodySimilar(c: Context, nodes: seq<Node>, a: Chain, b: Chain, n: nat)
    requires n < |a| && n < |b| && Similar(a, b, n, 0)
    ensures SameBelow(EvalBody(c, nodes, 1, V.Unit, a), EvalBody(c, nodes, 1, V.Unit, b), n)
  {
    hide EvalBody, Similar, Within, AllWithin;
    UnlimitedAll(nodes);
    SimBody(Link(UNLIMITED, c, c, n, 0), nodes, 1, V.Unit, a, b);
    SimilarBelow(EvalBody(c, nodes, 1, V.Unit, a).env, EvalBody(c, nodes, 1, V.Unit, b).env, n);
  }

  lemma NestedEnd(body: seq<Node>)
    ensures NestedMatch([], body) == ListNode(Block(body))
  {
  }

  lemma LetEnd(c: Context, bs: seq<ElseBinding>, body: seq<Node>, a: Chain)
    requires a != [] && body != []
    ensures LetFrom(c, LetElse(bs, body), 4 * |bs|, a) == EvalBody(c, LetElse(bs, body), 2, V.Unit, a)
  {
    hide Eval, EvalBody, BindingNodes, Sym;
  }

  lemma DoItems(c: Context, items: seq<Node>, env: Chain)
    requires env != [] && |items| >= 2 && FormOf(items[0]) == DoForm
    ensures EvalList(c, items, env) == EvalBody(c, items, 1, V.Unit, env)
  {
    hide EvalBody, FormOf;
  }

  /** A body is evaluated the same wherever it stands. */
  lemma {:induction false} SameBody(c: Context, xs: seq<Node>, i: nat, ys: seq<Node>, j: nat, last: V.Value, env: Chain)
    requires env != [] && i <= |xs| && j <= |ys| && xs[i..] == ys[j..]
    ensures EvalBody(c, xs, i, last, env) == EvalBody(c, ys, j, last, env)
    decreases |xs| - i
  {
    hide Eval;
    if i < |xs| {
      assert xs[i] == xs[i..][0] == ys[j..][0] == ys[j];
      assert xs[i + 1..] == xs[i..][1..] == ys[j..][1..] == ys[j + 1..];
      var r := Eval(c, xs[i], env);
      if r.out.Done? { SameBody(c, xs, i + 1, ys, j + 1, r.out.value, r.env); }
    }
  }

  // ---------------------------------------------------------------------------------------------
  // for
  // ---------------------------------------------------------------------------------------------

  /** The rows of one element of a generator, evaluated on its own. */
  function RowsOf(c: Context, items: seq<Node>, i: nat, name: string, v: V.Value, env: Chain): (rows: Rows)
    requires env != [] && |items| >= 3 && items[1].kind.Vector?
    ensures rows.Yield? && rows.stop ==> rows.values == []
  {
    ForRows(c, items, i + 2, Push(env, map[name := v])).rows
  }

  predicate GoesOn(rows: Rows) {
    rows.Yield? && !rows.stop
  }

  function Gathered(
    c: Context, items: seq<Node>, i: nat, name: string, vs: seq<V.Value>, n: nat, env: Chain): seq<V.Value>
    requires env != [] && |items| >= 3 && items[1].kind.Vector? && n <= |vs|
  {
    if n == 0 then []
    else
      var last := RowsOf(c, items, i, name, vs[n - 1], env);
      Gathered(c, items, i, name, vs, n - 1, env) + if GoesOn(last) then last.values else []
  }

  /**
   When nothing in the form defines or assigns, a generator is a list comprehension: every element is evaluated in the
   same environment, the rows up to the first failed `:while` are joined, and the environment is left as it was.
  */
  lemma {:induction false} GeneratorIsComprehension(
    c: Context, items: seq<Node>, i: nat, name: string, vs: seq<V.Value>, n: nat, k: nat, env: Chain)
    requires env != [] && |items| >= 3 && items[1].kind.Vector? && i < |items[1].kind.items| && k <= n <= |vs|
    requires AllWithin(QUIET, items)
    requires forall m | 0 <= m < n :: GoesOn(RowsOf(c, items, i, name, vs[m], env))
    requires n < |vs| ==> !GoesOn(RowsOf(c, items, i, name, vs[n], env))
    ensures var f := ForEach(c, items, i, name, vs, k, env);
            f.env == env &&
            if n < |vs| && RowsOf(c, items, i, name, vs[n], env).Abort? then
              f.rows == RowsOf(c, items, i, name, vs[n], env)
            else
              f.rows.Yield? && !f.rows.stop &&
              Gathered(c, items, i, name, vs, k, env) + f.rows.values == Gathered(c, items, i, name, vs, n, env)
    decreases n - k
  {
    hide ForEach, RowsOf, AllWithin;
    if k < |vs| { OneElement(c, items, i, name, vs, k, env); } else { NoElement(c, items, i, name, vs, env); }
    if k < n {
      assert GoesOn(RowsOf(c, items, i, name, vs[k], env));
      GeneratorIsComprehension(c, items, i, name, vs, n, k + 1, env);
    }
  }

  lemma NoElement(c: Context, items: seq<Node>, i: nat, name: string, vs: seq<V.Value>, env: Chain)
    requires env != [] && |items| >= 3 && items[1].kind.Vector? && i < |items[1].kind.items|
    ensures ForEach(c, items, i, name, vs, |vs|, env) == ForStep(Yield([], false), env)
  {
    hide ForRows;
  }

  lemma OneElement(c: Context, items: seq<Node>, i: nat, name: string, vs: seq<V.Value>, k: nat, env: Chain)
    requires env != [] && |items| >= 3 && items[1].kind.Vector? && i < |items[1].kind.items| && k < |vs|
    requires AllWithin(QUIET, items)
    ensures ForEach(c, items, i, name, vs, k, env) ==
            match RowsOf(c, items, i, name, vs[k], env)
            case Abort(e) => ForStep(Abort(e), env)
            case Yield(values, stop) =>
              if stop then ForStep(Yield(values, false), env)
              else
                var rest := ForEach(c, items, i, name, vs, k + 1, env);
                ForStep(if rest.rows.Yield? then Yield(values + rest.rows.values, false) else rest.rows, rest.env)
  {
    hide ForRows, Push, Pop, AllWithin;
  }

  // ---------------------------------------------------------------------------------------------
  // Calls
  // ---------------------------------------------------------------------------------------------

  /**
   The body of a called closure cannot see a loop frame: there is none, nothing in the body looks, or the closure and
   its arguments are tame.
  */
  ghost predicate FrameBlind(c: Context, callee: V.Value, args: seq<V.Value>) {
    c.frame.Some? && callee.Function? ==>
      AllWithin(UNLIMITED.(noJumps := true), callee.func.body) ||
      (TameWorld(c.world) && TameClosure(c.world.read, callee.func) && AllTame(c.world.read, args))
  }

  /**
   Applying a form to arguments that evaluate to values is `apply_value` on those values, unless the call depth or the
   fuel runs out. Inside a loop this needs a function that cannot `recur` into the caller's loop.
  */
  lemma ApplyIsApplyValue(c: Context, items: seq<Node>, env: Chain)
    requires env != [] && items != [] && Eval(c, items[0], env).out.Done?
    requires var h := Eval(c, items[0], env);
             var g := EvalArgs(c, items, 1, [], h.env);
             g.All? && FrameBlind(c, h.out.value, g.items)
    requires Ran(EvalApply(c, items, env).out)
    ensures var h := Eval(c, items[0], env);
            EvalApply(c, items, env).out == ApplyValue(c, h.out.value, EvalArgs(c, items, 1, [], h.env).items)
  {
    hide Eval, Enter, EvalArgs, ApplyClosure, Natively, KeywordLookup, FrameBlind;
    var h := Eval(c, items[0], env);
    match h.out.value
    case Function(f) => if c.depth < MAX_CALL_DEPTH { ClosureOnValues(c, f, items, h.env); }
    case Keyword(_, _) => if |items| == 2 { OneArg(c, items, h.env); }
    case _ =>
  }

  lemma ClosureOnValues(c: Context, f: V.Closure, items: seq<Node>, env: Chain)
    requires env != [] && items != [] && c.depth < MAX_CALL_DEPTH
    requires var g := EvalArgs(c, items, 1, [], env); g.All? && FrameBlind(c, V.Function(f), g.items)
    requires Ran(ApplyClosure(c.(depth := c.depth + 1), f, items, env).out)
    ensures ApplyClosure(c.(depth := c.depth + 1), f, items, env).out ==
            ApplyValue(c, V.Function(f), EvalArgs(c, items, 1, [], env).items)
  {
    hide Eval, Enter, EvalArgs, FrameBlind;
    DeeperArgs(c, items, env);
    var g := EvalArgs(c, items, 1, [], env);
    if c.fuel > 0 && Accepts(f, |g.items|) {
      var inner := c.(depth := c.depth + 1, fuel := c.fuel - 1);
      BlindEnter(c, inner, f, g.items);
    }
  }

  lemma BlindEnter(c: Context, inner: Context, f: V.Closure, args: seq<V.Value>)
    requires FrameBlind(c, V.Function(f), args) && Accepts(f, |args|) && inner.world == c.world &&
             inner.frame == c.frame
    ensures Enter(inner, f, args) == Enter(NoLoop(inner), f, args)
  {
    hide Enter, Within, AllWithin, TameWorld, TameClosure, AllTame;
    if c.frame.None? || AllWithin(UNLIMITED.(noJumps := true), f.body) {
      UnlimitedAll(f.body);
      SimEnter(Link(UNLIMITED.(noJumps := c.frame.Some?), inner, NoLoop(inner), 0, 0), f, args);
    } else {
      TameEnter(inner, f, args);
    }
  }

  /** In a tame environment, tidy applications are `apply_value` on the values of their parts, in or out of a loop. */
  lemma TidyApplyIsApplyValue(c: Context, items: seq<Node>, env: Chain)
    requires Ready(c, env) && items != [] && AllTidy(c.world.read, PLAIN, items)
    requires var h := Eval(c, items[0], env); h.out.Done? && EvalArgs(c, items, 1, [], h.env).All?
    requires Ran(EvalApply(c, items, env).out)
    ensures var h := Eval(c, items[0], env);
            EvalApply(c, items, env).out == ApplyValue(c, h.out.value, EvalArgs(c, items, 1, [], h.env).items)
  {
    hide Eval, EvalArgs, EvalApply, ApplyValue, TameWorld, TameChain, Tidy, TameClosure, AllTame;
    var h := Eval(c, items[0], env);
    TameEval(c, PLAIN, items[0], env);
    NothingTame(c.world.read);
    TameArgs(c, PLAIN, items, 1, [], h.env);
    ApplyIsApplyValue(c, items, env);
  }

  /**
   A function called inside a loop can continue that loop: its `recur` comes back to the caller with the values for the
   caller's names. Outside a loop, and through `apply_value`, the same `recur` is an error.
  */
  lemma RecurCrossesCalls(c: Context, f: V.Closure, args: seq<V.Value>, recur: seq<Node>)
    requires Accepts(f, |args|) && f.pre == [] && f.body == [ListNode(recur)]
    requires recur != [] && FormOf(recur[0]) == RecurForm && c.frame.Some? && |recur| - 1 == |c.frame.value|
    requires EvalArgs(c, recur, 1, [], [CallFrame(f, args)]).All?
    ensures Enter(c, f, args) == Again(EvalArgs(c, recur, 1, [], [CallFrame(f, args)]).items)
    ensures Enter(NoLoop(c), f, args) == Fail(InvalidRecur)
  {
    hide FormOf, CallFrame, Accepts, EvalArgs, ListNode;
    var env := [CallFrame(f, args)];
    RecurItem(c, recur, env);
    RecurItem(NoLoop(c), recur, env);
    JustOne(c, f.body[0], env);
    JustOne(NoLoop(c), f.body[0], env);
    NoConditions(NoLoop(c), Precondition, env);
    hide EvalBody, Conditions, Eval;
  }

  lemma RecurItem(c: Context, recur: seq<Node>, env: Chain)
    requires env != [] && recur != [] && FormOf(recur[0]) == RecurForm
    ensures Eval(c, ListNode(recur), env) == EvalRecur(c, recur, env)
  {
    hide FormOf, EvalRecur;
  }

  lemma JustOne(c: Context, node: Node, env: Chain)
    requires env != []
    ensures var r := Eval(c, node, env); !r.out.Done? ==> EvalBody(c, [node], 0, V.Unit, env) == r
  {
    hide Eval;
  }

  lemma NoConditions(c: Context, reason: Reason, env: Chain)
    requires env != []
    ensures Conditions(c, [], 0, reason, env) == Step(Done(V.Unit), env)
  {
    hide Eval;
  }

  lemma OneArg(c: Context, items: seq<Node>, env: Chain)
    requires env != [] && |items| == 2
    ensures var a, g := Eval(c, items[1], env), EvalArgs(c, items, 1, [], env);
            g == if a.out.Done? then All([a.out.value], a.env) else Stopped(a.out, a.env)
  {
    hide Eval;
    var a := Eval(c, items[1], env);
    if a.out.Done? { assert [] + [a.out.value] == [a.out.value]; }
  }

  /** Arguments evaluated one call deeper are the same, unless the depth or the fuel runs out. */
  lemma DeeperArgs(c: Context, items: seq<Node>, env: Chain)
    requires env != [] && items != []
    ensures var g := EvalArgs(c.(depth := c.depth + 1), items, 1, [], env);
            (g.Stopped? && !Ran(g.out)) || g == EvalArgs(c, items, 1, [], env)
  {
    hide EvalArgs, Within, AllWithin;
    var deep := c.(depth := c.depth + 1);
    var g, h := EvalArgs(deep, items, 1, [], env), EvalArgs(c, items, 1, [], env);
    if g.All? || Ran(g.out) {
      UnlimitedAll(items);
      SimilarEqual(env, env);
      SimArgs(Link(UNLIMITED, deep, c, 0, |env|), items, 1, [], env, env);
      SimilarEqual(g.env, h.env);
    }
  }

  /** `(fn [] (recur n))`. */
  function Jumper(n: int): V.Closure {
    V.Closure(None, [], None, map[], [ListNode([Sym("recur"), Num(n)])], [], [])
  }

  lemma JumperEnters(c: Context, n: V.i64)
    requires c.frame.Some? && |c.frame.value| == 1
    ensures Accepts(Jumper(n), 0)
    ensures Enter(c, Jumper(n), []) == Again([V.Int(n)]) && Enter(NoLoop(c), Jumper(n), []) == Fail(InvalidRecur)
  {
    hide Eval, EvalArgs, Enter, CallFrame;
    var recur, env := [Sym("recur"), Num(n)], [CallFrame(Jumper(n), [])];
    NumRuns(c, n, env);
    OneArg(c, recur, env);
    assert FormOf(recur[0]) == RecurForm;
    RecurCrossesCalls(c, Jumper(n), [], recur);
  }

  /** `(f)`, where the function `f` is called inside a loop of one name. */
  lemma JumperCalled(c: Context, f: string, n: V.i64, env: Chain)
    requires env != [] && FormOf(Sym(f)) == ApplyForm && Lookup(env, f) == Some(V.Function(Jumper(n)))
    requires c.frame.Some? && |c.frame.value| == 1 && c.fuel > 0 && c.depth < MAX_CALL_DEPTH
    ensures Eval(c, ListNode([Sym(f)]), env) == Step(Again([V.Int(n)]), env)
    ensures Eval(NoLoop(c), ListNode([Sym(f)]), env) == Step(Fail(InvalidRecur), env)
  {
    hide Eval, Enter, Lookup, FormOf, Jumper, Accepts;
    JumperApplied(c, f, n, env);
    JumperApplied(NoLoop(c), f, n, env);
    JumperEnters(c.(depth := c.depth + 1, fuel := c.fuel - 1), n);
  }

  lemma JumperApplied(c: Context, f: string, n: V.i64, env: Chain)
    requires env != [] && FormOf(Sym(f)) == ApplyForm && Lookup(env, f) == Some(V.Function(Jumper(n)))
    requires c.fuel > 0 && c.depth < MAX_CALL_DEPTH
    ensures Accepts(Jumper(n), 0)
    ensures Eval(c, ListNode([Sym(f)]), env) ==
            Step(Enter(c.(depth := c.depth + 1, fuel := c.fuel - 1), Jumper(n), []), env)
  {
    hide Eval, Enter, Lookup, FormOf;
    var items, deeper := [Sym(f)], c.(depth := c.depth + 1);
    EvalListNode(c, items, env);
    SymbolRuns(c, f, env);
    assert EvalArgs(deeper, items, 1, [], env) == All([], env);
    assert EvalList(c, items, env) == EvalApply(c, items, env) == ApplyClosure(deeper, Jumper(n), items, env);
  }

  lemma SymbolRuns(c: Context, name: string, env: Chain)
    requires env != [] && Lookup(env, name).Some?
    ensures Eval(c, Sym(name), env) == Step(Done(Lookup(env, name).value), env)
  {
    hide Lookup;
  }

  /**
   `(let [_ (f) | 2] 3)` inside a loop, where `f` is `(fn [] (recur 1))`: the `recur` is an error in `let` and
   continues the loop in the nested `match`.
  */
  lemma LetElseStopsRecur(c: Context, f: string, env: Chain)
    requires env != [] && FormOf(Sym(f)) == ApplyForm && Lookup(env, f) == Some(V.Function(Jumper(1)))
    requires c.frame.Some? && |c.frame.value| == 1 && c.fuel > 0 && c.depth < MAX_CALL_DEPTH
    ensures var bs, body := [ElseBinding(Sym("_"), ListNode([Sym(f)]), Num(2))], [Num(3)];
            EvalList(c, LetElse(bs, body), env) == Step(Fail(InvalidRecur), env) &&
            Eval(c, NestedMatch(bs, body), env) == Step(Again([V.Int(1)]), env)
  {
    hide Eval, EvalList, LetFrom, LetElse, NestedMatch, PatternOf, IsMut, FormOf, Push, Pop, Lookup, Jumper;
    var bs, body := [ElseBinding(Sym("_"), ListNode([Sym(f)]), Num(2))], [Num(3)];
    var child := Push(env, map[]);
    FormSpelling();
    LetScope(c, bs, body, env);
    SeenThrough(env, f);
    LetBindingStep(c, bs, body, 0, child);
    JumperCalled(c, f, 1, child);
    MatchStep(c, bs, body, 0, env);
    JumperCalled(c, f, 1, env);
    assert bs[0..] == bs;
  }

  lemma SeenThrough(env: Chain, name: string)
    ensures Lookup(Push(env, map[]), name) == Lookup(env, name)
  {
    assert Push(env, map[])[..|env|] == env;
  }

  // ---------------------------------------------------------------------------------------------
  // String templates
  // ---------------------------------------------------------------------------------------------

  /** The characters and expressions of a string, evaluated in order after `out`. */
  function RunParts(c: Context, parts: seq<I.Part>, out: string, env: Chain): Step
    requires env != []
    decreases |parts|
  {
    if parts == [] then Step(Done(V.Str(out)), env)
    else
      match parts[0]
      case Chr(ch) => RunParts(c, parts[1..], out + [ch], env)
      case Val(form) =>
        if c.fuel == 0 then Step(Fail(OutOfFuel), env)
        else
          var r := Eval(NoLoop(c).(fuel := c.fuel - 1), form, env);
          if r.out.Done? then RunParts(c, parts[1..], out + Spliced(c.world, r.out.value), r.env)
          else Step(NoRecur(r.out), r.env)
  }

  /** How a value stands in a text: strings and characters as they are, other values as they are shown. */
  function TextOf(w: World, v: V.Value): string {
    if v.Str? then v.s else if v.Char? then [v.c] else w.show(v)
  }

  /** A template's meaning: its literals and the texts of its values, joined in order. */
  function Rendered(c: Context, segments: seq<I.Segment>, out: string, env: Chain): Step
    requires env != []
    decreases |segments|
  {
    if segments == [] then Step(Done(V.Str(out)), env)
    else
      match segments[0]
      case Lit(text) => Rendered(c, segments[1..], out + text, env)
      case Exp(form) =>
        if c.fuel == 0 then Step(Fail(OutOfFuel), env)
        else
          var r := Eval(NoLoop(c).(fuel := c.fuel - 1), form, env);
          if r.out.Done? then Rendered(c, segments[1..], out + TextOf(c.world, r.out.value), r.env)
          else Step(NoRecur(r.out), r.env)
  }

  lemma {:induction false} RunChars(c: Context, text: string, rest: seq<I.Part>, out: string, env: Chain)
    requires env != []
    ensures RunParts(c, I.Chars(text) + rest, out, env) == RunParts(c, rest, out + text, env)
    decreases |text|
  {
    hide Eval;
    if text == [] {
      assert I.Chars(text) + rest == rest && out + text == out;
    } else {
      var parts := I.Chars(text) + rest;
      assert parts[0] == I.Chr(text[0]) && parts[1..] == I.Chars(text[1..]) + rest;
      RunChars(c, text[1..], rest, out + [text[0]], env);
      assert out + [text[0]] + text[1..] == out + text;
    }
  }

  lemma {:induction false} PiecesRunParts(c: Context, s: string, i: nat, out: string, env: Chain)
    requires env != [] && i <= |s|
    ensures EvalPieces(c, s, i, out, env) == RunParts(c, I.Parts(c.world.read, s, i), out, env)
    decreases |s| - i
  {
    hide Eval, I.NextPiece, I.Chars;
    if i < |s| {
      var next := I.NextPiece(c.world.read, s, i);
      match next
      case Emit(text, j) =>
        PiecesRunParts(c, s, j, out + text, env);
        RunChars(c, text, I.Parts(c.world.read, s, j), out, env);
      case Splice(form, j) =>
        var parts := [I.Val(form)] + I.Parts(c.world.read, s, j);
        assert parts[1..] == I.Parts(c.world.read, s, j);
        if c.fuel > 0 {
          var r := Eval(NoLoop(c).(fuel := c.fuel - 1), form, env);
          if r.out.Done? { PiecesRunParts(c, s, j, out + Spliced(c.world, r.out.value), r.env); }
        }
    }
  }

  lemma {:induction false} IntendedRuns(c: Context, segments: seq<I.Segment>, out: string, env: Chain)
    requires env != []
    ensures RunParts(c, I.Intended(segments), out, env) == Rendered(c, segments, out, env)
    decreases |segments|
  {
    hide Eval, I.Chars;
    if segments != [] {
      var rest := I.Intended(segments[1..]);
      match segments[0]
      case Lit(text) =>
        RunChars(c, text, rest, out, env);
        IntendedRuns(c, segments[1..], out + text, env);
      case Exp(form) =>
        assert ([I.Val(form)] + rest)[1..] == rest;
        if c.fuel > 0 {
          var r := Eval(NoLoop(c).(fuel := c.fuel - 1), form, env);
          if r.out.Done? { IntendedRuns(c, segments[1..], out + Spliced(c.world, r.out.value), r.env); }
        }
    }
  }

  /**
   A string literal written as a template, with braces doubled in its literals and printed expressions between braces,
   evaluates to its literals and the values of its expressions, joined in order; with or without the no-brace fast path.
  */
  lemma TemplateEvaluates(c: Context, segments: seq<I.Segment>, env: Chain)
    requires env != [] && I.WellFormed(c.world.read, segments)
    ensures EvalAtom(c, Str(I.Template(segments)), env) == Rendered(c, segments, "", env)
  {
    hide EvalPieces, I.Parts, I.WellFormed, I.Template, I.Intended, RunParts, Rendered;
    var s, read := I.Template(segments), c.world.read;
    I.InterpolationInvertsTemplate(read, segments);
    IntendedRuns(c, segments, "", env);
    if HasBrace(s) {
      PiecesRunParts(c, s, 0, "", env);
    } else {
      I.NoBraces(read, s, 0);
      JustChars(c, s, env);
    }
  }

  lemma JustChars(c: Context, s: string, env: Chain)
    requires env != []
    ensures RunParts(c, I.Chars(s[0..]), "", env) == Step(Done(V.Str(s)), env)
  {
    RunChars(c, s, [], "", env);
    assert s[0..] == s && I.Chars(s) + [] == I.Chars(s) && "" + s == s;
  }
}
