/**
 Tame evaluation (crates/nexl-eval/src/eval.rs): the results and environments of tidy code are tame, and code that is
 tidy outside loops never sees the loop frame it is given. `TameEval` is the induction over the whole evaluator.
*/
module TameRuns {
  import opened Basics
  import opened Ast
  import opened Patterns
  import opened Scopes
  import opened SpecialForms
  import opened Semantics
  import opened Tame
  import I = Interpolation
  import V = Values

  ghost predicate Ready(c: Context, env: Chain) {
    env != [] && TameWorld(c.world) && TameChain(c.world.read, env)
  }

  /** Tame, and the same outside any loop when `blind`. */
  ghost predicate Good(c: Context, blind: bool, r: Step, outside: Step) {
    TameOut(c.world.read, r.out) && TameChain(c.world.read, r.env) && (blind ==> r == outside)
  }

  ghost predicate GoodGather(c: Context, blind: bool, g: Gather<V.Value>, outside: Gather<V.Value>) {
    TameChain(c.world.read, g.env) && (blind ==> g == outside) &&
    match g
    case All(vs, _) => AllTame(c.world.read, vs)
    case Stopped(out, _) => TameOut(c.world.read, out)
  }

  lemma {:induction false} TameEval(c: Context, m: Mode, node: Node, env: Chain)
    requires Ready(c, env) && m.texts && Tidy(c.world.read, m, node)
    ensures Good(c, !m.inLoop, Eval(c, node, env), Eval(NoLoop(c), node, env))
    decreases c.fuel, node
  {
    hide EvalAtom, EvalList, EvalArgs, EvalPairs, TameWorld, TameChain, TidyList, AllTidy, EntryTidy, TidyText, AllTame;
    match node.kind
    case Atomic(atom) => TameAtom(c, m, node, env);
    case List(items) => TameList(c, m, items, env);
    case Vector(items) =>
      NothingTame(c.world.read);
      TameArgs(c, m, items, 0, [], env);
    case Set(items) =>
      NothingTame(c.world.read);
      TameArgs(c, m, items, 0, [], env);
    case Map(pairs) => TamePairs(c, m, pairs, 0, [], env);
    case Prefixed(_, _) =>
  }

  lemma {:induction false} TameAtom(c: Context, m: Mode, node: Node, env: Chain)
    requires node.kind.Atomic? && Ready(c, env) && m.texts && Tidy(c.world.read, m, node)
    ensures Good(c, true, EvalAtom(c, node.kind.atom, env), EvalAtom(NoLoop(c), node.kind.atom, env))
    decreases c.fuel, node.kind.atom
  {
    hide EvalPieces, TameChain, Lookup, Tame.Tame, TidyText, TidyList;
    match node.kind.atom
    case Str(s) => if HasBrace(s) { TamePieces(c, s, 0, "", env); } else { StrTame(c.world.read, s); }
    case Symbol(None, name) => if Lookup(env, name).Some? { LookupTame(c.world.read, env, name); }
    case Symbol(Some(alias), name) =>
      if alias in c.world.modules && name in c.world.modules[alias] {
        assert TameFrame(c.world.read, c.world.modules[alias]);
      }
    case a => ConstantTame(c.world.read, a);
  }

  lemma StrTame(read: I.Reader, s: string)
    ensures Tame.Tame(read, V.Str(s)) && Tame.Tame(read, V.Unit)
    ensures forall b: bool :: Tame.Tame(read, V.Bool(b))
  {
  }

  lemma {:induction false} TamePieces(c: Context, s: string, i: nat, out: string, env: Chain)
    requires i <= |s| && Ready(c, env) && TidyText(c.world.read, s, i)
    ensures Good(c, true, EvalPieces(c, s, i, out, env), EvalPieces(NoLoop(c), s, i, out, env))
    decreases c.fuel, s, |s| - i
  {
    hide Eval, TameWorld, TameChain, Tame.Tame, Tidy, I.NextPiece;
    if i == |s| {
      StrTame(c.world.read, out);
    } else {
      match I.NextPiece(c.world.read, s, i)
      case Emit(text, next) => TamePieces(c, s, next, out + text, env);
      case Splice(form, next) =>
        if c.fuel > 0 {
          var inner := NoLoop(c).(fuel := c.fuel - 1);
          TidyMore(c.world.read, PLAIN, form);
          TameEval(inner, PLAIN, form, env);
          var r := Eval(inner, form, env);
          if r.out.Done? { TamePieces(c, s, next, out + Spliced(c.world, r.out.value), r.env); }
        }
    }
  }

  lemma {:induction false} TameArgs(c: Context, m: Mode, nodes: seq<Node>, i: nat, acc: seq<V.Value>, env: Chain)
    requires i <= |nodes| && Ready(c, env) && m.texts && AllTidy(c.world.read, m, nodes) && AllTame(c.world.read, acc)
    ensures GoodGather(c, !m.inLoop, EvalArgs(c, nodes, i, acc, env), EvalArgs(NoLoop(c), nodes, i, acc, env))
    decreases c.fuel, nodes, 0, |nodes| - i
  {
    hide Eval, TameWorld, TameChain, Tame.Tame, Tidy;
    if i < |nodes| {
      TameEval(c, m, nodes[i], env);
      var r := Eval(c, nodes[i], env);
      if r.out.Done? { TameArgs(c, m, nodes, i + 1, acc + [r.out.value], r.env); }
    }
  }

  lemma {:induction false} TamePairs(c: Context, m: Mode, pairs: seq<Entry>, i: nat, acc: seq<V.Binding>, env: Chain)
    requires i <= |pairs| && Ready(c, env) && m.texts &&
             forall j | 0 <= j < |pairs| :: EntryTidy(c.world.read, m, pairs[j])
    requires Tame.Tame(c.world.read, V.Map(acc))
    ensures Good(c, !m.inLoop, EvalPairs(c, pairs, i, acc, env), EvalPairs(NoLoop(c), pairs, i, acc, env))
    decreases c.fuel, pairs, 0, |pairs| - i
  {
    hide Eval, EvalEntry, TameWorld, TameChain, Tame.Tame, Tidy, EntryTidy, V.MapPut;
    if i < |pairs| {
      TameEntry(c, m, pairs[i], env);
      var g := EvalEntry(c, pairs[i], env);
      if g.All? {
        MapPutTame(c.world.read, acc, g.items[0], g.items[1]);
        TamePairs(c, m, pairs, i + 1, V.MapPut(acc, g.items[0], g.items[1]), g.env);
      }
    }
  }

  lemma {:induction false} TameEntry(c: Context, m: Mode, e: Entry, env: Chain)
    requires Ready(c, env) && m.texts && EntryTidy(c.world.read, m, e)
    ensures GoodGather(c, !m.inLoop, EvalEntry(c, e, env), EvalEntry(NoLoop(c), e, env))
    decreases c.fuel, e
  {
    hide Eval, TameWorld, TameChain, Tame.Tame, Tidy;
    TameEval(c, m, e.key, env);
    var r := Eval(c, e.key, env);
    if r.out.Done? { TameEval(c, m, e.val, r.env); }
  }

  lemma {:induction false} TameBody(c: Context, m: Mode, nodes: seq<Node>, i: nat, last: V.Value, env: Chain)
    requires Ready(c, env) && m.texts && AllTidy(c.world.read, m, nodes) && Tame.Tame(c.world.read, last)
    ensures Good(c, !m.inLoop, EvalBody(c, nodes, i, last, env), EvalBody(NoLoop(c), nodes, i, last, env))
    decreases c.fuel, nodes, 0, |nodes| - i
  {
    hide Eval, TameWorld, TameChain, Tame.Tame, Tidy;
    if i < |nodes| {
      TameEval(c, m, nodes[i], env);
      var r := Eval(c, nodes[i], env);
      if r.out.Done? { TameBody(c, m, nodes, i + 1, r.out.value, r.env); }
    }
  }

  lemma {:induction false} TameList(c: Context, m: Mode, items: seq<Node>, env: Chain)
    requires Ready(c, env) && m.texts && TidyList(c.world.read, m, items)
    ensures Good(c, !m.inLoop, EvalList(c, items, env), EvalList(NoLoop(c), items, env))
    decreases c.fuel, items
  {
    hide FormOf, TameWorld, TameChain, Tame.Tame, Tidy, AllTidy, EvalBody, EvalDef, EvalLet, EvalIf, EvalFn, EvalDefn,
      EvalLoop, EvalRecur, EvalFor, EvalSet, EvalPanic, EvalQuestion, EvalMatch, EvalJunction, EvalCond, EvalApply;
    StrTame(c.world.read, "");
    if items != [] {
      match FormOf(items[0])
      case DefForm => TameDef(c, m, items, env);
      case LetForm => TameLet(c, m, items, env);
      case DoForm => if |items| >= 2 { TameBody(c, m, items, 1, V.Unit, env); }
      case IfForm => TameIf(c, m, items, env);
      case FnForm => TameFn(c, items, env);
      case DefnForm => TameDefn(c, items, env);
      case LoopForm => TameLoop(c, m.(inLoop := true), items, env);
      case RecurForm => TameRecur(c, m, items, env);
      case ForForm => TameFor(c, m, items, env);
      case SetForm => TameSet(c, m, items, env);
      case PanicForm => TamePanic(c, m, items, env);
      case QuestionForm => TameQuestion(c, m, items, env);
      case MatchForm => TameMatch(c, m, items, env);
      case AndForm => if |items| >= 2 { TameJunction(c, m, items, 1, false, env); }
      case OrForm => if |items| >= 2 { TameJunction(c, m, items, 1, true, env); }
      case CondForm => if |items| != 1 && (|items| - 1) % 2 == 0 { TameCond(c, m, items, 1, env); }
      case OtherForm =>
      case ApplyForm => TameApply(c, m, items, env);
    }
  }

  lemma {:induction false} TameDef(c: Context, m: Mode, items: seq<Node>, env: Chain)
    requires Ready(c, env) && m.texts && AllTidy(c.world.read, m, items)
    ensures Good(c, true, EvalDef(c, items, env), EvalDef(NoLoop(c), items, env))
    decreases c.fuel, items, 2
  {
    hide Eval, TameWorld, TameChain, Tame.Tame, Tidy, Define;
    StrTame(c.world.read, "");
    if |items| == 3 && SymbolName(items[1]).Some? {
      TameEval(NoLoop(c), m, items[2], env);
      var r := Eval(NoLoop(c), items[2], env);
      if r.out.Done? { DefineTame(c.world.read, r.env, SymbolName(items[1]).value, r.out.value); }
    }
  }

  lemma {:induction false} TameSet(c: Context, m: Mode, items: seq<Node>, env: Chain)
    requires Ready(c, env) && m.texts && AllTidy(c.world.read, m, items)
    ensures Good(c, true, EvalSet(c, items, env), EvalSet(NoLoop(c), items, env))
    decreases c.fuel, items, 2
  {
    hide Eval, TameWorld, TameChain, Tame.Tame, Tidy, Assign;
    StrTame(c.world.read, "");
    if |items| == 3 && SymbolName(items[1]).Some? {
      var name := SymbolName(items[1]).value;
      TameEval(NoLoop(c), m, items[2], env);
      var r := Eval(NoLoop(c), items[2], env);
      if r.out.Done? && Assign(r.env, name, r.out.value).Some? { AssignTame(c.world.read, r.env, name, r.out.value); }
    }
  }

  lemma TameFn(c: Context, items: seq<Node>, env: Chain)
    requires Ready(c, env) && exists m: Mode :: m.texts && !m.inLoop && AllTidy(c.world.read, m, items)
    ensures Good(c, true, EvalFn(items, env), EvalFn(items, env))
  {
    hide Tidy, AllTidy, Lambda, Flatten;
    FlattenTame(c.world.read, env);
    assert AllTidy(c.world.read, PLAIN, items);
    if Lambda(items, Flatten(env)).Ok? {
      LambdaTame(c.world.read, items, Flatten(env));
    } else {
      LambdaErrors(items, Flatten(env));
    }
  }

  lemma LambdaErrors(items: seq<Node>, captures: Frame)
    ensures Lambda(items, captures).Err? ==> !Lambda(items, captures).error.EarlyReturn?
  {
    if |items| >= 3 && items[1].kind.Vector? { ParamErrors(items[1].kind.items, 0, []); }
  }

  lemma {:induction false} ParamErrors(nodes: seq<Node>, i: nat, names: seq<string>)
    ensures var r := ParamsFrom(nodes, i, names); r.Err? ==> !r.error.EarlyReturn?
    decreases |nodes| - i
  {
    hide SymbolName, IsRestMarker;
    if i < |nodes| && SymbolName(nodes[i]).Some? { ParamErrors(nodes, i + 1, names + [SymbolName(nodes[i]).value]); }
  }

  lemma TameDefn(c: Context, items: seq<Node>, env: Chain)
    requires Ready(c, env) && exists m: Mode :: m.texts && !m.inLoop && AllTidy(c.world.read, m, items)
    ensures Good(c, true, EvalDefn(items, env), EvalDefn(items, env))
  {
    hide Tidy, AllTidy, Lambda, Flatten, Define, ContractsFrom, TameClosure;
    FlattenTame(c.world.read, env);
    assert AllTidy(c.world.read, PLAIN, items);
    StrTame(c.world.read, "");
    match DefnOf(items, Flatten(env))
    case Ok(d) =>
      DefnTame(c.world.read, items, Flatten(env));
      assert Tame.Tame(c.world.read, V.Function(d.closure));
      DefineTame(c.world.read, env, d.name, V.Function(d.closure));
    case Err(_) => DefnErrors(items, Flatten(env));
  }

  lemma DefnErrors(items: seq<Node>, captures: Frame)
    ensures DefnOf(items, captures).Err? ==> !DefnOf(items, captures).error.EarlyReturn?
  {
    hide Lambda, ContractsFrom;
    if |items| >= 4 {
      var bodyStart := if IsDocstring(items[2]) then 4 else 3;
      var found := ContractsFrom(items, Contracts([], [], bodyStart));
      if bodyStart <= |items| - 1 && found.start < |items| {
        LambdaErrors([items[0], items[bodyStart - 1]] + items[found.start..], captures);
      }
    }
  }

  lemma {:induction false} TameIf(c: Context, m: Mode, items: seq<Node>, env: Chain)
    requires Ready(c, env) && m.texts && AllTidy(c.world.read, m, items)
    ensures Good(c, !m.inLoop, EvalIf(c, items, env), EvalIf(NoLoop(c), items, env))
    decreases c.fuel, items, 2
  {
    hide Eval, TameWorld, TameChain, Tame.Tame, Tidy;
    if |items| == 4 {
      TameEval(c, m, items[1], env);
      var r := Eval(c, items[1], env);
      if r.out.Done? && r.out.value.Bool? { TameEval(c, m, items[if r.out.value.b then 2 else 3], r.env); }
    }
  }

  lemma {:induction false} TameJunction(c: Context, m: Mode, items: seq<Node>, i: nat, stop: bool, env: Chain)
    requires Ready(c, env) && m.texts && AllTidy(c.world.read, m, items)
    ensures Good(c, !m.inLoop, EvalJunction(c, items, i, stop, env), EvalJunction(NoLoop(c), items, i, stop, env))
    decreases c.fuel, items, 0, |items| - i
  {
    hide Eval, TameWorld, TameChain, Tame.Tame, Tidy;
    StrTame(c.world.read, "");
    if i < |items| {
      TameEval(c, m, items[i], env);
      var r := Eval(c, items[i], env);
      if r.out.Done? && r.out.value.Bool? && r.out.value.b != stop { TameJunction(c, m, items, i + 1, stop, r.env); }
    }
  }

  lemma {:induction false} TameCond(c: Context, m: Mode, items: seq<Node>, i: nat, env: Chain)
    requires Ready(c, env) && m.texts && AllTidy(c.world.read, m, items)
    ensures Good(c, !m.inLoop, EvalCond(c, items, i, env), EvalCond(NoLoop(c), items, i, env))
    decreases c.fuel, items, 0, |items| - i
  {
    hide Eval, TameWorld, TameChain, Tame.Tame, Tidy, IsElse;
    StrTame(c.world.read, "");
    if i + 1 < |items| {
      if IsElse(items[i]) {
        TameEval(c, m, items[i + 1], env);
      } else {
        TameEval(c, m, items[i], env);
        var r := Eval(c, items[i], env);
        if r.out.Done? && r.out.value.Bool? {
          if r.out.value.b {
            TameEval(c, m, items[i + 1], r.env);
          } else {
            TameCond(c, m, items, i + 2, r.env);
          }
        }
      }
    }
  }

  lemma {:induction false} TamePanic(c: Context, m: Mode, items: seq<Node>, env: Chain)
    requires Ready(c, env) && m.texts && AllTidy(c.world.read, m, items)
    ensures Good(c, !m.inLoop, EvalPanic(c, items, env), EvalPanic(NoLoop(c), items, env))
    decreases c.fuel, items, 2
  {
    hide Eval, TameWorld, TameChain, Tame.Tame, Tidy;
    if |items| == 2 { TameEval(c, m, items[1], env); }
  }

  lemma {:induction false} TameQuestion(c: Context, m: Mode, items: seq<Node>, env: Chain)
    requires Ready(c, env) && m.texts && AllTidy(c.world.read, m, items)
    ensures Good(c, !m.inLoop, EvalQuestion(c, items, env), EvalQuestion(NoLoop(c), items, env))
    decreases c.fuel, items, 2
  {
    hide Eval, TameWorld, TameChain, Tame.Tame, Tidy, Unwrap;
    if |items| == 2 {
      TameEval(c, m, items[1], env);
      var r := Eval(c, items[1], env);
      if r.out.Done? { UnwrapTame(c.world.read, r.out.value); }
    }
  }

  lemma {:induction false} TameLet(c: Context, m: Mode, items: seq<Node>, env: Chain)
    requires Ready(c, env) && m.texts && AllTidy(c.world.read, m, items)
    ensures Good(c, !m.inLoop, EvalLet(c, items, env), EvalLet(NoLoop(c), items, env))
    decreases c.fuel, items, 2
  {
    hide LetFrom, TameWorld, TameChain, TameFrame, Tidy, AllTidy, Push, Pop;
    if |items| >= 3 && items[1].kind.Vector? {
      EmptyTame(c.world.read);
      PushTame(c.world.read, env, map[]);
      TameLetFrom(c, m, items, 0, Push(env, map[]));
      PopTame(c.world.read, LetFrom(c, items, 0, Push(env, map[])).env);
    }
  }

  lemma {:induction false} TameLetFrom(c: Context, m: Mode, items: seq<Node>, i: nat, env: Chain)
    requires |items| >= 3 && items[1].kind.Vector?
    requires Ready(c, env) && m.texts && AllTidy(c.world.read, m, items)
    ensures Good(c, !m.inLoop, LetFrom(c, items, i, env), LetFrom(NoLoop(c), items, i, env))
    decreases c.fuel, items, 1, |items[1].kind.items| - i
  {
    hide Eval, EvalBody, TameWorld, TameChain, Tame.Tame, Tidy, BindingAt, PatternOf, Match, DefineAll;
    StrTame(c.world.read, "");
    VectorTidy(c.world.read, m, items, 1);
    var v := items[1].kind.items;
    if i >= |v| {
      TameBody(c, m, items, 2, V.Unit, env);
    } else if BindingAt(v, i).Some? {
      var part := BindingAt(v, i).value;
      TameEval(NoLoop(c), m, v[part.value], env);
      var r := Eval(NoLoop(c), v[part.value], env);
      if r.out.Done? && PatternOf(v[part.pattern]).Ok? {
        match Match(PatternOf(v[part.pattern]).value, r.out.value)
        case Some(bs) =>
          MatchTame(c.world.read, PatternOf(v[part.pattern]).value, r.out.value);
          DefineAllTame(c.world.read, r.env, bs);
          TameLetFrom(c, m, items, part.next, DefineAll(r.env, bs));
        case None => if part.fallback.Some? { TameEval(c, m, v[part.fallback.value], r.env); }
      }
    }
  }

  lemma {:induction false} TameMatch(c: Context, m: Mode, items: seq<Node>, env: Chain)
    requires Ready(c, env) && m.texts && AllTidy(c.world.read, m, items)
    ensures Good(c, !m.inLoop, EvalMatch(c, items, env), EvalMatch(NoLoop(c), items, env))
    decreases c.fuel, items, 2
  {
    hide Eval, EvalArms, TameWorld, TameChain, Tame.Tame, Tidy;
    if |items| >= 4 && (|items| - 2) % 2 == 0 {
      TameEval(c, m, items[1], env);
      var r := Eval(c, items[1], env);
      if r.out.Done? { TameArms(c, m, items, 2, r.out.value, r.env); }
    }
  }

  lemma {:induction false} TameArms(c: Context, m: Mode, items: seq<Node>, i: nat, v: V.Value, env: Chain)
    requires Ready(c, env) && m.texts && AllTidy(c.world.read, m, items) && Tame.Tame(c.world.read, v)
    ensures Good(c, !m.inLoop, EvalArms(c, items, i, v, env), EvalArms(NoLoop(c), items, i, v, env))
    decreases c.fuel, items, 1, |items| - i
  {
    hide Eval, TameWorld, TameChain, TameFrame, Tame.Tame, Tidy, PatternOf, Match, Push, Pop, BindAll;
    if i + 1 < |items| && PatternOf(items[i]).Ok? {
      match Match(PatternOf(items[i]).value, v)
      case None => TameArms(c, m, items, i + 2, v, env);
      case Some(bs) =>
        var frame := BindAll(map[], bs);
        MatchTame(c.world.read, PatternOf(items[i]).value, v);
        EmptyTame(c.world.read);
        BindAllTame(c.world.read, map[], bs);
        PushTame(c.world.read, env, frame);
        TameEval(c, m, items[i + 1], Push(env, frame));
        PopTame(c.world.read, Eval(c, items[i + 1], Push(env, frame)).env);
    }
  }

  /** A loop does not see the frame of an enclosing one. */
  lemma {:induction false} TameLoop(c: Context, m: Mode, items: seq<Node>, env: Chain)
    requires Ready(c, env) && m.texts && m.inLoop && AllTidy(c.world.read, m, items)
    ensures Good(c, true, EvalLoop(c, items, env), EvalLoop(NoLoop(c), items, env))
    decreases c.fuel, items, 2
  {
    hide LoopNames, Rounds, TameWorld, TameChain, TameFrame, Tidy, AllTidy, Push, Pop;
    if |items| >= 3 && items[1].kind.Vector? && |items[1].kind.items| % 2 == 0 {
      var v, child := items[1].kind.items, Push(env, map[]);
      EmptyTame(c.world.read);
      PushTame(c.world.read, env, map[]);
      VectorTidy(c.world.read, m, items, 1);
      TameLoopNames(NoLoop(c), m, v, 0, [], child);
      var g := LoopNames(NoLoop(c), v, 0, [], child);
      PopTame(c.world.read, g.env);
      if g.All? {
        var inner := c.(frame := Some(g.items));
        TameRounds(inner, m, items, g.env);
        PopTame(c.world.read, Rounds(inner, items, g.env).env);
      }
    }
  }

  lemma {:induction false} TameLoopNames(c: Context, m: Mode, v: seq<Node>, i: nat, names: seq<string>, env: Chain)
    requires Ready(c, env) && m.texts && AllTidy(c.world.read, m, v)
    ensures var g := LoopNames(c, v, i, names, env);
            TameChain(c.world.read, g.env) && (g.Stopped? ==> TameOut(c.world.read, NoRecur(g.out)))
    decreases c.fuel, v, 0, |v| - i
  {
    hide Eval, TameWorld, TameChain, Tame.Tame, Tidy, Define, SymbolName;
    if i + 1 < |v| && SymbolName(v[i]).Some? {
      var name := SymbolName(v[i]).value;
      TameEval(c, m, v[i + 1], env);
      var r := Eval(c, v[i + 1], env);
      if r.out.Done? {
        DefineTame(c.world.read, r.env, name, r.out.value);
        TameLoopNames(c, m, v, i + 2, names + [name], Define(r.env, name, r.out.value));
      }
    }
  }

  lemma {:induction false} TameRounds(c: Context, m: Mode, items: seq<Node>, env: Chain)
    requires c.frame.Some? && Ready(c, env) && m.texts && m.inLoop && AllTidy(c.world.read, m, items)
    ensures TameOut(c.world.read, Rounds(c, items, env).out) && TameChain(c.world.read, Rounds(c, items, env).env)
    decreases c.fuel, items, 1
  {
    hide EvalBody, TameWorld, TameChain, Tame.Tame, Tidy, AllTidy, DefineAll, Zip;
    StrTame(c.world.read, "");
    TameBody(c, m, items, 2, V.Unit, env);
    var r := EvalBody(c, items, 2, V.Unit, env);
    if r.out.Again? && c.fuel > 0 {
      var bs := Zip(c.frame.value, r.out.values);
      ZipTame(c.world.read, c.frame.value, r.out.values);
      DefineAllTame(c.world.read, r.env, bs);
      TameRounds(c.(fuel := c.fuel - 1), m, items, DefineAll(r.env, bs));
    }
  }

  lemma {:induction false} TameRecur(c: Context, m: Mode, items: seq<Node>, env: Chain)
    requires items != [] && Ready(c, env) && m.texts && m.inLoop && AllTidy(c.world.read, m, items)
    ensures Good(c, false, EvalRecur(c, items, env), EvalRecur(c, items, env))
    decreases c.fuel, items, 2
  {
    hide EvalArgs, TameWorld, TameChain, Tame.Tame, Tidy;
    if c.frame.Some? && |items| - 1 == |c.frame.value| { TameArgs(c, m, items, 1, [], env); }
  }

  // ---------------------------------------------------------------------------------------------
  // for
  // ---------------------------------------------------------------------------------------------

  ghost predicate GoodRows(c: Context, f: ForStep) {
    TameChain(c.world.read, f.env) &&
    match f.rows
    case Yield(values, _) => AllTame(c.world.read, values)
    case Abort(e) => TameError(c.world.read, e)
  }

  lemma {:induction false} TameFor(c: Context, m: Mode, items: seq<Node>, env: Chain)
    requires Ready(c, env) && m.texts && AllTidy(c.world.read, m, items)
    ensures Good(c, true, EvalFor(c, items, env), EvalFor(NoLoop(c), items, env))
    decreases c.fuel, items, 2
  {
    hide ForRows, TameWorld, TameChain, Tidy, AllTidy;
    if |items| >= 3 && items[1].kind.Vector? { TameForRows(NoLoop(c), m, items, 0, env); }
  }

  lemma {:induction false} TameForRows(c: Context, m: Mode, items: seq<Node>, i: nat, env: Chain)
    requires |items| >= 3 && items[1].kind.Vector? && Ready(c, env) && m.texts && AllTidy(c.world.read, m, items)
    ensures GoodRows(c, ForRows(c, items, i, env))
    decreases c.fuel, items, 1, |items[1].kind.items| - i
  {
    hide Eval, EvalBody, ForScope, ForEach, TameWorld, TameChain, Tame.Tame, Tidy, ClauseOf, Elements;
    StrTame(c.world.read, "");
    VectorTidy(c.world.read, m, items, 1);
    var v := items[1].kind.items;
    if i >= |v| {
      TameBody(c, m, items, 2, V.Unit, env);
    } else if i + 1 < |v| && !ClauseOf(v[i]).NoClause? {
      if ClauseOf(v[i]).LetClause? {
        TameForScope(c, m, items, i, env);
      } else {
        TameEval(c, m, v[i + 1], env);
        var r := Eval(c, v[i + 1], env);
        if r.out.Done? {
          if ClauseOf(v[i]).Generator? {
            ElementsTame(c.world.read, r.out.value);
            if Elements(r.out.value).Ok? {
              TameForEach(c, m, items, i, ClauseOf(v[i]).name, Elements(r.out.value).value, 0, r.env);
            }
          } else if r.out.value == V.Bool(true) {
            TameForRows(c, m, items, i + 2, r.env);
          }
        }
      }
    }
  }

  lemma {:induction false} TameForScope(c: Context, m: Mode, items: seq<Node>, i: nat, env: Chain)
    requires |items| >= 3 && items[1].kind.Vector? && i + 1 < |items[1].kind.items|
    requires Ready(c, env) && m.texts && AllTidy(c.world.read, m, items)
    ensures GoodRows(c, ForScope(c, items, i, env))
    decreases c.fuel, items, 1, |items[1].kind.items| - i, 0
  {
    hide ForLet, ForRows, Eval, TameWorld, TameChain, TameFrame, Tidy, AllTidy, Push, Pop;
    VectorTidy(c.world.read, m, items, 1);
    var target := items[1].kind.items[i + 1];
    if target.kind.Vector? && |target.kind.items| % 2 == 0 {
      VectorTidy(c.world.read, m, items[1].kind.items, i + 1);
      var w, child := target.kind.items, Push(env, map[]);
      EmptyTame(c.world.read);
      PushTame(c.world.read, env, map[]);
      TameForLet(c, m, w, 0, child);
      var g := ForLet(c, w, 0, child);
      PopTame(c.world.read, g.env);
      if g.All? {
        TameForRows(c, m, items, i + 2, g.env);
        PopTame(c.world.read, ForRows(c, items, i + 2, g.env).env);
      }
    }
  }

  lemma {:induction false} TameForEach(
    c: Context, m: Mode, items: seq<Node>, i: nat, name: string, vs: seq<V.Value>, j: nat, env: Chain)
    requires |items| >= 3 && items[1].kind.Vector? && i < |items[1].kind.items|
    requires Ready(c, env) && m.texts && AllTidy(c.world.read, m, items) && AllTame(c.world.read, vs)
    ensures GoodRows(c, ForEach(c, items, i, name, vs, j, env))
    decreases c.fuel, items, 1, |items[1].kind.items| - i, |vs| - j
  {
    hide ForRows, TameWorld, TameChain, TameFrame, Tame.Tame, Tidy, AllTidy, Push, Pop;
    if j < |vs| {
      var frame := map[name := vs[j]];
      OneTame(c.world.read, name, vs[j]);
      PushTame(c.world.read, env, frame);
      TameForRows(c, m, items, i + 2, Push(env, frame));
      var f := ForRows(c, items, i + 2, Push(env, frame));
      PopTame(c.world.read, f.env);
      if f.rows.Yield? && !f.rows.stop { TameForEach(c, m, items, i, name, vs, j + 1, Pop(f.env)); }
    }
  }

  lemma {:induction false} TameForLet(c: Context, m: Mode, v: seq<Node>, i: nat, env: Chain)
    requires Ready(c, env) && m.texts && AllTidy(c.world.read, m, v)
    ensures var g := ForLet(c, v, i, env);
            TameChain(c.world.read, g.env) && (g.Stopped? ==> TameOut(c.world.read, g.out))
    decreases c.fuel, v, 0, |v| - i
  {
    hide Eval, TameWorld, TameChain, Tame.Tame, Tidy, Define, ScopeAt;
    if i < |v| {
      ScopeErrors(v, i);
      if ScopeAt(v, i).Ok? {
        var part := ScopeAt(v, i).value;
        TameEval(c, m, v[part.value], env);
        var r := Eval(c, v[part.value], env);
        if r.out.Done? {
          DefineTame(c.world.read, r.env, part.name, r.out.value);
          TameForLet(c, m, v, part.next, Define(r.env, part.name, r.out.value));
        }
      }
    }
  }

  lemma ScopeErrors(v: seq<Node>, i: nat)
    requires i < |v|
    ensures ScopeAt(v, i).Err? ==> !ScopeAt(v, i).error.EarlyReturn?
  {
  }

  // ---------------------------------------------------------------------------------------------
  // Calls
  // ---------------------------------------------------------------------------------------------

  lemma {:induction false} TameApply(c: Context, m: Mode, items: seq<Node>, env: Chain)
    requires items != [] && Ready(c, env) && m.texts && AllTidy(c.world.read, m, items)
    ensures Good(c, !m.inLoop, EvalApply(c, items, env), EvalApply(NoLoop(c), items, env))
    decreases c.fuel, items, 2
  {
    hide Eval, EvalArgs, ApplyClosure, TameWorld, TameChain, Tidy, TameClosure, AllTame, KeywordLookup, Natively;
    TameEval(c, m, items[0], env);
    var r := Eval(c, items[0], env);
    if r.out.Done? {
      match r.out.value
      case Native(name) =>
        NothingTame(c.world.read);
        TameArgs(c, m, items, 1, [], r.env);
        var g := EvalArgs(c, items, 1, [], r.env);
        if g.All? { NativeTame(c.world, name, g.items); }
      case Keyword(_, _) =>
        if |items| == 2 {
          TameEval(c, m, items[1], r.env);
          var a := Eval(c, items[1], r.env);
          if a.out.Done? { KeywordTame(c.world.read, r.out.value, a.out.value); }
        }
      case Function(f) =>
        if c.depth < MAX_CALL_DEPTH { TameApplyClosure(c.(depth := c.depth + 1), m, f, items, r.env); }
      case _ =>
    }
  }

  lemma NothingTame(read: I.Reader)
    ensures AllTame(read, [])
  {
  }

  lemma NativeTame(w: World, name: string, args: seq<V.Value>)
    requires TameWorld(w) && AllTame(w.read, args)
    ensures TameOut(w.read, Natively(w, name, args))
  {
    hide Tame.Tame, AllTame;
  }

  lemma {:induction false} TameApplyClosure(c: Context, m: Mode, f: V.Closure, items: seq<Node>, env: Chain)
    requires items != [] && Ready(c, env) && m.texts && AllTidy(c.world.read, m, items) && TameClosure(c.world.read, f)
    ensures Good(c, !m.inLoop, ApplyClosure(c, f, items, env), ApplyClosure(NoLoop(c), f, items, env))
    decreases c.fuel, items, 1
  {
    hide EvalArgs, Enter, TameWorld, TameChain, Tame.Tame, Tidy, AllTidy, TameClosure, AllTame, Accepts;
    if Accepts(f, |items| - 1) {
      NothingTame(c.world.read);
      TameArgs(c, m, items, 1, [], env);
      var g := EvalArgs(c, items, 1, [], env);
      if g.All? && c.fuel > 0 { TameEnter(c.(fuel := c.fuel - 1), f, g.items); }
    }
  }

  /** A call of a tame function on tame values neither continues nor sees the caller's loop. */
  lemma {:induction false} TameEnter(c: Context, f: V.Closure, args: seq<V.Value>)
    requires TameWorld(c.world) && TameClosure(c.world.read, f) && AllTame(c.world.read, args) && Accepts(f, |args|)
    ensures TameOut(c.world.read, Enter(c, f, args)) && Enter(c, f, args) == Enter(NoLoop(c), f, args)
    ensures !Enter(c, f, args).Again?
    decreases c.fuel
  {
    hide Eval, EvalBody, Conditions, TameWorld, Tame.Tame, Tidy, AllTidy, AllTame, CallFrame, Accepts, Push;
    StrTame(c.world.read, "");
    CallFrameTame(c.world.read, f, args);
    var env := [CallFrame(f, args)];
    TameConditions(NoLoop(c), f.pre, 0, Precondition, env);
    var p := Conditions(NoLoop(c), f.pre, 0, Precondition, env);
    if p.out.Done? {
      TameBody(c, PLAIN, f.body, 0, V.Unit, p.env);
      var r := EvalBody(c, f.body, 0, V.Unit, p.env);
      if r.out.Done? && f.post != [] {
        OneTame(c.world.read, "result", r.out.value);
        PushTame(c.world.read, r.env, map["result" := r.out.value]);
        TameConditions(NoLoop(c), f.post, 0, Postcondition, Push(r.env, map["result" := r.out.value]));
      }
    }
  }

  lemma {:induction false} TameConditions(c: Context, exprs: seq<Node>, i: nat, reason: Reason, env: Chain)
    requires Ready(c, env) && AllTidy(c.world.read, PLAIN, exprs)
    ensures var r := Conditions(c, exprs, i, reason, env);
            TameOut(c.world.read, r.out) && TameChain(c.world.read, r.env)
    decreases c.fuel, exprs, 0, |exprs| - i
  {
    hide Eval, TameWorld, TameChain, Tame.Tame, Tidy;
    StrTame(c.world.read, "");
    if i < |exprs| {
      TameEval(c, PLAIN, exprs[i], env);
      var r := Eval(c, exprs[i], env);
      if r.out == Done(V.Bool(true)) { TameConditions(c, exprs, i + 1, reason, r.env); }
    }
  }
}
