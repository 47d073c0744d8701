/**
 Two runs of the same expression compared: neither more fuel, nor a shallower call depth, nor frames that flatten to the
 same bindings change what evaluation computes. `SimEval` is the induction over the whole evaluator.
*/
module Simulation {
  import opened Basics
  import opened Ast
  import opened Patterns
  import opened Scopes
  import opened SpecialForms
  import opened Semantics
  import I = Interpolation
  import V = Values

  // ---------------------------------------------------------------------------------------------
  // Runs to compare
  // ---------------------------------------------------------------------------------------------

  /** Two runs, and where their environments may differ (`Similar`): above `low` and below the `high` topmost frames. */
  datatype Link = Link(limits: Limits, small: Context, large: Context, low: nat, high: nat)

  ghost predicate Contexts(k: Link) {
    k.small.world == k.large.world && k.small.fuel <= k.large.fuel && k.large.depth <= k.small.depth &&
    (k.limits.noJumps || k.small.frame == k.large.frame)
  }

  ghost predicate Linked(k: Link, a: Chain, b: Chain) {
    Contexts(k) && a != [] && b != [] && (k.limits.noDefs || (k.low < |a| && k.low < |b|)) &&
      Similar(a, b, k.low, k.high)
  }

  predicate Ran(out: Outcome) {
    out != Fail(OutOfFuel) && out != Fail(StackOverflow)
  }

  /** The runs have the same bounds, or the first keeps within its own. */
  ghost predicate Enough(k: Link, out: Outcome) {
    (k.small.fuel == k.large.fuel && k.small.depth == k.large.depth) || Ran(out)
  }

  ghost predicate Same(k: Link, r: Step, t: Step) {
    r.out == t.out && Similar(r.env, t.env, k.low, k.high)
  }

  ghost predicate SameGather<T>(k: Link, g: Gather<T>, h: Gather<T>) {
    Similar(g.env, h.env, k.low, k.high) &&
    match g
    case All(items, _) => h.All? && h.items == items
    case Stopped(out, _) => h.Stopped? && h.out == out
  }

  function Unloop(k: Link): Link {
    k.(small := NoLoop(k.small), large := NoLoop(k.large))
  }

  function Scoped(k: Link): Link {
    k.(high := k.high + 1)
  }

  lemma Pushed(k: Link, a: Chain, b: Chain, frame: Frame)
    requires Linked(k, a, b)
    ensures Linked(Scoped(k), Push(a, frame), Push(b, frame))
  {
    SimilarPush(a, b, k.low, k.high, frame);
  }

  // ---------------------------------------------------------------------------------------------
  // The induction
  // ---------------------------------------------------------------------------------------------

  lemma {:induction false} SimEval(k: Link, node: Node, a: Chain, b: Chain)
    requires Linked(k, a, b) && Within(k.limits, node) && Enough(k, Eval(k.small, node, a).out)
    ensures Same(k, Eval(k.small, node, a), Eval(k.large, node, b))
    decreases k.small.fuel, node
  {
    hide EvalAtom, EvalList, EvalArgs, EvalPairs, Similar;
    match node.kind
    case Atomic(atom) => SimAtom(k, node, a, b);
    case List(items) => SimList(k, items, a, b);
    case Vector(items) => SimArgs(k, items, 0, [], a, b);
    case Set(items) => SimArgs(k, items, 0, [], a, b);
    case Map(pairs) => SimPairs(k, pairs, 0, [], a, b);
    case Prefixed(_, _) =>
  }

  lemma {:induction false} SimAtom(k: Link, node: Node, a: Chain, b: Chain)
    requires node.kind.Atomic? && Linked(k, a, b) && Within(k.limits, node)
    requires Enough(k, EvalAtom(k.small, node.kind.atom, a).out)
    ensures Same(k, EvalAtom(k.small, node.kind.atom, a), EvalAtom(k.large, node.kind.atom, b))
    decreases k.small.fuel, node.kind.atom
  {
    hide EvalPieces, Similar, Lookup;
    match node.kind.atom
    case Str(s) => if HasBrace(s) { SimPieces(k, s, 0, "", a, b); }
    case Symbol(None, name) => SimilarLookup(a, b, k.low, k.high, name);
    case _ =>
  }

  lemma {:induction false} SimPieces(k: Link, s: string, i: nat, out: string, a: Chain, b: Chain)
    requires i <= |s| && !k.limits.noDefs && Linked(k, a, b) && Enough(k, EvalPieces(k.small, s, i, out, a).out)
    ensures Same(k, EvalPieces(k.small, s, i, out, a), EvalPieces(k.large, s, i, out, b))
    decreases k.small.fuel, s, |s| - i
  {
    hide Eval, Similar, I.NextPiece, Within;
    if i < |s| {
      match I.NextPiece(k.small.world.read, s, i)
      case Emit(text, next) => SimPieces(k, s, next, out + text, a, b);
      case Splice(form, next) =>
        if k.small.fuel > 0 {
          var inner := Link(
            UNLIMITED, NoLoop(k.small).(fuel := k.small.fuel - 1), NoLoop(k.large).(fuel := k.large.fuel - 1),
            k.low, k.high);
          UnlimitedWithin(form);
          SimEval(inner, form, a, b);
          var r, t := Eval(inner.small, form, a), Eval(inner.large, form, b);
          if r.out.Done? { SimPieces(k, s, next, out + Spliced(k.small.world, r.out.value), r.env, t.env); }
        }
    }
  }

  lemma {:induction false} SimArgs(k: Link, nodes: seq<Node>, i: nat, acc: seq<V.Value>, a: Chain, b: Chain)
    requires i <= |nodes| && Linked(k, a, b) && AllWithin(k.limits, nodes)
    requires EvalArgs(k.small, nodes, i, acc, a).Stopped? ==> Enough(k, EvalArgs(k.small, nodes, i, acc, a).out)
    ensures SameGather(k, EvalArgs(k.small, nodes, i, acc, a), EvalArgs(k.large, nodes, i, acc, b))
    decreases k.small.fuel, nodes, 0, |nodes| - i
  {
    hide Eval, Similar, Within;
    if i < |nodes| {
      SimEval(k, nodes[i], a, b);
      var r, t := Eval(k.small, nodes[i], a), Eval(k.large, nodes[i], b);
      if r.out.Done? { SimArgs(k, nodes, i + 1, acc + [r.out.value], r.env, t.env); }
    }
  }

  lemma {:induction false} SimPairs(k: Link, pairs: seq<Entry>, i: nat, acc: seq<V.Binding>, a: Chain, b: Chain)
    requires i <= |pairs| && Linked(k, a, b) && forall j | 0 <= j < |pairs| :: EntryWithin(k.limits, pairs[j])
    requires Enough(k, EvalPairs(k.small, pairs, i, acc, a).out)
    ensures Same(k, EvalPairs(k.small, pairs, i, acc, a), EvalPairs(k.large, pairs, i, acc, b))
    decreases k.small.fuel, pairs, 0, |pairs| - i
  {
    hide Eval, EvalEntry, Similar, Within, EntryWithin, V.MapPut;
    if i < |pairs| {
      SimEntry(k, pairs[i], a, b);
      var g, h := EvalEntry(k.small, pairs[i], a), EvalEntry(k.large, pairs[i], b);
      if g.All? { SimPairs(k, pairs, i + 1, V.MapPut(acc, g.items[0], g.items[1]), g.env, h.env); }
    }
  }

  lemma {:induction false} SimEntry(k: Link, e: Entry, a: Chain, b: Chain)
    requires Linked(k, a, b) && EntryWithin(k.limits, e)
    requires EvalEntry(k.small, e, a).Stopped? ==> Enough(k, NoRecur(EvalEntry(k.small, e, a).out))
    ensures SameGather(k, EvalEntry(k.small, e, a), EvalEntry(k.large, e, b))
    decreases k.small.fuel, e
  {
    hide Eval, Similar, Within;
    SimEval(k, e.key, a, b);
    var r, t := Eval(k.small, e.key, a), Eval(k.large, e.key, b);
    if r.out.Done? { SimEval(k, e.val, r.env, t.env); }
  }

  lemma {:induction false} SimBody(k: Link, nodes: seq<Node>, i: nat, last: V.Value, a: Chain, b: Chain)
    requires Linked(k, a, b) && AllWithin(k.limits, nodes) && Enough(k, EvalBody(k.small, nodes, i, last, a).out)
    ensures Same(k, EvalBody(k.small, nodes, i, last, a), EvalBody(k.large, nodes, i, last, b))
    decreases k.small.fuel, nodes, 0, |nodes| - i
  {
    hide Eval, Similar, Within;
    if i < |nodes| {
      SimEval(k, nodes[i], a, b);
      var r, t := Eval(k.small, nodes[i], a), Eval(k.large, nodes[i], b);
      if r.out.Done? { SimBody(k, nodes, i + 1, r.out.value, r.env, t.env); }
    }
  }

  lemma {:induction false} SimList(k: Link, items: seq<Node>, a: Chain, b: Chain)
    requires Linked(k, a, b) && ListWithin(k.limits, items)
    requires Enough(k, EvalList(k.small, items, a).out)
    ensures Same(k, EvalList(k.small, items, a), EvalList(k.large, items, b))
    decreases k.small.fuel, items
  {
    hide FormOf, Similar, Within, AllWithin, EvalBody, EvalDef, EvalLet, EvalIf, EvalFn, EvalDefn, EvalLoop, EvalRecur,
      EvalFor, EvalSet, EvalPanic, EvalQuestion, EvalMatch, EvalJunction, EvalCond, EvalApply;
    if items != [] {
      match FormOf(items[0])
      case DefForm => SimDef(k, items, a, b);
      case LetForm => SimLet(k, items, a, b);
      case DoForm => if |items| >= 2 { SimBody(k, items, 1, V.Unit, a, b); }
      case IfForm => SimIf(k, items, a, b);
      case FnForm => SimFn(k, items, a, b);
      case DefnForm => SimDefn(k, items, a, b);
      case LoopForm => SimLoop(k, items, a, b);
      case RecurForm => SimRecur(k, items, a, b);
      case ForForm => SimFor(k, items, a, b);
      case SetForm => SimSet(k, items, a, b);
      case PanicForm => SimPanic(k, items, a, b);
      case QuestionForm => SimQuestion(k, items, a, b);
      case MatchForm => SimMatch(k, items, a, b);
      case AndForm => if |items| >= 2 { SimJunction(k, items, 1, false, a, b); }
      case OrForm => if |items| >= 2 { SimJunction(k, items, 1, true, a, b); }
      case CondForm => if |items| != 1 && (|items| - 1) % 2 == 0 { SimCond(k, items, 1, a, b); }
      case OtherForm =>
      case ApplyForm => SimApply(k, items, a, b);
    }
  }

  lemma {:induction false} SimDef(k: Link, items: seq<Node>, a: Chain, b: Chain)
    requires !k.limits.noDefs && Linked(k, a, b) && AllWithin(k.limits, items) &&
             Enough(k, EvalDef(k.small, items, a).out)
    ensures Same(k, EvalDef(k.small, items, a), EvalDef(k.large, items, b))
    decreases k.small.fuel, items, 2
  {
    hide Eval, Similar, Within, Define;
    if |items| == 3 && SymbolName(items[1]).Some? {
      SimEval(Unloop(k), items[2], a, b);
      var r, t := Eval(NoLoop(k.small), items[2], a), Eval(NoLoop(k.large), items[2], b);
      if r.out.Done? { SimilarDefine(r.env, t.env, k.low, k.high, SymbolName(items[1]).value, r.out.value); }
    }
  }

  lemma {:induction false} SimSet(k: Link, items: seq<Node>, a: Chain, b: Chain)
    requires Linked(k, a, b) && AllWithin(k.limits, items) && Enough(k, EvalSet(k.small, items, a).out)
    ensures Same(k, EvalSet(k.small, items, a), EvalSet(k.large, items, b))
    decreases k.small.fuel, items, 2
  {
    hide Eval, Similar, Within, Assign;
    if |items| == 3 && SymbolName(items[1]).Some? {
      SimEval(Unloop(k), items[2], a, b);
      var r, t := Eval(NoLoop(k.small), items[2], a), Eval(NoLoop(k.large), items[2], b);
      if r.out.Done? { SimilarAssign(r.env, t.env, k.low, k.high, SymbolName(items[1]).value, r.out.value); }
    }
  }

  lemma SimFn(k: Link, items: seq<Node>, a: Chain, b: Chain)
    requires Linked(k, a, b)
    ensures Same(k, EvalFn(items, a), EvalFn(items, b))
  {
    hide Similar, Flatten, Lambda;
    SimilarFlatten(a, b, k.low, k.high);
  }

  lemma SimDefn(k: Link, items: seq<Node>, a: Chain, b: Chain)
    requires !k.limits.noDefs && Linked(k, a, b)
    ensures Same(k, EvalDefn(items, a), EvalDefn(items, b))
  {
    hide Similar, Flatten, Define, DefnOf;
    SimilarFlatten(a, b, k.low, k.high);
    match DefnOf(items, Flatten(a))
    case Ok(d) => SimilarDefine(a, b, k.low, k.high, d.name, V.Function(d.closure));
    case Err(_) =>
  }

  lemma {:induction false} SimIf(k: Link, items: seq<Node>, a: Chain, b: Chain)
    requires Linked(k, a, b) && AllWithin(k.limits, items) && Enough(k, EvalIf(k.small, items, a).out)
    ensures Same(k, EvalIf(k.small, items, a), EvalIf(k.large, items, b))
    decreases k.small.fuel, items, 2
  {
    hide Eval, Similar, Within;
    if |items| == 4 {
      SimEval(k, items[1], a, b);
      var r, t := Eval(k.small, items[1], a), Eval(k.large, items[1], b);
      if r.out.Done? && r.out.value.Bool? { SimEval(k, items[if r.out.value.b then 2 else 3], r.env, t.env); }
    }
  }

  lemma {:induction false} SimJunction(k: Link, items: seq<Node>, i: nat, stop: bool, a: Chain, b: Chain)
    requires Linked(k, a, b) && AllWithin(k.limits, items) && Enough(k, EvalJunction(k.small, items, i, stop, a).out)
    ensures Same(k, EvalJunction(k.small, items, i, stop, a), EvalJunction(k.large, items, i, stop, b))
    decreases k.small.fuel, items, 0, |items| - i
  {
    hide Eval, Similar, Within;
    if i < |items| {
      SimEval(k, items[i], a, b);
      var r, t := Eval(k.small, items[i], a), Eval(k.large, items[i], b);
      if r.out.Done? && r.out.value.Bool? && r.out.value.b != stop { SimJunction(k, items, i + 1, stop, r.env, t.env); }
    }
  }

  lemma {:induction false} SimCond(k: Link, items: seq<Node>, i: nat, a: Chain, b: Chain)
    requires Linked(k, a, b) && AllWithin(k.limits, items) && Enough(k, EvalCond(k.small, items, i, a).out)
    ensures Same(k, EvalCond(k.small, items, i, a), EvalCond(k.large, items, i, b))
    decreases k.small.fuel, items, 0, |items| - i
  {
    hide Eval, Similar, Within, IsElse;
    if i + 1 < |items| {
      if IsElse(items[i]) {
        SimEval(k, items[i + 1], a, b);
      } else {
        SimEval(k, items[i], a, b);
        var r, t := Eval(k.small, items[i], a), Eval(k.large, items[i], b);
        if r.out.Done? && r.out.value.Bool? {
          if r.out.value.b {
            SimEval(k, items[i + 1], r.env, t.env);
          } else {
            SimCond(k, items, i + 2, r.env, t.env);
          }
        }
      }
    }
  }

  lemma {:induction false} SimPanic(k: Link, items: seq<Node>, a: Chain, b: Chain)
    requires Linked(k, a, b) && AllWithin(k.limits, items) && Enough(k, EvalPanic(k.small, items, a).out)
    ensures Same(k, EvalPanic(k.small, items, a), EvalPanic(k.large, items, b))
    decreases k.small.fuel, items, 2
  {
    hide Eval, Similar, Within;
    if |items| == 2 { SimEval(k, items[1], a, b); }
  }

  lemma {:induction false} SimQuestion(k: Link, items: seq<Node>, a: Chain, b: Chain)
    requires Linked(k, a, b) && AllWithin(k.limits, items) && Enough(k, EvalQuestion(k.small, items, a).out)
    ensures Same(k, EvalQuestion(k.small, items, a), EvalQuestion(k.large, items, b))
    decreases k.small.fuel, items, 2
  {
    hide Eval, Similar, Within, Unwrap;
    if |items| == 2 { SimEval(k, items[1], a, b); }
  }

  lemma {:induction false} SimLet(k: Link, items: seq<Node>, a: Chain, b: Chain)
    requires Linked(k, a, b) && AllWithin(k.limits, items) && Enough(k, EvalLet(k.small, items, a).out)
    ensures Same(k, EvalLet(k.small, items, a), EvalLet(k.large, items, b))
    decreases k.small.fuel, items, 2
  {
    hide LetFrom, Similar, Within, Push, Pop;
    if |items| >= 3 && items[1].kind.Vector? {
      Pushed(k, a, b, map[]);
      SimLetFrom(Scoped(k), items, 0, Push(a, map[]), Push(b, map[]));
      SimilarPop(LetFrom(k.small, items, 0, Push(a, map[])).env, LetFrom(k.large, items, 0, Push(b, map[])).env,
        k.low, k.high);
    }
  }

  lemma {:induction false} SimLetFrom(k: Link, items: seq<Node>, i: nat, a: Chain, b: Chain)
    requires |items| >= 3 && items[1].kind.Vector? && k.high > 0
    requires Linked(k, a, b) && AllWithin(k.limits, items) && Enough(k, LetFrom(k.small, items, i, a).out)
    ensures Same(k, LetFrom(k.small, items, i, a), LetFrom(k.large, items, i, b))
    decreases k.small.fuel, items, 1, |items[1].kind.items| - i
  {
    hide Eval, EvalBody, Similar, Within, BindingAt, PatternOf, Match, DefineAll;
    VectorWithin(k.limits, items, 1);
    SimilarHeight(k, a, b);
    var v := items[1].kind.items;
    if i >= |v| {
      SimBody(k, items, 2, V.Unit, a, b);
    } else if BindingAt(v, i).Some? {
      var part := BindingAt(v, i).value;
      SimEval(Unloop(k), v[part.value], a, b);
      var r, t := Eval(NoLoop(k.small), v[part.value], a), Eval(NoLoop(k.large), v[part.value], b);
      if r.out.Done? && PatternOf(v[part.pattern]).Ok? {
        match Match(PatternOf(v[part.pattern]).value, r.out.value)
        case Some(bs) =>
          SimilarDefineAll(r.env, t.env, k.low, k.high, bs);
          SimLetFrom(k, items, part.next, DefineAll(r.env, bs), DefineAll(t.env, bs));
        case None => if part.fallback.Some? { SimEval(k, v[part.fallback.value], r.env, t.env); }
      }
    }
  }

  lemma SimilarHeight(k: Link, a: Chain, b: Chain)
    requires k.high > 0 && Linked(k, a, b)
    ensures k.low < |a| && k.low < |b|
  {
  }

  lemma {:induction false} SimMatch(k: Link, items: seq<Node>, a: Chain, b: Chain)
    requires Linked(k, a, b) && AllWithin(k.limits, items) && Enough(k, EvalMatch(k.small, items, a).out)
    ensures Same(k, EvalMatch(k.small, items, a), EvalMatch(k.large, items, b))
    decreases k.small.fuel, items, 2
  {
    hide Eval, EvalArms, Similar, Within;
    if |items| >= 4 && (|items| - 2) % 2 == 0 {
      SimEval(k, items[1], a, b);
      var r, t := Eval(k.small, items[1], a), Eval(k.large, items[1], b);
      if r.out.Done? { SimArms(k, items, 2, r.out.value, r.env, t.env); }
    }
  }

  lemma {:induction false} SimArms(k: Link, items: seq<Node>, i: nat, v: V.Value, a: Chain, b: Chain)
    requires Linked(k, a, b) && AllWithin(k.limits, items) && Enough(k, EvalArms(k.small, items, i, v, a).out)
    ensures Same(k, EvalArms(k.small, items, i, v, a), EvalArms(k.large, items, i, v, b))
    decreases k.small.fuel, items, 1, |items| - i
  {
    hide Eval, Similar, Within, PatternOf, Match, Push, Pop, BindAll;
    if i + 1 < |items| && PatternOf(items[i]).Ok? {
      match Match(PatternOf(items[i]).value, v)
      case None => SimArms(k, items, i + 2, v, a, b);
      case Some(bs) =>
        var frame := BindAll(map[], bs);
        Pushed(k, a, b, frame);
        SimEval(Scoped(k), items[i + 1], Push(a, frame), Push(b, frame));
        SimilarPop(Eval(k.small, items[i + 1], Push(a, frame)).env, Eval(k.large, items[i + 1], Push(b, frame)).env,
          k.low, k.high);
    }
  }

  lemma {:induction false} SimLoop(k: Link, items: seq<Node>, a: Chain, b: Chain)
    requires Linked(k, a, b) && AllWithin(k.limits, items) && Enough(k, EvalLoop(k.small, items, a).out)
    ensures Same(k, EvalLoop(k.small, items, a), EvalLoop(k.large, items, b))
    decreases k.small.fuel, items, 2
  {
    hide LoopNames, Rounds, Similar, Within, Push, Pop;
    if |items| >= 3 && items[1].kind.Vector? && |items[1].kind.items| % 2 == 0 {
      var v, x, y := items[1].kind.items, Push(a, map[]), Push(b, map[]);
      Pushed(k, a, b, map[]);
      VectorWithin(k.limits, items, 1);
      var child := Unloop(Scoped(k));
      SimLoopNames(child, v, 0, [], x, y);
      var g, h := LoopNames(child.small, v, 0, [], x), LoopNames(child.large, v, 0, [], y);
      SimilarPop(g.env, h.env, k.low, k.high);
      if g.All? {
        var round := child.(small := k.small.(frame := Some(g.items)), large := k.large.(frame := Some(g.items)));
        SimRounds(round, items, g.env, h.env);
        SimilarPop(Rounds(round.small, items, g.env).env, Rounds(round.large, items, h.env).env, k.low, k.high);
      }
    }
  }

  lemma {:induction false} SimLoopNames(k: Link, v: seq<Node>, i: nat, names: seq<string>, a: Chain, b: Chain)
    requires Linked(k, a, b) && AllWithin(k.limits, v) && k.high > 0
    requires LoopNames(k.small, v, i, names, a).Stopped? ==> Enough(k, NoRecur(LoopNames(k.small, v, i, names, a).out))
    ensures SameGather(k, LoopNames(k.small, v, i, names, a), LoopNames(k.large, v, i, names, b))
    decreases k.small.fuel, v, 0, |v| - i
  {
    hide Eval, Similar, Within, Define, SymbolName;
    SimilarHeight(k, a, b);
    if i + 1 < |v| && SymbolName(v[i]).Some? {
      var name := SymbolName(v[i]).value;
      SimEval(k, v[i + 1], a, b);
      var r, t := Eval(k.small, v[i + 1], a), Eval(k.large, v[i + 1], b);
      if r.out.Done? {
        SimilarDefine(r.env, t.env, k.low, k.high, name, r.out.value);
        SimLoopNames(k, v, i + 2, names + [name], Define(r.env, name, r.out.value), Define(t.env, name, r.out.value));
      }
    }
  }

  lemma {:induction false} SimRounds(k: Link, items: seq<Node>, a: Chain, b: Chain)
    requires k.small.frame.Some? && k.small.frame == k.large.frame && k.high > 0
    requires Linked(k, a, b) && AllWithin(k.limits, items) && Enough(k, Rounds(k.small, items, a).out)
    ensures Same(k, Rounds(k.small, items, a), Rounds(k.large, items, b))
    decreases k.small.fuel, items, 1
  {
    hide Eval, EvalBody, Similar, Within, AllWithin, Linked, DefineAll, Zip;
    SimilarHeight(k, a, b);
    SimBody(k, items, 2, V.Unit, a, b);
    var r, t := EvalBody(k.small, items, 2, V.Unit, a), EvalBody(k.large, items, 2, V.Unit, b);
    if r.out.Again? && k.small.fuel > 0 {
      var bs := Zip(k.small.frame.value, r.out.values);
      SimilarDefineAll(r.env, t.env, k.low, k.high, bs);
      NextRound(k, a, b, DefineAll(r.env, bs), DefineAll(t.env, bs));
      SimRounds(Shorter(k), items, DefineAll(r.env, bs), DefineAll(t.env, bs));
    }
  }

  function Shorter(k: Link): Link
    requires 0 < k.small.fuel && 0 < k.large.fuel
  {
    k.(small := k.small.(fuel := k.small.fuel - 1), large := k.large.(fuel := k.large.fuel - 1))
  }

  lemma NextRound(k: Link, a: Chain, b: Chain, x: Chain, y: Chain)
    requires Linked(k, a, b) && k.small.fuel > 0
    requires |x| == |a| && |y| == |b| && Similar(x, y, k.low, k.high)
    ensures k.large.fuel > 0 && Linked(Shorter(k), x, y)
  {
    hide Similar;
  }

  lemma {:induction false} SimRecur(k: Link, items: seq<Node>, a: Chain, b: Chain)
    requires items != [] && !k.limits.noJumps
    requires Linked(k, a, b) && AllWithin(k.limits, items) && Enough(k, EvalRecur(k.small, items, a).out)
    ensures Same(k, EvalRecur(k.small, items, a), EvalRecur(k.large, items, b))
    decreases k.small.fuel, items, 2
  {
    hide EvalArgs, Similar, Within;
    if k.small.frame.Some? && |items| - 1 == |k.small.frame.value| { SimArgs(k, items, 1, [], a, b); }
  }

  // ---------------------------------------------------------------------------------------------
  // for
  // ---------------------------------------------------------------------------------------------

  ghost predicate SameRows(k: Link, f: ForStep, g: ForStep) {
    f.rows == g.rows && Similar(f.env, g.env, k.low, k.high)
  }

  function RowsOut(rows: Rows): Outcome {
    match rows
    case Yield(values, _) => Done(V.Vec(values))
    case Abort(e) => Fail(e)
  }

  lemma {:induction false} SimFor(k: Link, items: seq<Node>, a: Chain, b: Chain)
    requires Linked(k, a, b) && AllWithin(k.limits, items) && Enough(k, EvalFor(k.small, items, a).out)
    ensures Same(k, EvalFor(k.small, items, a), EvalFor(k.large, items, b))
    decreases k.small.fuel, items, 2
  {
    hide ForRows, Similar, Within;
    if |items| >= 3 && items[1].kind.Vector? { SimForRows(Unloop(k), items, 0, a, b); }
  }

  lemma {:induction false} SimForRows(k: Link, items: seq<Node>, i: nat, a: Chain, b: Chain)
    requires |items| >= 3 && items[1].kind.Vector? && AllWithin(k.limits, items)
    requires Linked(k, a, b) && Enough(k, RowsOut(ForRows(k.small, items, i, a).rows))
    ensures SameRows(k, ForRows(k.small, items, i, a), ForRows(k.large, items, i, b))
    decreases k.small.fuel, items, 1, |items[1].kind.items| - i
  {
    hide Eval, EvalBody, ForScope, ForEach, Similar, Within, ClauseOf, Elements, Push, Pop;
    VectorWithin(k.limits, items, 1);
    var v := items[1].kind.items;
    if i >= |v| {
      SimBody(k, items, 2, V.Unit, a, b);
    } else if i + 1 < |v| && !ClauseOf(v[i]).NoClause? {
      if ClauseOf(v[i]).LetClause? {
        SimForScope(k, items, i, a, b);
      } else {
        SimEval(k, v[i + 1], a, b);
        var r, t := Eval(k.small, v[i + 1], a), Eval(k.large, v[i + 1], b);
        if r.out.Done? {
          if ClauseOf(v[i]).Generator? {
            if Elements(r.out.value).Ok? {
              SimForEach(k, items, i, ClauseOf(v[i]).name, Elements(r.out.value).value, 0, r.env, t.env);
            }
          } else if r.out.value == V.Bool(true) {
            SimForRows(k, items, i + 2, r.env, t.env);
          }
        }
      }
    }
  }

  lemma {:induction false} SimForScope(k: Link, items: seq<Node>, i: nat, a: Chain, b: Chain)
    requires |items| >= 3 && items[1].kind.Vector? && AllWithin(k.limits, items) && i + 1 < |items[1].kind.items|
    requires Linked(k, a, b) && Enough(k, RowsOut(ForScope(k.small, items, i, a).rows))
    ensures SameRows(k, ForScope(k.small, items, i, a), ForScope(k.large, items, i, b))
    decreases k.small.fuel, items, 1, |items[1].kind.items| - i, 0
  {
    hide ForLet, ForRows, Eval, Similar, Within, AllWithin, Push, Pop;
    VectorWithin(k.limits, items, 1);
    var target := items[1].kind.items[i + 1];
    if target.kind.Vector? && |target.kind.items| % 2 == 0 {
      VectorWithin(k.limits, items[1].kind.items, i + 1);
      var w, x, y := target.kind.items, Push(a, map[]), Push(b, map[]);
      Pushed(k, a, b, map[]);
      SimForLet(Scoped(k), w, 0, x, y);
      var g, h := ForLet(k.small, w, 0, x), ForLet(k.large, w, 0, y);
      SimilarPop(g.env, h.env, k.low, k.high);
      if g.All? {
        SimForRows(Scoped(k), items, i + 2, g.env, h.env);
        SimilarPop(ForRows(k.small, items, i + 2, g.env).env, ForRows(k.large, items, i + 2, h.env).env, k.low, k.high);
      }
    }
  }

  lemma {:induction false} SimForEach(
    k: Link, items: seq<Node>, i: nat, name: string, vs: seq<V.Value>, j: nat, a: Chain, b: Chain)
    requires |items| >= 3 && items[1].kind.Vector? && AllWithin(k.limits, items) && i < |items[1].kind.items|
    requires Linked(k, a, b) && Enough(k, RowsOut(ForEach(k.small, items, i, name, vs, j, a).rows))
    ensures SameRows(k, ForEach(k.small, items, i, name, vs, j, a), ForEach(k.large, items, i, name, vs, j, b))
    decreases k.small.fuel, items, 1, |items[1].kind.items| - i, |vs| - j
  {
    hide ForRows, Similar, Within, Push, Pop;
    if j < |vs| {
      var frame := map[name := vs[j]];
      Pushed(k, a, b, frame);
      SimForRows(Scoped(k), items, i + 2, Push(a, frame), Push(b, frame));
      var f, g := ForRows(k.small, items, i + 2, Push(a, frame)), ForRows(k.large, items, i + 2, Push(b, frame));
      SimilarPop(f.env, g.env, k.low, k.high);
      if f.rows.Yield? && !f.rows.stop { SimForEach(k, items, i, name, vs, j + 1, Pop(f.env), Pop(g.env)); }
    }
  }

  lemma {:induction false} SimForLet(k: Link, v: seq<Node>, i: nat, a: Chain, b: Chain)
    requires Linked(k, a, b) && AllWithin(k.limits, v) && k.high > 0
    requires ForLet(k.small, v, i, a).Stopped? ==> Enough(k, NoRecur(ForLet(k.small, v, i, a).out))
    ensures SameGather(k, ForLet(k.small, v, i, a), ForLet(k.large, v, i, b))
    decreases k.small.fuel, v, 0, |v| - i
  {
    hide Eval, Similar, Within, Define, ScopeAt;
    SimilarHeight(k, a, b);
    if i < |v| && ScopeAt(v, i).Ok? {
      var part := ScopeAt(v, i).value;
      SimEval(k, v[part.value], a, b);
      var r, t := Eval(k.small, v[part.value], a), Eval(k.large, v[part.value], b);
      if r.out.Done? {
        SimilarDefine(r.env, t.env, k.low, k.high, part.name, r.out.value);
        SimForLet(k, v, part.next, Define(r.env, part.name, r.out.value), Define(t.env, part.name, r.out.value));
      }
    }
  }

  // ---------------------------------------------------------------------------------------------
  // Calls
  // ---------------------------------------------------------------------------------------------

  lemma {:induction false} SimApply(k: Link, items: seq<Node>, a: Chain, b: Chain)
    requires items != [] && !k.limits.noJumps
    requires Linked(k, a, b) && AllWithin(k.limits, items) && Enough(k, EvalApply(k.small, items, a).out)
    ensures Same(k, EvalApply(k.small, items, a), EvalApply(k.large, items, b))
    decreases k.small.fuel, items, 2
  {
    hide Eval, EvalArgs, ApplyClosure, Similar, Within, KeywordLookup;
    SimEval(k, items[0], a, b);
    var r, t := Eval(k.small, items[0], a), Eval(k.large, items[0], b);
    if r.out.Done? {
      match r.out.value
      case Native(_) => SimArgs(k, items, 1, [], r.env, t.env);
      case Keyword(_, _) => if |items| == 2 { SimEval(k, items[1], r.env, t.env); }
      case Function(f) => if k.small.depth < MAX_CALL_DEPTH { SimClosure(Deeper(k), f, items, r.env, t.env); }
      case _ =>
    }
  }

  function Deeper(k: Link): Link {
    k.(small := k.small.(depth := k.small.depth + 1), large := k.large.(depth := k.large.depth + 1))
  }

  lemma {:induction false} SimClosure(k: Link, f: V.Closure, items: seq<Node>, a: Chain, b: Chain)
    requires items != [] && !k.limits.noJumps
    requires Linked(k, a, b) && AllWithin(k.limits, items) && Enough(k, ApplyClosure(k.small, f, items, a).out)
    ensures Same(k, ApplyClosure(k.small, f, items, a), ApplyClosure(k.large, f, items, b))
    decreases k.small.fuel, items, 1
  {
    hide EvalArgs, Enter, Similar, Within, Accepts;
    if Accepts(f, |items| - 1) {
      SimArgs(k, items, 1, [], a, b);
      var g := EvalArgs(k.small, items, 1, [], a);
      if g.All? && k.small.fuel > 0 {
        UnlimitedAll(f.body);
        SimEnter(Shorter(k), f, g.items);
      }
    }
  }

  /** A call has no access to the caller's environment; its body may see the caller's loop frame. */
  lemma {:induction false} SimEnter(k: Link, f: V.Closure, args: seq<V.Value>)
    requires Accepts(f, |args|) && Contexts(k) && AllWithin(UNLIMITED.(noJumps := k.limits.noJumps), f.body)
    requires Enough(k, Enter(k.small, f, args))
    ensures Enter(k.small, f, args) == Enter(k.large, f, args)
    decreases k.small.fuel
  {
    hide Eval, EvalBody, Conditions, Similar, Within, AllWithin, CallFrame, Accepts, Flatten;
    var call := k.(limits := UNLIMITED.(noJumps := k.limits.noJumps), low := 0, high := 0);
    var env := [CallFrame(f, args)];
    SimilarItself(env);
    UnlimitedAll(f.pre);
    SimConditions(Unloop(call).(limits := UNLIMITED), f.pre, 0, Precondition, env, env);
    var p, q := Conditions(NoLoop(k.small), f.pre, 0, Precondition, env),
      Conditions(NoLoop(k.large), f.pre, 0, Precondition, env);
    if p.out.Done? {
      SimBody(call, f.body, 0, V.Unit, p.env, q.env);
      var r, t := EvalBody(k.small, f.body, 0, V.Unit, p.env), EvalBody(k.large, f.body, 0, V.Unit, q.env);
      if r.out.Done? && f.post != [] { SimPost(call, f.post, r.out.value, r.env, t.env); }
    }
  }

  lemma {:induction false} SimPost(k: Link, post: seq<Node>, v: V.Value, a: Chain, b: Chain)
    requires Linked(k, a, b)
    requires Enough(k, Conditions(NoLoop(k.small), post, 0, Postcondition, Push(a, map["result" := v])).out)
    ensures Conditions(NoLoop(k.small), post, 0, Postcondition, Push(a, map["result" := v])).out ==
            Conditions(NoLoop(k.large), post, 0, Postcondition, Push(b, map["result" := v])).out
    decreases k.small.fuel, post, 1
  {
    hide Conditions, Similar, Within, AllWithin, Push;
    var frame := map["result" := v];
    Pushed(k, a, b, frame);
    UnlimitedAll(post);
    var inner := Unloop(Scoped(k)).(limits := UNLIMITED);
    assert Linked(inner, Push(a, frame), Push(b, frame)) by { PushedHeights(k, a, b, frame); }
    SimConditions(inner, post, 0, Postcondition, Push(a, frame), Push(b, frame));
  }

  lemma PushedHeights(k: Link, a: Chain, b: Chain, frame: Frame)
    requires Linked(k, a, b)
    ensures k.low < |Push(a, frame)| && k.low < |Push(b, frame)|
  {
  }

  lemma SimilarItself(env: Chain)
    ensures Similar(env, env, 0, 0)
  {
  }

  lemma {:induction false} SimConditions(k: Link, exprs: seq<Node>, i: nat, reason: Reason, a: Chain, b: Chain)
    requires Linked(k, a, b) && AllWithin(k.limits, exprs) && Enough(k, Conditions(k.small, exprs, i, reason, a).out)
    ensures Same(k, Conditions(k.small, exprs, i, reason, a), Conditions(k.large, exprs, i, reason, b))
    decreases k.small.fuel, exprs, 0, |exprs| - i
  {
    hide Eval, Similar, Within;
    if i < |exprs| {
      SimEval(k, exprs[i], a, b);
      var r, t := Eval(k.small, exprs[i], a), Eval(k.large, exprs[i], b);
      if r.out == Done(V.Bool(true)) { SimConditions(k, exprs, i + 1, reason, r.env, t.env); }
    }
  }
}
