/**
 The tree-walking evaluator (crates/nexl-eval/src/eval.rs) as it runs: environments are updated in place, loops keep
 accumulators, and one counter tracks the call depth. Each method computes what its namesake in `Semantics` says and
 leaves the counter as it found it.
*/
module Evaluator {
  import opened Basics
  import opened Ast
  import opened Patterns
  import opened Scopes
  import opened SpecialForms
  import opened S = Semantics
  import I = Interpolation
  import V = Values

  /** An environment. Entering a child pushes a frame, and dropping the child pops it. */
  class Env {
    var frames: Chain

    constructor (frame: Frame)
      ensures frames == [frame]
    {
      frames := [frame];
    }

    method Define(name: string, value: V.Value)
      requires frames != []
      modifies this
      ensures frames == Scopes.Define(old(frames), name, value)
    {
      frames := Scopes.Define(frames, name, value);
    }

    /** `set`, and whether the name was found. */
    method Set(name: string, value: V.Value) returns (ok: bool)
      modifies this
      ensures ok == Assign(old(frames), name, value).Some?
      ensures frames == Assign(old(frames), name, value).GetOr(old(frames))
    {
      var changed := Assign(frames, name, value);
      ok := changed.Some?;
      frames := changed.GetOr(frames);
    }

    /** The loop that defines the bindings of a pattern. */
    method DefineEach(bs: seq<Bind>)
      requires frames != []
      modifies this
      ensures frames == DefineAll(old(frames), bs)
    {
      ghost var outer, inner := frames[..|frames| - 1], frames[|frames| - 1];
      for i := 0 to |bs|
        invariant frames == outer + [BindAll(inner, bs[..i])]
      {
        assert bs[..i + 1][..i] == bs[..i];
        Define(bs[i].name, bs[i].value);
      }
      assert bs[..|bs|] == bs;
    }

    method EnterChild(frame: Frame)
      modifies this
      ensures frames == Push(old(frames), frame)
    {
      frames := Push(frames, frame);
    }

    method LeaveChild()
      requires frames != []
      modifies this
      ensures frames == Pop(old(frames))
    {
      frames := Pop(frames);
    }
  }

  /** The output vector of a comprehension. */
  class Output {
    var list: seq<V.Value>

    constructor ()
      ensures list == []
    {
      list := [];
    }
  }

  /** `Result<ForControl, EvalError>`. */
  datatype Control = Continue | Break | Failed(error: EvalError)

  class Interpreter {
    const world: World
    var depth: nat

    constructor (world: World)
      ensures this.world == world && depth == 0
    {
      this.world := world;
      depth := 0;
    }

    function Now(fuel: nat, frame: LoopFrame): Context
      reads this
    {
      Context(world, fuel, depth, frame)
    }

    predicate Valid()
      reads this
    {
      depth <= MAX_CALL_DEPTH
    }

    /** `CallDepthGuard::enter`. */
    method EnterCall() returns (ok: bool)
      requires Valid()
      modifies this
      ensures Valid() && ok == (old(depth) < MAX_CALL_DEPTH) && depth == if ok then old(depth) + 1 else old(depth)
    {
      if depth >= MAX_CALL_DEPTH {
        return false;
      }
      depth := depth + 1;
      ok := true;
    }

    /** Dropping the guard: a saturating decrement. */
    method LeaveCall()
      requires Valid()
      modifies this
      ensures Valid() && depth == if old(depth) == 0 then 0 else old(depth) - 1
    {
      depth := if depth == 0 then 0 else depth - 1;
    }

    /** `eval`: outside any loop; the outcome is never `Again`. */
    method Run(node: Node, env: Env, fuel: nat) returns (out: Outcome)
      requires Valid() && env.frames != []
      modifies this, env
      ensures depth == old(depth)
      ensures Step(out, env.frames) == S.Eval(Now(fuel, None), node, old(env.frames)) && !out.Again?
      decreases fuel, node, 1
    {
      out := Eval(node, env, None, fuel);
    }

    method Eval(node: Node, env: Env, frame: LoopFrame, fuel: nat) returns (out: Outcome)
      requires Valid() && env.frames != []
      modifies this, env
      ensures depth == old(depth)
      ensures Step(out, env.frames) == S.Eval(Now(fuel, frame), node, old(env.frames))
      decreases fuel, node, 0
    {
      hide S.EvalAtom, S.EvalList, S.EvalArgs, S.EvalPairs;
      match node.kind {
        case Atomic(a) => out := EvalAtom(a, env, fuel, frame);
        case List(items) => out := EvalList(items, env, frame, fuel);
        case Vector(items) =>
          var values;
          out, values := EvalItems(items, 0, env, frame, fuel);
          out := if out.Done? then Done(V.Vec(values)) else NoRecur(out);
        case Set(items) =>
          var values;
          out, values := EvalItems(items, 0, env, frame, fuel);
          out := if out.Done? then Done(V.Set(values)) else NoRecur(out);
        case Map(pairs) => out := EvalMap(pairs, env, frame, fuel);
        case Prefixed(prefix, _) => out := if prefix == Discard then Done(V.Unit) else Fail(Todo);
      }
    }

    method EvalAtom(a: Atom, env: Env, fuel: nat, ghost frame: LoopFrame) returns (out: Outcome)
      requires Valid() && env.frames != []
      modifies this, env
      ensures depth == old(depth)
      ensures Step(out, env.frames) == S.EvalAtom(Now(fuel, frame), a, old(env.frames))
      decreases fuel, a
    {
      hide S.EvalPieces;
      match a {
        case Str(s) =>
          if !HasBrace(s) {
            return Done(V.Str(s));
          }
          out := EvalStringAtom(s, env, fuel, frame);
        case Symbol(None, name) => out := Unqualified(env.frames, name);
        case Symbol(Some(alias), name) => out := Qualified(world, alias, name);
        case _ => out := Done(Constant(a));
      }
    }

    /** The loop of `eval_string_atom`. */
    method EvalStringAtom(s: string, env: Env, fuel: nat, ghost frame: LoopFrame) returns (out: Outcome)
      requires Valid() && env.frames != []
      modifies this, env
      ensures depth == old(depth)
      ensures Step(out, env.frames) == S.EvalPieces(Now(fuel, frame), s, 0, "", old(env.frames))
      decreases fuel, s, |s| + 1
    {
      hide S.Eval, I.NextPiece;
      ghost var c := Now(fuel, frame);
      var text, i := "", 0;
      while i < |s|
        invariant i <= |s| && depth == old(depth) && env.frames != []
        invariant S.EvalPieces(c, s, 0, "", old(env.frames)) == S.EvalPieces(c, s, i, text, env.frames)
        decreases |s| - i
      {
        var piece := I.ReadPiece(world.read, s, i);
        match piece {
          case Emit(chars, _) => text := text + chars;
          case Splice(form, _) =>
            if fuel == 0 {
              return Fail(OutOfFuel);
            }
            out := Eval(form, env, None, fuel - 1);
            if !out.Done? {
              return NoRecur(out);
            }
            text := text + Spliced(world, out.value);
        }
        i := piece.next;
      }
      out := Done(V.Str(text));
    }

    /** The loop over nodes from `first` on that collects their values; `Done` when all are values. */
    method EvalItems(nodes: seq<Node>, first: nat, env: Env, frame: LoopFrame, fuel: nat)
      returns (out: Outcome, values: seq<V.Value>)
      requires Valid() && env.frames != [] && first <= |nodes|
      modifies this, env
      ensures depth == old(depth)
      ensures S.EvalArgs(Now(fuel, frame), nodes, first, [], old(env.frames)) ==
              if out.Done? then All(values, env.frames) else Stopped(out, env.frames)
      decreases fuel, nodes, 1
    {
      hide S.Eval;
      ghost var c := Now(fuel, frame);
      values := [];
      for i := first to |nodes|
        invariant depth == old(depth) && env.frames != []
        invariant S.EvalArgs(c, nodes, first, [], old(env.frames)) == S.EvalArgs(c, nodes, i, values, env.frames)
      {
        out := Eval(nodes[i], env, frame, fuel);
        if !out.Done? {
          return;
        }
        values := values + [out.value];
      }
      out := Done(V.Unit);
    }

    method EvalMap(pairs: seq<Entry>, env: Env, frame: LoopFrame, fuel: nat) returns (out: Outcome)
      requires Valid() && env.frames != []
      modifies this, env
      ensures depth == old(depth)
      ensures Step(out, env.frames) == S.EvalPairs(Now(fuel, frame), pairs, 0, [], old(env.frames))
      decreases fuel, pairs, 1
    {
      hide S.Eval, S.EvalEntry, V.MapPut;
      ghost var c := Now(fuel, frame);
      var entries := [];
      for i := 0 to |pairs|
        invariant depth == old(depth) && env.frames != []
        invariant S.EvalPairs(c, pairs, 0, [], old(env.frames)) == S.EvalPairs(c, pairs, i, entries, env.frames)
      {
        var key, value;
        out, key, value := EvalEntry(pairs[i], env, frame, fuel);
        if !out.Done? {
          return NoRecur(out);
        }
        entries := V.MapPut(entries, key, value);
      }
      out := Done(V.Map(entries));
    }

    method EvalEntry(entry: Entry, env: Env, frame: LoopFrame, fuel: nat)
      returns (out: Outcome, key: V.Value, value: V.Value)
      requires Valid() && env.frames != []
      modifies this, env
      ensures depth == old(depth)
      ensures S.EvalEntry(Now(fuel, frame), entry, old(env.frames)) ==
              if out.Done? then All([key, value], env.frames) else Stopped(out, env.frames)
      decreases fuel, entry
    {
      hide S.Eval;
      key, value := V.Unit, V.Unit;
      out := Eval(entry.key, env, frame, fuel);
      if out.Done? {
        key := out.value;
        out := Eval(entry.val, env, frame, fuel);
        if out.Done? {
          value := out.value;
        }
      }
    }

    /** The loop over body expressions from `first` on: the last value, or the first other outcome. */
    method EvalBody(nodes: seq<Node>, first: nat, env: Env, frame: LoopFrame, fuel: nat) returns (out: Outcome)
      requires Valid() && env.frames != [] && first <= |nodes|
      modifies this, env
      ensures depth == old(depth)
      ensures Step(out, env.frames) == S.EvalBody(Now(fuel, frame), nodes, first, V.Unit, old(env.frames))
      decreases fuel, nodes, 0, |nodes| + 1
    {
      hide S.Eval;
      ghost var c := Now(fuel, frame);
      var last := V.Unit;
      for i := first to |nodes|
        invariant depth == old(depth) && env.frames != []
        invariant S.EvalBody(c, nodes, first, V.Unit, old(env.frames)) == S.EvalBody(c, nodes, i, last, env.frames)
      {
        out := Eval(nodes[i], env, frame, fuel);
        if !out.Done? {
          return;
        }
        last := out.value;
      }
      out := Done(last);
    }

    method EvalList(items: seq<Node>, env: Env, frame: LoopFrame, fuel: nat) returns (out: Outcome)
      requires Valid() && env.frames != []
      modifies this, env
      ensures depth == old(depth)
      ensures Step(out, env.frames) == S.EvalList(Now(fuel, frame), items, old(env.frames))
      decreases fuel, items
    {
      hide FormOf, S.EvalBody, S.EvalDef, S.EvalLet, S.EvalIf, S.EvalFn, S.EvalDefn, S.EvalLoop, S.EvalRecur, S.EvalFor,
        S.EvalSet, S.EvalPanic, S.EvalQuestion, S.EvalMatch, S.EvalJunction, S.EvalCond, S.EvalApply;
      if items == [] {
        return Fail(Arity);
      }
      match FormOf(items[0]) {
        case DefForm => out := EvalDef(items, env, fuel, frame);
        case LetForm => out := EvalLet(items, env, frame, fuel);
        case DoForm =>
          if |items| < 2 {
            return Fail(Arity);
          }
          out := EvalBody(items, 1, env, frame, fuel);
        case IfForm => out := EvalIf(items, env, frame, fuel);
        case FnForm => out := EvalFn(items, env);
        case DefnForm => out := EvalDefn(items, env);
        case LoopForm => out := EvalLoop(items, env, fuel, frame);
        case RecurForm => out := EvalRecur(items, env, frame, fuel);
        case ForForm => out := EvalFor(items, env, fuel, frame);
        case SetForm => out := EvalSetBang(items, env, fuel, frame);
        case PanicForm => out := EvalPanic(items, env, frame, fuel);
        case QuestionForm => out := EvalQuestion(items, env, frame, fuel);
        case MatchForm => out := EvalMatch(items, env, frame, fuel);
        case AndForm =>
          if |items| < 2 {
            return Fail(Arity);
          }
          out := EvalJunction(items, false, env, frame, fuel);
        case OrForm =>
          if |items| < 2 {
            return Fail(Arity);
          }
          out := EvalJunction(items, true, env, frame, fuel);
        case CondForm =>
          if |items| == 1 || (|items| - 1) % 2 != 0 {
            return Fail(Arity);
          }
          out := EvalCond(items, env, frame, fuel);
        case OtherForm => out := Fail(Unmodelled);
        case ApplyForm => out := EvalApply(items, env, frame, fuel);
      }
    }

    method EvalDef(items: seq<Node>, env: Env, fuel: nat, ghost frame: LoopFrame) returns (out: Outcome)
      requires Valid() && env.frames != []
      modifies this, env
      ensures depth == old(depth)
      ensures Step(out, env.frames) == S.EvalDef(Now(fuel, frame), items, old(env.frames))
      decreases fuel, items, 2
    {
      hide S.Eval, Scopes.Define;
      if |items| != 3 {
        return Fail(Arity);
      }
      var name := SymbolName(items[1]);
      if name.None? {
        return Fail(InvalidBindingTarget);
      }
      out := Run(items[2], env, fuel);
      if out.Done? {
        env.Define(name.value, out.value);
        out := Done(V.Unit);
      }
    }

    method EvalSetBang(items: seq<Node>, env: Env, fuel: nat, ghost frame: LoopFrame) returns (out: Outcome)
      requires Valid() && env.frames != []
      modifies this, env
      ensures depth == old(depth)
      ensures Step(out, env.frames) == S.EvalSet(Now(fuel, frame), items, old(env.frames))
      decreases fuel, items, 2
    {
      hide S.Eval, Assign;
      if |items| != 3 {
        return Fail(Arity);
      }
      var name := SymbolName(items[1]);
      if name.None? {
        return Fail(InvalidBindingTarget);
      }
      out := Eval(items[2], env, None, fuel);
      if !out.Done? {
        return NoRecur(out);
      }
      var found := env.Set(name.value, out.value);
      out := if found then Done(V.Unit) else Fail(UnboundSymbol(None, name.value));
    }

    method EvalFn(items: seq<Node>, env: Env) returns (out: Outcome)
      ensures Step(out, env.frames) == S.EvalFn(items, env.frames)
    {
      if |items| < 3 || !items[1].kind.Vector? {
        return Fail(Arity);
      }
      var params := ParseParams(items[1].kind.items);
      match params {
        case Err(e) => out := Fail(e);
        case Ok(ps) =>
          out := Done(V.Function(V.Closure(None, ps.names, ps.rest, Flatten(env.frames), items[2..], [], [])));
      }
    }

    method EvalDefn(items: seq<Node>, env: Env) returns (out: Outcome)
      requires env.frames != []
      modifies env
      ensures Step(out, env.frames) == S.EvalDefn(items, old(env.frames))
    {
      hide Scopes.Define, Flatten, ParamsFrom, ContractsFrom;
      if |items| < 4 {
        return Fail(Arity);
      }
      if items[1].kind.Atomic? && items[1].kind.atom.Symbol? && items[1].kind.atom.ns.Some? {
        return Fail(Unmodelled);
      }
      var name := SymbolName(items[1]);
      if name.None? {
        return Fail(InvalidBindingTarget);
      }
      var bodyStart := if IsDocstring(items[2]) then 4 else 3;
      if bodyStart > |items| - 1 {
        return Fail(Arity);
      }
      var found := ScanContracts(items, bodyStart);
      if found.start >= |items| {
        return Fail(Arity);
      }
      out := EvalFn([items[0], items[bodyStart - 1]] + items[found.start..], env);
      if out.Done? {
        var f := out.value.func.(name := name, pre := found.pre, post := found.post);
        env.Define(name.value, V.Function(f));
        out := Done(V.Unit);
      }
    }

    method EvalIf(items: seq<Node>, env: Env, frame: LoopFrame, fuel: nat) returns (out: Outcome)
      requires Valid() && env.frames != []
      modifies this, env
      ensures depth == old(depth)
      ensures Step(out, env.frames) == S.EvalIf(Now(fuel, frame), items, old(env.frames))
      decreases fuel, items, 2
    {
      hide S.Eval;
      if |items| != 4 {
        return Fail(Arity);
      }
      out := Eval(items[1], env, frame, fuel);
      if !out.Done? {
        return;
      }
      if !out.value.Bool? {
        return Fail(InvalidConditionType);
      }
      if out.value.b {
        out := Eval(items[2], env, frame, fuel);
      } else {
        out := Eval(items[3], env, frame, fuel);
      }
    }

    /** `eval_and` and `eval_or`: stops at the first operand equal to `stop`. */
    method EvalJunction(items: seq<Node>, stop: bool, env: Env, frame: LoopFrame, fuel: nat) returns (out: Outcome)
      requires Valid() && env.frames != [] && items != []
      modifies this, env
      ensures depth == old(depth)
      ensures Step(out, env.frames) == S.EvalJunction(Now(fuel, frame), items, 1, stop, old(env.frames))
      decreases fuel, items, 1
    {
      hide S.Eval;
      ghost var c := Now(fuel, frame);
      for i := 1 to |items|
        invariant depth == old(depth) && env.frames != []
        invariant S.EvalJunction(c, items, 1, stop, old(env.frames)) == S.EvalJunction(c, items, i, stop, env.frames)
      {
        out := Eval(items[i], env, frame, fuel);
        if !out.Done? {
          return;
        }
        if !out.value.Bool? {
          return Fail(InvalidConditionType);
        }
        if out.value.b == stop {
          return Done(V.Bool(stop));
        }
      }
      out := Done(V.Bool(!stop));
    }

    method EvalCond(items: seq<Node>, env: Env, frame: LoopFrame, fuel: nat) returns (out: Outcome)
      requires Valid() && env.frames != [] && |items| >= 3 && |items| % 2 == 1
      modifies this, env
      ensures depth == old(depth)
      ensures Step(out, env.frames) == S.EvalCond(Now(fuel, frame), items, 1, old(env.frames))
      decreases fuel, items, 1
    {
      hide S.Eval, IsElse;
      ghost var c := Now(fuel, frame);
      var i := 1;
      while i < |items|
        invariant i <= |items| && i % 2 == 1 && depth == old(depth) && env.frames != []
        invariant S.EvalCond(c, items, 1, old(env.frames)) == S.EvalCond(c, items, i, env.frames)
        decreases |items| - i
      {
        if IsElse(items[i]) {
          out := Eval(items[i + 1], env, frame, fuel);
          return;
        }
        out := Eval(items[i], env, frame, fuel);
        if !out.Done? {
          return;
        }
        if !out.value.Bool? {
          return Fail(InvalidConditionType);
        }
        if out.value.b {
          out := Eval(items[i + 1], env, frame, fuel);
          return;
        }
        i := i + 2;
      }
      out := Done(V.Unit);
    }

    method EvalPanic(items: seq<Node>, env: Env, frame: LoopFrame, fuel: nat) returns (out: Outcome)
      requires Valid() && env.frames != []
      modifies this, env
      ensures depth == old(depth)
      ensures Step(out, env.frames) == S.EvalPanic(Now(fuel, frame), items, old(env.frames))
      decreases fuel, items, 2
    {
      hide S.Eval;
      if |items| != 2 {
        return Fail(Arity);
      }
      out := Eval(items[1], env, frame, fuel);
      out := if out.Done? then Fail(Panic(Message(PanicText(world, out.value)))) else NoRecur(out);
    }

    method EvalQuestion(items: seq<Node>, env: Env, frame: LoopFrame, fuel: nat) returns (out: Outcome)
      requires Valid() && env.frames != []
      modifies this, env
      ensures depth == old(depth)
      ensures Step(out, env.frames) == S.EvalQuestion(Now(fuel, frame), items, old(env.frames))
      decreases fuel, items, 2
    {
      hide S.Eval, Unwrap;
      if |items| != 2 {
        return Fail(Arity);
      }
      out := Eval(items[1], env, frame, fuel);
      out := if out.Done? then Lift(Unwrap(out.value)) else NoRecur(out);
    }

    // -------------------------------------------------------------------------------------------
    // let and match
    // -------------------------------------------------------------------------------------------

    method EvalLet(items: seq<Node>, env: Env, frame: LoopFrame, fuel: nat) returns (out: Outcome)
      requires Valid() && env.frames != []
      modifies this, env
      ensures depth == old(depth)
      ensures Step(out, env.frames) == S.EvalLet(Now(fuel, frame), items, old(env.frames))
      decreases fuel, items, 2
    {
      hide S.LetFrom, Push, Pop;
      if |items| < 3 || !items[1].kind.Vector? {
        return Fail(Arity);
      }
      env.EnterChild(map[]);
      out := EvalLetBindings(items, env, frame, fuel);
      env.LeaveChild();
    }

    /** The index-driven loop over bindings, then the body, in the child environment. */
    method EvalLetBindings(items: seq<Node>, env: Env, frame: LoopFrame, fuel: nat) returns (out: Outcome)
      requires Valid() && env.frames != [] && |items| >= 3 && items[1].kind.Vector?
      modifies this, env
      ensures depth == old(depth)
      ensures Step(out, env.frames) == S.LetFrom(Now(fuel, frame), items, 0, old(env.frames))
      decreases fuel, items, 1
    {
      hide S.Eval, S.EvalBody, PatternOf, Match, DefineAll, BindingAt;
      ghost var c := Now(fuel, frame);
      var bindings := items[1].kind.items;
      var i := 0;
      while i < |bindings|
        invariant i <= |bindings| && depth == old(depth) && env.frames != []
        invariant S.LetFrom(c, items, 0, old(env.frames)) == S.LetFrom(c, items, i, env.frames)
        decreases |bindings| - i
      {
        var part := NextBinding(bindings, i);
        if part.None? {
          return Fail(Arity);
        }
        out := Eval(bindings[part.value.value], env, None, fuel);
        if !out.Done? {
          return NoRecur(out);
        }
        var pattern := ParsePattern(bindings[part.value.pattern]);
        if pattern.Err? {
          return Fail(NativeError(BadPattern(pattern.error)));
        }
        var pairs := new Bindings();
        var fits := MatchPattern(pattern.value, out.value, pairs);
        if !fits {
          if part.value.fallback.None? {
            return Fail(NativeError(NoMatch(out.value)));
          }
          out := Eval(bindings[part.value.fallback.value], env, frame, fuel);
          return;
        }
        assert [] + Match(pattern.value, out.value).value == Match(pattern.value, out.value).value;
        env.DefineEach(pairs.list);
        i := part.value.next;
      }
      out := EvalBody(items, 2, env, frame, fuel);
    }

    /** The loop over arms. */
    method EvalMatch(items: seq<Node>, env: Env, frame: LoopFrame, fuel: nat) returns (out: Outcome)
      requires Valid() && env.frames != []
      modifies this, env
      ensures depth == old(depth)
      ensures Step(out, env.frames) == S.EvalMatch(Now(fuel, frame), items, old(env.frames))
      decreases fuel, items, 2
    {
      hide S.Eval, S.EvalArms;
      if |items| < 4 || (|items| - 2) % 2 != 0 {
        return Fail(Arity);
      }
      out := Eval(items[1], env, frame, fuel);
      if out.Done? {
        out := EvalArms(items, out.value, env, frame, fuel);
      }
    }

    method EvalArms(items: seq<Node>, scrutinee: V.Value, env: Env, frame: LoopFrame, fuel: nat) returns (out: Outcome)
      requires Valid() && env.frames != [] && |items| >= 4 && |items| % 2 == 0
      modifies this, env
      ensures depth == old(depth)
      ensures Step(out, env.frames) == S.EvalArms(Now(fuel, frame), items, 2, scrutinee, old(env.frames))
      decreases fuel, items, 1
    {
      hide S.Eval, PatternOf, Match, Push, Pop, BindAll, DefineAll;
      ghost var c := Now(fuel, frame);
      var i := 2;
      while i < |items|
        invariant i <= |items| && i % 2 == 0 && depth == old(depth) && env.frames == old(env.frames)
        invariant S.EvalArms(c, items, 2, scrutinee, env.frames) == S.EvalArms(c, items, i, scrutinee, env.frames)
        decreases |items| - i
      {
        var pattern := ParsePattern(items[i]);
        if pattern.Err? {
          return Fail(NativeError(BadPattern(pattern.error)));
        }
        var bindings := new Bindings();
        var fits := MatchPattern(pattern.value, scrutinee, bindings);
        if fits {
          assert [] + Match(pattern.value, scrutinee).value == Match(pattern.value, scrutinee).value;
          env.EnterChild(map[]);
          env.DefineEach(bindings.list);
          PushDefined(old(env.frames), bindings.list);
          out := Eval(items[i + 1], env, frame, fuel);
          env.LeaveChild();
          return;
        }
        i := i + 2;
      }
      out := Fail(NativeError(NoMatch(scrutinee)));
    }

    // -------------------------------------------------------------------------------------------
    // loop and recur
    // -------------------------------------------------------------------------------------------

    method EvalLoop(items: seq<Node>, env: Env, fuel: nat, ghost frame: LoopFrame) returns (out: Outcome)
      requires Valid() && env.frames != []
      modifies this, env
      ensures depth == old(depth)
      ensures Step(out, env.frames) == S.EvalLoop(Now(fuel, frame), items, old(env.frames))
      decreases fuel, items, 2
    {
      hide S.LoopNames, S.Rounds, Push, Pop;
      if |items| < 3 || !items[1].kind.Vector? || |items[1].kind.items| % 2 != 0 {
        return Fail(Arity);
      }
      env.EnterChild(map[]);
      var names;
      out, names := EvalLoopBindings(items[1].kind.items, env, fuel);
      if out.Done? {
        out := EvalRounds(items, names, env, fuel);
      } else {
        out := NoRecur(out);
      }
      env.LeaveChild();
    }

    method EvalLoopBindings(bindings: seq<Node>, env: Env, fuel: nat) returns (out: Outcome, names: seq<string>)
      requires Valid() && env.frames != [] && |bindings| % 2 == 0
      modifies this, env
      ensures depth == old(depth)
      ensures S.LoopNames(Now(fuel, None), bindings, 0, [], old(env.frames)) ==
              if out.Done? then All(names, env.frames) else Stopped(out, env.frames)
      decreases fuel, bindings, 1
    {
      hide S.Eval, Scopes.Define, SymbolName;
      ghost var c := Now(fuel, None);
      var i := 0;
      names := [];
      while i < |bindings|
        invariant i <= |bindings| && i % 2 == 0 && depth == old(depth) && env.frames != []
        invariant S.LoopNames(c, bindings, 0, [], old(env.frames)) == S.LoopNames(c, bindings, i, names, env.frames)
        decreases |bindings| - i
      {
        var name := SymbolName(bindings[i]);
        if name.None? {
          return Fail(InvalidBindingTarget), names;
        }
        out := Eval(bindings[i + 1], env, None, fuel);
        if !out.Done? {
          return;
        }
        env.Define(name.value, out.value);
        names, i := names + [name.value], i + 2;
      }
      out := Done(V.Unit);
    }

    /** The `'lo` loop: evaluates the body and rebinds the names until the body ends without `recur`. */
    method EvalRounds(items: seq<Node>, names: seq<string>, env: Env, fuel: nat) returns (out: Outcome)
      requires Valid() && env.frames != [] && |items| >= 3
      modifies this, env
      ensures depth == old(depth)
      ensures Step(out, env.frames) == S.Rounds(Now(fuel, Some(names)), items, old(env.frames))
      decreases fuel, items, 1
    {
      hide S.EvalBody, DefineAll;
      var left: nat := fuel;
      while true
        invariant left <= fuel && depth == old(depth) && env.frames != []
        invariant S.Rounds(Now(fuel, Some(names)), items, old(env.frames)) ==
                  S.Rounds(Now(left, Some(names)), items, env.frames)
        decreases left
      {
        out := EvalBody(items, 2, env, Some(names), left);
        if !out.Again? {
          return;
        }
        if |out.values| != |names| {
          return Fail(Arity);
        }
        if left == 0 {
          return Fail(OutOfFuel);
        }
        env.DefineEach(Zip(names, out.values));
        left := left - 1;
      }
    }

    method EvalRecur(items: seq<Node>, env: Env, frame: LoopFrame, fuel: nat) returns (out: Outcome)
      requires Valid() && env.frames != [] && items != []
      modifies this, env
      ensures depth == old(depth)
      ensures Step(out, env.frames) == S.EvalRecur(Now(fuel, frame), items, old(env.frames))
      decreases fuel, items, 2
    {
      hide S.EvalArgs;
      if frame.None? {
        return Fail(InvalidRecur);
      }
      if |items| - 1 != |frame.value| {
        return Fail(Arity);
      }
      var values;
      out, values := EvalItems(items, 1, env, frame, fuel);
      if out.Done? {
        out := Again(values);
      }
    }

    // -------------------------------------------------------------------------------------------
    // for
    // -------------------------------------------------------------------------------------------

    method EvalFor(items: seq<Node>, env: Env, fuel: nat, ghost frame: LoopFrame) returns (out: Outcome)
      requires Valid() && env.frames != []
      modifies this, env
      ensures depth == old(depth)
      ensures Step(out, env.frames) == S.EvalFor(Now(fuel, frame), items, old(env.frames))
      decreases fuel, items, 2
    {
      hide S.ForRows;
      if |items| < 3 || !items[1].kind.Vector? {
        return Fail(Arity);
      }
      var output := new Output();
      var control := EvalForBindings(items, 0, env, output, fuel);
      assert forall values: seq<V.Value> :: [] + values == values;
      out := if control.Failed? then Fail(control.error) else Done(V.Vec(output.list));
    }

    method EvalForBindings(items: seq<Node>, i: nat, env: Env, output: Output, fuel: nat) returns (control: Control)
      requires Valid() && env.frames != [] && |items| >= 3 && items[1].kind.Vector?
      modifies this, env, output
      ensures depth == old(depth)
      ensures env.frames == S.ForRows(Now(fuel, None), items, i, old(env.frames)).env
      ensures Emitted(output, control, S.ForRows(Now(fuel, None), items, i, old(env.frames)).rows)
      decreases fuel, items, 1, |items[1].kind.items| - i
    {
      hide S.Eval, S.EvalBody, S.ForScope, S.ForEach, ClauseOf, Elements, S.Error;
      var bindings := items[1].kind.items;
      if i >= |bindings| {
        var last := EvalBody(items, 2, env, None, fuel);
        if !last.Done? {
          return Failed(S.Error(last));
        }
        output.list := output.list + [last.value];
        return Continue;
      }
      var clause := ClauseOf(bindings[i]);
      if clause.NoClause? || i + 1 >= |bindings| {
        return Failed(Arity);
      }
      if clause.LetClause? {
        control := EvalForScope(items, i, env, output, fuel);
        return;
      }
      var r := Eval(bindings[i + 1], env, None, fuel);
      if !r.Done? {
        return Failed(S.Error(r));
      }
      if clause.Generator? {
        var elements := Elements(r.value);
        if elements.Err? {
          return Failed(elements.error);
        }
        control := EvalForElements(items, i, clause.name, elements.value, env, output, fuel);
        return;
      }
      if !r.value.Bool? {
        return Failed(NativeError(NotBool(r.value)));
      }
      if r.value.b {
        control := EvalForBindings(items, i + 2, env, output, fuel);
      } else {
        control := if clause.While? then Break else Continue;
      }
    }

    method EvalForScope(items: seq<Node>, i: nat, env: Env, output: Output, fuel: nat) returns (control: Control)
      requires Valid() && env.frames != [] && |items| >= 3 && items[1].kind.Vector? && i + 1 < |items[1].kind.items|
      modifies this, env, output
      ensures depth == old(depth)
      ensures env.frames == S.ForScope(Now(fuel, None), items, i, old(env.frames)).env
      ensures Emitted(output, control, S.ForScope(Now(fuel, None), items, i, old(env.frames)).rows)
      decreases fuel, items, 1, |items[1].kind.items| - i, 0
    {
      hide S.ForRows, S.ForLet, Push, Pop, S.Error;
      var target := items[1].kind.items[i + 1];
      if !target.kind.Vector? || |target.kind.items| % 2 != 0 {
        return Failed(Arity);
      }
      env.EnterChild(map[]);
      var r := EvalForLetBindings(target.kind.items, env, fuel);
      if r.Done? {
        control := EvalForBindings(items, i + 2, env, output, fuel);
      } else {
        control := Failed(S.Error(r));
      }
      env.LeaveChild();
    }

    method EvalForLetBindings(bindings: seq<Node>, env: Env, fuel: nat) returns (out: Outcome)
      requires Valid() && env.frames != []
      modifies this, env
      ensures depth == old(depth)
      ensures S.ForLet(Now(fuel, None), bindings, 0, old(env.frames)) ==
              if out.Done? then All([], env.frames) else Stopped(out, env.frames)
      decreases fuel, bindings, 1
    {
      hide S.Eval, Scopes.Define, IsMut, SymbolName;
      ghost var c := Now(fuel, None);
      var i := 0;
      while i < |bindings|
        invariant i <= |bindings| && depth == old(depth) && env.frames != []
        invariant S.ForLet(c, bindings, 0, old(env.frames)) == S.ForLet(c, bindings, i, env.frames)
        decreases |bindings| - i
      {
        ghost var start := i;
        if IsMut(bindings[i]) {
          i := i + 1;
        }
        if i >= |bindings| {
          return Fail(Arity);
        }
        var name := SymbolName(bindings[i]);
        if name.None? {
          return Fail(InvalidBindingTarget);
        }
        i := i + 1;
        if i >= |bindings| {
          return Fail(Arity);
        }
        assert ScopeAt(bindings, start) == Ok(ScopeBinding(name.value, i, i + 1));
        out := Eval(bindings[i], env, None, fuel);
        if !out.Done? {
          return;
        }
        env.Define(name.value, out.value);
        i := i + 1;
      }
      out := Done(V.Unit);
    }

    /** The loop over the elements of a generator. */
    method EvalForElements(
      items: seq<Node>, i: nat, name: string, elements: seq<V.Value>, env: Env, output: Output, fuel: nat)
      returns (control: Control)
      requires Valid() && env.frames != [] && |items| >= 3 && items[1].kind.Vector? && i < |items[1].kind.items|
      modifies this, env, output
      ensures depth == old(depth)
      ensures env.frames == S.ForEach(Now(fuel, None), items, i, name, elements, 0, old(env.frames)).env
      ensures Emitted(output, control, S.ForEach(Now(fuel, None), items, i, name, elements, 0, old(env.frames)).rows)
      decreases fuel, items, 1, |items[1].kind.items| - i, 0
    {
      hide S.ForRows, S.ForEach, After, Push, Pop;
      ghost var c, emitted := Now(fuel, None), [];
      NothingYet(S.ForEach(c, items, i, name, elements, 0, env.frames));
      for k := 0 to |elements|
        invariant depth == old(depth) && env.frames != [] && output.list == old(output.list) + emitted
        invariant S.ForEach(c, items, i, name, elements, 0, old(env.frames)) ==
                  After(emitted, S.ForEach(c, items, i, name, elements, k, env.frames))
      {
        ghost var before := output.list;
        ghost var f := S.ForRows(c, items, i + 2, Push(env.frames, map[name := elements[k]]));
        ElementNext(c, items, i, name, elements, k, env.frames, emitted);
        env.EnterChild(map[name := elements[k]]);
        control := EvalForBindings(items, i + 2, env, output, fuel);
        env.LeaveChild();
        if control.Failed? {
          return;
        }
        assert output.list == before + f.rows.values;
        emitted := emitted + f.rows.values;
        if control.Break? {
          return Continue;
        }
      }
      ElementsEnd(c, items, i, name, elements, env.frames, emitted);
      control := Continue;
    }

    // -------------------------------------------------------------------------------------------
    // Calls
    // -------------------------------------------------------------------------------------------

    method EvalApply(items: seq<Node>, env: Env, frame: LoopFrame, fuel: nat) returns (out: Outcome)
      requires Valid() && env.frames != [] && items != []
      modifies this, env
      ensures depth == old(depth)
      ensures Step(out, env.frames) == S.EvalApply(Now(fuel, frame), items, old(env.frames))
      decreases fuel, items, 2
    {
      hide S.Eval, S.EvalArgs, S.ApplyClosure, KeywordLookup;
      out := Eval(items[0], env, frame, fuel);
      if !out.Done? {
        return;
      }
      var callee := out.value;
      match callee {
        case Native(name) =>
          var args;
          out, args := EvalItems(items, 1, env, frame, fuel);
          if out.Done? {
            out := Natively(world, name, args);
          }
        case Keyword(_, _) =>
          if |items| != 2 {
            return Fail(Arity);
          }
          out := Eval(items[1], env, frame, fuel);
          if out.Done? {
            out := Lift(KeywordLookup(callee, out.value));
          }
        case Function(f) =>
          var ok := EnterCall();
          if !ok {
            return Fail(StackOverflow);
          }
          out := ApplyClosure(f, items, env, frame, fuel);
          LeaveCall();
        case _ => out := Fail(InvalidCallable);
      }
    }

    /** The rest of `eval_apply` under the depth guard: arguments are evaluated one by one into the call environment. */
    method ApplyClosure(f: V.Closure, items: seq<Node>, env: Env, frame: LoopFrame, fuel: nat) returns (out: Outcome)
      requires Valid() && env.frames != [] && items != []
      modifies this, env
      ensures depth == old(depth)
      ensures Step(out, env.frames) == S.ApplyClosure(Now(fuel, frame), f, items, old(env.frames))
      decreases fuel, items, 1
    {
      hide S.Eval, S.Enter, Scopes.Define, BindAll, Zip;
      ghost var c := Now(fuel, frame);
      if !Accepts(f, |items| - 1) {
        return Fail(Arity);
      }
      var call := NewCall(f);
      ghost var args := [];
      ParamsNone(f);
      for i := 0 to |f.params|
        invariant depth == old(depth) && env.frames != [] && |args| == i
        invariant call.frames == [BindAll(OwnFrame(f), Zip(f.params[..i], args))]
        invariant S.EvalArgs(c, items, 1, [], old(env.frames)) == S.EvalArgs(c, items, i + 1, args, env.frames)
      {
        out := Eval(items[i + 1], env, frame, fuel);
        if !out.Done? {
          return;
        }
        call.Define(f.params[i], out.value);
        ParamsStep(f, args, out.value);
        args := args + [out.value];
      }
      if f.rest.Some? {
        ghost var bound := args;
        var rest := [];
        for i := |f.params| + 1 to |items|
          invariant depth == old(depth) && env.frames != [] && args == bound + rest && |args| == i - 1
          invariant call.frames == [BindAll(OwnFrame(f), Zip(f.params[..|f.params|], bound))]
          invariant S.EvalArgs(c, items, 1, [], old(env.frames)) == S.EvalArgs(c, items, i, args, env.frames)
        {
          out := Eval(items[i], env, frame, fuel);
          if !out.Done? {
            return;
          }
          rest := rest + [out.value];
          args := args + [out.value];
        }
        call.Define(f.rest.value, V.Vec(rest));
        ParamsDone(f, bound, rest);
      } else {
        ParamsDone(f, args, []);
        assert args + [] == args;
      }
      if fuel == 0 {
        return Fail(OutOfFuel);
      }
      out := EnterBody(f, args, call, frame, fuel - 1);
    }

    method NewCall(f: V.Closure) returns (call: Env)
      ensures fresh(call) && call.frames == [OwnFrame(f)]
    {
      call := new Env(f.captures);
      if f.name.Some? {
        call.Define(f.name.value, V.Function(f));
      }
    }

    /** `apply_value`: a call on values, outside any loop. */
    method ApplyValue(callee: V.Value, args: seq<V.Value>, fuel: nat) returns (out: Outcome)
      requires Valid()
      modifies this
      ensures depth == old(depth)
      ensures out == S.ApplyValue(Now(fuel, None), callee, args)
      decreases fuel
    {
      hide S.Enter, KeywordLookup;
      match callee {
        case Native(name) => out := Natively(world, name, args);
        case Keyword(_, _) =>
          if |args| != 1 {
            return Fail(Arity);
          }
          out := Lift(KeywordLookup(callee, args[0]));
        case Function(f) =>
          var ok := EnterCall();
          if !ok {
            return Fail(StackOverflow);
          }
          out := ApplyToValues(f, args, fuel);
          LeaveCall();
        case _ => out := Fail(InvalidCallable);
      }
    }

    /** The rest of `apply_value` under the depth guard. */
    method ApplyToValues(f: V.Closure, args: seq<V.Value>, fuel: nat) returns (out: Outcome)
      requires Valid()
      modifies this
      ensures depth == old(depth)
      ensures out == if !Accepts(f, |args|) then Fail(Arity)
                     else if fuel == 0 then Fail(OutOfFuel)
                     else S.Enter(Now(fuel - 1, None), f, args)
      decreases fuel, 0
    {
      hide S.Enter, Scopes.Define, BindAll, Zip;
      if !Accepts(f, |args|) {
        return Fail(Arity);
      }
      var call := NewCall(f);
      ParamsNone(f);
      for i := 0 to |f.params|
        invariant depth == old(depth) && call.frames == [BindAll(OwnFrame(f), Zip(f.params[..i], args[..i]))]
      {
        call.Define(f.params[i], args[i]);
        ParamsStep(f, args[..i], args[i]);
        assert args[..i + 1] == args[..i] + [args[i]];
      }
      if f.rest.Some? {
        call.Define(f.rest.value, V.Vec(args[|f.params|..]));
      }
      assert args == args[..|f.params|] + args[|f.params|..];
      ParamsDone(f, args[..|f.params|], args[|f.params|..]);
      if fuel == 0 {
        return Fail(OutOfFuel);
      }
      out := EnterBody(f, args, call, None, fuel - 1);
      out := NoRecur(out);
    }

    /** Preconditions, body and postconditions of a call. An early return skips the postconditions. */
    method EnterBody(f: V.Closure, ghost args: seq<V.Value>, call: Env, frame: LoopFrame, fuel: nat)
      returns (out: Outcome)
      requires Valid() && Accepts(f, |args|) && call.frames == [CallFrame(f, args)]
      modifies this, call
      ensures depth == old(depth)
      ensures out == S.Enter(Now(fuel, frame), f, args)
      decreases fuel
    {
      hide S.Eval, S.EvalBody, S.Conditions, CallFrame, Accepts, Push;
      out := CheckConditions(f.pre, Precondition, call, fuel);
      if !out.Done? {
        return;
      }
      out := EvalBody(f.body, 0, call, frame, fuel);
      if out.Fail? && out.error.EarlyReturn? {
        return Done(out.error.value);
      }
      if !out.Done? || f.post == [] {
        return;
      }
      call.EnterChild(map["result" := out.value]);
      var holds := CheckConditions(f.post, Postcondition, call, fuel);
      if !holds.Done? {
        out := holds;
      }
    }

    method CheckConditions(exprs: seq<Node>, reason: Reason, env: Env, fuel: nat) returns (out: Outcome)
      requires Valid() && env.frames != []
      modifies this, env
      ensures depth == old(depth)
      ensures Step(out, env.frames) == S.Conditions(Now(fuel, None), exprs, 0, reason, old(env.frames))
      decreases fuel, exprs, 1
    {
      hide S.Eval;
      ghost var c := Now(fuel, None);
      for i := 0 to |exprs|
        invariant depth == old(depth) && env.frames != []
        invariant S.Conditions(c, exprs, 0, reason, old(env.frames)) == S.Conditions(c, exprs, i, reason, env.frames)
      {
        out := Eval(exprs[i], env, None, fuel);
        if !out.Done? {
          return NoRecur(out);
        }
        if !out.value.Bool? {
          return Fail(InvalidConditionType);
        }
        if !out.value.b {
          return Fail(Panic(reason));
        }
      }
      out := Done(V.Unit);
    }
  }

  /** The output grew by exactly the rows, and the control says whether a `:while` failed. */
  twostate predicate Emitted(output: Output, control: Control, new rows: Rows)
    reads output
  {
    match rows
    case Yield(values, stop) =>
      control == (if stop then Break else Continue) && output.list == old(output.list) + values
    case Abort(e) => control == Failed(e)
  }

  function After(emitted: seq<V.Value>, f: ForStep): ForStep {
    match f.rows
    case Yield(values, stop) => ForStep(Yield(emitted + values, stop), f.env)
    case Abort(_) => f
  }

  lemma NothingYet(f: ForStep)
    ensures After([], f) == f
  {
    if f.rows.Yield? { assert [] + f.rows.values == f.rows.values; }
  }

  /** One turn of the generator loop. */
  lemma ElementNext(
    c: S.Context, items: seq<Node>, i: nat, name: string, vs: seq<V.Value>, k: nat, env: Chain, emitted: seq<V.Value>)
    requires env != [] && |items| >= 3 && items[1].kind.Vector? && i < |items[1].kind.items| && k < |vs|
    ensures var f := S.ForRows(c, items, i + 2, Push(env, map[name := vs[k]]));
            After(emitted, S.ForEach(c, items, i, name, vs, k, env)) ==
            match f.rows
            case Abort(e) => ForStep(Abort(e), Pop(f.env))
            case Yield(values, stop) =>
              if stop then ForStep(Yield(emitted + values, false), Pop(f.env))
              else After(emitted + values, S.ForEach(c, items, i, name, vs, k + 1, Pop(f.env)))
  {
    hide S.ForRows, Push, Pop;
    var f := S.ForRows(c, items, i + 2, Push(env, map[name := vs[k]]));
    if f.rows.Yield? && !f.rows.stop {
      var rest := S.ForEach(c, items, i, name, vs, k + 1, Pop(f.env));
      if rest.rows.Yield? {
        assert emitted + (f.rows.values + rest.rows.values) == (emitted + f.rows.values) + rest.rows.values;
      }
    }
  }

  lemma ElementsEnd(
    c: S.Context, items: seq<Node>, i: nat, name: string, vs: seq<V.Value>, env: Chain, emitted: seq<V.Value>)
    requires env != [] && |items| >= 3 && items[1].kind.Vector? && i < |items[1].kind.items|
    ensures After(emitted, S.ForEach(c, items, i, name, vs, |vs|, env)) == ForStep(Yield(emitted, false), env)
  {
    hide S.ForRows;
    assert emitted + [] == emitted;
  }

  lemma ParamsNone(f: V.Closure)
    ensures BindAll(OwnFrame(f), Zip(f.params[..0], [])) == OwnFrame(f)
  {
  }

  lemma ParamsStep(f: V.Closure, args: seq<V.Value>, v: V.Value)
    requires |args| < |f.params|
    ensures var i := |args|;
            Scopes.Define([BindAll(OwnFrame(f), Zip(f.params[..i], args))], f.params[i], v) ==
            [BindAll(OwnFrame(f), Zip(f.params[..i + 1], args + [v]))]
  {
    var i := |args|;
    var bs := Zip(f.params[..i + 1], args + [v]);
    assert bs[..i] == Zip(f.params[..i], args);
  }

  lemma ParamsDone(f: V.Closure, bound: seq<V.Value>, rest: seq<V.Value>)
    requires |bound| == |f.params| && Accepts(f, |bound| + |rest|)
    ensures var frame := BindAll(OwnFrame(f), Zip(f.params[..|f.params|], bound));
            [CallFrame(f, bound + rest)] ==
            if f.rest.Some? then Scopes.Define([frame], f.rest.value, V.Vec(rest)) else [frame]
  {
    assert f.params[..|f.params|] == f.params;
    assert Zip(f.params, bound + rest) == Zip(f.params, bound);
    assert (bound + rest)[|f.params|..] == rest;
  }

  lemma PushDefined(env: Chain, bs: seq<Bind>)
    ensures DefineAll(Push(env, map[]), bs) == Push(env, BindAll(map[], bs))
  {
    assert Push(env, map[])[..|env|] == env;
  }
}
