/**
 What evaluation computes (crates/nexl-eval/src/eval.rs), as functions from the environment before to the outcome and
 the environment after. `fuel` bounds calls, loop rounds and embedded expressions; `SameRun` shows that it does not
 matter.
*/
module Semantics {
  import opened Basics
  import opened Ast
  import opened Patterns
  import opened Scopes
  import opened SpecialForms
  import I = Interpolation
  import V = Values

  const MAX_CALL_DEPTH: nat := 10000

  /** Everything outside the evaluator: native functions, module aliases, the reader and value printing. */
  datatype World = World(
    native: (string, seq<V.Value>) -> Result<V.Value, string>,
    modules: map<string, map<string, V.Value>>,
    read: I.Reader,
    show: V.Value -> string,
    typeName: V.Value -> string)

  type LoopFrame = Option<seq<string>>

  datatype Context = Context(world: World, fuel: nat, depth: nat, frame: LoopFrame)

  /** `Done` and `Again` are `EvalReturn::Value` and `EvalReturn::Recur`. */
  datatype Outcome = Done(value: V.Value) | Again(values: seq<V.Value>) | Fail(error: EvalError)

  datatype Step = Step(out: Outcome, env: Chain)

  /** `Recur` appears only inside a loop, with one value per loop name. */
  predicate Disciplined(c: Context, out: Outcome) {
    out.Again? ==> c.frame.Some? && |out.values| == |c.frame.value|
  }

  function NoLoop(c: Context): Context {
    c.(frame := None)
  }

  /** Where the source turns a stray `Recur` into an error. */
  function NoRecur(out: Outcome): Outcome {
    if out.Again? then Fail(InvalidRecur) else out
  }

  function Lift(r: Result<V.Value, EvalError>): Outcome {
    match r
    case Ok(v) => Done(v)
    case Err(e) => Fail(e)
  }

  /** A list of results, or the first outcome that is not a value. */
  datatype Gather<T> = All(items: seq<T>, env: Chain) | Stopped(out: Outcome, env: Chain)

  // ---------------------------------------------------------------------------------------------
  // Nodes
  // ---------------------------------------------------------------------------------------------

  /** `eval_with_loop`. */
  function Eval(c: Context, node: Node, env: Chain): (r: Step)
    requires env != []
    ensures Disciplined(c, r.out) && |r.env| == |env|
    ensures Within(QUIET, node) ==> r.env == env
    ensures Within(SETLESS, node) ==> Pop(r.env) == Pop(env)
    decreases c.fuel, node
  {
    match node.kind
    case Atomic(a) => EvalAtom(c, a, env)
    case List(items) => EvalList(c, items, env)
    case Vector(items) => Collected(EvalArgs(c, items, 0, [], env), true)
    case Set(items) => Collected(EvalArgs(c, items, 0, [], env), false)
    case Map(pairs) => EvalPairs(c, pairs, 0, [], env)
    case Prefixed(prefix, _) => Step(if prefix == Discard then Done(V.Unit) else Fail(Todo), env)
  }

  function Collected(g: Gather<V.Value>, vector: bool): Step {
    match g
    case All(vs, env) => Step(Done(if vector then V.Vec(vs) else V.Set(vs)), env)
    case Stopped(out, env) => Step(NoRecur(out), env)
  }

  function Constant(a: Atom): V.Value {
    match a
    case Int(n, _) => V.Int(V.Wrap(n))
    case Float(digits, _) => V.Float(digits)
    case Ratio(p, q) => V.Ratio(V.Wrap(p), V.Wrap(q))
    case Bool(b) => V.Bool(b)
    case Char(ch) => V.Char(ch)
    case Keyword(ns, name) => V.Keyword(ns, name)
    case _ => V.Unit
  }

  function Qualified(w: World, alias: string, name: string): Outcome {
    if alias !in w.modules then Fail(NativeError(UnhandledEffect(alias, name)))
    else if name !in w.modules[alias] then Fail(UnboundSymbol(Some(alias), name))
    else Done(w.modules[alias][name])
  }

  function Unqualified(env: Chain, name: string): Outcome {
    match Lookup(env, name)
    case None => Fail(UnboundSymbol(None, name))
    case Some(v) => Done(v)
  }

  function EvalAtom(c: Context, a: Atom, env: Chain): (r: Step)
    requires env != []
    ensures !r.out.Again? && |r.env| == |env|
    ensures (a.Str? ==> !HasBrace(a.s)) ==> r.env == env
    decreases c.fuel, a
  {
    match a
    case Str(s) => if HasBrace(s) then EvalPieces(c, s, 0, "", env) else Step(Done(V.Str(s)), env)
    case Symbol(None, name) => Step(Unqualified(env, name), env)
    case Symbol(Some(alias), name) => Step(Qualified(c.world, alias, name), env)
    case _ => Step(Done(Constant(a)), env)
  }

  /** `value_to_interpolated_str`. */
  function Spliced(w: World, v: V.Value): string {
    match v
    case Str(s) => s
    case Char(ch) => [ch]
    case _ => w.show(v)
  }

  /** `eval_string_atom` from position `i` on, with the output so far. */
  function EvalPieces(c: Context, s: string, i: nat, out: string, env: Chain): (r: Step)
    requires env != [] && i <= |s|
    ensures !r.out.Again? && |r.env| == |env|
    decreases c.fuel, s, |s| - i
  {
    if i == |s| then Step(Done(V.Str(out)), env)
    else
      match I.NextPiece(c.world.read, s, i)
      case Emit(text, next) => EvalPieces(c, s, next, out + text, env)
      case Splice(form, next) =>
        if c.fuel == 0 then Step(Fail(OutOfFuel), env)
        else
          var r := Eval(NoLoop(c).(fuel := c.fuel - 1), form, env);
          match r.out
          case Done(v) => EvalPieces(c, s, next, out + Spliced(c.world, v), r.env)
          case o => Step(NoRecur(o), r.env)
  }

  /** Evaluates `nodes[i..]` in order, after the values in `acc`. */
  function EvalArgs(c: Context, nodes: seq<Node>, i: nat, acc: seq<V.Value>, env: Chain): (g: Gather<V.Value>)
    requires env != [] && i <= |nodes|
    ensures |g.env| == |env|
    ensures g.All? ==> |g.items| == |acc| + |nodes| - i
    ensures g.Stopped? ==> !g.out.Done? && Disciplined(c, g.out)
    ensures AllWithin(QUIET, nodes) ==> g.env == env
    ensures AllWithin(SETLESS, nodes) ==> Pop(g.env) == Pop(env)
    decreases c.fuel, nodes, 0, |nodes| - i
  {
    if i == |nodes| then All(acc, env)
    else
      var r := Eval(c, nodes[i], env);
      match r.out
      case Done(v) => EvalArgs(c, nodes, i + 1, acc + [v], r.env)
      case o => Stopped(o, r.env)
  }

  /** `eval_map`: a later entry for the same key wins. */
  function EvalPairs(c: Context, pairs: seq<Entry>, i: nat, acc: seq<V.Binding>, env: Chain): (r: Step)
    requires env != [] && i <= |pairs|
    ensures !r.out.Again? && |r.env| == |env|
    ensures (forall j | 0 <= j < |pairs| :: EntryWithin(QUIET, pairs[j])) ==> r.env == env
    ensures (forall j | 0 <= j < |pairs| :: EntryWithin(SETLESS, pairs[j])) ==> Pop(r.env) == Pop(env)
    decreases c.fuel, pairs, 0, |pairs| - i
  {
    if i == |pairs| then Step(Done(V.Map(acc)), env)
    else
      var r := EvalEntry(c, pairs[i], env);
      match r
      case All(kv, e) => EvalPairs(c, pairs, i + 1, V.MapPut(acc, kv[0], kv[1]), e)
      case Stopped(o, e) => Step(NoRecur(o), e)
  }

  /** The key and the value of a map entry. */
  function EvalEntry(c: Context, entry: Entry, env: Chain): (g: Gather<V.Value>)
    requires env != []
    ensures |g.env| == |env| && (g.All? ==> |g.items| == 2) && (g.Stopped? ==> !g.out.Done?)
    ensures EntryWithin(QUIET, entry) ==> g.env == env
    ensures EntryWithin(SETLESS, entry) ==> Pop(g.env) == Pop(env)
    decreases c.fuel, entry
  {
    var k := Eval(c, entry.key, env);
    if !k.out.Done? then Stopped(k.out, k.env)
    else
      var v := Eval(c, entry.val, k.env);
      if v.out.Done? then All([k.out.value, v.out.value], v.env) else Stopped(v.out, v.env)
  }

  /** Evaluates `nodes[i..]` in order for the last value; `last` when there is none. */
  function EvalBody(c: Context, nodes: seq<Node>, i: nat, last: V.Value, env: Chain): (r: Step)
    requires env != []
    ensures Disciplined(c, r.out) && |r.env| == |env|
    ensures AllWithin(QUIET, nodes) ==> r.env == env
    ensures AllWithin(SETLESS, nodes) ==> Pop(r.env) == Pop(env)
    decreases c.fuel, nodes, 0, |nodes| - i
  {
    if i >= |nodes| then Step(Done(last), env)
    else
      var r := Eval(c, nodes[i], env);
      match r.out
      case Done(v) => EvalBody(c, nodes, i + 1, v, r.env)
      case _ => r
  }

  /** `eval_list`. */
  function EvalList(c: Context, items: seq<Node>, env: Chain): (r: Step)
    requires env != []
    ensures Disciplined(c, r.out) && |r.env| == |env|
    ensures ListWithin(QUIET, items) ==> r.env == env
    ensures ListWithin(SETLESS, items) ==> Pop(r.env) == Pop(env)
    decreases c.fuel, items
  {
    if items == [] then Step(Fail(Arity), env)
    else
      match FormOf(items[0])
      case DefForm => EvalDef(c, items, env)
      case LetForm => EvalLet(c, items, env)
      case DoForm => if |items| < 2 then Step(Fail(Arity), env) else EvalBody(c, items, 1, V.Unit, env)
      case IfForm => EvalIf(c, items, env)
      case FnForm => EvalFn(items, env)
      case DefnForm => EvalDefn(items, env)
      case LoopForm => EvalLoop(c, items, env)
      case RecurForm => EvalRecur(c, items, env)
      case ForForm => EvalFor(c, items, env)
      case SetForm => EvalSet(c, items, env)
      case PanicForm => EvalPanic(c, items, env)
      case QuestionForm => EvalQuestion(c, items, env)
      case MatchForm => EvalMatch(c, items, env)
      case AndForm => if |items| < 2 then Step(Fail(Arity), env) else EvalJunction(c, items, 1, false, env)
      case OrForm => if |items| < 2 then Step(Fail(Arity), env) else EvalJunction(c, items, 1, true, env)
      case CondForm =>
        if |items| == 1 || (|items| - 1) % 2 != 0 then Step(Fail(Arity), env) else EvalCond(c, items, 1, env)
      case OtherForm => Step(Fail(Unmodelled), env)
      case ApplyForm => EvalApply(c, items, env)
  }

  // ---------------------------------------------------------------------------------------------
  // Definitions and simple forms
  // ---------------------------------------------------------------------------------------------

  function EvalDef(c: Context, items: seq<Node>, env: Chain): (r: Step)
    requires env != []
    ensures !r.out.Again? && |r.env| == |env|
    ensures AllWithin(SETLESS, items) ==> Pop(r.env) == Pop(env)
    decreases c.fuel, items, 2
  {
    if |items| != 3 then Step(Fail(Arity), env)
    else
      match SymbolName(items[1])
      case None => Step(Fail(InvalidBindingTarget), env)
      case Some(name) =>
        var r := Eval(NoLoop(c), items[2], env);
        if r.out.Done? then Step(Done(V.Unit), Define(r.env, name, r.out.value)) else Step(NoRecur(r.out), r.env)
  }

  function EvalSet(c: Context, items: seq<Node>, env: Chain): (r: Step)
    requires env != []
    ensures !r.out.Again? && |r.env| == |env|
    decreases c.fuel, items, 2
  {
    if |items| != 3 then Step(Fail(Arity), env)
    else
      match SymbolName(items[1])
      case None => Step(Fail(InvalidBindingTarget), env)
      case Some(name) =>
        var r := Eval(NoLoop(c), items[2], env);
        if !r.out.Done? then Step(NoRecur(r.out), r.env)
        else
          match Assign(r.env, name, r.out.value)
          case None => Step(Fail(UnboundSymbol(None, name)), r.env)
          case Some(changed) => Step(Done(V.Unit), changed)
  }

  function EvalFn(items: seq<Node>, env: Chain): (r: Step)
    ensures !r.out.Again? && |r.env| == |env|
  {
    match Lambda(items, Flatten(env))
    case Err(e) => Step(Fail(e), env)
    case Ok(f) => Step(Done(V.Function(f)), env)
  }

  function EvalDefn(items: seq<Node>, env: Chain): (r: Step)
    requires env != []
    ensures !r.out.Again? && |r.env| == |env|
    ensures Pop(r.env) == Pop(env)
  {
    match DefnOf(items, Flatten(env))
    case Err(e) => Step(Fail(e), env)
    case Ok(d) => Step(Done(V.Unit), Define(env, d.name, V.Function(d.closure)))
  }

  function EvalIf(c: Context, items: seq<Node>, env: Chain): (r: Step)
    requires env != []
    ensures Disciplined(c, r.out) && |r.env| == |env|
    ensures AllWithin(QUIET, items) ==> r.env == env
    ensures AllWithin(SETLESS, items) ==> Pop(r.env) == Pop(env)
    decreases c.fuel, items, 2
  {
    if |items| != 4 then Step(Fail(Arity), env)
    else
      var r := Eval(c, items[1], env);
      if !r.out.Done? then r
      else if !r.out.value.Bool? then Step(Fail(InvalidConditionType), r.env)
      else Eval(c, items[if r.out.value.b then 2 else 3], r.env)
  }

  /** `and` (`stop` is false) and `or` (`stop` is true). */
  function EvalJunction(c: Context, items: seq<Node>, i: nat, stop: bool, env: Chain): (r: Step)
    requires env != []
    ensures Disciplined(c, r.out) && |r.env| == |env|
    ensures AllWithin(QUIET, items) ==> r.env == env
    ensures AllWithin(SETLESS, items) ==> Pop(r.env) == Pop(env)
    decreases c.fuel, items, 0, |items| - i
  {
    if i >= |items| then Step(Done(V.Bool(!stop)), env)
    else
      var r := Eval(c, items[i], env);
      if !r.out.Done? then r
      else if !r.out.value.Bool? then Step(Fail(InvalidConditionType), r.env)
      else if r.out.value.b == stop then Step(Done(V.Bool(stop)), r.env)
      else EvalJunction(c, items, i + 1, stop, r.env)
  }

  function EvalCond(c: Context, items: seq<Node>, i: nat, env: Chain): (r: Step)
    requires env != []
    ensures Disciplined(c, r.out) && |r.env| == |env|
    ensures AllWithin(QUIET, items) ==> r.env == env
    ensures AllWithin(SETLESS, items) ==> Pop(r.env) == Pop(env)
    decreases c.fuel, items, 0, |items| - i
  {
    if i + 1 >= |items| then Step(Done(V.Unit), env)
    else if IsElse(items[i]) then Eval(c, items[i + 1], env)
    else
      var r := Eval(c, items[i], env);
      if !r.out.Done? then r
      else if !r.out.value.Bool? then Step(Fail(InvalidConditionType), r.env)
      else if r.out.value.b then Eval(c, items[i + 1], r.env)
      else EvalCond(c, items, i + 2, r.env)
  }

  function EvalPanic(c: Context, items: seq<Node>, env: Chain): (r: Step)
    requires env != []
    ensures !r.out.Again? && |r.env| == |env|
    ensures AllWithin(QUIET, items) ==> r.env == env
    ensures AllWithin(SETLESS, items) ==> Pop(r.env) == Pop(env)
    decreases c.fuel, items, 2
  {
    if |items| != 2 then Step(Fail(Arity), env)
    else
      var r := Eval(c, items[1], env);
      if !r.out.Done? then Step(NoRecur(r.out), r.env)
      else Step(Fail(Panic(Message(PanicText(c.world, r.out.value)))), r.env)
  }

  function PanicText(w: World, v: V.Value): string {
    if v.Str? then v.s else w.typeName(v)
  }

  function EvalQuestion(c: Context, items: seq<Node>, env: Chain): (r: Step)
    requires env != []
    ensures !r.out.Again? && |r.env| == |env|
    ensures AllWithin(QUIET, items) ==> r.env == env
    ensures AllWithin(SETLESS, items) ==> Pop(r.env) == Pop(env)
    decreases c.fuel, items, 2
  {
    if |items| != 2 then Step(Fail(Arity), env)
    else
      var r := Eval(c, items[1], env);
      Step(if r.out.Done? then Lift(Unwrap(r.out.value)) else NoRecur(r.out), r.env)
  }

  // ---------------------------------------------------------------------------------------------
  // let and match
  // ---------------------------------------------------------------------------------------------

  function EvalLet(c: Context, items: seq<Node>, env: Chain): (r: Step)
    requires env != []
    ensures Disciplined(c, r.out) && |r.env| == |env|
    ensures AllWithin(QUIET, items) ==> r.env == env
    ensures AllWithin(SETLESS, items) ==> Pop(r.env) == Pop(env)
    decreases c.fuel, items, 2
  {
    if |items| < 3 || !items[1].kind.Vector? then Step(Fail(Arity), env)
    else
      var r := LetFrom(c, items, 0, Push(env, map[]));
      Step(r.out, Pop(r.env))
  }

  /** The bindings from `i` on, then the body, in the child environment. */
  function LetFrom(c: Context, items: seq<Node>, i: nat, env: Chain): (r: Step)
    requires env != [] && |items| >= 3 && items[1].kind.Vector?
    ensures Disciplined(c, r.out) && |r.env| == |env|
    ensures AllWithin(QUIET, items) ==> Pop(r.env) == Pop(env)
    ensures AllWithin(SETLESS, items) ==> Pop(r.env) == Pop(env)
    decreases c.fuel, items, 1, |items[1].kind.items| - i
  {
    VectorWithin(QUIET, items, 1);
    VectorWithin(SETLESS, items, 1);
    var b := items[1].kind.items;
    if i >= |b| then EvalBody(c, items, 2, V.Unit, env)
    else
      match BindingAt(b, i)
      case None => Step(Fail(Arity), env)
      case Some(part) =>
        var r := Eval(NoLoop(c), b[part.value], env);
        if !r.out.Done? then Step(NoRecur(r.out), r.env)
        else
          match PatternOf(b[part.pattern])
          case Err(e) => Step(Fail(NativeError(BadPattern(e))), r.env)
          case Ok(p) =>
            match Match(p, r.out.value)
            case Some(bs) => LetFrom(c, items, part.next, DefineAll(r.env, bs))
            case None =>
              match part.fallback
              case Some(f) => Eval(c, b[f], r.env)
              case None => Step(Fail(NativeError(NoMatch(r.out.value))), r.env)
  }

  function EvalMatch(c: Context, items: seq<Node>, env: Chain): (r: Step)
    requires env != []
    ensures Disciplined(c, r.out) && |r.env| == |env|
    ensures AllWithin(QUIET, items) ==> r.env == env
    ensures AllWithin(SETLESS, items) ==> Pop(r.env) == Pop(env)
    decreases c.fuel, items, 2
  {
    if |items| < 4 || (|items| - 2) % 2 != 0 then Step(Fail(Arity), env)
    else
      var r := Eval(c, items[1], env);
      if r.out.Done? then EvalArms(c, items, 2, r.out.value, r.env) else r
  }

  /** The arms from `i` on. */
  function EvalArms(c: Context, items: seq<Node>, i: nat, v: V.Value, env: Chain): (r: Step)
    requires env != []
    ensures Disciplined(c, r.out) && |r.env| == |env|
    ensures AllWithin(QUIET, items) ==> r.env == env
    ensures AllWithin(SETLESS, items) ==> Pop(r.env) == Pop(env)
    decreases c.fuel, items, 1, |items| - i
  {
    if i + 1 >= |items| then Step(Fail(NativeError(NoMatch(v))), env)
    else
      match PatternOf(items[i])
      case Err(e) => Step(Fail(NativeError(BadPattern(e))), env)
      case Ok(p) =>
        match Match(p, v)
        case None => EvalArms(c, items, i + 2, v, env)
        case Some(bs) =>
          var r := Eval(c, items[i + 1], Push(env, BindAll(map[], bs)));
          Step(r.out, Pop(r.env))
  }

  // ---------------------------------------------------------------------------------------------
  // loop and recur
  // ---------------------------------------------------------------------------------------------

  function EvalLoop(c: Context, items: seq<Node>, env: Chain): (r: Step)
    requires env != []
    ensures !r.out.Again? && |r.env| == |env|
    ensures AllWithin(QUIET, items) ==> r.env == env
    ensures AllWithin(SETLESS, items) ==> Pop(r.env) == Pop(env)
    decreases c.fuel, items, 2
  {
    if |items| < 3 || !items[1].kind.Vector? || |items[1].kind.items| % 2 != 0 then Step(Fail(Arity), env)
    else
      VectorWithin(QUIET, items, 1);
      VectorWithin(SETLESS, items, 1);
      match LoopNames(NoLoop(c), items[1].kind.items, 0, [], Push(env, map[]))
      case Stopped(out, e) => Step(NoRecur(out), Pop(e))
      case All(names, e) =>
        var r := Rounds(c.(frame := Some(names)), items, e);
        Step(r.out, Pop(r.env))
  }

  /** The loop variables from `i` on, defined one after the other; their names. */
  function LoopNames(c: Context, b: seq<Node>, i: nat, names: seq<string>, env: Chain): (g: Gather<string>)
    requires env != []
    ensures |g.env| == |env|
    ensures AllWithin(QUIET, b) ==> Pop(g.env) == Pop(env)
    ensures AllWithin(SETLESS, b) ==> Pop(g.env) == Pop(env)
    decreases c.fuel, b, 0, |b| - i
  {
    if i + 1 >= |b| then All(names, env)
    else
      match SymbolName(b[i])
      case None => Stopped(Fail(InvalidBindingTarget), env)
      case Some(name) =>
        var r := Eval(c, b[i + 1], env);
        if r.out.Done? then LoopNames(c, b, i + 2, names + [name], Define(r.env, name, r.out.value))
        else Stopped(r.out, r.env)
  }

  /** Runs the loop body until it ends without `recur`. */
  function Rounds(c: Context, items: seq<Node>, env: Chain): (r: Step)
    requires env != [] && c.frame.Some?
    ensures !r.out.Again? && |r.env| == |env|
    ensures AllWithin(QUIET, items) ==> Pop(r.env) == Pop(env)
    ensures AllWithin(SETLESS, items) ==> Pop(r.env) == Pop(env)
    decreases c.fuel, items, 1
  {
    var r := EvalBody(c, items, 2, V.Unit, env);
    match r.out
    case Again(values) =>
      if |values| != |c.frame.value| then Step(Fail(Arity), r.env)
      else if c.fuel == 0 then Step(Fail(OutOfFuel), r.env)
      else Rounds(c.(fuel := c.fuel - 1), items, DefineAll(r.env, Zip(c.frame.value, values)))
    case _ => r
  }

  function EvalRecur(c: Context, items: seq<Node>, env: Chain): (r: Step)
    requires env != [] && items != []
    ensures Disciplined(c, r.out) && |r.env| == |env|
    ensures AllWithin(QUIET, items) ==> r.env == env
    ensures AllWithin(SETLESS, items) ==> Pop(r.env) == Pop(env)
    decreases c.fuel, items, 2
  {
    if c.frame.None? then Step(Fail(InvalidRecur), env)
    else if |items| - 1 != |c.frame.value| then Step(Fail(Arity), env)
    else
      match EvalArgs(c, items, 1, [], env)
      case All(vs, e) => Step(Again(vs), e)
      case Stopped(out, e) => Step(out, e)
  }

  // ---------------------------------------------------------------------------------------------
  // for
  // ---------------------------------------------------------------------------------------------

  /** The values of a comprehension, and whether a `:while` ended the nearest generator; or an error. */
  datatype Rows = Yield(values: seq<V.Value>, stop: bool) | Abort(error: EvalError)

  datatype ForStep = ForStep(rows: Rows, env: Chain)

  function Error(out: Outcome): EvalError
    requires !out.Done?
  {
    if out.Again? then InvalidRecur else out.error
  }

  function EvalFor(c: Context, items: seq<Node>, env: Chain): (r: Step)
    requires env != []
    ensures !r.out.Again? && |r.env| == |env|
    ensures AllWithin(QUIET, items) ==> r.env == env
    ensures AllWithin(SETLESS, items) ==> Pop(r.env) == Pop(env)
    decreases c.fuel, items, 2
  {
    if |items| < 3 || !items[1].kind.Vector? then Step(Fail(Arity), env)
    else
      var f := ForRows(NoLoop(c), items, 0, env);
      match f.rows
      case Yield(values, _) => Step(Done(V.Vec(values)), f.env)
      case Abort(e) => Step(Fail(e), f.env)
  }

  /** The rows of the clauses from `i` on: `:when` skips, `:let` scopes, `:while` ends the nearest generator. */
  function ForRows(c: Context, items: seq<Node>, i: nat, env: Chain): (f: ForStep)
    requires env != [] && |items| >= 3 && items[1].kind.Vector?
    ensures |f.env| == |env|
    ensures f.rows.Yield? && f.rows.stop ==> f.rows.values == []
    ensures i < |items[1].kind.items| && ClauseOf(items[1].kind.items[i]).Generator? && f.rows.Yield? ==> !f.rows.stop
    ensures AllWithin(QUIET, items) ==> f.env == env
    ensures AllWithin(SETLESS, items) ==> Pop(f.env) == Pop(env)
    decreases c.fuel, items, 1, |items[1].kind.items| - i
  {
    VectorWithin(QUIET, items, 1);
    VectorWithin(SETLESS, items, 1);
    var b := items[1].kind.items;
    if i >= |b| then
      var r := EvalBody(c, items, 2, V.Unit, env);
      ForStep(if r.out.Done? then Yield([r.out.value], false) else Abort(Error(r.out)), r.env)
    else
      var clause := ClauseOf(b[i]);
      if clause.NoClause? || i + 1 >= |b| then ForStep(Abort(Arity), env)
      else if clause.LetClause? then ForScope(c, items, i, env)
      else
        var r := Eval(c, b[i + 1], env);
        if !r.out.Done? then ForStep(Abort(Error(r.out)), r.env)
        else if clause.Generator? then
          match Elements(r.out.value)
          case Err(e) => ForStep(Abort(e), r.env)
          case Ok(vs) => ForEach(c, items, i, clause.name, vs, 0, r.env)
        else if !r.out.value.Bool? then ForStep(Abort(NativeError(NotBool(r.out.value))), r.env)
        else if r.out.value.b then ForRows(c, items, i + 2, r.env)
        else ForStep(Yield([], clause.While?), r.env)
  }

  /** The rows after a `:let`, in its child environment. */
  function ForScope(c: Context, items: seq<Node>, i: nat, env: Chain): (f: ForStep)
    requires env != [] && |items| >= 3 && items[1].kind.Vector? && i + 1 < |items[1].kind.items|
    ensures |f.env| == |env|
    ensures f.rows.Yield? && f.rows.stop ==> f.rows.values == []
    ensures AllWithin(QUIET, items) ==> f.env == env
    ensures AllWithin(SETLESS, items) ==> Pop(f.env) == Pop(env)
    decreases c.fuel, items, 1, |items[1].kind.items| - i, 0
  {
    var target := items[1].kind.items[i + 1];
    if !target.kind.Vector? || |target.kind.items| % 2 != 0 then ForStep(Abort(Arity), env)
    else
      VectorWithin(QUIET, items, 1);
      VectorWithin(SETLESS, items, 1);
      VectorWithin(QUIET, items[1].kind.items, i + 1);
      VectorWithin(SETLESS, items[1].kind.items, i + 1);
      match ForLet(c, target.kind.items, 0, Push(env, map[]))
      case Stopped(out, e) => ForStep(Abort(if out.Done? then Arity else Error(out)), Pop(e))
      case All(_, e) =>
        var f := ForRows(c, items, i + 2, e);
        ForStep(f.rows, Pop(f.env))
  }

  /** The rows of a generator's elements from `k` on. */
  function ForEach(
    c: Context, items: seq<Node>, i: nat, name: string, vs: seq<V.Value>, k: nat, env: Chain): (f: ForStep)
    requires env != [] && |items| >= 3 && items[1].kind.Vector? && i < |items[1].kind.items|
    ensures |f.env| == |env|
    ensures f.rows.Yield? ==> !f.rows.stop
    ensures AllWithin(QUIET, items) ==> f.env == env
    ensures AllWithin(SETLESS, items) ==> Pop(f.env) == Pop(env)
    decreases c.fuel, items, 1, |items[1].kind.items| - i, |vs| - k
  {
    if k >= |vs| then ForStep(Yield([], false), env)
    else
      var f := ForRows(c, items, i + 2, Push(env, map[name := vs[k]]));
      match f.rows
      case Abort(e) => ForStep(Abort(e), Pop(f.env))
      case Yield(values, stop) =>
        if stop then ForStep(Yield(values, false), Pop(f.env))
        else
          var rest := ForEach(c, items, i, name, vs, k + 1, Pop(f.env));
          ForStep(if rest.rows.Yield? then Yield(values + rest.rows.values, false) else rest.rows, rest.env)
  }

  /** The bindings of a `:let` from `i` on, in its child environment. */
  function ForLet(c: Context, b: seq<Node>, i: nat, env: Chain): (g: Gather<V.Value>)
    requires env != []
    ensures |g.env| == |env| && (g.Stopped? ==> !g.out.Done?)
    ensures AllWithin(QUIET, b) ==> Pop(g.env) == Pop(env)
    ensures AllWithin(SETLESS, b) ==> Pop(g.env) == Pop(env)
    decreases c.fuel, b, 0, |b| - i
  {
    if i >= |b| then All([], env)
    else
      match ScopeAt(b, i)
      case Err(e) => Stopped(Fail(e), env)
      case Ok(part) =>
        var r := Eval(c, b[part.value], env);
        if r.out.Done? then ForLet(c, b, part.next, Define(r.env, part.name, r.out.value)) else Stopped(r.out, r.env)
  }

  // ---------------------------------------------------------------------------------------------
  // Calls
  // ---------------------------------------------------------------------------------------------

  predicate Accepts(f: V.Closure, count: nat) {
    if f.rest.Some? then |f.params| <= count else count == |f.params|
  }

  function Natively(w: World, name: string, args: seq<V.Value>): Outcome {
    match w.native(name, args)
    case Ok(v) => Done(v)
    case Err(message) => Fail(NativeError(Primitive(message)))
  }

  /** `eval_apply`. The caller's loop frame reaches the arguments and the function body. */
  function EvalApply(c: Context, items: seq<Node>, env: Chain): (r: Step)
    requires env != [] && items != []
    ensures Disciplined(c, r.out) && |r.env| == |env|
    ensures AllWithin(QUIET, items) ==> r.env == env
    ensures AllWithin(SETLESS, items) ==> Pop(r.env) == Pop(env)
    decreases c.fuel, items, 2
  {
    var h := Eval(c, items[0], env);
    if !h.out.Done? then h
    else
      match h.out.value
      case Native(name) =>
        (match EvalArgs(c, items, 1, [], h.env)
         case All(vs, e) => Step(Natively(c.world, name, vs), e)
         case Stopped(out, e) => Step(out, e))
      case Keyword(_, _) =>
        if |items| != 2 then Step(Fail(Arity), h.env)
        else
          var a := Eval(c, items[1], h.env);
          if a.out.Done? then Step(Lift(KeywordLookup(h.out.value, a.out.value)), a.env) else a
      case Function(f) =>
        if c.depth >= MAX_CALL_DEPTH then Step(Fail(StackOverflow), h.env)
        else ApplyClosure(c.(depth := c.depth + 1), f, items, h.env)
      case _ => Step(Fail(InvalidCallable), h.env)
  }

  /** A call of a closure, one level deeper: its arguments, then the call itself. */
  function ApplyClosure(c: Context, f: V.Closure, items: seq<Node>, env: Chain): (r: Step)
    requires env != [] && items != []
    ensures Disciplined(c, r.out) && |r.env| == |env|
    ensures AllWithin(QUIET, items) ==> r.env == env
    ensures AllWithin(SETLESS, items) ==> Pop(r.env) == Pop(env)
    decreases c.fuel, items, 1
  {
    if !Accepts(f, |items| - 1) then Step(Fail(Arity), env)
    else
      match EvalArgs(c, items, 1, [], env)
      case Stopped(out, e) => Step(out, e)
      case All(vs, e) => if c.fuel == 0 then Step(Fail(OutOfFuel), e) else Step(Enter(c.(fuel := c.fuel - 1), f, vs), e)
  }

  /** `apply_value`. */
  function ApplyValue(c: Context, callee: V.Value, args: seq<V.Value>): (out: Outcome)
    ensures !out.Again?
    decreases c.fuel
  {
    match callee
    case Native(name) => Natively(c.world, name, args)
    case Keyword(_, _) => if |args| != 1 then Fail(Arity) else Lift(KeywordLookup(callee, args[0]))
    case Function(f) =>
      if c.depth >= MAX_CALL_DEPTH then Fail(StackOverflow)
      else if !Accepts(f, |args|) then Fail(Arity)
      else if c.fuel == 0 then Fail(OutOfFuel)
      else Enter(NoLoop(c).(depth := c.depth + 1, fuel := c.fuel - 1), f, args)
    case _ => Fail(InvalidCallable)
  }

  /** What a call sees before its parameters: captures, then the function under its own name. */
  function OwnFrame(f: V.Closure): Frame {
    if f.name.Some? then f.captures[f.name.value := V.Function(f)] else f.captures
  }

  /** The one frame of a call. */
  function CallFrame(f: V.Closure, args: seq<V.Value>): Frame
    requires Accepts(f, |args|)
  {
    var bound := BindAll(OwnFrame(f), Zip(f.params, args));
    if f.rest.Some? then bound[f.rest.value := V.Vec(args[|f.params|..])] else bound
  }

  /** A call once its arguments are values: preconditions, body, postconditions. */
  function Enter(c: Context, f: V.Closure, args: seq<V.Value>): (out: Outcome)
    requires Accepts(f, |args|)
    ensures Disciplined(c, out)
    decreases c.fuel
  {
    var pre := Conditions(NoLoop(c), f.pre, 0, Precondition, [CallFrame(f, args)]);
    if !pre.out.Done? then pre.out
    else
      var body := EvalBody(c, f.body, 0, V.Unit, pre.env);
      match body.out
      case Again(_) => body.out
      case Fail(EarlyReturn(v)) => Done(v)
      case Fail(_) => body.out
      case Done(v) =>
        if f.post == [] then body.out
        else
          var post := Conditions(NoLoop(c), f.post, 0, Postcondition, Push(body.env, map["result" := v]));
          if post.out.Done? then body.out else post.out
  }

  /** Contract clauses from `i` on: `Done` when all hold. */
  function Conditions(c: Context, exprs: seq<Node>, i: nat, reason: Reason, env: Chain): (r: Step)
    requires env != []
    ensures !r.out.Again? && |r.env| == |env|
    decreases c.fuel, exprs, 0, |exprs| - i
  {
    if i >= |exprs| then Step(Done(V.Unit), env)
    else
      var r := Eval(c, exprs[i], env);
      if !r.out.Done? then Step(NoRecur(r.out), r.env)
      else if !r.out.value.Bool? then Step(Fail(InvalidConditionType), r.env)
      else if r.out.value.b then Conditions(c, exprs, i + 1, reason, r.env)
      else Step(Fail(Panic(reason)), r.env)
  }
}
