/**
 How the evaluator reads its special forms (crates/nexl-eval/src/eval.rs): dispatch, parameters, bindings, contracts.
*/
module SpecialForms {
  import opened Basics
  import opened Ast
  import opened Patterns
  import V = Values

  datatype Cause =
    | Primitive(message: string)
    | BadPattern(error: PatternError)
    | NoMatch(value: V.Value)
    | UnhandledEffect(alias: string, name: string)
    | NotIterable(value: V.Value)
    | NotResult(value: V.Value)
    | NotBool(value: V.Value)
    | NotAMap(value: V.Value)
    | MissingField
    | UnknownConstructor

  datatype Reason = Message(text: string) | Precondition | Postcondition

  /** `Todo` is the `todo!` panic; `Unmodelled` a form left out of this model; `OutOfFuel` a run cut short. */
  datatype EvalError =
    | Arity
    | InvalidBindingTarget
    | InvalidConditionType
    | InvalidRecur
    | InvalidCallable
    | UnboundSymbol(ns: Option<string>, name: string)
    | NativeError(cause: Cause)
    | Panic(reason: Reason)
    | EarlyReturn(value: V.Value)
    | StackOverflow
    | Todo
    | Unmodelled
    | OutOfFuel

  datatype Form =
    | DefForm
    | LetForm
    | DoForm
    | IfForm
    | FnForm
    | DefnForm
    | LoopForm
    | RecurForm
    | ForForm
    | SetForm
    | PanicForm
    | QuestionForm
    | MatchForm
    | AndForm
    | OrForm
    | CondForm
    | OtherForm
    | ApplyForm

  function FormNamed(name: string): Form {
    if name == "def" then DefForm
    else if name == "let" then LetForm
    else if name == "do" then DoForm
    else if name == "if" then IfForm
    else if name == "fn" then FnForm
    else if name == "defn" then DefnForm
    else if name == "loop" then LoopForm
    else if name == "recur" then RecurForm
    else if name == "for" || name == "for!" then ForForm
    else if name == "set!" then SetForm
    else if name == "panic" then PanicForm
    else if name == "?" then QuestionForm
    else if name == "match" then MatchForm
    else if name == "and" then AndForm
    else if name == "or" then OrForm
    else if name == "cond" then CondForm
    else if name in {
      "each", "times", "assert!", "assert-unreachable!", "try", "deftype", "defhandler", "handle", "call-log",
      "submodule", "load"
    } then OtherForm
    else ApplyForm
  }

  /** The dispatch of `eval_list` on the head of a list. */
  function FormOf(head: Node): Form {
    match head.kind
    case Atomic(Symbol(None, name)) => FormNamed(name)
    case _ => ApplyForm
  }

  function SymbolName(n: Node): Option<string> {
    match n.kind
    case Atomic(Symbol(None, name)) => Some(name)
    case _ => None
  }

  predicate IsElse(n: Node) {
    n.kind == Atomic(Keyword(None, "else"))
  }

  predicate HasBrace(s: string) {
    '{' in s || '}' in s
  }

  // ---------------------------------------------------------------------------------------------
  // Which forms occur
  // ---------------------------------------------------------------------------------------------

  /**
   `noDefs`: nothing defines a name in the current frame. `noSets`: nothing assigns to a name. `noJumps`: nothing can
   see the loop frame.
  */
  datatype Limits = Limits(noDefs: bool, noSets: bool, noJumps: bool)

  const UNLIMITED := Limits(false, false, false)

  const QUIET := Limits(true, true, false)

  const SETLESS := Limits(false, true, false)

  predicate Allowed(l: Limits, form: Form) {
    (l.noDefs ==> !form.DefForm? && !form.DefnForm?) && (l.noSets ==> !form.SetForm?) &&
    (l.noJumps ==> !form.RecurForm? && !form.ApplyForm?)
  }

  /** The body of a function is evaluated where it is called, not where it stands. */
  predicate IsCode(form: Form) {
    form.FnForm? || form.DefnForm?
  }

  predicate ListWithin(l: Limits, items: seq<Node>)
    decreases items, 1
  {
    items != [] ==> Allowed(l, FormOf(items[0])) && (IsCode(FormOf(items[0])) || AllWithin(l, items))
  }

  predicate Within(l: Limits, n: Node)
    decreases n
  {
    match n.kind
    case Atomic(a) => (l.noDefs || l.noSets) && a.Str? ==> !HasBrace(a.s)
    case List(items) => ListWithin(l, items)
    case Vector(items) => AllWithin(l, items)
    case Set(items) => AllWithin(l, items)
    case Map(pairs) => forall i | 0 <= i < |pairs| :: EntryWithin(l, pairs[i])
    case Prefixed(_, _) => true
  }

  predicate AllWithin(l: Limits, items: seq<Node>)
    decreases items, 0
  {
    forall i | 0 <= i < |items| :: Within(l, items[i])
  }

  predicate EntryWithin(l: Limits, e: Entry)
    decreases e
  {
    Within(l, e.key) && Within(l, e.val)
  }

  lemma {:induction false} UnlimitedWithin(n: Node)
    ensures Within(UNLIMITED, n)
    decreases n
  {
    match n.kind
    case Map(pairs) =>
      forall i | 0 <= i < |pairs| ensures EntryWithin(UNLIMITED, pairs[i]) { UnlimitedEntry(pairs[i]); }
    case List(items) => UnlimitedAll(items);
    case Vector(items) => UnlimitedAll(items);
    case Set(items) => UnlimitedAll(items);
    case _ =>
  }

  lemma {:induction false} UnlimitedEntry(e: Entry)
    ensures EntryWithin(UNLIMITED, e)
    decreases e
  {
    UnlimitedWithin(e.key);
    UnlimitedWithin(e.val);
  }

  lemma {:induction false} UnlimitedAll(items: seq<Node>)
    ensures AllWithin(UNLIMITED, items)
    decreases items, 0
  {
    forall i | 0 <= i < |items| ensures Within(UNLIMITED, items[i]) { UnlimitedWithin(items[i]); }
  }

  lemma VectorWithin(l: Limits, items: seq<Node>, i: nat)
    requires i < |items| && items[i].kind.Vector?
    ensures AllWithin(l, items) ==> AllWithin(l, items[i].kind.items)
  {
    assert AllWithin(l, items) ==> Within(l, items[i]);
  }

  // ---------------------------------------------------------------------------------------------
  // Functions
  // ---------------------------------------------------------------------------------------------

  datatype Params = Params(names: seq<string>, rest: Option<string>)

  predicate IsRestMarker(name: string) {
    name == "&"
  }

  /** The parameters from `i` on, after those in `names`. */
  function ParamsFrom(nodes: seq<Node>, i: nat, names: seq<string>): Result<Params, EvalError>
    decreases |nodes| - i
  {
    if i >= |nodes| then Ok(Params(names, None))
    else
      match SymbolName(nodes[i])
      case None => Err(InvalidBindingTarget)
      case Some(name) =>
        if !IsRestMarker(name) then ParamsFrom(nodes, i + 1, names + [name])
        else if i + 1 >= |nodes| then Err(Arity)
        else
          match SymbolName(nodes[i + 1])
          case None => Err(InvalidBindingTarget)
          case Some(rest) => if i + 2 < |nodes| then Err(Arity) else Ok(Params(names, Some(rest)))
  }

  /** The parameter loop of `eval_fn`. */
  method ParseParams(nodes: seq<Node>) returns (r: Result<Params, EvalError>)
    ensures r == ParamsFrom(nodes, 0, [])
  {
    var names, i := [], 0;
    while i < |nodes|
      invariant i <= |nodes|
      invariant ParamsFrom(nodes, 0, []) == ParamsFrom(nodes, i, names)
    {
      var name := SymbolName(nodes[i]);
      if name.None? {
        return Err(InvalidBindingTarget);
      }
      if IsRestMarker(name.value) {
        if i + 1 >= |nodes| {
          return Err(Arity);
        }
        var rest := SymbolName(nodes[i + 1]);
        if rest.None? {
          return Err(InvalidBindingTarget);
        }
        if i + 2 < |nodes| {
          return Err(Arity);
        }
        return Ok(Params(names, rest));
      }
      names, i := names + [name.value], i + 1;
    }
    r := Ok(Params(names, None));
  }

  /** `eval_fn`: the closure over the visible bindings. */
  function Lambda(items: seq<Node>, captures: map<string, V.Value>): Result<V.Closure, EvalError> {
    if |items| < 3 || !items[1].kind.Vector? then Err(Arity)
    else
      match ParamsFrom(items[1].kind.items, 0, [])
      case Err(e) => Err(e)
      case Ok(params) => Ok(V.Closure(None, params.names, params.rest, captures, items[2..], [], []))
  }

  datatype Contract = Requires | Ensures | Examples | NoContract

  function ContractOf(n: Node): Contract {
    match n.kind
    case Atomic(Keyword(None, name)) =>
      if name == "requires" then Requires
      else if name == "ensures" then Ensures
      else if name == "examples" || name == "example" then Examples
      else NoContract
    case _ => NoContract
  }

  /** Contract clauses found so far, and where the body starts. */
  datatype Contracts = Contracts(pre: seq<Node>, post: seq<Node>, start: nat)

  function ContractsFrom(items: seq<Node>, found: Contracts): (r: Contracts)
    ensures found.start <= r.start
    decreases |items| - found.start
  {
    var i := found.start;
    if i + 1 >= |items| then found
    else
      match ContractOf(items[i])
      case Requires =>
        if items[i + 1].kind.Vector? then ContractsFrom(items, Contracts(items[i + 1].kind.items, found.post, i + 2))
        else found
      case Ensures =>
        if items[i + 1].kind.Vector? then ContractsFrom(items, Contracts(found.pre, items[i + 1].kind.items, i + 2))
        else found
      case Examples => ContractsFrom(items, found.(start := i + 2))
      case NoContract => found
  }

  /** The contract loop of `eval_defn`. */
  method ScanContracts(items: seq<Node>, bodyStart: nat) returns (found: Contracts)
    requires bodyStart <= |items|
    ensures found == ContractsFrom(items, Contracts([], [], bodyStart))
  {
    var pre, post, scan, start := [], [], bodyStart, bodyStart;
    while scan + 1 < |items|
      invariant scan == start
      invariant ContractsFrom(items, Contracts([], [], bodyStart)) == ContractsFrom(items, Contracts(pre, post, start))
      decreases |items| - scan
    {
      match ContractOf(items[scan]) {
        case Requires =>
          if !items[scan + 1].kind.Vector? {
            break;
          }
          pre, scan := items[scan + 1].kind.items, scan + 2;
          start := scan;
        case Ensures =>
          if !items[scan + 1].kind.Vector? {
            break;
          }
          post, scan := items[scan + 1].kind.items, scan + 2;
          start := scan;
        case Examples =>
          scan := scan + 2;
          start := scan;
        case NoContract => break;
      }
    }
    found := Contracts(pre, post, start);
  }

  /** `eval_defn`, up to the definition: the name and the named closure. A qualified name is not modelled. */
  datatype Defined = Defined(name: string, closure: V.Closure)

  function DefnOf(items: seq<Node>, captures: map<string, V.Value>): Result<Defined, EvalError> {
    if |items| < 4 then Err(Arity)
    else
      match items[1].kind
      case Atomic(Symbol(Some(_), _)) => Err(Unmodelled)
      case Atomic(Symbol(None, name)) =>
        var bodyStart := if IsDocstring(items[2]) then 4 else 3;
        if bodyStart > |items| - 1 then Err(Arity)
        else
          var found := ContractsFrom(items, Contracts([], [], bodyStart));
          if found.start >= |items| then Err(Arity)
          else
            (match Lambda([items[0], items[bodyStart - 1]] + items[found.start..], captures)
             case Err(e) => Err(e)
             case Ok(f) => Ok(Defined(name, f.(name := Some(name), pre := found.pre, post := found.post))))
      case _ => Err(InvalidBindingTarget)
  }

  predicate IsDocstring(n: Node) {
    n.kind.Atomic? && n.kind.atom.Str?
  }

  // ---------------------------------------------------------------------------------------------
  // Bindings and clauses
  // ---------------------------------------------------------------------------------------------

  /** One binding of a `let` vector: where its parts stand. */
  datatype LetBinding = LetBinding(pattern: nat, value: nat, fallback: Option<nat>, next: nat)

  /** `[mut? pattern value [| fallback]]` at `i`; `None` when a part is missing. */
  function BindingAt(b: seq<Node>, i: nat): (r: Option<LetBinding>)
    requires i < |b|
    ensures r.Some? ==> r.value.pattern < |b| && r.value.value < |b| && i < r.value.next <= |b|
    ensures r.Some? && r.value.fallback.Some? ==> r.value.fallback.value < |b|
  {
    var p := if IsMut(b[i]) then i + 1 else i;
    if p + 1 >= |b| then None
    else if p + 2 < |b| && IsPipe(b[p + 2]) then
      if p + 3 >= |b| then None else Some(LetBinding(p, p + 1, Some(p + 3), p + 4))
    else Some(LetBinding(p, p + 1, None, p + 2))
  }

  /** The steps of the binding loop of `eval_let` that advance its index. */
  method NextBinding(b: seq<Node>, start: nat) returns (r: Option<LetBinding>)
    requires start < |b|
    ensures r == BindingAt(b, start)
  {
    var i := start;
    if IsMut(b[i]) {
      i := i + 1;
    }
    if i + 1 >= |b| {
      return None;
    }
    var pattern, value := i, i + 1;
    i := i + 2;
    if i < |b| && IsPipe(b[i]) {
      i := i + 1;
      if i >= |b| {
        return None;
      }
      return Some(LetBinding(pattern, value, Some(i), i + 1));
    }
    r := Some(LetBinding(pattern, value, None, i));
  }

  /** One binding of a `:let` vector: `mut? name value`. */
  datatype ScopeBinding = ScopeBinding(name: string, value: nat, next: nat)

  function ScopeAt(b: seq<Node>, i: nat): (r: Result<ScopeBinding, EvalError>)
    requires i < |b|
    ensures r.Ok? ==> r.value.value < |b| && i < r.value.next <= |b|
  {
    var p := if IsMut(b[i]) then i + 1 else i;
    if p >= |b| then Err(Arity)
    else
      match SymbolName(b[p])
      case None => Err(InvalidBindingTarget)
      case Some(name) => if p + 1 >= |b| then Err(Arity) else Ok(ScopeBinding(name, p + 1, p + 2))
  }

  datatype Clause = When | While | LetClause | Generator(name: string) | NoClause

  function ClauseOf(n: Node): Clause {
    match n.kind
    case Atomic(Keyword(None, name)) =>
      if name == "when" then When else if name == "while" then While else if name == "let" then LetClause else NoClause
    case Atomic(Symbol(None, name)) => Generator(name)
    case _ => NoClause
  }

  /** What a generator ranges over. */
  function Elements(v: V.Value): Result<seq<V.Value>, EvalError> {
    match v
    case Vec(items) => Ok(items)
    case Set(items) => Ok(items)
    case Map(entries) => Ok(seq(|entries|, i requires 0 <= i < |entries| => entries[i].value))
    case Adt(typeName, ctor, fields) =>
      if typeName != "Option" then Err(NativeError(NotIterable(v)))
      else if ctor == "None" then Ok([])
      else if ctor != "Some" then Err(NativeError(UnknownConstructor))
      else if fields == [] then Err(NativeError(MissingField))
      else Ok([fields[0]])
    case _ => Err(NativeError(NotIterable(v)))
  }

  /** The `?` operator: unwrap, or leave the enclosing function. */
  function Unwrap(v: V.Value): Result<V.Value, EvalError> {
    match v
    case Adt(typeName, ctor, fields) =>
      if typeName == "Result" then UnwrapAs(v, "Ok", "Err")
      else if typeName == "Option" then UnwrapAs(v, "Some", "None")
      else Err(NativeError(NotResult(v)))
    case _ => Err(NativeError(NotResult(v)))
  }

  function UnwrapAs(v: V.Value, good: string, bad: string): Result<V.Value, EvalError>
    requires v.Adt?
  {
    if v.ctor == good then if v.fields == [] then Err(NativeError(MissingField)) else Ok(v.fields[0])
    else if v.ctor == bad then Err(EarlyReturn(v))
    else Err(NativeError(UnknownConstructor))
  }

  /** `keyword_lookup`. */
  function KeywordLookup(keyword: V.Value, arg: V.Value): Result<V.Value, EvalError> {
    if arg.Map? then Ok(V.MapGet(arg.entries, keyword).GetOr(V.OPTION_NONE)) else Err(NativeError(NotAMap(arg)))
  }
}
