/**
 Function boundaries for `recur`. Code is tidy when every `recur` stands in a loop of the same function body; values are
 tame when all code they carry is. Tame evaluation never sees the loop frame that the evaluator passes on into calls.
*/
module Tame {
  import opened Basics
  import opened Ast
  import opened Patterns
  import opened Scopes
  import opened SpecialForms
  import opened Semantics
  import I = Interpolation
  import V = Values

  // ---------------------------------------------------------------------------------------------
  // Tidy code
  // ---------------------------------------------------------------------------------------------

  /** `texts`: string literals may interpolate. `inLoop`: a loop of the same function body is around. */
  datatype Mode = Mode(texts: bool, inLoop: bool)

  const PLAIN := Mode(true, false)

  predicate Tidy(read: I.Reader, m: Mode, n: Node)
    decreases m.texts, n
  {
    match n.kind
    case Atomic(a) => a.Str? ==> if m.texts then TidyText(read, a.s, 0) else !HasBrace(a.s)
    case List(items) => TidyList(read, m, items)
    case Vector(items) => AllTidy(read, m, items)
    case Set(items) => AllTidy(read, m, items)
    case Map(pairs) => forall i | 0 <= i < |pairs| :: EntryTidy(read, m, pairs[i])
    case Prefixed(_, _) => true
  }

  /** Interpolated expressions are tidy and do not interpolate in turn. */
  predicate TidyText(read: I.Reader, s: string, i: nat)
    requires i <= |s|
    decreases true, s, |s| - i
  {
    i == |s| ||
    match I.NextPiece(read, s, i)
    case Emit(_, next) => TidyText(read, s, next)
    case Splice(form, next) => Tidy(read, Mode(false, false), form) && TidyText(read, s, next)
  }

  predicate TidyList(read: I.Reader, m: Mode, items: seq<Node>)
    decreases m.texts, items, 1
  {
    items != [] ==>
      match FormOf(items[0])
      case RecurForm => m.inLoop && AllTidy(read, m, items)
      case LoopForm => AllTidy(read, m.(inLoop := true), items)
      case FnForm => AllTidy(read, m.(inLoop := false), items)
      case DefnForm => AllTidy(read, m.(inLoop := false), items)
      case _ => AllTidy(read, m, items)
  }

  predicate AllTidy(read: I.Reader, m: Mode, items: seq<Node>)
    decreases m.texts, items, 0
  {
    forall i | 0 <= i < |items| :: Tidy(read, m, items[i])
  }

  predicate EntryTidy(read: I.Reader, m: Mode, e: Entry)
    decreases m.texts, e
  {
    Tidy(read, m, e.key) && Tidy(read, m, e.val)
  }

  lemma VectorTidy(read: I.Reader, m: Mode, items: seq<Node>, i: nat)
    requires AllTidy(read, m, items) && i < |items| && items[i].kind.Vector?
    ensures AllTidy(read, m, items[i].kind.items)
  {
    assert Tidy(read, m, items[i]);
  }

  lemma {:induction false} PlainText(read: I.Reader, s: string, i: nat)
    requires i <= |s| && !HasBrace(s)
    ensures TidyText(read, s, i)
    decreases |s| - i
  {
    hide I.FindEnd, Tidy;
    if i < |s| { PlainText(read, s, i + 1); }
  }

  /** Code that is tidy without interpolation is tidy. */
  lemma {:induction false} TidyMore(read: I.Reader, m: Mode, n: Node)
    requires Tidy(read, m.(texts := false), n)
    ensures Tidy(read, m.(texts := true), n)
    decreases n
  {
    hide TidyText, TidyList, AllTidy, EntryTidy;
    match n.kind
    case Atomic(a) => if a.Str? { PlainText(read, a.s, 0); }
    case List(items) => TidyMoreList(read, m, items);
    case Vector(items) => TidyMoreAll(read, m, items);
    case Set(items) => TidyMoreAll(read, m, items);
    case Map(pairs) =>
      forall i | 0 <= i < |pairs| ensures EntryTidy(read, m.(texts := true), pairs[i]) {
        TidyMoreEntry(read, m, pairs[i]);
      }
    case Prefixed(_, _) =>
  }

  lemma {:induction false} TidyMoreList(read: I.Reader, m: Mode, items: seq<Node>)
    requires TidyList(read, m.(texts := false), items)
    ensures TidyList(read, m.(texts := true), items)
    decreases items, 1
  {
    hide Tidy, AllTidy, FormOf;
    if items != [] {
      match FormOf(items[0])
      case LoopForm => TidyMoreAll(read, m.(inLoop := true), items);
      case FnForm => TidyMoreAll(read, m.(inLoop := false), items);
      case DefnForm => TidyMoreAll(read, m.(inLoop := false), items);
      case _ => TidyMoreAll(read, m, items);
    }
  }

  lemma {:induction false} TidyMoreAll(read: I.Reader, m: Mode, items: seq<Node>)
    requires AllTidy(read, m.(texts := false), items)
    ensures AllTidy(read, m.(texts := true), items)
    decreases items, 0
  {
    hide Tidy;
    forall i | 0 <= i < |items| ensures Tidy(read, m.(texts := true), items[i]) { TidyMore(read, m, items[i]); }
  }

  lemma {:induction false} TidyMoreEntry(read: I.Reader, m: Mode, e: Entry)
    requires EntryTidy(read, m.(texts := false), e)
    ensures EntryTidy(read, m.(texts := true), e)
    decreases e
  {
    hide Tidy;
    TidyMore(read, m, e.key);
    TidyMore(read, m, e.val);
  }

  // ---------------------------------------------------------------------------------------------
  // Tame values
  // ---------------------------------------------------------------------------------------------

  predicate Tame(read: I.Reader, v: V.Value)
    decreases v
  {
    match v
    case Vec(items) => AllTame(read, items)
    case Set(items) => AllTame(read, items)
    case Adt(_, _, fields) => AllTame(read, fields)
    case Map(entries) => forall i | 0 <= i < |entries| :: TameBinding(read, entries[i])
    case Function(f) => TameClosure(read, f)
    case _ => true
  }

  predicate AllTame(read: I.Reader, vs: seq<V.Value>)
    decreases vs
  {
    forall i | 0 <= i < |vs| :: Tame(read, vs[i])
  }

  predicate TameBinding(read: I.Reader, b: V.Binding)
    decreases b
  {
    Tame(read, b.key) && Tame(read, b.value)
  }

  predicate TameClosure(read: I.Reader, f: V.Closure)
    decreases f
  {
    AllTidy(read, PLAIN, f.body) && AllTidy(read, PLAIN, f.pre) && AllTidy(read, PLAIN, f.post) &&
    forall n <- f.captures :: Tame(read, f.captures[n])
  }

  predicate TameFrame(read: I.Reader, frame: Frame) {
    forall n <- frame :: Tame(read, frame[n])
  }

  predicate TameChain(read: I.Reader, env: Chain) {
    forall i | 0 <= i < |env| :: TameFrame(read, env[i])
  }

  predicate TameBinds(read: I.Reader, bs: seq<Bind>) {
    forall i | 0 <= i < |bs| :: Tame(read, bs[i].value)
  }

  /** Native functions give tame results for tame arguments, and imported modules export tame values. */
  ghost predicate TameWorld(w: World) {
    (forall name, args | AllTame(w.read, args) && w.native(name, args).Ok? ::
       Tame(w.read, w.native(name, args).value)) &&
    forall a <- w.modules :: TameFrame(w.read, w.modules[a])
  }

  predicate TameError(read: I.Reader, e: EvalError) {
    e.EarlyReturn? ==> Tame(read, e.value)
  }

  predicate TameOut(read: I.Reader, out: Outcome) {
    match out
    case Done(v) => Tame(read, v)
    case Again(vs) => AllTame(read, vs)
    case Fail(e) => TameError(read, e)
  }

  lemma {:induction false} LookupTame(read: I.Reader, env: Chain, name: string)
    requires TameChain(read, env) && Lookup(env, name).Some?
    ensures Tame(read, Lookup(env, name).value)
  {
    hide Tame;
    var inner := env[|env| - 1];
    assert TameFrame(read, inner);
    if name !in inner { LookupTame(read, env[..|env| - 1], name); }
  }

  lemma {:induction false} FlattenTame(read: I.Reader, env: Chain)
    requires TameChain(read, env)
    ensures TameFrame(read, Flatten(env))
  {
    hide Tame;
    if env != [] {
      FlattenTame(read, env[..|env| - 1]);
      assert TameFrame(read, env[|env| - 1]);
    }
  }

  lemma {:induction false} AssignTame(read: I.Reader, env: Chain, name: string, v: V.Value)
    requires TameChain(read, env) && Tame(read, v) && Assign(env, name, v).Some?
    ensures TameChain(read, Assign(env, name, v).value)
  {
    hide Tame;
    var outer, inner := env[..|env| - 1], env[|env| - 1];
    assert TameFrame(read, inner);
    assert TameChain(read, outer);
    if name in inner {
      assert TameFrame(read, inner[name := v]);
    } else {
      AssignTame(read, outer, name, v);
    }
  }

  lemma {:induction false} BindAllTame(read: I.Reader, frame: Frame, bs: seq<Bind>)
    requires TameFrame(read, frame) && TameBinds(read, bs)
    ensures TameFrame(read, BindAll(frame, bs))
    decreases |bs|
  {
    hide Tame;
    if bs != [] {
      assert TameBinds(read, bs[..|bs| - 1]);
      BindAllTame(read, frame, bs[..|bs| - 1]);
      assert Tame(read, bs[|bs| - 1].value);
    }
  }

  lemma DefineAllTame(read: I.Reader, env: Chain, bs: seq<Bind>)
    requires env != [] && TameChain(read, env) && TameBinds(read, bs)
    ensures TameChain(read, DefineAll(env, bs))
  {
    hide Tame, BindAll, TameFrame;
    assert TameFrame(read, env[|env| - 1]);
    BindAllTame(read, env[|env| - 1], bs);
  }

  lemma DefineTame(read: I.Reader, env: Chain, name: string, v: V.Value)
    requires env != [] && TameChain(read, env) && Tame(read, v)
    ensures TameChain(read, Define(env, name, v))
  {
    hide Tame;
    assert TameFrame(read, env[|env| - 1]);
    assert TameFrame(read, env[|env| - 1][name := v]);
  }

  lemma PushTame(read: I.Reader, env: Chain, frame: Frame)
    requires TameChain(read, env) && TameFrame(read, frame)
    ensures TameChain(read, Push(env, frame))
  {
    hide Tame, TameFrame;
  }

  lemma PopTame(read: I.Reader, env: Chain)
    requires env != [] && TameChain(read, env)
    ensures TameChain(read, Pop(env))
  {
    hide Tame, TameFrame;
  }

  lemma EmptyTame(read: I.Reader)
    ensures TameFrame(read, map[])
  {
  }

  lemma OneTame(read: I.Reader, name: string, v: V.Value)
    requires Tame(read, v)
    ensures TameFrame(read, map[name := v])
  {
    hide Tame;
  }

  lemma ZipTame(read: I.Reader, names: seq<string>, vs: seq<V.Value>)
    requires AllTame(read, vs)
    ensures TameBinds(read, Zip(names, vs))
  {
    hide Tame;
  }

  // ---------------------------------------------------------------------------------------------
  // Matching and the operations on values
  // ---------------------------------------------------------------------------------------------

  lemma {:induction false} MapGetTame(read: I.Reader, entries: seq<V.Binding>, key: V.Value)
    requires Tame(read, V.Map(entries)) && V.MapGet(entries, key).Some?
    ensures Tame(read, V.MapGet(entries, key).value)
    decreases |entries|
  {
    assert TameBinding(read, entries[0]);
    if entries[0].key != key {
      assert forall i | 0 <= i < |entries[1..]| :: entries[1..][i] == entries[i + 1];
      MapGetTame(read, entries[1..], key);
    }
  }

  lemma {:induction false} MapPutTame(read: I.Reader, entries: seq<V.Binding>, key: V.Value, value: V.Value)
    requires Tame(read, V.Map(entries)) && Tame(read, key) && Tame(read, value)
    ensures Tame(read, V.Map(V.MapPut(entries, key, value)))
    decreases |entries|
  {
    assert TameBinding(read, V.Binding(key, value));
    if entries != [] && entries[0].key != key {
      assert TameBinding(read, entries[0]);
      assert forall i | 0 <= i < |entries[1..]| :: entries[1..][i] == entries[i + 1];
      MapPutTame(read, entries[1..], key, value);
      var rest := V.MapPut(entries[1..], key, value);
      assert Tame(read, V.Map(rest));
      var all := [entries[0]] + rest;
      forall i | 0 <= i < |all| ensures TameBinding(read, all[i]) {
        if i > 0 { assert all[i] == rest[i - 1]; }
      }
    }
  }

  lemma {:induction false} MatchTame(read: I.Reader, p: Pattern, v: V.Value)
    requires Tame(read, v) && Match(p, v).Some?
    ensures TameBinds(read, Match(p, v).value)
    decreases p
  {
    match p
    case Constructor(_, args) => MatchAllTame(read, args, v.fields, |args|);
    case Record(fields) => MatchFieldsTame(read, fields, v.entries, |fields|);
    case Tuple(items) => MatchAllTame(read, items, v.items, |items|);
    case Or(alternatives) => FirstTame(read, alternatives, v, 0);
    case As(inner, _) => MatchTame(read, inner, v);
    case _ =>
  }

  lemma {:induction false} MatchAllTame(read: I.Reader, ps: seq<Pattern>, vs: seq<V.Value>, n: nat)
    requires n <= |ps| == |vs| && AllTame(read, vs) && MatchAll(ps, vs, n).Some?
    ensures TameBinds(read, MatchAll(ps, vs, n).value)
    decreases ps, n
  {
    hide Match, Tame;
    if n > 0 {
      MatchAllTame(read, ps, vs, n - 1);
      MatchTame(read, ps[n - 1], vs[n - 1]);
    }
  }

  lemma {:induction false} MatchFieldsTame(read: I.Reader, fs: seq<Field>, entries: seq<V.Binding>, n: nat)
    requires n <= |fs| && Tame(read, V.Map(entries)) && MatchFields(fs, entries, n).Some?
    ensures TameBinds(read, MatchFields(fs, entries, n).value)
    decreases fs, n
  {
    hide Match, Tame, MatchField;
    if n > 0 {
      MatchFieldsTame(read, fs, entries, n - 1);
      MatchFieldTame(read, fs[n - 1], entries);
    }
  }

  lemma {:induction false} MatchFieldTame(read: I.Reader, f: Field, entries: seq<V.Binding>)
    requires Tame(read, V.Map(entries)) && MatchField(f, entries).Some?
    ensures TameBinds(read, MatchField(f, entries).value)
    decreases f
  {
    hide Match, Tame;
    var key := V.Keyword(None, f.key);
    MapGetTame(read, entries, key);
    MatchTame(read, f.pattern, V.MapGet(entries, key).value);
  }

  lemma {:induction false} FirstTame(read: I.Reader, ps: seq<Pattern>, v: V.Value, i: nat)
    requires i <= |ps| && Tame(read, v) && FirstMatch(ps, v, i).Some?
    ensures TameBinds(read, FirstMatch(ps, v, i).value)
    decreases ps, |ps| - i
  {
    hide Match, Tame;
    if Match(ps[i], v).Some? {
      MatchTame(read, ps[i], v);
    } else {
      FirstTame(read, ps, v, i + 1);
    }
  }

  lemma ElementsTame(read: I.Reader, v: V.Value)
    requires Tame(read, v)
    ensures match Elements(v) case Ok(vs) => AllTame(read, vs) case Err(e) => !e.EarlyReturn?
  {
    if v.Map? {
      forall i | 0 <= i < |v.entries| ensures Tame(read, v.entries[i].value) { assert TameBinding(read, v.entries[i]); }
    }
  }

  lemma UnwrapTame(read: I.Reader, v: V.Value)
    requires Tame(read, v)
    ensures TameOut(read, Lift(Unwrap(v)))
  {
  }

  lemma KeywordTame(read: I.Reader, keyword: V.Value, arg: V.Value)
    requires Tame(read, arg)
    ensures TameOut(read, Lift(KeywordLookup(keyword, arg)))
  {
    if arg.Map? && V.MapGet(arg.entries, keyword).Some? { MapGetTame(read, arg.entries, keyword); }
  }

  lemma ConstantTame(read: I.Reader, a: Atom)
    ensures Tame(read, Constant(a))
  {
  }

  // ---------------------------------------------------------------------------------------------
  // Closures
  // ---------------------------------------------------------------------------------------------

  lemma TidyPart(read: I.Reader, m: Mode, items: seq<Node>, from: nat)
    requires AllTidy(read, m, items) && from <= |items|
    ensures AllTidy(read, m, items[from..])
  {
    hide Tidy;
  }

  lemma LambdaTame(read: I.Reader, items: seq<Node>, captures: Frame)
    requires AllTidy(read, PLAIN, items) && TameFrame(read, captures) && Lambda(items, captures).Ok?
    ensures TameClosure(read, Lambda(items, captures).value)
  {
    hide Tidy, Tame, ParamsFrom;
    TidyPart(read, PLAIN, items, 2);
  }

  lemma {:induction false} ContractsTidy(read: I.Reader, items: seq<Node>, found: Contracts)
    requires AllTidy(read, PLAIN, items) && AllTidy(read, PLAIN, found.pre) && AllTidy(read, PLAIN, found.post)
    ensures var r := ContractsFrom(items, found); AllTidy(read, PLAIN, r.pre) && AllTidy(read, PLAIN, r.post)
    decreases |items| - found.start
  {
    hide Tidy, AllTidy, ContractOf;
    var i := found.start;
    if i + 1 < |items| {
      match ContractOf(items[i])
      case Requires =>
        if items[i + 1].kind.Vector? {
          VectorTidy(read, PLAIN, items, i + 1);
          ContractsTidy(read, items, Contracts(items[i + 1].kind.items, found.post, i + 2));
        }
      case Ensures =>
        if items[i + 1].kind.Vector? {
          VectorTidy(read, PLAIN, items, i + 1);
          ContractsTidy(read, items, Contracts(found.pre, items[i + 1].kind.items, i + 2));
        }
      case Examples => ContractsTidy(read, items, found.(start := i + 2));
      case NoContract =>
    }
  }

  lemma DefnTame(read: I.Reader, items: seq<Node>, captures: Frame)
    requires AllTidy(read, PLAIN, items) && TameFrame(read, captures) && DefnOf(items, captures).Ok?
    ensures TameClosure(read, DefnOf(items, captures).value.closure)
  {
    hide Tidy, Tame, ParamsFrom, ContractsFrom, Lambda;
    var bodyStart := if IsDocstring(items[2]) then 4 else 3;
    var none := Contracts([], [], bodyStart);
    ContractsTidy(read, items, none);
    var found := ContractsFrom(items, none);
    var code := [items[0], items[bodyStart - 1]] + items[found.start..];
    TidyPart(read, PLAIN, items, found.start);
    forall i | 0 <= i < |code| ensures Tidy(read, PLAIN, code[i]) {
      if i >= 2 { assert code[i] == items[found.start..][i - 2]; }
    }
    LambdaTame(read, code, captures);
  }

  lemma CallFrameTame(read: I.Reader, f: V.Closure, args: seq<V.Value>)
    requires TameClosure(read, f) && AllTame(read, args) && Accepts(f, |args|)
    ensures TameFrame(read, CallFrame(f, args))
  {
    assert Tame(read, V.Function(f));
    assert TameFrame(read, OwnFrame(f));
    hide Tame, BindAll, Zip, OwnFrame;
    ZipTame(read, f.params, args);
    BindAllTame(read, OwnFrame(f), Zip(f.params, args));
    if f.rest.Some? { RestTame(read, args, |f.params|); }
  }

  lemma RestTame(read: I.Reader, args: seq<V.Value>, n: nat)
    requires AllTame(read, args) && n <= |args|
    ensures Tame(read, V.Vec(args[n..]))
  {
    assert forall i | 0 <= i < |args[n..]| :: args[n..][i] == args[n + i];
  }
}
