/** Patterns (crates/nexl-ast/src/pattern.rs) and matching (`match_pattern` in crates/nexl-eval/src/eval.rs). */
module Patterns {
  import opened Basics
  import opened Ast
  import V = Values

  datatype Pattern =
    | Wildcard
    | Var(name: string)
    | Literal(atom: Atom)
    | Constructor(ctor: string, args: seq<Pattern>)
    | Record(fields: seq<Field>)
    | Tuple(items: seq<Pattern>)
    | Or(alternatives: seq<Pattern>)
    | As(inner: Pattern, alias: string)

  datatype Field = Field(key: string, pattern: Pattern)

  datatype PatternError =
    | KeyNotKeyword
    | UnsupportedForm
    | QualifiedVariable
    | EmptyList
    | HeadNotSymbol
    | TooFewAlternatives

  type Parsed = Result<Pattern, PatternError>

  // ---------------------------------------------------------------------------------------------
  // Parsing
  // ---------------------------------------------------------------------------------------------

  predicate StartsUpper(name: string) {
    name != "" && 'A' <= name[0] <= 'Z'
  }

  /** `parse_atom_pattern`. */
  function AtomPattern(a: Atom): Parsed {
    match a
    case Symbol(None, name) =>
      Ok(if name == "_" then Wildcard else if StartsUpper(name) then Constructor(name, []) else Var(name))
    case Symbol(Some(_), _) => Err(QualifiedVariable)
    case _ => Ok(Literal(a))
  }

  predicate IsBar(name: string) {
    name == "|"
  }

  /** What `parse_pattern` reads from a node. */
  function PatternOf(node: Node): Parsed
    decreases node
  {
    match node.kind
    case Atomic(a) => AtomPattern(a)
    case List(items) =>
      if items == [] then Err(EmptyList)
      else
        (match HeadName(items)
         case None => Err(HeadNotSymbol)
         case Some(head) =>
           if IsBar(head) && |items| < 3 then Err(TooFewAlternatives)
           else
             match PatternsOf(items, 1, |items|)
             case Err(e) => Err(e)
             case Ok(ps) => Ok(if IsBar(head) then Or(ps) else Constructor(head, ps)))
    case Vector(items) =>
      (match PatternsOf(items, 0, |items|)
       case Err(e) => Err(e)
       case Ok(ps) => Ok(Tuple(ps)))
    case Map(pairs) =>
      (match FieldsOf(pairs, |pairs|)
       case Err(e) => Err(e)
       case Ok(fs) => Ok(Record(fs)))
    case _ => Err(UnsupportedForm)
  }

  /** The patterns in `items[lo..hi]`, up to the first error. */
  function PatternsOf(items: seq<Node>, lo: nat, hi: nat): (r: Result<seq<Pattern>, PatternError>)
    requires lo <= hi <= |items|
    ensures r.Ok? ==> |r.value| == hi - lo
    decreases items, hi
  {
    if hi == lo then Ok([])
    else
      match PatternsOf(items, lo, hi - 1)
      case Err(e) => Err(e)
      case Ok(ps) =>
        match PatternOf(items[hi - 1])
        case Err(e) => Err(e)
        case Ok(p) => Ok(ps + [p])
  }

  function FieldName(key: Node): Option<string> {
    match key.kind
    case Atomic(Keyword(None, name)) => Some(name)
    case _ => None
  }

  function FieldsOf(pairs: seq<Entry>, hi: nat): (r: Result<seq<Field>, PatternError>)
    requires hi <= |pairs|
    ensures r.Ok? ==> |r.value| == hi
    decreases pairs, hi
  {
    if hi == 0 then Ok([])
    else
      match FieldsOf(pairs, hi - 1)
      case Err(e) => Err(e)
      case Ok(fs) =>
        match FieldOf(pairs[hi - 1])
        case Err(e) => Err(e)
        case Ok(f) => Ok(fs + [f])
  }

  function FieldOf(e: Entry): Result<Field, PatternError>
    decreases e
  {
    match FieldName(e.key)
    case None => Err(KeyNotKeyword)
    case Some(name) =>
      match PatternOf(e.val)
      case Err(error) => Err(error)
      case Ok(p) => Ok(Field(name, p))
  }

  lemma {:induction false} PatternsFail(items: seq<Node>, lo: nat, hi: nat, n: nat)
    requires lo <= hi <= n <= |items| && PatternsOf(items, lo, hi).Err?
    ensures PatternsOf(items, lo, n) == PatternsOf(items, lo, hi)
    decreases n
  {
    hide PatternOf;
    if hi < n { PatternsFail(items, lo, hi, n - 1); }
  }

  lemma {:induction false} FieldsFail(pairs: seq<Entry>, hi: nat, n: nat)
    requires hi <= n <= |pairs| && FieldsOf(pairs, hi).Err?
    ensures FieldsOf(pairs, n) == FieldsOf(pairs, hi)
    decreases n
  {
    hide FieldOf;
    if hi < n { FieldsFail(pairs, hi, n - 1); }
  }

  /** `parse_pattern`. */
  method ParsePattern(node: Node) returns (r: Parsed)
    ensures r == PatternOf(node)
    decreases node
  {
    match node.kind {
      case Atomic(a) => r := AtomPattern(a);
      case List(items) => r := ParseListPattern(node, items);
      case Vector(items) =>
        var pats := [];
        for i := 0 to |items|
          invariant PatternsOf(items, 0, i) == Ok(pats)
        {
          var p := ParsePattern(items[i]);
          if p.Err? {
            PatternsFail(items, 0, i + 1, |items|);
            return p;
          }
          pats := pats + [p.value];
        }
        r := Ok(Tuple(pats));
      case Map(pairs) =>
        var fields := [];
        for i := 0 to |pairs|
          invariant FieldsOf(pairs, i) == Ok(fields)
        {
          var name := FieldName(pairs[i].key);
          if name.None? {
            FieldsFail(pairs, i + 1, |pairs|);
            return Err(KeyNotKeyword);
          }
          var p := ParsePattern(pairs[i].val);
          if p.Err? {
            FieldsFail(pairs, i + 1, |pairs|);
            return p;
          }
          fields := fields + [Field(name.value, p.value)];
        }
        r := Ok(Record(fields));
      case _ => r := Err(UnsupportedForm);
    }
  }

  /** `parse_list_pattern`. */
  method ParseListPattern(ghost node: Node, items: seq<Node>) returns (r: Parsed)
    requires node.kind == List(items)
    ensures r == PatternOf(node)
    decreases items
  {
    if items == [] {
      return Err(EmptyList);
    }
    var head := HeadName(items);
    if head.None? {
      return Err(HeadNotSymbol);
    }
    if IsBar(head.value) && |items| < 3 {
      return Err(TooFewAlternatives);
    }
    var pats := [];
    for i := 1 to |items|
      invariant PatternsOf(items, 1, i) == Ok(pats)
    {
      var p := ParsePattern(items[i]);
      if p.Err? {
        PatternsFail(items, 1, i + 1, |items|);
        return p;
      }
      pats := pats + [p.value];
    }
    r := Ok(if IsBar(head.value) then Or(pats) else Constructor(head.value, pats));
  }

  // ---------------------------------------------------------------------------------------------
  // Which patterns can be written
  // ---------------------------------------------------------------------------------------------

  /** The patterns that some node denotes: no alias, at least two alternatives, and names that read as what they are. */
  predicate Expressible(p: Pattern)
    decreases p
  {
    match p
    case Wildcard => true
    case Var(name) => name != "_" && !StartsUpper(name)
    case Literal(atom) => !atom.Symbol?
    case Constructor(ctor, args) => !IsBar(ctor) && forall i | 0 <= i < |args| :: Expressible(args[i])
    case Record(fields) => forall i | 0 <= i < |fields| :: Expressible(fields[i].pattern)
    case Tuple(items) => forall i | 0 <= i < |items| :: Expressible(items[i])
    case Or(alternatives) => |alternatives| >= 2 && forall i | 0 <= i < |alternatives| :: Expressible(alternatives[i])
    case As(_, _) => false
  }

  function Bare(k: Kind): Node {
    Node(k, [], None)
  }

  function SymbolNode(name: string): Node {
    Bare(Atomic(Symbol(None, name)))
  }

  /** How a pattern is written. */
  function Written(p: Pattern): Node
    decreases p
  {
    match p
    case Wildcard => SymbolNode("_")
    case Var(name) => SymbolNode(name)
    case Literal(atom) => Bare(Atomic(atom))
    case Constructor(ctor, args) => Bare(List([SymbolNode(ctor)] + WrittenAll(args)))
    case Record(fields) => Bare(Map(WrittenFields(fields)))
    case Tuple(items) => Bare(Vector(WrittenAll(items)))
    case Or(alternatives) => Bare(List([SymbolNode("|")] + WrittenAll(alternatives)))
    case As(inner, _) => Written(inner)
  }

  function WrittenAll(ps: seq<Pattern>): (nodes: seq<Node>)
    ensures |nodes| == |ps|
    decreases ps
  {
    if ps == [] then [] else WrittenAll(ps[..|ps| - 1]) + [Written(ps[|ps| - 1])]
  }

  function WrittenFields(fs: seq<Field>): (pairs: seq<Entry>)
    ensures |pairs| == |fs|
    decreases fs
  {
    if fs == [] then []
    else
      var last := fs[|fs| - 1];
      WrittenFields(fs[..|fs| - 1]) + [Entry(Bare(Atomic(Keyword(None, last.key))), Written(last.pattern))]
  }

  /** Every parsed pattern is expressible. */
  lemma {:induction false} ParsedExpressible(node: Node)
    requires PatternOf(node).Ok?
    ensures Expressible(PatternOf(node).value)
    decreases node
  {
    match node.kind
    case List(items) => PartsExpressible(items, 1, |items|);
    case Vector(items) => PartsExpressible(items, 0, |items|);
    case Map(pairs) => FieldsExpressible(pairs, |pairs|);
    case _ =>
  }

  lemma {:induction false} PartsExpressible(items: seq<Node>, lo: nat, hi: nat)
    requires lo <= hi <= |items| && PatternsOf(items, lo, hi).Ok?
    ensures forall i | 0 <= i < hi - lo :: Expressible(PatternsOf(items, lo, hi).value[i])
    decreases items, hi
  {
    hide PatternOf, Expressible;
    if lo < hi {
      PartsExpressible(items, lo, hi - 1);
      ParsedExpressible(items[hi - 1]);
    }
  }

  lemma {:induction false} FieldsExpressible(pairs: seq<Entry>, hi: nat)
    requires hi <= |pairs| && FieldsOf(pairs, hi).Ok?
    ensures forall i | 0 <= i < hi :: Expressible(FieldsOf(pairs, hi).value[i].pattern)
    decreases pairs, hi
  {
    hide FieldOf, Expressible;
    if 0 < hi {
      FieldsExpressible(pairs, hi - 1);
      FieldExpressible(pairs[hi - 1]);
    }
  }

  lemma {:induction false} FieldExpressible(e: Entry)
    requires FieldOf(e).Ok?
    ensures Expressible(FieldOf(e).value.pattern)
    decreases e
  {
    hide PatternOf, Expressible;
    ParsedExpressible(e.val);
  }

  /** Parsing inverts writing, on exactly the patterns that parsing can produce (`ParsedExpressible`). */
  lemma {:induction false} PatternRoundTrip(p: Pattern)
    ensures PatternOf(Written(p)) == Ok(p) <==> Expressible(p)
    decreases p
  {
    if Expressible(p) {
      WrittenParses(p);
    } else if PatternOf(Written(p)) == Ok(p) {
      ParsedExpressible(Written(p));
    }
  }

  lemma {:induction false} WrittenParses(p: Pattern)
    requires Expressible(p)
    ensures PatternOf(Written(p)) == Ok(p)
    decreases p
  {
    match p
    case Constructor(ctor, args) =>
      ListParses(ctor, args, |args|);
      assert args[..|args|] == args;
      assert HeadName([SymbolNode(ctor)] + WrittenAll(args)) == Some(ctor);
    case Or(alternatives) =>
      ListParses("|", alternatives, |alternatives|);
      assert alternatives[..|alternatives|] == alternatives;
    case Tuple(items) =>
      TupleParses(items, |items|);
      assert items[..|items|] == items;
    case Record(fields) =>
      RecordParses(fields, |fields|);
      assert fields[..|fields|] == fields;
    case _ =>
  }

  lemma {:induction false} ListParses(head: string, ps: seq<Pattern>, n: nat)
    requires n <= |ps| && forall i | 0 <= i < |ps| :: Expressible(ps[i])
    ensures PatternsOf([SymbolNode(head)] + WrittenAll(ps), 1, n + 1) == Ok(ps[..n])
    decreases ps, n
  {
    hide PatternOf, Expressible, Written, WrittenAll;
    if n > 0 {
      ListParses(head, ps, n - 1);
      WrittenParses(ps[n - 1]);
      WrittenAt(ps, n - 1);
      assert ([SymbolNode(head)] + WrittenAll(ps))[n] == WrittenAll(ps)[n - 1];
      assert ps[..n] == ps[..n - 1] + [ps[n - 1]];
    }
  }

  lemma {:induction false} TupleParses(ps: seq<Pattern>, n: nat)
    requires n <= |ps| && forall i | 0 <= i < |ps| :: Expressible(ps[i])
    ensures PatternsOf(WrittenAll(ps), 0, n) == Ok(ps[..n])
    decreases ps, n
  {
    hide PatternOf, Expressible, Written, WrittenAll;
    if n > 0 {
      TupleParses(ps, n - 1);
      WrittenParses(ps[n - 1]);
      WrittenAt(ps, n - 1);
      assert ps[..n] == ps[..n - 1] + [ps[n - 1]];
    }
  }

  lemma {:induction false} RecordParses(fs: seq<Field>, n: nat)
    requires n <= |fs| && forall i | 0 <= i < |fs| :: Expressible(fs[i].pattern)
    ensures FieldsOf(WrittenFields(fs), n) == Ok(fs[..n])
    decreases fs, n
  {
    hide PatternOf, Expressible, Written, WrittenFields;
    if n > 0 {
      RecordParses(fs, n - 1);
      WrittenParses(fs[n - 1].pattern);
      FieldAt(fs, n - 1);
      assert fs[..n] == fs[..n - 1] + [fs[n - 1]];
    }
  }

  lemma {:induction false} WrittenAt(ps: seq<Pattern>, i: nat)
    requires i < |ps|
    ensures WrittenAll(ps)[i] == Written(ps[i])
    decreases |ps|
  {
    hide Written;
    if i < |ps| - 1 { WrittenAt(ps[..|ps| - 1], i); }
  }

  lemma {:induction false} FieldAt(fs: seq<Field>, i: nat)
    requires i < |fs|
    ensures WrittenFields(fs)[i] == Entry(Bare(Atomic(Keyword(None, fs[i].key))), Written(fs[i].pattern))
    decreases |fs|
  {
    hide Written;
    if i < |fs| - 1 { FieldAt(fs[..|fs| - 1], i); }
  }

  // ---------------------------------------------------------------------------------------------
  // Matching
  // ---------------------------------------------------------------------------------------------

  datatype Bind = Bind(name: string, value: V.Value)

  type Matched = Option<seq<Bind>>

  /** `match_literal`. */
  predicate MatchLiteral(atom: Atom, v: V.Value) {
    match atom
    case Int(n, _) => v.Int? && V.Wrap(n) == v.i
    case Float(digits, _) => v.Float? && digits == v.digits
    case Bool(b) => v.Bool? && b == v.b
    case Str(s) => v.Str? && s == v.s
    case Char(c) => v.Char? && c == v.c
    case Unit => v.Unit?
    case Keyword(ns, name) => v.Keyword? && ns == v.ns && name == v.name
    case _ => false
  }

  function Then(first: Matched, second: Matched): Matched {
    if first.Some? && second.Some? then Some(first.value + second.value) else None
  }

  /** The bindings a value gives to a pattern, in pattern order, or `None` when it does not fit. */
  function Match(p: Pattern, v: V.Value): Matched
    decreases p
  {
    match p
    case Wildcard => Some([])
    case Var(name) => Some([Bind(name, v)])
    case Literal(atom) => if MatchLiteral(atom, v) then Some([]) else None
    case Constructor(ctor, args) =>
      if v.Adt? && v.ctor == ctor && |v.fields| == |args| then MatchAll(args, v.fields, |args|) else None
    case Record(fields) => if v.Map? then MatchFields(fields, v.entries, |fields|) else None
    case Tuple(items) => if v.Vec? && |v.items| == |items| then MatchAll(items, v.items, |items|) else None
    case Or(alternatives) => FirstMatch(alternatives, v, 0)
    case As(inner, alias) => Then(Match(inner, v), Some([Bind(alias, v)]))
  }

  /** The first `n` patterns against the first `n` values. */
  function MatchAll(ps: seq<Pattern>, vs: seq<V.Value>, n: nat): Matched
    requires n <= |ps| == |vs|
    decreases ps, n
  {
    if n == 0 then Some([]) else Then(MatchAll(ps, vs, n - 1), Match(ps[n - 1], vs[n - 1]))
  }

  function MatchField(f: Field, entries: seq<V.Binding>): Matched
    decreases f
  {
    match V.MapGet(entries, V.Keyword(None, f.key))
    case None => None
    case Some(v) => Match(f.pattern, v)
  }

  function MatchFields(fs: seq<Field>, entries: seq<V.Binding>, n: nat): Matched
    requires n <= |fs|
    decreases fs, n
  {
    if n == 0 then Some([]) else Then(MatchFields(fs, entries, n - 1), MatchField(fs[n - 1], entries))
  }

  /** The first alternative that fits, from `i` on. */
  function FirstMatch(ps: seq<Pattern>, v: V.Value, i: nat): Matched
    requires i <= |ps|
    decreases ps, |ps| - i
  {
    if i == |ps| then None
    else if Match(ps[i], v).Some? then Match(ps[i], v)
    else FirstMatch(ps, v, i + 1)
  }

  lemma {:induction false} MatchAllFails(ps: seq<Pattern>, vs: seq<V.Value>, n: nat)
    requires n <= |ps| == |vs| && MatchAll(ps, vs, n).None?
    ensures MatchAll(ps, vs, |ps|).None?
    decreases |ps| - n
  {
    hide Match;
    if n < |ps| { MatchAllFails(ps, vs, n + 1); }
  }

  lemma {:induction false} MatchFieldsFails(fs: seq<Field>, entries: seq<V.Binding>, n: nat)
    requires n <= |fs| && MatchFields(fs, entries, n).None?
    ensures MatchFields(fs, entries, |fs|).None?
    decreases |fs| - n
  {
    hide MatchField;
    if n < |fs| { MatchFieldsFails(fs, entries, n + 1); }
  }

  /** The accumulator `&mut Vec<(Rc<str>, Value)>`. */
  class Bindings {
    var list: seq<Bind>

    constructor ()
      ensures list == []
    {
      list := [];
    }
  }

  /** Success appended exactly the bindings of the match; failure kept at least what was there. */
  twostate predicate Appended(acc: Bindings, ok: bool, new m: Matched)
    reads acc
  {
    ok == m.Some? && if ok then acc.list == old(acc.list) + m.value else old(acc.list) <= acc.list
  }

  /** `match_pattern` with its shared accumulator. */
  method MatchPattern(p: Pattern, v: V.Value, acc: Bindings) returns (ok: bool)
    modifies acc
    ensures Appended(acc, ok, Match(p, v))
    decreases p
  {
    match p {
      case Wildcard => ok := true;
      case Var(name) =>
        acc.list := acc.list + [Bind(name, v)];
        ok := true;
      case Literal(atom) => ok := MatchLiteral(atom, v);
      case Constructor(ctor, args) =>
        if !v.Adt? || v.ctor != ctor || |v.fields| != |args| {
          return false;
        }
        ok := MatchEach(args, v.fields, acc);
      case Record(fields) =>
        if !v.Map? {
          return false;
        }
        ok := MatchRecord(fields, v.entries, acc);
      case Tuple(items) =>
        if !v.Vec? || |v.items| != |items| {
          return false;
        }
        ok := MatchEach(items, v.items, acc);
      case Or(alternatives) =>
        ok := MatchAlternatives(alternatives, v, acc);
      case As(inner, alias) =>
        ok := MatchPattern(inner, v, acc);
        if ok {
          acc.list := acc.list + [Bind(alias, v)];
        }
    }
  }

  /** The loop over sub-patterns and the values beside them. */
  method MatchEach(ps: seq<Pattern>, vs: seq<V.Value>, acc: Bindings) returns (ok: bool)
    requires |ps| == |vs|
    modifies acc
    ensures Appended(acc, ok, MatchAll(ps, vs, |ps|))
    decreases ps
  {
    hide Match;
    for i := 0 to |ps|
      invariant MatchAll(ps, vs, i).Some?
      invariant acc.list == old(acc.list) + MatchAll(ps, vs, i).value
    {
      ok := MatchPattern(ps[i], vs[i], acc);
      if !ok {
        MatchAllFails(ps, vs, i + 1);
        return;
      }
    }
    ok := true;
  }

  /** The loop over record fields. */
  method MatchRecord(fields: seq<Field>, entries: seq<V.Binding>, acc: Bindings) returns (ok: bool)
    modifies acc
    ensures Appended(acc, ok, MatchFields(fields, entries, |fields|))
    decreases fields
  {
    hide Match;
    for i := 0 to |fields|
      invariant MatchFields(fields, entries, i).Some?
      invariant acc.list == old(acc.list) + MatchFields(fields, entries, i).value
    {
      var found := V.MapGet(entries, V.Keyword(None, fields[i].key));
      if found.None? {
        MatchFieldsFails(fields, entries, i + 1);
        return false;
      }
      ok := MatchPattern(fields[i].pattern, found.value, acc);
      if !ok {
        MatchFieldsFails(fields, entries, i + 1);
        return;
      }
    }
    ok := true;
  }

  /** The loop over alternatives: each collects into bindings of its own. */
  method MatchAlternatives(alternatives: seq<Pattern>, v: V.Value, acc: Bindings) returns (ok: bool)
    modifies acc
    ensures Appended(acc, ok, FirstMatch(alternatives, v, 0))
    decreases alternatives
  {
    hide Match;
    for i := 0 to |alternatives|
      invariant acc.list == old(acc.list)
      invariant FirstMatch(alternatives, v, 0) == FirstMatch(alternatives, v, i)
    {
      var alternative := new Bindings();
      ok := MatchPattern(alternatives[i], v, alternative);
      if ok {
        acc.list := acc.list + alternative.list;
        return;
      }
    }
    ok := false;
  }

  // ---------------------------------------------------------------------------------------------
  // Which names a match binds
  // ---------------------------------------------------------------------------------------------

  /** The names of a pattern without alternatives, in order. */
  function Names(p: Pattern): seq<string>
    decreases p
  {
    match p
    case Var(name) => [name]
    case Constructor(_, args) => NamesAll(args, |args|)
    case Record(fields) => NamesFields(fields, |fields|)
    case Tuple(items) => NamesAll(items, |items|)
    case As(inner, alias) => Names(inner) + [alias]
    case _ => []
  }

  function NamesAll(ps: seq<Pattern>, n: nat): seq<string>
    requires n <= |ps|
    decreases ps, n
  {
    if n == 0 then [] else NamesAll(ps, n - 1) + Names(ps[n - 1])
  }

  function NamesFields(fs: seq<Field>, n: nat): seq<string>
    requires n <= |fs|
    decreases fs, n
  {
    if n == 0 then [] else NamesFields(fs, n - 1) + Names(fs[n - 1].pattern)
  }

  predicate NoAlternatives(p: Pattern)
    decreases p
  {
    match p
    case Constructor(_, args) => forall i | 0 <= i < |args| :: NoAlternatives(args[i])
    case Record(fields) => forall i | 0 <= i < |fields| :: NoAlternatives(fields[i].pattern)
    case Tuple(items) => forall i | 0 <= i < |items| :: NoAlternatives(items[i])
    case As(inner, _) => NoAlternatives(inner)
    case Or(_) => false
    case _ => true
  }

  function NamesOf(bs: seq<Bind>): seq<string> {
    seq(|bs|, i requires 0 <= i < |bs| => bs[i].name)
  }

  /** A successful match binds the pattern's names, whatever the value. */
  lemma {:induction false} MatchBindsNames(p: Pattern, v: V.Value)
    requires NoAlternatives(p) && Match(p, v).Some?
    ensures NamesOf(Match(p, v).value) == Names(p)
    decreases p
  {
    match p
    case Constructor(_, args) => AllBindNames(args, v.fields, |args|);
    case Tuple(items) => AllBindNames(items, v.items, |items|);
    case Record(fields) => FieldsBindNames(fields, v.entries, |fields|);
    case As(inner, alias) => MatchBindsNames(inner, v);
    case _ =>
  }

  lemma {:induction false} AllBindNames(ps: seq<Pattern>, vs: seq<V.Value>, n: nat)
    requires n <= |ps| == |vs| && MatchAll(ps, vs, n).Some? && forall i | 0 <= i < |ps| :: NoAlternatives(ps[i])
    ensures NamesOf(MatchAll(ps, vs, n).value) == NamesAll(ps, n)
    decreases ps, n
  {
    hide Match, NoAlternatives, Names;
    if n > 0 {
      AllBindNames(ps, vs, n - 1);
      MatchBindsNames(ps[n - 1], vs[n - 1]);
    }
  }

  lemma {:induction false} FieldsBindNames(fs: seq<Field>, entries: seq<V.Binding>, n: nat)
    requires n <= |fs| && MatchFields(fs, entries, n).Some?
    requires forall i | 0 <= i < |fs| :: NoAlternatives(fs[i].pattern)
    ensures NamesOf(MatchFields(fs, entries, n).value) == NamesFields(fs, n)
    decreases fs, n
  {
    hide Match, NoAlternatives, Names;
    if n > 0 {
      FieldsBindNames(fs, entries, n - 1);
      MatchBindsNames(fs[n - 1].pattern, V.MapGet(entries, V.Keyword(None, fs[n - 1].key)).value);
    }
  }
}
