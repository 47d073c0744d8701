/**
 When a value fits a pattern (`match_pattern` in crates/nexl-eval/src/eval.rs), told without matching: by building
 values from patterns, by looking for keys, and by counting alternatives.
*/
module MatchLaws {
  import opened Basics
  import opened Ast
  import opened Patterns
  import V = Values

  // ---------------------------------------------------------------------------------------------
  // Patterns that say what the whole value is
  // ---------------------------------------------------------------------------------------------

  /** The value that a literal pattern stands for. Symbols and ratios stand for none. */
  function LiteralValue(a: Atom): Option<V.Value> {
    match a
    case Int(n, _) => Some(V.Int(V.Wrap(n)))
    case Float(digits, _) => Some(V.Float(digits))
    case Bool(true) => Some(V.Bool(true))
    case Bool(false) => Some(V.Bool(false))
    case Str(s) => Some(V.Str(s))
    case Char(c) => Some(V.Char(c))
    case Keyword(ns, name) => Some(V.Keyword(ns, name))
    case Unit => Some(V.Unit)
    case Ratio(_, _) => None
    case Symbol(_, _) => None
  }

  /** A literal fits its own value and no other. */
  lemma LiteralFits(a: Atom, v: V.Value)
    ensures Match(Literal(a), v) == if LiteralValue(a) == Some(v) then Some([]) else None
  {
  }

  /** Variables, literals, constructors and tuples. */
  predicate Rigid(p: Pattern)
    decreases p
  {
    match p
    case Var(_) => true
    case Literal(a) => LiteralValue(a).Some?
    case Constructor(_, args) => forall i | 0 <= i < |args| :: Rigid(args[i])
    case Tuple(items) => forall i | 0 <= i < |items| :: Rigid(items[i])
    case _ => false
  }

  /** How many constructors occur. */
  function Ctors(p: Pattern): nat
    decreases p
  {
    match p
    case Constructor(_, args) => 1 + CtorsAll(args, |args|)
    case Tuple(items) => CtorsAll(items, |items|)
    case _ => 0
  }

  function CtorsAll(ps: seq<Pattern>, n: nat): nat
    requires n <= |ps|
    decreases ps, n
  {
    if n == 0 then 0 else CtorsAll(ps, n - 1) + Ctors(ps[n - 1])
  }

  /** The value with `vals` in place of the variables, in order; `types` are the types its constructors belong to. */
  function Build(p: Pattern, vals: seq<V.Value>, types: seq<string>): V.Value
    requires Rigid(p) && |vals| == |Names(p)| && |types| == Ctors(p)
    decreases p
  {
    match p
    case Var(_) => vals[0]
    case Literal(a) => LiteralValue(a).value
    case Constructor(ctor, args) => V.Adt(types[0], ctor, BuildAll(args, |args|, vals, types[1..]))
    case Tuple(items) => V.Vec(BuildAll(items, |items|, vals, types))
  }

  function BuildAll(ps: seq<Pattern>, n: nat, vals: seq<V.Value>, types: seq<string>): (vs: seq<V.Value>)
    requires n <= |ps| && (forall i | 0 <= i < |ps| :: Rigid(ps[i]))
    requires |vals| == |NamesAll(ps, n)| && |types| == CtorsAll(ps, n)
    ensures |vs| == n
    decreases ps, n
  {
    if n == 0 then []
    else
      var k, t := |NamesAll(ps, n - 1)|, CtorsAll(ps, n - 1);
      BuildAll(ps, n - 1, vals[..k], types[..t]) + [Build(ps[n - 1], vals[k..], types[t..])]
  }

  function Paired(names: seq<string>, vals: seq<V.Value>): (bs: seq<Bind>)
    requires |names| == |vals|
    ensures |bs| == |names|
  {
    seq(|names|, i requires 0 <= i < |names| => Bind(names[i], vals[i]))
  }

  function ValuesOf(bs: seq<Bind>): seq<V.Value> {
    seq(|bs|, i requires 0 <= i < |bs| => bs[i].value)
  }

  /** A built value fits, and gives the variables their values back. */
  lemma {:induction false} BuiltFits(p: Pattern, vals: seq<V.Value>, types: seq<string>)
    requires Rigid(p) && |vals| == |Names(p)| && |types| == Ctors(p)
    ensures Match(p, Build(p, vals, types)) == Some(Paired(Names(p), vals))
    decreases p
  {
    match p
    case Constructor(_, args) => AllBuiltFit(args, |args|, vals, types[1..], BuildAll(args, |args|, vals, types[1..]));
    case Tuple(items) => AllBuiltFit(items, |items|, vals, types, BuildAll(items, |items|, vals, types));
    case Literal(a) => LiteralFits(a, LiteralValue(a).value);
    case Var(name) => assert Paired([name], vals) == [Bind(name, vals[0])];
  }

  lemma {:induction false} AllBuiltFit(
    ps: seq<Pattern>, n: nat, vals: seq<V.Value>, types: seq<string>, vs: seq<V.Value>)
    requires n <= |ps| == |vs| && (forall i | 0 <= i < |ps| :: Rigid(ps[i]))
    requires |vals| == |NamesAll(ps, n)| && |types| == CtorsAll(ps, n) && vs[..n] == BuildAll(ps, n, vals, types)
    ensures MatchAll(ps, vs, n) == Some(Paired(NamesAll(ps, n), vals))
    decreases ps, n
  {
    hide Match, Rigid, Build, Names, Ctors;
    if n > 0 {
      var k, t := |NamesAll(ps, n - 1)|, CtorsAll(ps, n - 1);
      assert vs[..n - 1] == vs[..n][..n - 1] && vs[n - 1] == vs[..n][n - 1];
      AllBuiltFit(ps, n - 1, vals[..k], types[..t], vs);
      BuiltFits(ps[n - 1], vals[k..], types[t..]);
      assert Paired(NamesAll(ps, n - 1), vals[..k]) + Paired(Names(ps[n - 1]), vals[k..]) ==
        Paired(NamesAll(ps, n), vals);
    }
  }

  /** A value that fits is built from what the variables got. */
  lemma {:induction false} FitsBuilt(p: Pattern, v: V.Value) returns (types: seq<string>)
    requires Rigid(p) && Match(p, v).Some?
    ensures var vals := ValuesOf(Match(p, v).value);
            |vals| == |Names(p)| && |types| == Ctors(p) && v == Build(p, vals, types)
    decreases p
  {
    match p {
      case Constructor(_, args) =>
        types := AllFitBuilt(args, v.fields, |args|);
        types := [v.typeName] + types;
        assert types[1..] == types[1..] && v.fields[..|args|] == v.fields;
      case Tuple(items) =>
        types := AllFitBuilt(items, v.items, |items|);
        assert v.items[..|items|] == v.items;
      case Literal(a) =>
        LiteralFits(a, v);
        types := [];
      case Var(name) => types := [];
    }
  }

  lemma {:induction false} AllFitBuilt(ps: seq<Pattern>, vs: seq<V.Value>, n: nat) returns (types: seq<string>)
    requires n <= |ps| == |vs| && (forall i | 0 <= i < |ps| :: Rigid(ps[i])) && MatchAll(ps, vs, n).Some?
    ensures var vals := ValuesOf(MatchAll(ps, vs, n).value);
            |vals| == |NamesAll(ps, n)| && |types| == CtorsAll(ps, n) && vs[..n] == BuildAll(ps, n, vals, types)
    decreases ps, n
  {
    hide Match, Rigid, Build, Names, Ctors;
    if n == 0 {
      types := [];
    } else {
      var before := AllFitBuilt(ps, vs, n - 1);
      var last := FitsBuilt(ps[n - 1], vs[n - 1]);
      types := before + last;
      var k, t := |NamesAll(ps, n - 1)|, CtorsAll(ps, n - 1);
      var vals := ValuesOf(MatchAll(ps, vs, n).value);
      assert vals[..k] == ValuesOf(MatchAll(ps, vs, n - 1).value);
      assert vals[k..] == ValuesOf(Match(ps[n - 1], vs[n - 1]).value);
      assert types[..t] == before && types[t..] == last;
      assert vs[..n] == vs[..n - 1] + [vs[n - 1]];
    }
  }

  /** `v` is the value that the pattern builds from `vals`, for some types of its constructors. */
  ghost predicate IsBuilt(p: Pattern, vals: seq<V.Value>, v: V.Value)
    requires Rigid(p) && |vals| == |Names(p)|
  {
    exists types: seq<string> :: |types| == Ctors(p) && v == Build(p, vals, types)
  }

  /**
   A value fits with given bindings exactly when it is what the pattern builds from them, and they name its variables.
  */
  lemma FitsIsBuilt(p: Pattern, v: V.Value, bs: seq<Bind>)
    requires Rigid(p)
    ensures Match(p, v) == Some(bs) <==> NamesOf(bs) == Names(p) && IsBuilt(p, ValuesOf(bs), v)
  {
    hide Match, Build, Names, Ctors, Rigid;
    if Match(p, v) == Some(bs) {
      RigidNames(p);
      MatchBindsNames(p, v);
      var types := FitsBuilt(p, v);
    }
    if NamesOf(bs) == Names(p) && IsBuilt(p, ValuesOf(bs), v) {
      var types: seq<string> :| |types| == Ctors(p) && v == Build(p, ValuesOf(bs), types);
      BuiltFits(p, ValuesOf(bs), types);
      forall i | 0 <= i < |bs| ensures Paired(Names(p), ValuesOf(bs))[i] == bs[i] {
        assert NamesOf(bs)[i] == bs[i].name;
      }
      assert Paired(Names(p), ValuesOf(bs)) == bs;
    }
  }

  lemma {:induction false} RigidNames(p: Pattern)
    requires Rigid(p)
    ensures NoAlternatives(p)
    decreases p
  {
    match p
    case Constructor(_, args) => forall i | 0 <= i < |args| ensures NoAlternatives(args[i]) { RigidNames(args[i]); }
    case Tuple(items) => forall i | 0 <= i < |items| ensures NoAlternatives(items[i]) { RigidNames(items[i]); }
    case _ =>
  }

  // ---------------------------------------------------------------------------------------------
  // Wildcards, aliases, records and alternatives
  // ---------------------------------------------------------------------------------------------

  lemma WildcardFits(v: V.Value)
    ensures Match(Wildcard, v) == Some([])
  {
  }

  lemma AliasFits(inner: Pattern, alias: string, v: V.Value)
    ensures Match(As(inner, alias), v) ==
            match Match(inner, v)
            case None => None
            case Some(bs) => Some(bs + [Bind(alias, v)])
  {
    hide Match;
    assert Match(As(inner, alias), v) == Then(Match(inner, v), Some([Bind(alias, v)])) by {
      AliasStep(inner, alias, v);
    }
  }

  lemma AliasStep(inner: Pattern, alias: string, v: V.Value)
    ensures Match(As(inner, alias), v) == Then(Match(inner, v), Some([Bind(alias, v)]))
  {
  }

  /** The first entry for the key `:name` holds `w`. */
  predicate HasKey(entries: seq<V.Binding>, name: string, i: nat, w: V.Value) {
    i < |entries| && entries[i] == V.Binding(V.Keyword(None, name), w) &&
    forall j | 0 <= j < i :: entries[j].key != V.Keyword(None, name)
  }

  lemma {:induction false} KeyFound(entries: seq<V.Binding>, name: string, i: nat, w: V.Value)
    requires HasKey(entries, name, i, w)
    ensures V.MapGet(entries, V.Keyword(None, name)) == Some(w)
    decreases i
  {
    if i > 0 {
      assert entries[0].key != V.Keyword(None, name);
      assert forall j | 0 <= j < i - 1 :: entries[1..][j] == entries[j + 1];
      KeyFound(entries[1..], name, i - 1, w);
    }
  }

  lemma {:induction false} KeyMissing(entries: seq<V.Binding>, name: string)
    requires forall j | 0 <= j < |entries| :: entries[j].key != V.Keyword(None, name)
    ensures V.MapGet(entries, V.Keyword(None, name)) == None
  {
    if entries != [] { KeyMissing(entries[1..], name); }
  }

  /** `found[i]` is what the map holds under the `i`-th key. */
  ghost predicate Holds(fields: seq<Field>, entries: seq<V.Binding>, found: seq<V.Value>) {
    |found| == |fields| && forall i | 0 <= i < |fields| :: exists k: nat :: HasKey(entries, fields[i].key, k, found[i])
  }

  function Together(parts: seq<seq<Bind>>): seq<Bind> {
    if parts == [] then [] else Together(parts[..|parts| - 1]) + parts[|parts| - 1]
  }

  /** A record pattern looks its keys up and matches what it finds, in order. */
  lemma {:induction false} RecordFits(
    fields: seq<Field>, entries: seq<V.Binding>, found: seq<V.Value>, parts: seq<seq<Bind>>)
    requires Holds(fields, entries, found) && |parts| == |fields|
    requires forall i | 0 <= i < |fields| :: Match(fields[i].pattern, found[i]) == Some(parts[i])
    ensures Match(Record(fields), V.Map(entries)) == Some(Together(parts))
  {
    FieldsFit(fields, entries, found, parts, |fields|);
    assert parts[..|fields|] == parts;
  }

  lemma {:induction false} FieldsFit(
    fields: seq<Field>, entries: seq<V.Binding>, found: seq<V.Value>, parts: seq<seq<Bind>>, n: nat)
    requires Holds(fields, entries, found) && |parts| == |fields| && n <= |fields|
    requires forall i | 0 <= i < |fields| :: Match(fields[i].pattern, found[i]) == Some(parts[i])
    ensures MatchFields(fields, entries, n) == Some(Together(parts[..n]))
    decreases n
  {
    hide Match;
    if n > 0 {
      FieldsFit(fields, entries, found, parts, n - 1);
      assert parts[..n][..n - 1] == parts[..n - 1];
      var k: nat :| HasKey(entries, fields[n - 1].key, k, found[n - 1]);
      KeyFound(entries, fields[n - 1].key, k, found[n - 1]);
    }
  }

  /** It fails on other values, without one of the keys, and when something it finds does not fit. */
  lemma RecordFails(fields: seq<Field>, v: V.Value, i: nat)
    requires i < |fields|
    requires !v.Map? || (forall j | 0 <= j < |v.entries| :: v.entries[j].key != V.Keyword(None, fields[i].key)) ||
             exists k: nat, w :: HasKey(v.entries, fields[i].key, k, w) && Match(fields[i].pattern, w).None?
    ensures Match(Record(fields), v) == None
  {
    hide Match;
    if v.Map? {
      if forall j | 0 <= j < |v.entries| :: v.entries[j].key != V.Keyword(None, fields[i].key) {
        KeyMissing(v.entries, fields[i].key);
      } else {
        var k: nat, w :| HasKey(v.entries, fields[i].key, k, w) && Match(fields[i].pattern, w).None?;
        KeyFound(v.entries, fields[i].key, k, w);
      }
      MatchFieldsFails(fields, v.entries, i + 1);
    }
    RecordStep(fields, v);
  }

  lemma RecordStep(fields: seq<Field>, v: V.Value)
    ensures Match(Record(fields), v) == if v.Map? then MatchFields(fields, v.entries, |fields|) else None
  {
  }

  /** The first alternative that fits decides. */
  lemma AlternativeFits(ps: seq<Pattern>, v: V.Value, i: nat)
    requires i <= |ps| && forall j | 0 <= j < i :: Match(ps[j], v).None?
    ensures i < |ps| && Match(ps[i], v).Some? ==> Match(Or(ps), v) == Match(ps[i], v)
    ensures i == |ps| ==> Match(Or(ps), v) == None
  {
    hide Match;
    AlternativesFrom(ps, v, 0, i);
    OrStep(ps, v);
  }

  lemma OrStep(ps: seq<Pattern>, v: V.Value)
    ensures Match(Or(ps), v) == FirstMatch(ps, v, 0)
  {
  }

  lemma {:induction false} AlternativesFrom(ps: seq<Pattern>, v: V.Value, from: nat, i: nat)
    requires from <= i <= |ps| && forall j | 0 <= j < i :: Match(ps[j], v).None?
    ensures FirstMatch(ps, v, from) == FirstMatch(ps, v, i)
    decreases i - from
  {
    hide Match;
    if from < i { AlternativesFrom(ps, v, from + 1, i); }
  }
}
