/** Environments (crates/nexl-eval/src/lib.rs, `Env`): a chain of frames, innermost last. */
module Scopes {
  import opened Basics
  import opened Patterns
  import V = Values

  type Frame = map<string, V.Value>

  type Chain = seq<Frame>

  /** `Env::get`: the nearest frame that has the name. */
  function Lookup(env: Chain, name: string): Option<V.Value> {
    if env == [] then None
    else
      var inner := env[|env| - 1];
      if name in inner then Some(inner[name]) else Lookup(env[..|env| - 1], name)
  }

  /** `Env::define`: always in the innermost frame. */
  function Define(env: Chain, name: string, value: V.Value): (r: Chain)
    requires env != []
    ensures |r| == |env| && Pop(r) == Pop(env)
  {
    env[|env| - 1 := env[|env| - 1][name := value]]
  }

  /** `Env::set`: in the nearest frame that has the name. */
  function Assign(env: Chain, name: string, value: V.Value): (r: Option<Chain>)
    ensures r.Some? ==> |r.value| == |env|
  {
    if env == [] then None
    else
      var outer, inner := env[..|env| - 1], env[|env| - 1];
      if name in inner then Some(outer + [inner[name := value]])
      else
        match Assign(outer, name, value)
        case None => None
        case Some(changed) => Some(changed + [inner])
  }

  /** `Env::capture_closure`: everything visible, nearest wins. */
  function Flatten(env: Chain): Frame {
    if env == [] then map[] else Flatten(env[..|env| - 1]) + env[|env| - 1]
  }

  function Push(env: Chain, frame: Frame): (r: Chain)
    ensures |r| == |env| + 1 && Pop(r) == env
  {
    env + [frame]
  }

  function Pop(env: Chain): (r: Chain)
    requires env != []
    ensures |r| == |env| - 1
  {
    env[..|env| - 1]
  }

  function BindAll(frame: Frame, bs: seq<Bind>): Frame {
    if bs == [] then frame else BindAll(frame, bs[..|bs| - 1])[bs[|bs| - 1].name := bs[|bs| - 1].value]
  }

  function DefineAll(env: Chain, bs: seq<Bind>): (r: Chain)
    requires env != []
    ensures |r| == |env| && Pop(r) == Pop(env)
  {
    env[|env| - 1 := BindAll(env[|env| - 1], bs)]
  }

  /** Names paired with values; `zip` stops at the shorter list. */
  function Zip(names: seq<string>, values: seq<V.Value>): (bs: seq<Bind>)
    ensures |bs| == Min(|names|, |values|)
  {
    seq(Min(|names|, |values|), i requires 0 <= i < Min(|names|, |values|) => Bind(names[i], values[i]))
  }

  // ---------------------------------------------------------------------------------------------
  // Chains that cannot be told apart
  // ---------------------------------------------------------------------------------------------

  /** Equal lowest `n` and topmost `m` frames, and the same names and values visible in the frames between. */
  ghost predicate Similar(a: Chain, b: Chain, n: nat, m: nat) {
    n + m <= |a| && n + m <= |b| && a[..n] == b[..n] && Flatten(a[n..|a| - m]) == Flatten(b[n..|b| - m]) &&
    a[|a| - m..] == b[|b| - m..]
  }

  lemma {:induction false} LookupFlatten(env: Chain, name: string)
    ensures Lookup(env, name) == if name in Flatten(env) then Some(Flatten(env)[name]) else None
  {
    if env != [] { LookupFlatten(env[..|env| - 1], name); }
  }

  lemma {:induction false} FlattenConcat(a: Chain, b: Chain)
    ensures Flatten(a + b) == Flatten(a) + Flatten(b)
    decreases |b|
  {
    if b == [] {
      assert a + b == a;
    } else {
      var rest := b[..|b| - 1];
      FlattenConcat(a, rest);
      assert (a + b)[..|a + b| - 1] == a + rest;
      assert (a + b)[|a + b| - 1] == b[|b| - 1];
      MergeAssociates(Flatten(a), Flatten(rest), b[|b| - 1]);
    }
  }

  lemma MergeAssociates(a: Frame, b: Frame, c: Frame)
    ensures (a + b) + c == a + (b + c)
  {
  }

  lemma Split(a: Chain, n: nat, m: nat)
    requires n + m <= |a|
    ensures a == a[..n] + a[n..|a| - m] + a[|a| - m..]
  {
  }

  lemma SimilarParts(low: Chain, midA: Chain, midB: Chain, top: Chain)
    requires Flatten(midA) == Flatten(midB)
    ensures Similar(low + midA + top, low + midB + top, |low|, |top|)
  {
    hide Flatten;
    Parts(low, midA, top);
    Parts(low, midB, top);
  }

  lemma Parts(low: Chain, mid: Chain, top: Chain)
    ensures var a := low + mid + top;
            a[..|low|] == low && a[|low|..|a| - |top|] == mid && a[|a| - |top|..] == top
  {
  }

  /** Similar chains have the same flattening, hence the same lookups and the same captures. */
  lemma SimilarFlatten(a: Chain, b: Chain, n: nat, m: nat)
    requires Similar(a, b, n, m)
    ensures Flatten(a) == Flatten(b)
  {
    hide Flatten;
    Split(a, n, m);
    Split(b, n, m);
    FlattenConcat(a[..n] + a[n..|a| - m], a[|a| - m..]);
    FlattenConcat(a[..n], a[n..|a| - m]);
    FlattenConcat(b[..n] + b[n..|b| - m], b[|b| - m..]);
    FlattenConcat(b[..n], b[n..|b| - m]);
  }

  lemma SimilarLookup(a: Chain, b: Chain, n: nat, m: nat, name: string)
    requires Similar(a, b, n, m)
    ensures Lookup(a, name) == Lookup(b, name)
  {
    hide Flatten, Similar;
    SimilarFlatten(a, b, n, m);
    LookupFlatten(a, name);
    LookupFlatten(b, name);
  }

  lemma FlattenLast(env: Chain, frame: Frame)
    requires env != []
    ensures Flatten(env[|env| - 1 := frame]) == Flatten(env[..|env| - 1]) + frame
  {
    assert env[|env| - 1 := frame][..|env| - 1] == env[..|env| - 1];
  }

  lemma {:induction false} BindAllMerge(outer: Frame, inner: Frame, bs: seq<Bind>)
    ensures BindAll(outer + inner, bs) == outer + BindAll(inner, bs)
    decreases |bs|
  {
    if bs != [] { BindAllMerge(outer, inner, bs[..|bs| - 1]); }
  }

  lemma FlattenDefineAll(env: Chain, bs: seq<Bind>)
    requires env != []
    ensures Flatten(DefineAll(env, bs)) == BindAll(Flatten(env), bs)
  {
    FlattenLast(env, BindAll(env[|env| - 1], bs));
    BindAllMerge(Flatten(env[..|env| - 1]), env[|env| - 1], bs);
  }

  lemma DefineAllAbove(low: Chain, high: Chain, bs: seq<Bind>)
    requires high != []
    ensures DefineAll(low + high, bs) == low + DefineAll(high, bs)
  {
  }

  /** Defining the same names keeps chains similar, unless one of them has no frame of its own to define them in. */
  lemma SimilarDefineAll(a: Chain, b: Chain, n: nat, m: nat, bs: seq<Bind>)
    requires Similar(a, b, n, m) && n < |a| && n < |b|
    ensures Similar(DefineAll(a, bs), DefineAll(b, bs), n, m)
  {
    var low, midA, midB, top := a[..n], a[n..|a| - m], b[n..|b| - m], a[|a| - m..];
    Split(a, n, m);
    Split(b, n, m);
    hide Flatten, Similar, DefineAll;
    if m == 0 {
      DefineAllAbove(low, midA, bs);
      DefineAllAbove(low, midB, bs);
      FlattenDefineAll(midA, bs);
      FlattenDefineAll(midB, bs);
      NoTop(low + midA);
      NoTop(low + midB);
      NoTop(low + DefineAll(midA, bs));
      NoTop(low + DefineAll(midB, bs));
      SimilarParts(low, DefineAll(midA, bs), DefineAll(midB, bs), []);
    } else {
      DefineAllAbove(low + midA, top, bs);
      DefineAllAbove(low + midB, top, bs);
      SimilarParts(low, midA, midB, DefineAll(top, bs));
    }
  }

  lemma NoTop(a: Chain)
    ensures a + [] == a && a[|a|..] == []
  {
  }

  lemma DefineIsDefineAll(env: Chain, name: string, value: V.Value)
    requires env != []
    ensures Define(env, name, value) == DefineAll(env, [Bind(name, value)])
  {
    var b := Bind(name, value);
    assert [b][..0] == [];
    assert BindAll(env[|env| - 1], [b]) == env[|env| - 1][name := value];
  }

  lemma SimilarDefine(a: Chain, b: Chain, n: nat, m: nat, name: string, value: V.Value)
    requires Similar(a, b, n, m) && n < |a| && n < |b|
    ensures Similar(Define(a, name, value), Define(b, name, value), n, m)
  {
    hide Similar;
    DefineIsDefineAll(a, name, value);
    DefineIsDefineAll(b, name, value);
    SimilarDefineAll(a, b, n, m, [Bind(name, value)]);
  }

  lemma SimilarPush(a: Chain, b: Chain, n: nat, m: nat, frame: Frame)
    requires Similar(a, b, n, m)
    ensures Similar(Push(a, frame), Push(b, frame), n, m + 1)
  {
    var low, midA, midB, top := a[..n], a[n..|a| - m], b[n..|b| - m], a[|a| - m..];
    Split(a, n, m);
    Split(b, n, m);
    hide Flatten, Similar;
    assert (low + midA + top) + [frame] == low + midA + (top + [frame]);
    assert (low + midB + top) + [frame] == low + midB + (top + [frame]);
    SimilarParts(low, midA, midB, top + [frame]);
  }

  lemma SimilarPop(a: Chain, b: Chain, n: nat, m: nat)
    requires Similar(a, b, n, m + 1)
    ensures Similar(Pop(a), Pop(b), n, m)
  {
    var low, midA, midB, top := a[..n], a[n..|a| - (m + 1)], b[n..|b| - (m + 1)], a[|a| - (m + 1)..];
    Split(a, n, m + 1);
    Split(b, n, m + 1);
    hide Flatten, Similar;
    assert Pop(low + midA + top) == low + midA + top[..m];
    assert Pop(low + midB + top) == low + midB + top[..m];
    SimilarParts(low, midA, midB, top[..m]);
  }

  lemma {:induction false} AssignConcat(a: Chain, b: Chain, name: string, value: V.Value)
    ensures Assign(a + b, name, value) ==
            match Assign(b, name, value)
            case Some(changed) => Some(a + changed)
            case None =>
              match Assign(a, name, value)
              case Some(changed) => Some(changed + b)
              case None => None
    decreases |b|
  {
    if b == [] {
      assert a + b == a;
      assert Assign(a, name, value).Some? ==> Assign(a, name, value).value + b == Assign(a, name, value).value;
    } else {
      var rest, inner := b[..|b| - 1], b[|b| - 1];
      AssignConcat(a, rest, name, value);
      assert (a + b)[..|a + b| - 1] == a + rest;
      assert (a + b)[|a + b| - 1] == inner;
      assert b == rest + [inner];
      if name in inner {
        assert (a + rest) + [inner[name := value]] == a + (rest + [inner[name := value]]);
      } else if Assign(rest, name, value).Some? {
        var changed := Assign(rest, name, value).value;
        assert (a + changed) + [inner] == a + (changed + [inner]);
      } else if Assign(a, name, value).Some? {
        var changed := Assign(a, name, value).value;
        assert (changed + rest) + [inner] == changed + (rest + [inner]);
      }
    }
  }

  lemma {:induction false} AssignFlatten(env: Chain, name: string, value: V.Value)
    ensures Assign(env, name, value).Some? <==> name in Flatten(env)
    ensures Assign(env, name, value).Some? ==>
              Flatten(Assign(env, name, value).value) == Flatten(env)[name := value]
  {
    if env != [] {
      var outer, inner := env[..|env| - 1], env[|env| - 1];
      AssignFlatten(outer, name, value);
      if name in inner {
        assert (outer + [inner[name := value]])[..|outer|] == outer;
        assert Flatten(outer) + inner[name := value] == (Flatten(outer) + inner)[name := value];
      } else if Assign(outer, name, value).Some? {
        var changed := Assign(outer, name, value).value;
        assert (changed + [inner])[..|changed|] == changed;
        assert Flatten(outer)[name := value] + inner == (Flatten(outer) + inner)[name := value];
      }
    }
  }

  /** What `set!` does to three stacked parts. */
  lemma AssignParts(low: Chain, mid: Chain, top: Chain, name: string, value: V.Value)
    ensures Assign(low + mid + top, name, value) ==
            match Assign(top, name, value)
            case Some(changed) => Some(low + mid + changed)
            case None =>
              match Assign(mid, name, value)
              case Some(changed) => Some(low + changed + top)
              case None =>
                match Assign(low, name, value)
                case Some(changed) => Some(changed + mid + top)
                case None => None
  {
    hide Assign;
    AssignConcat(low + mid, top, name, value);
    AssignConcat(low, mid, name, value);
  }

  lemma SimilarAssign(a: Chain, b: Chain, n: nat, m: nat, name: string, value: V.Value)
    requires Similar(a, b, n, m)
    ensures match Assign(a, name, value)
            case None => Assign(b, name, value).None?
            case Some(changed) => Assign(b, name, value).Some? && Similar(changed, Assign(b, name, value).value, n, m)
  {
    var low, midA, midB, top := a[..n], a[n..|a| - m], b[n..|b| - m], a[|a| - m..];
    Split(a, n, m);
    Split(b, n, m);
    hide Assign, Flatten, Similar;
    AssignParts(low, midA, top, name, value);
    AssignParts(low, midB, top, name, value);
    AssignFlatten(midA, name, value);
    AssignFlatten(midB, name, value);
    match Assign(top, name, value)
    case Some(changed) => SimilarParts(low, midA, midB, changed);
    case None =>
      match Assign(midA, name, value)
      case Some(changed) => SimilarParts(low, changed, Assign(midB, name, value).value, top);
      case None =>
        match Assign(low, name, value)
        case Some(changed) => SimilarParts(changed, midA, midB, top);
        case None =>
  }
}
