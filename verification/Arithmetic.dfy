/** Variadic `+`, `-`, `*` and `range` (crates/nexl-eval/src/stdlib.rs) on 64-bit integers. */
module Arithmetic {
  import opened Basics
  import opened Values

  datatype ArithError =
    | TypeMismatch(op: string, expected: string, got: Value)
    | NoArguments
    | ZeroStep
    | TooLarge
    | BadArguments
    | Overflow

  type Outcome = Result<Value, ArithError>

  /** Float addition, subtraction, negation and multiplication on opaque floats. */
  datatype FloatOps = FloatOps(
    zero: string, one: string, add: (string, string) -> string, sub: (string, string) -> string,
    neg: string -> string, mul: (string, string) -> string)

  predicate AllInts(args: seq<Value>) {
    forall i | 0 <= i < |args| :: args[i].Int?
  }

  function Sum(args: seq<Value>): int
    requires AllInts(args)
  {
    if args == [] then 0 else Sum(args[..|args| - 1]) + args[|args| - 1].i
  }

  function Product(args: seq<Value>): int
    requires AllInts(args)
  {
    if args == [] then 1 else Product(args[..|args| - 1]) * args[|args| - 1].i
  }

  /** The first argument from `k` on that is not an integer (not a float), as an error of `op`. */
  function Mismatch(op: string, expected: string, args: seq<Value>, k: nat): Option<ArithError>
    requires k <= |args|
    decreases |args| - k
  {
    if k == |args| then None
    else if (if expected == "Int" then args[k].Int? else args[k].Float?) then Mismatch(op, expected, args, k + 1)
    else Some(TypeMismatch(op, expected, args[k]))
  }

  function FoldFloats(f: (string, string) -> string, acc: string, args: seq<Value>): string
    requires forall i | 0 <= i < |args| :: args[i].Float?
  {
    if args == [] then acc else f(FoldFloats(f, acc, args[..|args| - 1]), args[|args| - 1].digits)
  }

  /** Floats are taken in from the left. */
  lemma {:induction false} FloatsFromLeft(f: (string, string) -> string, acc: string, args: seq<Value>)
    requires forall i | 0 <= i < |args| :: args[i].Float?
    ensures FoldFloats(f, acc, args) ==
            if args == [] then acc else FoldFloats(f, f(acc, args[0].digits), args[1..])
  {
    if |args| > 1 {
      var last := |args| - 1;
      FloatsFromLeft(f, acc, args[..last]);
      assert args[..last][1..] == args[1..][..last - 1];
    }
  }

  lemma {:induction false} MismatchNone(op: string, expected: string, args: seq<Value>, k: nat)
    requires k <= |args|
    ensures Mismatch(op, expected, args, k).None? <==>
            forall i | k <= i < |args| :: if expected == "Int" then args[i].Int? else args[i].Float?
    decreases |args| - k
  {
    if k < |args| { MismatchNone(op, expected, args, k + 1); }
  }

  /** What sums and products of integers are: of one argument itself, of two lists those of both. */
  lemma {:induction false} SumOfBoth(a: seq<Value>, b: seq<Value>)
    requires AllInts(a) && AllInts(b)
    ensures Sum(a + b) == Sum(a) + Sum(b) && (|a| == 1 ==> Sum(a) == a[0].i) && (a == [] ==> Sum(a) == 0)
    decreases |b|
  {
    if |a| == 1 { assert a[..0] == []; }
    if b == [] {
      assert a + b == a;
    } else {
      assert (a + b)[..|a + b| - 1] == a + b[..|b| - 1];
      SumOfBoth(a, b[..|b| - 1]);
    }
  }

  lemma {:induction false} ProductOfBoth(a: seq<Value>, b: seq<Value>)
    requires AllInts(a) && AllInts(b)
    ensures Product(a + b) == Product(a) * Product(b) && (|a| == 1 ==> Product(a) == a[0].i) &&
            (a == [] ==> Product(a) == 1)
    decreases |b|
  {
    if |a| == 1 { assert a[..0] == []; }
    if b == [] {
      assert a + b == a;
    } else {
      var init, x := b[..|b| - 1], b[|b| - 1].i;
      assert (a + b)[..|a + b| - 1] == a + init;
      ProductOfBoth(a, init);
      assert Product(a) * Product(init) * x == Product(a) * (Product(init) * x);
    }
  }

  // ---------------------------------------------------------------------------------------------
  // Wrapping
  // ---------------------------------------------------------------------------------------------

  predicate Congruent(a: int, b: int) {
    (a - b) % TWO_64 == 0
  }

  lemma CongruentIf(a: int, b: int, k: int)
    requires a == b + k * TWO_64
    ensures Congruent(a, b)
  {
    assert a - b == k * TWO_64;
  }

  lemma WrapCongruent(x: int)
    ensures Congruent(Wrap(x), x)
  {
    var q := (x + I64_LIMIT) / TWO_64;
    assert x + I64_LIMIT == q * TWO_64 + (x + I64_LIMIT) % TWO_64;
    CongruentIf(Wrap(x), x, -q);
  }

  /** `Wrap(x)` is the only 64-bit integer congruent to `x`. */
  lemma WrapUnique(x: int, y: i64)
    ensures y == Wrap(x) <==> Congruent(y, x)
  {
    WrapCongruent(x);
    if Congruent(y, x) {
      var a, b := (y - x) / TWO_64, (Wrap(x) - x) / TWO_64;
      assert y - x == a * TWO_64 && Wrap(x) - x == b * TWO_64;
      assert y - Wrap(x) == (a - b) * TWO_64;
    }
  }

  lemma CongruentAdd(a: int, b: int, n: int)
    requires Congruent(a, b)
    ensures Congruent(a + n, b + n)
  {
    assert (a + n) - (b + n) == a - b;
  }

  lemma CongruentMul(a: int, b: int, n: int)
    requires Congruent(a, b)
    ensures Congruent(a * n, b * n)
  {
    var k := (a - b) / TWO_64;
    assert a == b + k * TWO_64;
    assert a * n == b * n + (k * n) * TWO_64;
    CongruentIf(a * n, b * n, k * n);
  }

  lemma CongruentTrans(a: int, b: int, c: int)
    requires Congruent(a, b) && Congruent(b, c)
    ensures Congruent(a, c)
  {
    var j, k := (a - b) / TWO_64, (b - c) / TWO_64;
    assert a == c + (j + k) * TWO_64;
    CongruentIf(a, c, j + k);
  }

  /** `wrapping_add`, `wrapping_sub` and `wrapping_mul` on a wrapped accumulator. */
  lemma WrapStep(acc: int, n: int)
    ensures Wrap(Wrap(acc) + n) == Wrap(acc + n) && Wrap(Wrap(acc) - n) == Wrap(acc - n)
    ensures Wrap(Wrap(acc) * n) == Wrap(acc * n)
  {
    WrapCongruent(acc);
    CongruentAdd(Wrap(acc), acc, n);
    CongruentAdd(Wrap(acc), acc, -n);
    CongruentMul(Wrap(acc), acc, n);
    forall x, y | Congruent(x, y)
      ensures Wrap(x) == Wrap(y)
    {
      WrapCongruent(x);
      CongruentTrans(Wrap(x), x, y);
      WrapUnique(y, Wrap(x));
    }
  }

  // ---------------------------------------------------------------------------------------------
  // + - *
  // ---------------------------------------------------------------------------------------------

  method Add(args: seq<Value>, floats: FloatOps) returns (r: Outcome)
    ensures AllInts(args) ==> r == Ok(Int(Wrap(Sum(args))))
    ensures !AllInts(args) && args[0].Int? ==> r.Err? && Mismatch("+", "Int", args, 0) == Some(r.error)
    ensures args != [] && args[0].Float? ==>
              match Mismatch("+", "Float", args, 0)
              case Some(e) => r == Err(e)
              case None => (forall i | 0 <= i < |args| :: args[i].Float?) &&
                           r == Ok(Float(FoldFloats(floats.add, floats.zero, args)))
    ensures args != [] && !args[0].Int? && !args[0].Float? ==> r == Err(TypeMismatch("+", "Int or Float", args[0]))
  {
    hide Wrap;
    MismatchNone("+", "Int", args, 0);
    MismatchNone("+", "Float", args, 0);
    if args == [] {
      SmallWraps();
      return Ok(Int(0));
    }
    match args[0]
    case Int(_) =>
      SmallWraps();
      var acc: i64 := 0;
      for i := 0 to |args|
        invariant AllInts(args[..i]) && acc == Wrap(Sum(args[..i]))
        invariant Mismatch("+", "Int", args, 0) == Mismatch("+", "Int", args, i)
      {
        assert args[..i + 1][..i] == args[..i];
        if !args[i].Int? {
          return Err(TypeMismatch("+", "Int", args[i]));
        }
        WrapStep(Sum(args[..i]), args[i].i);
        acc := Wrap(acc + args[i].i);
      }
      assert args[..|args|] == args;
      r := Ok(Int(acc));
    case Float(_) => r := FoldFloatArgs("+", floats.add, floats.zero, args);
    case other => r := Err(TypeMismatch("+", "Int or Float", other));
  }

  method FoldFloatArgs(op: string, f: (string, string) -> string, start: string, args: seq<Value>) returns (r: Outcome)
    ensures match Mismatch(op, "Float", args, 0)
            case Some(e) => r == Err(e)
            case None => (forall i | 0 <= i < |args| :: args[i].Float?) && r == Ok(Float(FoldFloats(f, start, args)))
  {
    var acc := start;
    for i := 0 to |args|
      invariant forall j | 0 <= j < i :: args[j].Float?
      invariant acc == FoldFloats(f, start, args[..i])
      invariant Mismatch(op, "Float", args, 0) == Mismatch(op, "Float", args, i)
    {
      assert args[..i + 1][..i] == args[..i];
      if !args[i].Float? {
        return Err(TypeMismatch(op, "Float", args[i]));
      }
      acc := f(acc, args[i].digits);
    }
    assert args[..|args|] == args;
    r := Ok(Float(acc));
  }

  lemma SmallWraps()
    ensures Wrap(0) == 0 && Wrap(1) == 1
  {
  }

  lemma WrapSmall(x: i64)
    ensures Wrap(x) == x
  {
    assert Congruent(x, x);
    WrapUnique(x, x);
  }

  method Mul(args: seq<Value>, floats: FloatOps) returns (r: Outcome)
    ensures AllInts(args) ==> r == Ok(Int(Wrap(Product(args))))
    ensures !AllInts(args) && args[0].Int? ==> r.Err? && Mismatch("*", "Int", args, 0) == Some(r.error)
    ensures args != [] && args[0].Float? ==>
              match Mismatch("*", "Float", args, 0)
              case Some(e) => r == Err(e)
              case None => (forall i | 0 <= i < |args| :: args[i].Float?) &&
                           r == Ok(Float(FoldFloats(floats.mul, floats.one, args)))
    ensures args != [] && !args[0].Int? && !args[0].Float? ==> r == Err(TypeMismatch("*", "Int or Float", args[0]))
  {
    hide Wrap;
    MismatchNone("*", "Int", args, 0);
    MismatchNone("*", "Float", args, 0);
    SmallWraps();
    if args == [] {
      return Ok(Int(1));
    }
    match args[0]
    case Int(_) =>
      var acc: i64 := 1;
      for i := 0 to |args|
        invariant AllInts(args[..i]) && acc == Wrap(Product(args[..i]))
        invariant Mismatch("*", "Int", args, 0) == Mismatch("*", "Int", args, i)
      {
        assert args[..i + 1][..i] == args[..i];
        if !args[i].Int? {
          return Err(TypeMismatch("*", "Int", args[i]));
        }
        WrapStep(Product(args[..i]), args[i].i);
        acc := Wrap(acc * args[i].i);
      }
      assert args[..|args|] == args;
      r := Ok(Int(acc));
    case Float(_) => r := FoldFloatArgs("*", floats.mul, floats.one, args);
    case other => r := Err(TypeMismatch("*", "Int or Float", other));
  }

  /** `-x`, or the first argument minus the sum of the others. */
  function Difference(args: seq<Value>): int
    requires args != [] && AllInts(args)
  {
    if |args| == 1 then 0 - args[0].i else args[0].i - Sum(args[1..])
  }

  method Sub(args: seq<Value>, floats: FloatOps) returns (r: Outcome)
    ensures args == [] ==> r == Err(NoArguments)
    ensures args != [] && AllInts(args) ==> r == Ok(Int(Wrap(Difference(args))))
    ensures args != [] && args[0].Int? && !AllInts(args) ==> r.Err? && Mismatch("-", "Int", args, 1) == Some(r.error)
    ensures args != [] && args[0].Float? ==>
              if |args| == 1 then r == Ok(Float(floats.neg(args[0].digits)))
              else
                match Mismatch("-", "Float", args[1..], 0)
                case Some(e) => r == Err(e)
                case None => (forall i | 0 <= i < |args[1..]| :: args[1..][i].Float?) &&
                             r == Ok(Float(FoldFloats(floats.sub, args[0].digits, args[1..])))
    ensures args != [] && !args[0].Int? && !args[0].Float? ==> r == Err(TypeMismatch("-", "Int or Float", args[0]))
  {
    hide Wrap;
    if args == [] {
      return Err(NoArguments);
    }
    MismatchNone("-", "Int", args, 1);
    match args[0]
    case Int(first) =>
      if |args| == 1 {
        return Ok(Int(Wrap(0 - first)));
      }
      var acc: i64 := first;
      WrapSmall(first);
      assert args[1..1] == [];
      for i := 1 to |args|
        invariant AllInts(args[1..i]) && acc == Wrap(first - Sum(args[1..i]))
        invariant Mismatch("-", "Int", args, 1) == Mismatch("-", "Int", args, i)
      {
        assert args[1..i + 1][..i - 1] == args[1..i];
        if !args[i].Int? {
          return Err(TypeMismatch("-", "Int", args[i]));
        }
        WrapStep(first - Sum(args[1..i]), args[i].i);
        acc := Wrap(acc - args[i].i);
      }
      assert args[1..|args|] == args[1..];
      r := Ok(Int(acc));
    case Float(first) =>
      if |args| == 1 {
        return Ok(Float(floats.neg(first)));
      }
      r := FoldFloatArgs("-", floats.sub, first, args[1..]);
    case other => r := Err(TypeMismatch("-", "Int or Float", other));
  }

  lemma {:induction false} SumRemove(args: seq<Value>, i: nat)
    requires AllInts(args) && i < |args|
    ensures Sum(args) == Sum(args[..i] + args[i + 1..]) + args[i].i
    ensures Product(args) == Product(args[..i] + args[i + 1..]) * args[i].i
  {
    var last := |args| - 1;
    if i < last {
      var shorter := args[..i] + args[i + 1..];
      assert shorter[..|shorter| - 1] == args[..last][..i] + args[..last][i + 1..];
      SumRemove(args[..last], i);
      var p, x, y := Product(args[..last][..i] + args[..last][i + 1..]), args[i].i, args[last].i;
      assert (p * x) * y == (p * y) * x;
    } else {
      assert args[..i] + args[i + 1..] == args[..i];
    }
  }

  /** `+` and `*` do not depend on the order of their arguments. */
  lemma {:induction false} PermutationInvariant(a: seq<Value>, b: seq<Value>)
    requires AllInts(a) && AllInts(b) && multiset(a) == multiset(b)
    ensures Sum(a) == Sum(b) && Product(a) == Product(b)
    decreases |a|
  {
    hide Sum, Product;
    EmptyFolds();
    if a == [] {
      assert |multiset(b)| == 0;
    } else {
      var x := a[|a| - 1];
      assert a == a[..|a| - 1] + [x];
      assert x in multiset(b);
      var i :| 0 <= i < |b| && b[i] == x;
      SumRemove(b, i);
      SumRemove(a, |a| - 1);
      assert a[..|a| - 1] + a[|a| - 1 + 1..] == a[..|a| - 1];
      RemoveFromMultiset(b, i);
      PermutationInvariant(a[..|a| - 1], b[..i] + b[i + 1..]);
    }
  }

  lemma EmptyFolds()
    ensures Sum([]) == 0 && Product([]) == 1
  {
  }

  lemma RemoveFromMultiset(s: seq<Value>, i: nat)
    requires i < |s|
    ensures multiset(s[..i] + s[i + 1..]) == multiset(s) - multiset{s[i]}
  {
    assert s == s[..i] + [s[i]] + s[i + 1..];
  }

  // ---------------------------------------------------------------------------------------------
  // range
  // ---------------------------------------------------------------------------------------------

  const RANGE_MAX := 10_000_000

  /** How many terms `start`, `start + step`, ... lie before `end`. */
  function TermCount(start: int, end: int, step: int): nat
    requires step != 0
  {
    var span, stride := if step > 0 then end - start else start - end, if step > 0 then step else -step;
    if span <= 0 then 0 else (span + stride - 1) / stride
  }

  /** Rounding up: `k` is below the quotient when `k` strides do not reach the span. */
  lemma CeilingDivision(span: int, stride: int, k: nat)
    requires span > 0 && stride > 0
    ensures k < (span + stride - 1) / stride <==> k * stride < span
  {
    var c, rem := (span + stride - 1) / stride, (span + stride - 1) % stride;
    assert span + stride - 1 == c * stride + rem;
    if k < c { Multiples(k + 1, c, stride); } else { Multiples(c, k, stride); }
    assert (k + 1) * stride == k * stride + stride;
  }

  lemma Multiples(a: int, b: int, stride: int)
    requires a <= b && stride >= 0
    ensures a * stride <= b * stride
  {
  }

  lemma TermsBefore(start: int, end: int, step: int, k: nat)
    requires step != 0
    ensures k < TermCount(start, end, step) <==>
            if step > 0 then Term(start, step, k) < end else Term(start, step, k) > end
  {
    var span, stride := if step > 0 then end - start else start - end, if step > 0 then step else -step;
    Multiples(0, k, stride);
    if step < 0 { assert k * step == -(k * stride); }
    if span > 0 { CeilingDivision(span, stride, k); }
  }

  function Term(start: int, step: int, k: nat): int {
    start + k * step
  }

  lemma NextTerm(start: int, step: int, k: nat)
    ensures Term(start, step, 0) == start && Term(start, step, k + 1) == Term(start, step, k) + step
  {
    assert (k + 1) * step == k * step + step;
  }

  function Terms(start: int, step: int, count: nat): (values: seq<int>)
    ensures |values| == count && forall k | 0 <= k < count :: values[k] == Term(start, step, k)
  {
    seq(count, k requires 0 <= k < count => Term(start, step, k))
  }

  /** The terms of a range; `None` if there are more than `RANGE_MAX` or the step is zero. */
  function RangeTerms(start: int, end: int, step: int): Option<seq<int>> {
    if step == 0 || TermCount(start, end, step) > RANGE_MAX then None
    else Some(Terms(start, step, TermCount(start, end, step)))
  }

  /** The counter of the loop stays a 64-bit integer: it is advanced once per term, at most `RANGE_MAX` times. */
  predicate CounterFits(start: int, end: int, step: int)
    requires step != 0
  {
    var last := Term(start, step, Min(TermCount(start, end, step), RANGE_MAX));
    -I64_LIMIT <= last < I64_LIMIT
  }

  predicate IsIntVec(v: Value, terms: seq<int>) {
    v.Vec? && |v.items| == |terms| && forall k | 0 <= k < |terms| :: v.items[k].Int? && v.items[k].i == terms[k]
  }

  /** The result of `range` on given bounds. */
  predicate RangeResult(r: Outcome, start: int, end: int, step: int) {
    if step != 0 && !CounterFits(start, end, step) then r == Err(Overflow)
    else
      match RangeTerms(start, end, step)
      case None => r.Err? && r != Err(Overflow)
      case Some(terms) => r.Ok? && IsIntVec(r.value, terms)
  }

  method Range(args: seq<Value>) returns (r: Outcome)
    ensures |args| == 1 && AllInts(args) ==> RangeResult(r, 0, args[0].i, 1)
    ensures |args| == 2 && AllInts(args) ==> RangeResult(r, args[0].i, args[1].i, 1)
    ensures |args| == 3 && AllInts(args) ==> RangeResult(r, args[0].i, args[1].i, args[2].i)
    ensures !(1 <= |args| <= 3 && AllInts(args)) ==> r == Err(BadArguments)
  {
    if |args| == 1 && args[0].Int? {
      var n := args[0].i;
      if n > RANGE_MAX {
        return Err(TooLarge);
      }
      r := Ok(Vec(Between(0, n)));
    } else if |args| == 2 && args[0].Int? && args[1].Int? {
      var start, end := args[0].i, args[1].i;
      var count := if SaturatingSub(end, start) > 0 then SaturatingSub(end, start) else 0;
      if count > RANGE_MAX {
        return Err(TooLarge);
      }
      r := Ok(Vec(Between(start, end)));
    } else if |args| == 3 && args[0].Int? && args[1].Int? && args[2].Int? {
      r := RangeByStep(args[0].i, args[1].i, args[2].i);
    } else {
      r := Err(BadArguments);
    }
  }

  /** `i64::saturating_sub`. */
  function SaturatingSub(a: i64, b: i64): i64 {
    if a - b >= I64_LIMIT then I64_LIMIT - 1 else if a - b < -I64_LIMIT then -I64_LIMIT else a - b
  }

  /** `(lo..hi).map(Value::Int).collect()`. */
  function Between(lo: i64, hi: i64): (items: seq<Value>)
    ensures |items| == (if lo < hi then hi - lo else 0)
    ensures forall k | 0 <= k < |items| :: items[k] == Int(lo + k)
  {
    seq(if lo < hi then hi - lo else 0, k requires 0 <= k < (if lo < hi then hi - lo else 0) => Int(lo + k))
  }

  method RangeByStep(start: i64, end: i64, step: i64) returns (r: Outcome)
    ensures RangeResult(r, start, end, step)
  {
    if step == 0 {
      return Err(ZeroStep);
    }
    hide Term, TermCount, CounterFits;
    ghost var count := TermCount(start, end, step);
    var items: seq<Value> := [];
    var i: i64 := start;
    TermsBefore(start, end, step, 0);
    NextTerm(start, step, 0);
    while if step > 0 then i < end else i > end
      invariant i == Term(start, step, |items|)
      invariant |items| <= count && |items| <= RANGE_MAX
      invariant |items| < count <==> if step > 0 then i < end else i > end
      invariant forall k | 0 <= k < |items| :: items[k].Int? && items[k].i == Term(start, step, k)
      decreases count - |items|
    {
      if |items| >= RANGE_MAX {
        return Err(TooLarge);
      }
      CounterInRange(start, end, step, |items| + 1);
      TermsBefore(start, end, step, |items| + 1);
      NextTerm(start, step, |items|);
      if !(-I64_LIMIT <= i + step < I64_LIMIT) {
        return Err(Overflow);
      }
      items := items + [Int(i)];
      i := i + step;
    }
    r := Ok(Vec(items));
  }

  lemma CounterInRange(start: i64, end: i64, step: int, k: nat)
    requires step != 0 && k <= Min(TermCount(start, end, step), RANGE_MAX)
    ensures CounterFits(start, end, step) ==> -I64_LIMIT <= Term(start, step, k) < I64_LIMIT
  {
    var m := Min(TermCount(start, end, step), RANGE_MAX);
    if step > 0 {
      assert 0 <= k * step <= m * step;
    } else {
      assert m * step <= k * step <= 0;
    }
  }

  /** One, two and three arguments agree, and the counter of the shorter forms always fits. */
  lemma RangeFormsAgree(n: i64, start: i64, end: i64)
    ensures RangeTerms(0, n, 1) == if n > RANGE_MAX then None else Some(Terms(0, 1, if n > 0 then n else 0))
    ensures CounterFits(start, end, 1)
    ensures RangeTerms(start, end, 1).None? <==> end - start > RANGE_MAX
  {
    assert TermCount(start, end, 1) == if end > start then end - start else 0;
  }
}
